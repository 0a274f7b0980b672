/**
 * `SimpleTypeHolder`: the set of types the mapping layer treats as simple
 * values rather than as entities to be mapped.
 */
module SimpleTypes {
  import opened Universe

  /**
   * The default simple types: bool, long, short, int, byte, float, double,
   * decimal and char with their arrays, String, DateTime and Enum. The CLR
   * aliases (`Boolean`, `Int64`, ...) name the same types and add nothing.
   */
  const Defaults: set<TypeId> := {
    BooleanType, BooleanArrayType, Int64Type, Int64ArrayType, Int16Type, Int16ArrayType,
    Int32Type, Int32ArrayType, ByteType, ByteArrayType, SingleType, SingleArrayType,
    DoubleType, DoubleArrayType, DecimalType, DecimalArrayType, CharType, CharArrayType,
    StringType, DateTimeType, EnumType
  }

  /** A held type makes `t` simple when it is `t` or assignable from `t`; `object` is always simple. */
  predicate IsSimple(u: Universe, types: set<TypeId>, t: TypeId)
  {
    t == ObjectType || exists c :: c in types && (t == c || Assignable(u, c, t))
  }

  class SimpleTypeHolder {
    const simpleTypes: set<TypeId>

    /** `new SimpleTypeHolder()`: exactly the defaults. */
    constructor ()
      ensures simpleTypes == Defaults
    {
      simpleTypes := Defaults;
    }

    /** `new SimpleTypeHolder(custom, registerDefaults)`. */
    constructor WithCustom(custom: set<TypeId>, registerDefaults: bool)
      ensures simpleTypes == custom + (if registerDefaults then Defaults else {})
    {
      var types := custom;
      if registerDefaults {
        types := types + Defaults;
      }
      simpleTypes := types;
    }

    /** `new SimpleTypeHolder(custom, source)`: the custom types and every type `source` holds. */
    constructor Extending(custom: set<TypeId>, source: SimpleTypeHolder)
      ensures simpleTypes == custom + source.simpleTypes
    {
      simpleTypes := custom + source.simpleTypes;
    }

    /** `IsSimpleType`: the search over the held set with early return. */
    method IsSimpleType(u: Universe, t: TypeId) returns (b: bool)
      ensures b == IsSimple(u, simpleTypes, t)
    {
      if t == ObjectType {
        return true;
      }
      var rest := simpleTypes;
      while rest != {}
        invariant rest <= simpleTypes
        invariant forall c :: c in simpleTypes && c !in rest ==> !(t == c || Assignable(u, c, t))
        decreases |rest|
      {
        var c :| c in rest;
        if t == c || Assignable(u, c, t) {
          return true;
        }
        rest := rest - {c};
      }
      return false;
    }
  }

  /** Every type `Enum` is assignable from is simple under the defaults, and so is every default. */
  lemma EnumsAreSimple(u: Universe, t: TypeId)
    requires Assignable(u, EnumType, t) || t in Defaults
    ensures IsSimple(u, Defaults, t)
  {
    if t in Defaults {
      assert t in Defaults && t == t;
    } else {
      assert EnumType in Defaults;
    }
  }

  /** Holding more types never makes a simple type complex. */
  lemma SimpleIsMonotone(u: Universe, a: set<TypeId>, b: set<TypeId>, t: TypeId)
    requires a <= b && IsSimple(u, a, t)
    ensures IsSimple(u, b, t)
  {
    if t != ObjectType {
      var c :| c in a && (t == c || Assignable(u, c, t));
      assert c in b;
    }
  }
}
