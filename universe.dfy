/**
 * The reflection facts the mapping layer reads, as a finite table of raw types.
 * A `TypeId` stands for a `System.Type`; reading an id that the table does not
 * hold yields `MissingType`, which is neither a class, an interface nor a value type.
 */
module Universe {
  import opened Wrappers

  type TypeId = nat

  /** What `IsClass`, `IsInterface` and `IsValueType` report; `OtherKind` is a pointer or by-ref type. */
  datatype Kind = ClassKind | InterfaceKind | ValueKind | OtherKind

  /** A non-public instance field with the mapping attributes found on it. */
  datatype Field = Field(
    name: string,
    fieldType: TypeId,
    declaringType: TypeId,
    isStatic: bool,
    id: bool,                 // [Id]
    version: bool,            // [Version]
    transient: bool,          // [Transient]
    value: Option<string>,    // [Value(expression)]
    autowired: bool,          // [Autowired]
    reference: bool)          // [Reference]

  /**
   * A public constructor: its parameter types, the names a parameter-name
   * discoverer reports for it (None when it reports null), and whether it
   * carries [PersistenceConstructor].
   */
  datatype Constructor = Constructor(
    parameterTypes: seq<TypeId>,
    parameterNames: Option<seq<string>>,
    persistenceConstructor: bool)

  datatype RawType = RawType(
    name: string,
    kind: Kind,
    isArray: bool,
    element: Option<TypeId>,          // GetElementType()
    isGeneric: bool,                  // IsGenericType
    isGenericParameter: bool,
    genericArguments: seq<TypeId>,    // GetGenericArguments()
    baseType: Option<TypeId>,
    interfaces: seq<TypeId>,          // GetInterfaces(): every implemented interface
    fields: seq<Field>,               // GetFields(Instance | NonPublic), declaration order
    constructors: seq<Constructor>,   // GetConstructors()
    isNested: bool,
    valueExpression: Option<string>)  // [Value] on the type

  /**
   * The universe: the raw types, the `IsAssignableFrom` relation as a set of
   * (super, sub) pairs, and two ranks that only serve termination: a base type
   * has a smaller inheritance rank, a generic argument a smaller nesting rank.
   */
  datatype Universe = Universe(
    types: map<TypeId, RawType>,
    assignable: set<(TypeId, TypeId)>,
    inheritanceRank: map<TypeId, nat>,
    nestingRank: map<TypeId, nat>)

  const MissingType: RawType :=
    RawType("", OtherKind, false, None, false, false, [], None, [], [], [], false, None)

  // Well-known types.
  const ObjectType: TypeId := 0
  const StringType: TypeId := 1
  const OpenDictionaryType: TypeId := 2   // typeof(IDictionary<,>)
  const EnumType: TypeId := 3
  const DateTimeType: TypeId := 4
  const BooleanType: TypeId := 5
  const BooleanArrayType: TypeId := 6
  const Int64Type: TypeId := 7
  const Int64ArrayType: TypeId := 8
  const Int16Type: TypeId := 9
  const Int16ArrayType: TypeId := 10
  const Int32Type: TypeId := 11
  const Int32ArrayType: TypeId := 12
  const ByteType: TypeId := 13
  const ByteArrayType: TypeId := 14
  const SingleType: TypeId := 15
  const SingleArrayType: TypeId := 16
  const DoubleType: TypeId := 17
  const DoubleArrayType: TypeId := 18
  const DecimalType: TypeId := 19
  const DecimalArrayType: TypeId := 20
  const CharType: TypeId := 21
  const CharArrayType: TypeId := 22

  /** `typeof(IDictionary<,>).Name` and `typeof(IEnumerable<>).Name`. */
  const DictionaryInterfaceName: string := "IDictionary`2"
  const EnumerableInterfaceName: string := "IEnumerable`1"

  function Raw(u: Universe, t: TypeId): RawType
  {
    if t in u.types then u.types[t] else MissingType
  }

  /** `BaseType`: the base class, if the type has one. */
  function BaseType(u: Universe, t: TypeId): Option<TypeId>
  {
    Raw(u, t).baseType
  }

  function InheritanceRank(u: Universe, t: TypeId): nat
  {
    if t in u.inheritanceRank then u.inheritanceRank[t] else 0
  }

  function NestingRank(u: Universe, t: TypeId): nat
  {
    if t in u.nestingRank then u.nestingRank[t] else 0
  }

  /**
   * What the runtime guarantees about every type: base types rank lower, are
   * never arrays or generic parameters; generic arguments rank lower and are
   * never pointer types; a type is generic exactly when it has arguments; the
   * root class is called "Object".
   */
  ghost predicate WellFormed(u: Universe)
  {
    && (forall t :: BaseType(u, t).Some? ==>
          && InheritanceRank(u, BaseType(u, t).value) < InheritanceRank(u, t)
          && !Raw(u, BaseType(u, t).value).isArray
          && !Raw(u, BaseType(u, t).value).isGenericParameter)
    && (forall t, i :: 0 <= i < |Raw(u, t).genericArguments| ==>
          && NestingRank(u, Raw(u, t).genericArguments[i]) < NestingRank(u, t)
          && Raw(u, Raw(u, t).genericArguments[i]).kind != OtherKind)
    && (forall t :: Raw(u, t).isGeneric <==> |Raw(u, t).genericArguments| > 0)
    && Raw(u, ObjectType).name == "Object"
  }

  /** `super.IsAssignableFrom(sub)`: reflexive, otherwise as the universe says. */
  predicate Assignable(u: Universe, super: TypeId, sub: TypeId)
  {
    super == sub || (super, sub) in u.assignable
  }

  /** `GetInterface(name)`: the first implemented interface with that name. */
  function GetInterface(u: Universe, t: TypeId, name: string): (r: Option<TypeId>)
    ensures r.Some? ==> r.value in Raw(u, t).interfaces && Raw(u, r.value).name == name
    ensures r.None? ==> forall i :: i in Raw(u, t).interfaces ==> Raw(u, i).name != name
  {
    FirstNamed(u, Raw(u, t).interfaces, name)
  }

  function FirstNamed(u: Universe, ts: seq<TypeId>, name: string): (r: Option<TypeId>)
    ensures r.Some? ==> r.value in ts && Raw(u, r.value).name == name
    ensures r.None? ==> forall i :: i in ts ==> Raw(u, i).name != name
  {
    if ts == [] then None
    else if Raw(u, ts[0]).name == name then Some(ts[0])
    else FirstNamed(u, ts[1..], name)
  }

  /** `GetField(name, Instance | NonPublic)` on one type's own table. */
  function GetField(fields: seq<Field>, name: string): (r: Option<Field>)
    ensures r.Some? ==> r.value in fields && r.value.name == name
    ensures r.None? ==> forall f :: f in fields ==> f.name != name
  {
    if fields == [] then None
    else if fields[0].name == name then Some(fields[0])
    else GetField(fields[1..], name)
  }

  /** `s.Contains(sub)`: ordinal substring test. */
  predicate Contains(s: string, sub: string)
  {
    |sub| <= |s| && (s[..|sub|] == sub || Contains(s[1..], sub))
  }
}
