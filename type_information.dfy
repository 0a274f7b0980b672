/**
 * Type information: the `TypeDiscoverer` family as values. Each variant is one
 * runtime class of the source; its fields are the fields that class sets in
 * its constructor. Members that the source overrides dispatch on the variant.
 */
module TypeInformation {
  import opened Wrappers
  import opened Universe

  /** The exceptions the resolver can raise. */
  datatype TypeError = ArgumentError | NullReference | IndexOutOfRange | StackOverflow

  /** A type-variable dictionary, kept in insertion order (`SequenceEqual` compares it so). */
  type TypeMap = seq<(TypeId, TypeId)>

  datatype TypeInfo =
    | Plain(rawType: TypeId, dict: TypeMap)                                  // TypeDiscoverer
    | ClassInfo(rawType: TypeId, dict: TypeMap)                              // ClassTypeInformation
    | ArrayInfo(rawType: TypeId, dict: TypeMap, parent: Option<TypeInfo>)    // GenericArrayTypeInformation
    | ParamInfo(rawType: TypeId, parent: Option<TypeInfo>)                   // ParameterizedTypeInformation
    | VarInfo(rawType: TypeId, owningType: TypeId, parent: Option<TypeInfo>) // TypeVariableTypeInformation
  {
    /** Subclasses of `ParentTypeAwareTypeInformation`. */
    predicate IsParentAware()
    {
      ArrayInfo? || ParamInfo? || VarInfo?
    }

    /** The `_typeVariableDictionary` field; parameterized and type-variable infos are built with null, i.e. empty. */
    function OwnDictionary(): TypeMap
    {
      if Plain? || ClassInfo? || ArrayInfo? then dict else []
    }
  }

  /** `new TypeDiscoverer(type, dictionary)`: a null dictionary becomes an empty one. */
  function NewDiscoverer(t: TypeId, dictionary: Option<TypeMap>): (r: TypeInfo)
    ensures r.rawType == t && r.OwnDictionary() == (if dictionary.Some? then dictionary.value else [])
    ensures dictionary.None? ==> forall x :: ResolveType(r, x) == x
  {
    Plain(t, dictionary.GetOr([]))
  }

  /** The value bound to `key`, if any. */
  function Lookup(d: TypeMap, key: TypeId): (r: Option<TypeId>)
    ensures r.Some? <==> exists k :: 0 <= k < |d| && d[k].0 == key
    ensures r.Some? ==> (key, r.value) in d
  {
    if d == [] then None
    else if d[0].0 == key then Some(d[0].1)
    else
      var r := Lookup(d[1..], key);
      assert r.Some? ==> exists k :: 0 <= k < |d| && d[k].0 == key by {
        if r.Some? {
          var k :| 0 <= k < |d[1..]| && d[1..][k].0 == key;
          assert d[k + 1].0 == key;
        }
      }
      r
  }

  /** `ResolveType`: a type bound in the instance's own dictionary is replaced by its binding. */
  function ResolveType(info: TypeInfo, t: TypeId): TypeId
  {
    match Lookup(info.OwnDictionary(), t)
    case Some(bound) => bound
    case None => t
  }

  /** `TypeVariableDictionary`: a parent-aware info with a parent delegates to it. */
  function TypeVariableDictionary(info: TypeInfo): (r: TypeMap)
    ensures !info.IsParentAware() || info.parent.None? ==> r == info.OwnDictionary()
    ensures info.IsParentAware() && info.parent.Some? ==> r == TypeVariableDictionary(info.parent.value)
  {
    if info.IsParentAware() && info.parent.Some? then TypeVariableDictionary(info.parent.value)
    else info.OwnDictionary()
  }

  /** `chain` lists `info`, its parent, the parent's parent and so on, up to an info that does not delegate. */
  ghost predicate ParentChain(info: TypeInfo, chain: seq<TypeInfo>)
  {
    && |chain| > 0
    && chain[0] == info
    && (forall k :: 0 <= k < |chain| - 1 ==>
          chain[k].IsParentAware() && chain[k].parent == Some(chain[k + 1]))
    && (!chain[|chain| - 1].IsParentAware() || chain[|chain| - 1].parent.None?)
  }

  /**
   * Every info along a parent chain answers with the dictionary of the chain's
   * last info: a whole nesting of parent-aware infos shares the root's bindings.
   */
  lemma {:induction false} DictionaryOfChainRoot(info: TypeInfo, chain: seq<TypeInfo>)
    requires ParentChain(info, chain)
    ensures forall k :: 0 <= k < |chain| ==> TypeVariableDictionary(chain[k]) == chain[|chain| - 1].OwnDictionary()
    decreases |chain|
  {
    if |chain| > 1 {
      assert ParentChain(chain[1], chain[1..]);
      DictionaryOfChainRoot(chain[1], chain[1..]);
      assert forall k :: 1 <= k < |chain| ==> chain[k] == chain[1..][k - 1];
    }
  }

  /** The first position of `x` in `s`, or -1. */
  function IndexOf(s: seq<TypeId>, x: TypeId): (r: int)
    ensures -1 <= r < |s|
    ensures r == -1 <==> x !in s
    ensures r >= 0 ==> s[r] == x && x !in s[..r]
  {
    if s == [] then -1
    else if s[0] == x then 0
    else
      var k := IndexOf(s[1..], x);
      if k == -1 then -1
      else
        assert s[..k + 1] == [s[0]] + s[1..][..k];
        k + 1
  }

  /** `TypeVariableTypeInformation.GetIndex`: where the variable sits among the resolved owning type's arguments. */
  function GetIndex(u: Universe, info: TypeInfo): int
    requires info.VarInfo?
  {
    IndexOf(Raw(u, ResolveType(info, info.owningType)).genericArguments, info.rawType)
  }

  /** The search loop of `GetIndex`. */
  method SearchIndex(u: Universe, info: TypeInfo) returns (index: int)
    requires info.VarInfo?
    ensures index == GetIndex(u, info)
    ensures index == -1 || Raw(u, ResolveType(info, info.owningType)).genericArguments[index] == info.rawType
  {
    var arguments := Raw(u, ResolveType(info, info.owningType)).genericArguments;
    var i := 0;
    while i < |arguments|
      invariant 0 <= i <= |arguments|
      invariant info.rawType !in arguments[..i]
    {
      if info.rawType == arguments[i] {
        return i;
      }
      assert arguments[..i + 1] == arguments[..i] + [arguments[i]];
      i := i + 1;
    }
    assert arguments[..i] == arguments;
    return -1;
  }

  /** `Type`: the raw type resolved through the own dictionary; a type variable is bound by its index in the owning type. */
  function Type(u: Universe, info: TypeInfo): TypeId
  {
    if info.VarInfo? then
      var index := GetIndex(u, info);
      assert ResolveType(info, info.owningType) == info.owningType;
      if Raw(u, info.owningType).isGeneric && index != -1
      then ResolveType(info, Raw(u, info.owningType).genericArguments[index])
      else ResolveType(info, info.rawType)
    else ResolveType(info, info.rawType)
  }

  /**
   * `CreateInfo`: the info for a type met while navigating from `self`.
   * A parent-aware info first hands back its parent when the parent resolves
   * to the requested type; then the own raw type gives `self`; otherwise the
   * shape of the requested type picks the kind of info.
   */
  function CreateInfo(u: Universe, self: TypeInfo, fieldType: TypeId): (r: Result<TypeInfo, TypeError>)
    // the cycle-breaking rule
    ensures self.IsParentAware() && self.parent.Some? && Type(u, self.parent.value) == fieldType
            ==> r == Ok(self.parent.value)
    ensures fieldType == self.rawType && !(self.IsParentAware() && self.parent.Some? && Type(u, self.parent.value) == fieldType)
            ==> r == Ok(self)
    // a fresh info describes exactly the requested type
    ensures r.Ok? && r.value != self && !(self.IsParentAware() && self.parent == Some(r.value)) ==>
              && r.value.rawType == fieldType
              && (r.value.ArrayInfo? <==> Raw(u, fieldType).isArray)
              && (r.value.ArrayInfo? ==> r.value.dict == TypeVariableDictionary(self) && r.value.parent == Some(self))
              && (r.value.ParamInfo? ==> Raw(u, fieldType).isGeneric && r.value.parent == Some(self))
              && (r.value.VarInfo? ==> Raw(u, fieldType).isGenericParameter && r.value.parent == Some(self)
                                       && r.value.owningType == Type(u, self))
              && (r.value.ClassInfo? ==> r.value == ClassInfo(fieldType, []))
    ensures r.Ok? && r.value.ParamInfo? ==> r.value.rawType == fieldType
    ensures Raw(u, fieldType).kind != OtherKind ==> r.Ok?
    ensures r.Err? ==> r.error == ArgumentError && Raw(u, fieldType).kind == OtherKind
  {
    if self.IsParentAware() && self.parent.Some? && Type(u, self.parent.value) == fieldType then Ok(self.parent.value)
    else if fieldType == self.rawType then Ok(self)
    else
      var raw := Raw(u, fieldType);
      if raw.isArray then Ok(ArrayInfo(fieldType, TypeVariableDictionary(self), Some(self)))
      else if raw.isGeneric then Ok(ParamInfo(fieldType, Some(self)))
      else if raw.isGenericParameter then Ok(VarInfo(fieldType, Type(u, self), Some(self)))
      else if raw.kind != OtherKind then Ok(ClassInfo(fieldType, []))
      else Err(ArgumentError)
  }

  /** `CreateInfo` applied to a reference that may be null: the source dereferences it and fails. */
  function CreateInfoOrNull(u: Universe, self: TypeInfo, fieldType: Option<TypeId>): (r: Result<Option<TypeInfo>, TypeError>)
    ensures fieldType.None? ==> r == Err(NullReference)
    ensures r.Ok? ==> r.value.Some? && Ok(r.value.value) == CreateInfo(u, self, fieldType.value)
  {
    match fieldType
    case None => Err(NullReference)
    case Some(t) =>
      var info :- CreateInfo(u, self, t);
      Ok(Some(info))
  }

  /** `CreateInfo` of each type in order; the first failure is the result. */
  function CreateInfos(u: Universe, self: TypeInfo, ts: seq<TypeId>): (r: Result<seq<TypeInfo>, TypeError>)
    ensures r.Ok? ==> |r.value| == |ts| && forall k :: 0 <= k < |ts| ==> CreateInfo(u, self, ts[k]) == Ok(r.value[k])
    ensures r.Ok? <==> forall k :: 0 <= k < |ts| ==> CreateInfo(u, self, ts[k]).Ok?
    ensures r.Err? ==> exists k :: 0 <= k < |ts| && CreateInfo(u, self, ts[k]) == Err(r.error)
                                   && forall j :: 0 <= j < k ==> CreateInfo(u, self, ts[j]).Ok?
  {
    CreateInfosFrom(u, self, ts, 0)
  }

  /** `CreateInfo` of each type from `i` on, in order; the first failure is the result. */
  function CreateInfosFrom(u: Universe, self: TypeInfo, ts: seq<TypeId>, i: nat): (r: Result<seq<TypeInfo>, TypeError>)
    requires i <= |ts|
    ensures r.Ok? ==> |r.value| == |ts| - i && forall k :: i <= k < |ts| ==> CreateInfo(u, self, ts[k]) == Ok(r.value[k - i])
    ensures r.Ok? <==> forall k :: i <= k < |ts| ==> CreateInfo(u, self, ts[k]).Ok?
    ensures r.Err? ==> exists k :: i <= k < |ts| && CreateInfo(u, self, ts[k]) == Err(r.error)
                                   && forall j :: i <= j < k ==> CreateInfo(u, self, ts[j]).Ok?
    decreases |ts| - i
  {
    if i == |ts| then Ok([])
    else
      var head := CreateInfo(u, self, ts[i]);
      if head.Err? then Err(head.error)
      else
        var tail := CreateInfosFrom(u, self, ts, i + 1);
        if tail.Err? then Err(tail.error)
        else Ok([head.value] + tail.value)
  }

  /**
   * The list-building loops of `TypeArguments` and `GetParameterTypes`:
   * `result.Add(CreateInfo(t))` for each type in order.
   */
  method CollectInfos(u: Universe, self: TypeInfo, ts: seq<TypeId>) returns (r: Result<seq<TypeInfo>, TypeError>)
    ensures r == CreateInfos(u, self, ts)
  {
    var result: seq<TypeInfo> := [];
    var i := 0;
    while i < |ts|
      invariant 0 <= i <= |ts| && |result| == i
      invariant forall k :: 0 <= k < i ==> CreateInfo(u, self, ts[k]) == Ok(result[k])
    {
      var info := CreateInfo(u, self, ts[i]);
      if info.Err? {
        var expected := CreateInfos(u, self, ts);
        assert expected.Err?;
        var k :| 0 <= k < |ts| && CreateInfo(u, self, ts[k]) == Err(expected.error)
                 && forall j :: 0 <= j < k ==> CreateInfo(u, self, ts[j]).Ok?;
        assert k == i;
        return Err(info.error);
      }
      result := result + [info.value];
      i := i + 1;
    }
    var expected := CreateInfos(u, self, ts);
    assert expected.Ok? && |expected.value| == |result|;
    assert forall k :: 0 <= k < |ts| ==> expected.value[k] == result[k];
    assert expected.value == result;
    return Ok(result);
  }

  /**
   * `TypeArguments`: a parameterized info lists its raw type's arguments; any
   * other info lists the resolved type's arguments, none when it is not generic.
   */
  function TypeArguments(u: Universe, info: TypeInfo): (r: Result<seq<TypeInfo>, TypeError>)
    ensures !info.ParamInfo? && !Raw(u, Type(u, info)).isGeneric ==> r == Ok([])
    ensures r.Ok? <==> forall k :: 0 <= k < |ArgumentTypes(u, info)| ==> CreateInfo(u, info, ArgumentTypes(u, info)[k]).Ok?
    ensures r.Ok? ==> |r.value| == |ArgumentTypes(u, info)|
                      && forall k :: 0 <= k < |r.value| ==> CreateInfo(u, info, ArgumentTypes(u, info)[k]) == Ok(r.value[k])
    ensures r.Err? ==> r.error == ArgumentError
  {
    if info.ParamInfo? then
      assert ArgumentTypes(u, info) == Raw(u, info.rawType).genericArguments;
      CreateInfos(u, info, Raw(u, info.rawType).genericArguments)
    else
      var t := Type(u, info);
      if !Raw(u, t).isGeneric then Ok([])
      else
        assert ArgumentTypes(u, info) == Raw(u, t).genericArguments;
        CreateInfos(u, info, Raw(u, t).genericArguments)
  }

  /** The types whose infos `TypeArguments` lists. */
  function ArgumentTypes(u: Universe, info: TypeInfo): seq<TypeId>
  {
    if info.ParamInfo? then Raw(u, info.rawType).genericArguments
    else if Raw(u, Type(u, info)).isGeneric then Raw(u, Type(u, info)).genericArguments
    else []
  }

  /** `GetTypeArgument(type, index)`: null for a non-generic type or a missing argument. */
  function GetTypeArgument(u: Universe, self: TypeInfo, t: Option<TypeId>, index: nat): (r: Result<Option<TypeInfo>, TypeError>)
    ensures t.None? ==> r == Err(NullReference)
    ensures t.Some? && (!Raw(u, t.value).isGeneric || |Raw(u, t.value).genericArguments| <= index) ==> r == Ok(None)
    ensures r.Ok? && r.value.Some? ==> t.Some? && index < |Raw(u, t.value).genericArguments|
                                       && CreateInfo(u, self, Raw(u, t.value).genericArguments[index]) == Ok(r.value.value)
  {
    match t
    case None => Err(NullReference)
    case Some(x) =>
      var raw := Raw(u, x);
      if !raw.isGeneric then Ok(None)
      else if |raw.genericArguments| > index then
        var info :- CreateInfo(u, self, raw.genericArguments[index]);
        Ok(Some(info))
      else Ok(None)
  }

  function ChainRank(u: Universe, t: Option<TypeId>): nat
  {
    if t.Some? then InheritanceRank(u, t.value) + 1 else 0
  }

  /** Whether some type on the base chain below `object` implements `IDictionary<,>`. */
  function DictionaryInChain(u: Universe, t: Option<TypeId>): bool
    requires WellFormed(u)
    decreases ChainRank(u, t)
  {
    match t
    case None => false
    case Some(x) =>
      if x == ObjectType then false
      else if GetInterface(u, x, DictionaryInterfaceName).Some? then true
      else DictionaryInChain(u, BaseType(u, x))
  }

  /** `IsDictionary`: the name mentions "IDictionary", or the base chain implements `IDictionary<,>`. */
  function IsDictionary(u: Universe, info: TypeInfo): bool
    requires WellFormed(u)
  {
    Contains(Raw(u, Type(u, info)).name, "IDictionary") || DictionaryInChain(u, Some(Type(u, info)))
  }

  /** The loop of `IsDictionary`, walking the base chain. */
  method CheckDictionary(u: Universe, info: TypeInfo) returns (b: bool)
    requires WellFormed(u)
    ensures b == IsDictionary(u, info)
  {
    if Contains(Raw(u, Type(u, info)).name, "IDictionary") {
      return true;
    }
    var t := Some(Type(u, info));
    while t.Some? && t.value != ObjectType
      invariant DictionaryInChain(u, t) == DictionaryInChain(u, Some(Type(u, info)))
      decreases ChainRank(u, t)
    {
      if GetInterface(u, t.value, DictionaryInterfaceName).Some? {
        return true;
      }
      t := BaseType(u, t.value);
    }
    return false;
  }

  /** `GetDictionaryType`: the first type on the base chain named like a dictionary, or its `IDictionary<,>` interface. */
  function GetDictionaryType(u: Universe, t: Option<TypeId>): (r: Option<TypeId>)
    requires WellFormed(u)
    decreases ChainRank(u, t)
    ensures r.Some? ==> Contains(Raw(u, r.value).name, "IDictionary") || Raw(u, r.value).name == DictionaryInterfaceName
  {
    match t
    case None => None
    case Some(x) =>
      if x == ObjectType then None
      else if Contains(Raw(u, x).name, "IDictionary") then Some(x)
      else if GetInterface(u, x, DictionaryInterfaceName).Some? then GetInterface(u, x, DictionaryInterfaceName)
      else GetDictionaryType(u, BaseType(u, x))
  }

  /** The loop of `GetDictionaryType`. */
  method FindDictionaryType(u: Universe, start: Option<TypeId>) returns (r: Option<TypeId>)
    requires WellFormed(u)
    ensures r == GetDictionaryType(u, start)
  {
    var t := start;
    while t.Some? && t.value != ObjectType
      invariant GetDictionaryType(u, t) == GetDictionaryType(u, start)
      decreases ChainRank(u, t)
    {
      if Contains(Raw(u, t.value).name, "IDictionary") {
        return t;
      }
      var iface := GetInterface(u, t.value, DictionaryInterfaceName);
      if iface.Some? {
        return iface;
      }
      t := BaseType(u, t.value);
    }
    return None;
  }

  /** A base chain that implements `IDictionary<,>` always yields a dictionary type. */
  lemma {:induction false} DictionaryChainHasDictionaryType(u: Universe, t: Option<TypeId>)
    requires WellFormed(u)
    requires DictionaryInChain(u, t)
    ensures GetDictionaryType(u, t).Some?
    decreases ChainRank(u, t)
  {
    var x := t.value;
    if !Contains(Raw(u, x).name, "IDictionary") && GetInterface(u, x, DictionaryInterfaceName).None? {
      DictionaryChainHasDictionaryType(u, BaseType(u, x));
    }
  }

  /** Whenever `IsDictionary` holds, `GetDictionaryType(Type)` is not null. */
  lemma DictionaryHasDictionaryType(u: Universe, info: TypeInfo)
    requires WellFormed(u)
    requires IsDictionary(u, info)
    ensures GetDictionaryType(u, Some(Type(u, info))).Some?
  {
    if !Contains(Raw(u, Type(u, info)).name, "IDictionary") {
      DictionaryChainHasDictionaryType(u, Some(Type(u, info)));
    }
  }

  /** `IsCollectionLike`. */
  function IsCollectionLike(u: Universe, info: TypeInfo): (b: bool)
    ensures Raw(u, Type(u, info)).isArray || Contains(Raw(u, Type(u, info)).name, "IEnumerable") ==> b
    ensures (!Raw(u, Type(u, info)).isGeneric && !Contains(Raw(u, Type(u, info)).name, "IEnumerable")
             && !Raw(u, Type(u, info)).isArray) ==> !b
    ensures b && !Raw(u, Type(u, info)).isArray && !Contains(Raw(u, Type(u, info)).name, "IEnumerable")
            ==> GetInterface(u, Type(u, info), DictionaryInterfaceName).None?
                && GetInterface(u, Type(u, info), EnumerableInterfaceName).Some?
    // a generic non-dictionary implementing `IEnumerable<>`, such as `List<T>`, is collection-like
    ensures (Raw(u, Type(u, info)).isGeneric && GetInterface(u, Type(u, info), DictionaryInterfaceName).None?
             && GetInterface(u, Type(u, info), EnumerableInterfaceName).Some?) ==> b
  {
    var t := Type(u, info);
    if Contains(Raw(u, t).name, "IEnumerable") || Raw(u, t).isArray then true
    else if !Raw(u, t).isGeneric || GetInterface(u, t, DictionaryInterfaceName).Some? then false
    else GetInterface(u, t, EnumerableInterfaceName).Some?
  }

  /** `TypeDiscoverer.ComponentType`. */
  function BaseComponentType(u: Universe, info: TypeInfo): (r: Result<Option<TypeInfo>, TypeError>)
    requires WellFormed(u)
    ensures Type(u, info) == StringType ==> r == Ok(None)
    ensures var t := Type(u, info);
            t != StringType && Raw(u, t).isArray ==> r == CreateInfoOrNull(u, info, Raw(u, t).element)
    ensures var t := Type(u, info);
            t != StringType && !Raw(u, t).isArray && IsDictionary(u, info)
            ==> r == GetTypeArgument(u, info, GetDictionaryType(u, Some(t)), 0)
    ensures var t := Type(u, info);
            t != StringType && !Raw(u, t).isArray && !IsDictionary(u, info) && IsCollectionLike(u, info)
            ==> r == GetTypeArgument(u, info, Some(t), 0)
    ensures var t := Type(u, info);
            t != StringType && !Raw(u, t).isArray && !IsDictionary(u, info) && !IsCollectionLike(u, info)
            && GetInterface(u, t, EnumerableInterfaceName).Some?
            ==> r == GetTypeArgument(u, info, GetInterface(u, t, EnumerableInterfaceName), 0)
    // otherwise the first type argument, null when there is none
    ensures var t := Type(u, info);
            t != StringType && !Raw(u, t).isArray && !IsDictionary(u, info) && !IsCollectionLike(u, info)
            && GetInterface(u, t, EnumerableInterfaceName).None?
            ==> (r.Ok? <==> TypeArguments(u, info).Ok?)
                && (r.Ok? ==> if ArgumentTypes(u, info) == [] then r.value.None?
                              else r.value.Some? && CreateInfo(u, info, ArgumentTypes(u, info)[0]) == Ok(r.value.value))
  {
    var raw := Type(u, info);
    if raw == StringType then Ok(None)
    else if Raw(u, raw).isArray then CreateInfoOrNull(u, info, Raw(u, raw).element)
    else if IsDictionary(u, info) then GetTypeArgument(u, info, GetDictionaryType(u, Some(raw)), 0)
    else if IsCollectionLike(u, info) then GetTypeArgument(u, info, Some(raw), 0)
    else if GetInterface(u, raw, EnumerableInterfaceName).Some? then
      GetTypeArgument(u, info, GetInterface(u, raw, EnumerableInterfaceName), 0)
    else
      var arguments :- TypeArguments(u, info);
      if |arguments| > 0 then Ok(Some(arguments[0])) else Ok(None)
  }

  /** `ComponentType`, with the array and parameterized overrides. */
  function ComponentType(u: Universe, info: TypeInfo): (r: Result<Option<TypeInfo>, TypeError>)
    requires WellFormed(u)
    ensures info.ArrayInfo? ==> r == CreateInfoOrNull(u, info, Raw(u, Type(u, info)).element)
    ensures info.ParamInfo? && r.Ok? ==>
              (r.value.Some? && |Raw(u, info.rawType).genericArguments| > 0
               && Ok(r.value.value) == CreateInfo(u, info, Raw(u, info.rawType).genericArguments[0]))
    // a parameterized info with arguments always has a component; without any, index 0 is out of range
    ensures info.ParamInfo? && |Raw(u, info.rawType).genericArguments| > 0 ==> r.Ok? && r.value.Some?
    ensures info.ParamInfo? && |Raw(u, info.rawType).genericArguments| == 0 ==> r == Err(IndexOutOfRange)
    // plain, class and variable infos use the discoverer's answer
    ensures !info.ArrayInfo? && !info.ParamInfo? ==> r == BaseComponentType(u, info)
  {
    match info
    case ArrayInfo(_, _, _) => CreateInfoOrNull(u, info, Raw(u, Type(u, info)).element)
    case ParamInfo(raw, _) =>
      var arguments := Raw(u, raw).genericArguments;
      if |arguments| == 0 then Err(IndexOutOfRange)
      else Ok(Some(CreateInfo(u, info, arguments[0]).value))
    case _ => BaseComponentType(u, info)
  }

  /** `TypeDiscoverer.DictionaryValueType`. */
  function BaseDictionaryValueType(u: Universe, info: TypeInfo): (r: Result<Option<TypeInfo>, TypeError>)
    requires WellFormed(u)
    ensures IsDictionary(u, info) ==> r == GetTypeArgument(u, info, GetDictionaryType(u, Some(Type(u, info))), 1)
    // otherwise the second type argument, null when there are fewer than two
    ensures !IsDictionary(u, info) ==>
              (r.Ok? <==> TypeArguments(u, info).Ok?)
              && (r.Ok? ==> if |ArgumentTypes(u, info)| < 2 then r.value.None?
                            else r.value.Some? && CreateInfo(u, info, ArgumentTypes(u, info)[1]) == Ok(r.value.value))
  {
    if IsDictionary(u, info) then GetTypeArgument(u, info, GetDictionaryType(u, Some(Type(u, info))), 1)
    else
      var arguments :- TypeArguments(u, info);
      if |arguments| > 1 then Ok(Some(arguments[1])) else Ok(None)
  }

  /** The supertypes the parameterized override scans: the base type (when present), then the interfaces. */
  function Supertypes(u: Universe, t: TypeId): seq<TypeId>
  {
    (if BaseType(u, t).Some? then [BaseType(u, t).value] else []) + Raw(u, t).interfaces
  }

  /** The first supertype whose resolved type `IDictionary<,>` is assignable from. */
  function FirstDictionarySupertype(u: Universe, info: TypeInfo, ts: seq<TypeId>): (r: Option<TypeId>)
    ensures r.Some? ==> r.value in ts && Assignable(u, OpenDictionaryType, ResolveType(info, r.value))
    ensures r.None? ==> forall s :: s in ts ==> !Assignable(u, OpenDictionaryType, ResolveType(info, s))
  {
    if ts == [] then None
    else if Assignable(u, OpenDictionaryType, ResolveType(info, ts[0])) then Some(ts[0])
    else FirstDictionarySupertype(u, info, ts[1..])
  }

  /** The foreach loop over the supertype set in `ParameterizedTypeInformation.DictionaryValueType`. */
  method ScanSupertypes(u: Universe, info: TypeInfo, ts: seq<TypeId>) returns (r: Option<TypeId>)
    ensures r == FirstDictionarySupertype(u, info, ts)
  {
    var i := 0;
    while i < |ts|
      invariant 0 <= i <= |ts|
      invariant FirstDictionarySupertype(u, info, ts[i..]) == FirstDictionarySupertype(u, info, ts)
    {
      if Assignable(u, OpenDictionaryType, ResolveType(info, ts[i])) {
        return Some(ts[i]);
      }
      assert ts[i..][1..] == ts[i + 1..];
      i := i + 1;
    }
    return None;
  }

  /** `DictionaryValueType`, with the parameterized override. */
  function DictionaryValueType(u: Universe, info: TypeInfo): (r: Result<Option<TypeInfo>, TypeError>)
    requires WellFormed(u)
    ensures info.ParamInfo? && info.rawType == OpenDictionaryType ==>
              (|Raw(u, info.rawType).genericArguments| < 2 ==> r == Err(IndexOutOfRange))
              && (r.Ok? ==> r.value.Some? && Ok(r.value.value) == CreateInfo(u, info, Raw(u, info.rawType).genericArguments[1]))
    // other parameterized infos: argument 1 of the first supertype that `IDictionary<,>` is assignable from
    ensures info.ParamInfo? && info.rawType != OpenDictionaryType ==>
              match FirstDictionarySupertype(u, info, Supertypes(u, Type(u, info)))
              case Some(s) =>
                (|Raw(u, s).genericArguments| < 2 ==> r == Err(IndexOutOfRange))
                && (r.Ok? ==> r.value.Some? && Ok(r.value.value) == CreateInfo(u, info, Raw(u, s).genericArguments[1]))
              case None => r == BaseDictionaryValueType(u, info)
    ensures !info.ParamInfo? ==> r == BaseDictionaryValueType(u, info)
  {
    if info.ParamInfo? then
      if Type(u, info) == OpenDictionaryType then
        var arguments := Raw(u, info.rawType).genericArguments;
        if |arguments| < 2 then Err(IndexOutOfRange)
        else Ok(Some(CreateInfo(u, info, arguments[1]).value))
      else
        match FirstDictionarySupertype(u, info, Supertypes(u, Type(u, info)))
        case Some(s) =>
          var arguments := Raw(u, s).genericArguments;
          if |arguments| < 2 then Err(IndexOutOfRange)
          else Ok(Some(CreateInfo(u, info, arguments[1]).value))
        case None => BaseDictionaryValueType(u, info)
    else BaseDictionaryValueType(u, info)
  }

  /**
   * `ActualType`: the element info of an array, else the dictionary value
   * type, else the component type of a collection, else the last type
   * argument, else the info itself.
   */
  function ActualType(u: Universe, info: TypeInfo): (r: Result<Option<TypeInfo>, TypeError>)
    requires WellFormed(u)
    ensures Raw(u, Type(u, info)).isArray ==> r == CreateInfoOrNull(u, info, Raw(u, Type(u, info)).element)
    ensures !Raw(u, Type(u, info)).isArray && IsDictionary(u, info) ==> r == DictionaryValueType(u, info)
    ensures !Raw(u, Type(u, info)).isArray && !IsDictionary(u, info) && IsCollectionLike(u, info)
            ==> r == ComponentType(u, info)
    // otherwise the last type argument, or the info itself when there is none
    ensures !Raw(u, Type(u, info)).isArray && !IsDictionary(u, info) && !IsCollectionLike(u, info) ==>
              (r.Ok? <==> TypeArguments(u, info).Ok?)
              && (r.Ok? ==> if ArgumentTypes(u, info) == [] then r.value == Some(info)
                            else r.value.Some?
                                 && CreateInfo(u, info, ArgumentTypes(u, info)[|ArgumentTypes(u, info)| - 1]) == Ok(r.value.value))
  {
    var t := Type(u, info);
    if Raw(u, t).isArray then CreateInfoOrNull(u, info, Raw(u, t).element)
    else if IsDictionary(u, info) then DictionaryValueType(u, info)
    else if IsCollectionLike(u, info) then ComponentType(u, info)
    else
      var arguments :- TypeArguments(u, info);
      if |arguments| == 0 then Ok(Some(info)) else Ok(Some(arguments[|arguments| - 1]))
  }

  /** An array info's actual type is its component type, because the array test comes first. */
  lemma ArrayActualTypeIsComponent(u: Universe, info: TypeInfo)
    requires WellFormed(u)
    requires info.ArrayInfo? && Raw(u, Type(u, info)).isArray
    ensures ActualType(u, info) == ComponentType(u, info)
    ensures IsCollectionLike(u, info)
  {
  }

  /**
   * A dictionary whose `IDictionary<,>` type has arguments `[k, v]`: the
   * component type is the key's info and the actual type the value's.
   */
  lemma DictionaryActualTypeIsValue(u: Universe, info: TypeInfo, d: TypeId, k: TypeId, v: TypeId)
    requires WellFormed(u) && !info.ParamInfo? && !info.ArrayInfo?
    requires IsDictionary(u, info) && Type(u, info) != StringType && !Raw(u, Type(u, info)).isArray
    requires GetDictionaryType(u, Some(Type(u, info))) == Some(d) && Raw(u, d).genericArguments == [k, v]
    ensures CreateInfo(u, info, k).Ok? && ComponentType(u, info) == Ok(Some(CreateInfo(u, info, k).value))
    ensures CreateInfo(u, info, v).Ok? && ActualType(u, info) == Ok(Some(CreateInfo(u, info, v).value))
  {
    assert Raw(u, d).isGeneric && Raw(u, d).genericArguments[0] == k && Raw(u, d).genericArguments[1] == v;
    assert ComponentType(u, info) == BaseComponentType(u, info) == GetTypeArgument(u, info, Some(d), 0);
    assert ActualType(u, info) == DictionaryValueType(u, info) == BaseDictionaryValueType(u, info);
    assert BaseDictionaryValueType(u, info) == GetTypeArgument(u, info, Some(d), 1);
  }

  /** The same for the open `IDictionary<K, V>` itself, through the parameterized overrides. */
  lemma OpenDictionaryActualTypeIsValue(u: Universe, info: TypeInfo, k: TypeId, v: TypeId)
    requires WellFormed(u) && info.ParamInfo? && info.rawType == OpenDictionaryType
    requires IsDictionary(u, info) && !Raw(u, Type(u, info)).isArray
    requires Raw(u, OpenDictionaryType).genericArguments == [k, v]
    ensures CreateInfo(u, info, k).Ok? && ComponentType(u, info) == Ok(Some(CreateInfo(u, info, k).value))
    ensures CreateInfo(u, info, v).Ok? && ActualType(u, info) == Ok(Some(CreateInfo(u, info, v).value))
  {
    assert Type(u, info) == OpenDictionaryType;
    assert Raw(u, OpenDictionaryType).genericArguments[0] == k && Raw(u, OpenDictionaryType).genericArguments[1] == v;
    assert ActualType(u, info) == DictionaryValueType(u, info);
  }

  /**
   * When the base type's info comes back as `self` although `self` does not
   * resolve to that base type, the supertype walk would repeat the very same
   * call: only the `this` branch of `CreateInfo` can produce such an info.
   */
  lemma BaseInfoRepeatsCall(u: Universe, info: TypeInfo, b: TypeId)
    requires WellFormed(u)
    requires !Raw(u, b).isArray && !Raw(u, b).isGenericParameter
    requires CreateInfo(u, info, b).Ok? && Type(u, CreateInfo(u, info, b).value) != b
    ensures CreateInfo(u, info, b).value == info
  {
  }

  /**
   * `GetSuperTypeInformation`: null when `super` is not assignable from the
   * resolved type, `info` itself when equal, an exactly matching interface
   * directly, null when the base is `object`, else the walk continues on the
   * base type's info. `StackOverflow` stands for the endless self-recursion
   * described by `BaseInfoRepeatsCall`.
   */
  function GetSuperTypeInformation(u: Universe, info: TypeInfo, super: TypeId): (r: Result<Option<TypeInfo>, TypeError>)
    requires WellFormed(u)
    decreases InheritanceRank(u, Type(u, info))
    ensures !Assignable(u, super, Type(u, info)) ==> r == Ok(None)
    ensures Type(u, info) == super ==> r == Ok(Some(info))
    ensures r.Ok? && r.value.Some? ==> Type(u, r.value.value) == super || r.value.value.rawType == super
    // an interface the type implements directly is answered at once
    ensures Assignable(u, super, Type(u, info)) && Type(u, info) != super
            && Raw(u, super).kind == InterfaceKind && super in Raw(u, Type(u, info)).interfaces
            ==> r == Ok(Some(CreateInfo(u, info, super).value))
    // otherwise the walk goes down the base chain and gives up at `object`
    ensures Assignable(u, super, Type(u, info)) && Type(u, info) != super
            && !(Raw(u, super).kind == InterfaceKind && super in Raw(u, Type(u, info)).interfaces)
            ==> match BaseType(u, Type(u, info))
                case None => r == Err(NullReference)
                case Some(b) =>
                  if b == ObjectType then r == Ok(None)
                  else CreateInfo(u, info, b).Ok? && Type(u, CreateInfo(u, info, b).value) == b
                       ==> r == GetSuperTypeInformation(u, CreateInfo(u, info, b).value, super)
  {
    var t := Type(u, info);
    if !Assignable(u, super, t) then Ok(None)
    else if t == super then Ok(Some(info))
    else if Raw(u, super).kind == InterfaceKind && super in Raw(u, t).interfaces then
      Ok(Some(CreateInfo(u, info, super).value))
    else
      match BaseType(u, t)
      case None => Err(NullReference)
      case Some(b) =>
        if b == ObjectType then Ok(None)
        else
          var c :- CreateInfo(u, info, b);
          if Type(u, c) != b then Err(StackOverflow)
          else GetSuperTypeInformation(u, c, super)
  }

  /** Equality of the `TypeDiscoverer` fields: raw type and own dictionary, element by element. */
  predicate DiscovererEquals(a: TypeInfo, b: TypeInfo)
  {
    a == b || (a.rawType == b.rawType && a.OwnDictionary() == b.OwnDictionary())
  }

  predicate SameRuntimeClass(a: TypeInfo, b: TypeInfo)
  {
    || (a.Plain? && b.Plain?)
    || (a.ClassInfo? && b.ClassInfo?)
    || (a.ArrayInfo? && b.ArrayInfo?)
    || (a.ParamInfo? && b.ParamInfo?)
    || (a.VarInfo? && b.VarInfo?)
  }

  /** `Equals`, dispatched on the receiver `a`. */
  predicate Equals(u: Universe, a: TypeInfo, b: TypeInfo)
    requires WellFormed(u)
    decreases a, 1
  {
    match a
    case Plain(_, _) => DiscovererEquals(a, b)
    case ClassInfo(_, _) => DiscovererEquals(a, b)
    case ArrayInfo(_, _, _) => ParentAwareEquals(u, a, b)
    case VarInfo(_, owning, _) =>
      // line 97 compares the receiver's variable with itself
      ParentAwareEquals(u, a, b) && b.VarInfo? && owning == b.owningType && a.rawType == a.rawType
    case ParamInfo(_, _) =>
      a == b || (b.ParamInfo? &&
                 if IsResolvedCompletely(u, a) && IsResolvedCompletely(u, b) then Type(u, a) == Type(u, b)
                 else ParentAwareEquals(u, a, b))
  }

  /** `ParentTypeAwareTypeInformation.Equals`: base equality, same runtime class, null-safe equal parents. */
  predicate ParentAwareEquals(u: Universe, a: TypeInfo, b: TypeInfo)
    requires WellFormed(u)
    requires a.IsParentAware()
    decreases a, 0
  {
    && DiscovererEquals(a, b)
    && SameRuntimeClass(a, b)
    && b.IsParentAware()
    && match a.parent
       case None => b.parent.None?
       case Some(p) => b.parent.Some? && Equals(u, p, b.parent.value)
  }

  /** Every info equals itself. */
  lemma {:induction false} EqualsReflexive(u: Universe, a: TypeInfo)
    requires WellFormed(u)
    ensures Equals(u, a, a)
  {
    if a.IsParentAware() && a.parent.Some? {
      EqualsReflexive(u, a.parent.value);
    }
  }

  /** Plain and class infos are equal iff their raw types and own dictionaries are. */
  lemma DiscovererEqualsIff(u: Universe, a: TypeInfo, b: TypeInfo)
    requires WellFormed(u)
    requires a.Plain? || a.ClassInfo?
    ensures Equals(u, a, b) <==> a.rawType == b.rawType && a.OwnDictionary() == b.OwnDictionary()
  {
  }

  /** Two parentless infos of one class compare by their fields; a parentless info never equals one with a parent. */
  lemma ParentNullSafety(u: Universe, a: TypeInfo, b: TypeInfo)
    requires WellFormed(u)
    requires a.ArrayInfo? || a.VarInfo?
    ensures a.parent.None? && b.IsParentAware() && b.parent.Some? ==> !Equals(u, a, b)
    ensures a.parent.Some? && b.IsParentAware() && b.parent.None? ==> !Equals(u, a, b)
  {
  }

  /**
   * The self-comparison on line 97 does not make differing variables equal:
   * the base equality already compares `_type`, which is the variable.
   */
  lemma VariableEqualsComparesVariables(u: Universe, a: TypeInfo, b: TypeInfo)
    requires WellFormed(u)
    requires a.VarInfo? && Equals(u, a, b)
    ensures b.VarInfo? && b.rawType == a.rawType && b.owningType == a.owningType
  {
  }

  /**
   * Two fully resolved parameterized infos compare by their resolved types
   * alone; otherwise a parentless one never equals one with a parent.
   */
  lemma ParameterizedEquals(u: Universe, a: TypeInfo, b: TypeInfo)
    requires WellFormed(u) && a.ParamInfo? && b.ParamInfo?
    ensures IsResolvedCompletely(u, a) && IsResolvedCompletely(u, b) ==> (Equals(u, a, b) <==> Type(u, a) == Type(u, b))
    ensures !(IsResolvedCompletely(u, a) && IsResolvedCompletely(u, b)) && a.parent.None? != b.parent.None?
            ==> !Equals(u, a, b)
  {
  }

  // Hash codes of parameterized infos. C# `int` arithmetic wraps, so a hash
  // code is taken modulo 2^32; the hash of a type, of a dictionary object and
  // of a parent are inputs, since they come from the runtime.

  const HashModulus: int := 0x1_0000_0000

  /**
   * `GetHashCode` of a parameterized info as written: the discoverer's
   * `17 + hash(type) + hash(dictionary)`, plus `31 * hash(parent)`, plus
   * `31 * hash(type)`. The dictionary is a `Dictionary` object, hashed by
   * reference; a missing one is replaced by a fresh object.
   */
  function ParameterizedHashCode(info: TypeInfo, typeHash: TypeId -> int, dictionaryHash: int, parentHash: int): (r: int)
    requires info.ParamInfo?
    ensures 0 <= r < HashModulus
    // the type's hash is counted 32 times: once by the discoverer, 31 times by the override
    ensures r == (17 + 32 * typeHash(info.rawType) + dictionaryHash + 31 * parentHash) % HashModulus
  {
    var discoverer := 17 + typeHash(info.rawType) + dictionaryHash;
    var parentAware := discoverer + 31 * parentHash;
    (parentAware + 31 * typeHash(info.rawType)) % HashModulus
  }

  /** Two numbers wrap to the same hash exactly when their difference wraps to zero. */
  lemma WrapsAlike(x: int, y: int)
    ensures x % HashModulus == y % HashModulus <==> (x - y) % HashModulus == 0
  {
    var qx, qy := x / HashModulus, y / HashModulus;
    assert x == HashModulus * qx + x % HashModulus;
    assert y == HashModulus * qy + y % HashModulus;
  }

  /** 31 is invertible modulo 2^32 (its inverse is 3186588639), so `31 * d` wraps to zero only when `d` does. */
  lemma ThirtyOneCancels(d: int)
    ensures (31 * d) % HashModulus == 0 <==> d % HashModulus == 0
  {
    if (31 * d) % HashModulus == 0 {
      var k := (31 * d) / 0x1_0000_0000;
      assert 31 * d == 0x1_0000_0000 * k;
      // 31 * 3186588639 == 23 * 2^32 + 1
      assert d == 0x1_0000_0000 * (3186588639 * k - 23 * d);
      MultipleWraps(3186588639 * k - 23 * d);
    }
    if d % HashModulus == 0 {
      var k := d / 0x1_0000_0000;
      assert d == 0x1_0000_0000 * k;
      MultipleWraps(31 * k);
    }
  }

  /** A multiple of 2^32 wraps to zero. */
  lemma MultipleWraps(k: int)
    ensures (0x1_0000_0000 * k) % HashModulus == 0
  {
  }

  /**
   * As written, two fully resolved parameterized infos of one type are
   * `Equals`, yet their hash codes agree only when their dictionary and parent
   * contributions happen to agree modulo 2^32; with dictionaries that hash
   * alike, exactly when their parents do.
   */
  lemma EqualParameterizedInfosHashApart(u: Universe, a: TypeInfo, b: TypeInfo, typeHash: TypeId -> int,
                                         dictionaryHashA: int, parentHashA: int, dictionaryHashB: int, parentHashB: int)
    requires WellFormed(u) && a.ParamInfo? && b.ParamInfo? && a.rawType == b.rawType
    requires IsResolvedCompletely(u, a) && IsResolvedCompletely(u, b)
    ensures Equals(u, a, b)
    ensures ParameterizedHashCode(a, typeHash, dictionaryHashA, parentHashA) == ParameterizedHashCode(b, typeHash, dictionaryHashB, parentHashB)
            <==> (dictionaryHashA + 31 * parentHashA - dictionaryHashB - 31 * parentHashB) % HashModulus == 0
    ensures dictionaryHashA == dictionaryHashB ==>
              (ParameterizedHashCode(a, typeHash, dictionaryHashA, parentHashA) == ParameterizedHashCode(b, typeHash, dictionaryHashB, parentHashB)
               <==> (parentHashA - parentHashB) % HashModulus == 0)
  {
    ParameterizedEquals(u, a, b);
    var common := 17 + 32 * typeHash(a.rawType);
    WrapsAlike(common + dictionaryHashA + 31 * parentHashA, common + dictionaryHashB + 31 * parentHashB);
    ThirtyOneCancels(parentHashA - parentHashB);
  }

  /**
   * A hash code consistent with `Equals` for parameterized infos: built from
   * the raw type alone, which every equal pair shares (`GetHashCode` must agree
   * on equal objects).
   */
  function ParameterizedHashCodeCorrected(info: TypeInfo, typeHash: TypeId -> int): (r: int)
    requires info.ParamInfo?
    ensures 0 <= r < HashModulus
  {
    (17 + 32 * typeHash(info.rawType)) % HashModulus
  }

  /**
   * With the corrected hash, `Equals` parameterized infos always hash alike:
   * every branch of `Equals` implies a shared raw type.
   */
  lemma EqualParameterizedInfosHashAlike(u: Universe, a: TypeInfo, b: TypeInfo, typeHash: TypeId -> int)
    requires WellFormed(u) && a.ParamInfo? && Equals(u, a, b)
    ensures b.ParamInfo? && b.rawType == a.rawType
    ensures ParameterizedHashCodeCorrected(a, typeHash) == ParameterizedHashCodeCorrected(b, typeHash)
  {
  }

  /** A type variable's `Type` is always the variable itself: the index lookup finds it in the same list it reads back from. */
  lemma VariableTypeIsVariable(u: Universe, info: TypeInfo)
    requires info.VarInfo?
    ensures Type(u, info) == info.rawType
  {
  }

  /** The receiver's rank for `IsAssignableFrom`: only parameterized infos recurse. */
  function AssignRank(u: Universe, info: TypeInfo): nat
  {
    if info.ParamInfo? then NestingRank(u, info.rawType) else 0
  }

  /** The infos `CreateInfo` makes for a parameterized info's own arguments rank below it. */
  lemma ArgumentInfosRankLower(u: Universe, p: TypeInfo, ps: seq<TypeInfo>)
    requires WellFormed(u) && p.ParamInfo?
    requires CreateInfos(u, p, Raw(u, p.rawType).genericArguments) == Ok(ps)
    ensures forall q :: q in ps ==> AssignRank(u, q) < NestingRank(u, p.rawType)
  {
    var args := Raw(u, p.rawType).genericArguments;
    forall q | q in ps ensures AssignRank(u, q) < NestingRank(u, p.rawType) {
      var k :| 0 <= k < |ps| && ps[k] == q;
      assert CreateInfo(u, p, args[k]) == Ok(q);
    }
  }

  /**
   * `IsAssignableFrom`. The base version asks the target for its supertype
   * info at this type and compares; the parameterized override also accepts
   * equal infos, rejects unassignable raw types and differing argument
   * counts, and otherwise needs every argument pairwise assignable.
   */
  function IsAssignableFrom(u: Universe, self: TypeInfo, target: TypeInfo): (r: Result<bool, TypeError>)
    requires WellFormed(u)
    decreases AssignRank(u, self), 1
    ensures self.ParamInfo? && Equals(u, self, target) ==> r == Ok(true)
    ensures self.ParamInfo? && !Equals(u, self, target) && !Assignable(u, Type(u, self), Type(u, target)) ==> r == Ok(false)
    ensures !self.ParamInfo? && r.Ok? ==>
              var super := GetSuperTypeInformation(u, target, Type(u, self));
              super.Ok? && (r.value <==> super.value.Some? && Equals(u, super.value.value, self))
    ensures self.ParamInfo? && !Equals(u, self, target) && Assignable(u, Type(u, self), Type(u, target))
            && Type(u, self) != Type(u, target) && GetSuperTypeInformation(u, target, Type(u, self)) == Ok(None)
            ==> r == Err(NullReference)
  {
    if self.ParamInfo? then
      if Equals(u, self, target) then Ok(true)
      else
        var raw := Type(u, self);
        var rawTarget := Type(u, target);
        if !Assignable(u, raw, rawTarget) then Ok(false)
        else
          var other :- if raw == rawTarget then Ok(Some(target)) else GetSuperTypeInformation(u, target, raw);
          if other.None? then Err(NullReference)
          else
            var mine :- TypeArguments(u, self);
            var theirs :- TypeArguments(u, other.value);
            if |mine| != |theirs| then Ok(false)
            else
              ArgumentInfosRankLower(u, self, mine);
              AllAssignable(u, self, mine, theirs)
    else
      var super :- GetSuperTypeInformation(u, target, Type(u, self));
      Ok(super.Some? && Equals(u, super.value, self))
  }

  /**
   * Once the raw types are assignable and the target's info at this type is
   * found, a parameterized info compares argument lists: different counts are
   * not assignable, equal counts need every argument pairwise assignable.
   */
  lemma ParameterizedAssignability(u: Universe, self: TypeInfo, target: TypeInfo, other: TypeInfo,
                                   mine: seq<TypeInfo>, theirs: seq<TypeInfo>)
    requires WellFormed(u) && self.ParamInfo?
    requires !Equals(u, self, target) && Assignable(u, Type(u, self), Type(u, target))
    requires if Type(u, self) == Type(u, target) then other == target
             else GetSuperTypeInformation(u, target, Type(u, self)) == Ok(Some(other))
    requires TypeArguments(u, self) == Ok(mine) && TypeArguments(u, other) == Ok(theirs)
    ensures |mine| != |theirs| ==> IsAssignableFrom(u, self, target) == Ok(false)
    ensures |mine| == |theirs| ==>
              (IsAssignableFrom(u, self, target) == Ok(true)
               <==> forall i :: 0 <= i < |mine| ==> IsAssignableFrom(u, mine[i], theirs[i]) == Ok(true))
  {
    if |mine| == |theirs| {
      ArgumentInfosRankLower(u, self, mine);
      assert IsAssignableFrom(u, self, target) == AllAssignable(u, self, mine, theirs);
    }
  }

  /** Every `ps[i].IsAssignableFrom(qs[i])`, stopping at the first false or failure. */
  function AllAssignable(u: Universe, owner: TypeInfo, ps: seq<TypeInfo>, qs: seq<TypeInfo>): (r: Result<bool, TypeError>)
    requires WellFormed(u) && owner.ParamInfo?
    requires |ps| == |qs|
    requires forall p :: p in ps ==> AssignRank(u, p) < NestingRank(u, owner.rawType)
    decreases NestingRank(u, owner.rawType), 0, |ps|
    ensures r == Ok(true) ==> forall i :: 0 <= i < |ps| ==> IsAssignableFrom(u, ps[i], qs[i]) == Ok(true)
    ensures (forall i :: 0 <= i < |ps| ==> IsAssignableFrom(u, ps[i], qs[i]) == Ok(true)) ==> r == Ok(true)
  {
    if ps == [] then Ok(true)
    else
      var b :- IsAssignableFrom(u, ps[0], qs[0]);
      if !b then Ok(false)
      else
        var rest := AllAssignable(u, owner, ps[1..], qs[1..]);
        assert forall i :: 1 <= i < |ps| ==> ps[i] == ps[1..][i - 1] && qs[i] == qs[1..][i - 1];
        rest
  }

  /** The index loop of `ParameterizedTypeInformation.IsAssignableFrom`. */
  method CheckArgumentsAssignable(u: Universe, owner: TypeInfo, ps: seq<TypeInfo>, qs: seq<TypeInfo>)
    returns (r: Result<bool, TypeError>)
    requires WellFormed(u) && owner.ParamInfo?
    requires |ps| == |qs|
    requires forall p :: p in ps ==> AssignRank(u, p) < NestingRank(u, owner.rawType)
    ensures r == AllAssignable(u, owner, ps, qs)
  {
    var i := 0;
    while i < |ps|
      invariant 0 <= i <= |ps|
      invariant AllAssignable(u, owner, ps[i..], qs[i..]) == AllAssignable(u, owner, ps, qs)
    {
      var b := IsAssignableFrom(u, ps[i], qs[i]);
      if b.Err? {
        return Err(b.error);
      }
      if !b.value {
        return Ok(false);
      }
      assert ps[i..][1..] == ps[i + 1..] && qs[i..][1..] == qs[i + 1..];
      i := i + 1;
    }
    return Ok(true);
  }

  /**
   * `IsResolvedCompletely`: false without arguments; false as soon as an
   * argument's info is an incompletely resolved parameterized info or is not
   * a class info.
   */
  predicate IsResolvedCompletely(u: Universe, p: TypeInfo)
    requires WellFormed(u) && p.ParamInfo?
    decreases NestingRank(u, p.rawType), 1
  {
    var arguments := Raw(u, p.rawType).genericArguments;
    |arguments| > 0 && ArgumentsResolved(u, p, arguments)
  }

  predicate ArgumentsResolved(u: Universe, p: TypeInfo, ts: seq<TypeId>)
    requires WellFormed(u) && p.ParamInfo?
    requires forall t :: t in ts ==> NestingRank(u, t) < NestingRank(u, p.rawType) && Raw(u, t).kind != OtherKind
    decreases NestingRank(u, p.rawType), 0, |ts|
  {
    if ts == [] then true
    else
      var info := CreateInfo(u, p, ts[0]).value;
      && (info.ParamInfo? ==> IsResolvedCompletely(u, info))
      && info.ClassInfo?
      && ArgumentsResolved(u, p, ts[1..])
  }

  /** The foreach loop of `IsResolvedCompletely`. */
  method CheckResolvedCompletely(u: Universe, p: TypeInfo) returns (b: bool)
    requires WellFormed(u) && p.ParamInfo?
    ensures b == IsResolvedCompletely(u, p)
  {
    var types := Raw(u, p.rawType).genericArguments;
    if |types| == 0 {
      return false;
    }
    var i := 0;
    while i < |types|
      invariant 0 <= i <= |types|
      invariant ArgumentsResolved(u, p, types[i..]) == ArgumentsResolved(u, p, types)
    {
      var info := CreateInfo(u, p, types[i]).value;
      if info.ParamInfo? {
        if !IsResolvedCompletely(u, info) {
          return false;
        }
      }
      if !info.ClassInfo? {
        return false;
      }
      assert types[i..][1..] == types[i + 1..];
      i := i + 1;
    }
    return true;
  }

  /**
   * The recursion into nested parameterized arguments never decides anything:
   * an argument whose info is parameterized is not a class info, so the
   * result is just "some argument, and every argument's info is a class info".
   */
  lemma {:induction false} ArgumentsResolvedIff(u: Universe, p: TypeInfo, ts: seq<TypeId>)
    requires WellFormed(u) && p.ParamInfo?
    requires forall t :: t in ts ==> NestingRank(u, t) < NestingRank(u, p.rawType) && Raw(u, t).kind != OtherKind
    ensures ArgumentsResolved(u, p, ts) <==> forall k :: 0 <= k < |ts| ==> CreateInfo(u, p, ts[k]).value.ClassInfo?
  {
    if ts != [] {
      ArgumentsResolvedIff(u, p, ts[1..]);
      assert forall k :: 1 <= k < |ts| ==> ts[k] == ts[1..][k - 1];
    }
  }

  lemma ResolvedCompletelyIff(u: Universe, p: TypeInfo)
    requires WellFormed(u) && p.ParamInfo?
    ensures IsResolvedCompletely(u, p) <==>
              var args := Raw(u, p.rawType).genericArguments;
              |args| > 0 && forall k :: 0 <= k < |args| ==> CreateInfo(u, p, args[k]).value.ClassInfo?
  {
    ArgumentsResolvedIff(u, p, Raw(u, p.rawType).genericArguments);
  }

  /** The field lookup walk of `GetPropertyInformation`, from type `t` up the base chain. */
  function FindField(u: Universe, t: TypeId, name: string): (r: Result<Option<Field>, TypeError>)
    requires WellFormed(u)
    decreases InheritanceRank(u, t)
    ensures r.Ok? && r.value.Some? ==> r.value.value.name == name
    ensures GetField(Raw(u, t).fields, name).Some? ==> r == Ok(GetField(Raw(u, t).fields, name))
    ensures GetField(Raw(u, t).fields, name).None? && BaseType(u, t) == Some(ObjectType) ==> r == Ok(None)
    ensures GetField(Raw(u, t).fields, name).None? && BaseType(u, t).None? ==> r == Err(NullReference)
  {
    match GetField(Raw(u, t).fields, name)
    case Some(f) => Ok(Some(f))
    case None =>
      match BaseType(u, t)
      case None => Err(NullReference)
      case Some(b) => if b == ObjectType then Ok(None) else FindField(u, b, name)
  }

  /** The do-while loop of `GetPropertyInformation`. */
  method WalkFields(u: Universe, start: TypeId, name: string) returns (r: Result<Option<Field>, TypeError>)
    requires WellFormed(u)
    ensures r == FindField(u, start, name)
  {
    var t := start;
    while true
      invariant FindField(u, t, name) == FindField(u, start, name)
      decreases InheritanceRank(u, t)
    {
      var field := GetField(Raw(u, t).fields, name);
      if field.Some? {
        return Ok(field);
      }
      match BaseType(u, t) {
        case None =>
          return Err(NullReference);
        case Some(b) =>
          if b == ObjectType {
            return Ok(None);
          }
          t := b;
      }
    }
  }

  /** `GetPropertyInformation`: the info of the first field called `name` on the base chain, or null. */
  function GetPropertyInformation(u: Universe, info: TypeInfo, name: string): (r: Result<Option<TypeInfo>, TypeError>)
    requires WellFormed(u)
    ensures r.Ok? && r.value.Some? ==>
              FindField(u, Type(u, info), name).Ok? && FindField(u, Type(u, info), name).value.Some?
              && CreateInfo(u, info, FindField(u, Type(u, info), name).value.value.fieldType) == Ok(r.value.value)
    ensures FindField(u, Type(u, info), name) == Ok(None) ==> r == Ok(None)
    // a failed walk is passed on
    ensures FindField(u, Type(u, info), name).Err? ==> r == Err(FindField(u, Type(u, info), name).error)
    // a found field gives its type's info, or the failure of making it
    ensures var found := FindField(u, Type(u, info), name);
            found.Ok? && found.value.Some? ==>
              var made := CreateInfo(u, info, found.value.value.fieldType);
              && (made.Ok? ==> r == Ok(Some(made.value)))
              && (made.Err? ==> r == Err(made.error))
  {
    var field :- FindField(u, Type(u, info), name);
    match field
    case None => Ok(None)
    case Some(f) =>
      var c :- CreateInfo(u, info, f.fieldType);
      Ok(Some(c))
  }

  /**
   * `GetProperty` on an instance whose field cache is still empty: a plain
   * name is looked up on the field walk; a dotted name finds no cached head
   * and answers null.
   */
  function GetProperty(u: Universe, info: TypeInfo, name: string): (r: Result<Option<TypeInfo>, TypeError>)
    requires WellFormed(u)
  {
    if '.' in name then Ok(None) else GetPropertyInformation(u, info, name)
  }
}
