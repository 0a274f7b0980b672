/**
 * Persistent entities and their preferred constructors: `BasicPersistentEntity`,
 * `Parameter`, `PreferredConstructor` and `PreferredConstructorDiscoverer`.
 * They form one module because a parameter refers back to the entity whose
 * constructor it belongs to, and the entity holds that constructor.
 */
module PersistentEntities {
  import opened Wrappers
  import opened Universe
  import opened TypeInformation
  import opened PersistentProperties

  /** `MappingException`. */
  datatype MappingError = MappingException

  // ---------------------------------------------------------------------------
  // Parameter
  // ---------------------------------------------------------------------------

  /** `GetValue`: the `[Value]` expression on the parameter's type, or "" when there is none. */
  function KeyOf(u: Universe, typ: TypeInfo): string
  {
    Raw(u, Type(u, typ)).valueExpression.GetOr("")
  }

  class Parameter {
    const name: Option<string>
    const typ: TypeInfo
    const key: string
    const entity: BasicPersistentEntity?
    var enclosingClassCache: Option<bool>

    constructor (u: Universe, name: Option<string>, typ: TypeInfo, entity: BasicPersistentEntity?)
      ensures this.name == name && this.typ == typ && this.entity == entity
      ensures key == KeyOf(u, typ) && enclosingClassCache.None?
    {
      this.name := name;
      this.typ := typ;
      this.key := KeyOf(u, typ);
      this.entity := entity;
      enclosingClassCache := None;
    }

    /** `HasSpelExpression`: the key is not empty. */
    predicate HasSpelExpression()
    {
      key != ""
    }

    /**
     * `Maps(property)`: the property is present and equals the entity's
     * property of this parameter's name (null without an entity or a name).
     */
    predicate Maps(property: Option<PersistentProperty>)
      reads entity
    {
      && property.Some?
      && entity != null
      && name.Some?
      && match entity.GetPersistentProperty(name.value)
         case Some(q) => PropertyEquals(property.value, q)
         case None => false
    }

    /** The owning entity's type is nested and is this parameter's type. */
    predicate EnclosingClass(u: Universe)
      requires entity != null
    {
      Raw(u, Type(u, entity.information)).isNested && Type(u, typ) == Type(u, entity.information)
    }

    /** What `IsEnclosingClassParameter` answers; without an entity the source dereferences null. */
    function EnclosingClassAnswer(u: Universe): Result<bool, TypeError>
    {
      if entity == null then Err(NullReference) else Ok(EnclosingClass(u))
    }

    /** A filled cache holds the answer. */
    ghost predicate Valid(u: Universe)
      reads this
    {
      enclosingClassCache.Some? ==> entity != null && enclosingClassCache.value == EnclosingClass(u)
    }

    /** `IsEnclosingClassParameter`: computed on first use, then read from the cache. */
    method IsEnclosingClassParameter(u: Universe) returns (r: Result<bool, TypeError>)
      requires Valid(u)
      modifies this
      ensures Valid(u)
      ensures r == EnclosingClassAnswer(u)
      ensures old(enclosingClassCache).Some? ==> enclosingClassCache == old(enclosingClassCache)
      ensures entity != null ==> enclosingClassCache == Some(EnclosingClass(u))
      ensures entity == null ==> enclosingClassCache == old(enclosingClassCache)
    {
      if enclosingClassCache.None? {
        if entity == null {
          return Err(NullReference);
        }
        enclosingClassCache := Some(EnclosingClass(u));
      }
      return Ok(enclosingClassCache.value);
    }

    /** `Equals`: the same object, or equal name, key and type and the same entity object. */
    predicate Equals(u: Universe, that: Parameter?)
      requires WellFormed(u)
    {
      this == that
      || (that != null && name == that.name && key == that.key
          && TypeInformation.Equals(u, typ, that.typ) && entity == that.entity)
    }
  }

  /** Equal parameters map exactly the same properties, since they share name and entity. */
  lemma EqualParametersMapAlike(u: Universe, a: Parameter, b: Parameter, p: Option<PersistentProperty>)
    requires WellFormed(u) && a.Equals(u, b)
    ensures a.Maps(p) == b.Maps(p)
  {
  }

  // ---------------------------------------------------------------------------
  // PreferredConstructor
  // ---------------------------------------------------------------------------

  /** Some parameter maps the property. */
  predicate AnyMaps(ps: seq<Parameter>, p: PersistentProperty)
    reads set k | 0 <= k < |ps| :: ps[k].entity
  {
    exists k :: 0 <= k < |ps| && ps[k].Maps(Some(p))
  }

  datatype PreferredConstructor = PreferredConstructor(definition: Constructor, parameters: seq<Parameter>)
  {
    predicate HasParameters()
    {
      |parameters| > 0
    }

    predicate IsNoArgConstructor()
    {
      |parameters| == 0
    }

    predicate IsExplicitlyAnnotated()
    {
      definition.persistenceConstructor
    }

    /** The entities the parameters refer to. */
    function Entities(): set<BasicPersistentEntity?>
    {
      set k | 0 <= k < |parameters| :: parameters[k].entity
    }

    /** `IsConstructorParameter`: some parameter maps the property. */
    predicate IsConstructorParameter(p: PersistentProperty)
      reads Entities()
    {
      AnyMaps(parameters, p)
    }

    /**
     * `IsEnclosingClassParameter(x)`: false without parameters; otherwise `x`
     * must equal the first parameter and be an enclosing-class parameter.
     */
    method IsEnclosingClassParameter(u: Universe, x: Parameter) returns (r: Result<bool, TypeError>)
      requires WellFormed(u) && x.Valid(u)
      modifies x
      ensures x.Valid(u)
      ensures |parameters| == 0 || !parameters[0].Equals(u, x) ==> r == Ok(false) && unchanged(x)
      ensures |parameters| > 0 && parameters[0].Equals(u, x) ==> r == x.EnclosingClassAnswer(u)
    {
      if |parameters| == 0 {
        return Ok(false);
      }
      if !parameters[0].Equals(u, x) {
        return Ok(false);
      }
      r := x.IsEnclosingClassParameter(u);
    }
  }

  /** Exactly one of `HasParameters` and `IsNoArgConstructor` holds. */
  lemma ParametersOrNoArg(c: PreferredConstructor)
    ensures c.HasParameters() != c.IsNoArgConstructor()
  {
  }

  // ---------------------------------------------------------------------------
  // PreferredConstructorDiscoverer
  // ---------------------------------------------------------------------------

  /**
   * Why building the preferred constructor for `c` fails: a parameter type
   * without type information, or a name array shorter than the parameter list.
   */
  function BuildError(u: Universe, info: TypeInfo, c: Constructor): Option<TypeError>
  {
    match CreateInfos(u, info, c.parameterTypes)
    case Err(e) => Some(e)
    case Ok(types) =>
      if |types| > 0 && c.parameterNames.Some? && |c.parameterNames.value| < |types| then Some(IndexOutOfRange)
      else None
  }

  /** The name the discoverer reports for parameter `k`, null when it reports no names. */
  function NameAt(c: Constructor, k: nat): Option<string>
  {
    if c.parameterNames.Some? && k < |c.parameterNames.value| then Some(c.parameterNames.value[k]) else None
  }

  /**
   * `ps` holds one parameter per type, in order, carrying its type
   * information, the name reported for its position, and the entity.
   */
  predicate ParametersFor(u: Universe, c: Constructor, types: seq<TypeInfo>, entity: BasicPersistentEntity?,
                          ps: seq<Parameter>)
  {
    && |ps| == |types|
    && forall k :: 0 <= k < |ps| ==>
         && ps[k].typ == types[k] && ps[k].name == NameAt(c, k)
         && ps[k].key == KeyOf(u, types[k]) && ps[k].entity == entity
  }

  /** `pc` is what `BuildPreferredConstructor` makes of `c`. */
  predicate Built(u: Universe, info: TypeInfo, c: Constructor, entity: BasicPersistentEntity?, pc: PreferredConstructor)
  {
    && pc.definition == c
    && CreateInfos(u, info, c.parameterTypes).Ok?
    && ParametersFor(u, c, CreateInfos(u, info, c.parameterTypes).value, entity, pc.parameters)
  }

  /** The loop of `BuildPreferredConstructor` filling the parameter array. */
  method MakeParameters(u: Universe, c: Constructor, types: seq<TypeInfo>, entity: BasicPersistentEntity?)
    returns (ps: seq<Parameter>)
    requires c.parameterNames.Some? ==> |types| <= |c.parameterNames.value|
    ensures ParametersFor(u, c, types, entity, ps)
  {
    ps := [];
    var i := 0;
    while i < |types|
      invariant 0 <= i <= |types| && |ps| == i
      invariant forall k :: 0 <= k < i ==>
                  && ps[k].typ == types[k] && ps[k].name == NameAt(c, k)
                  && ps[k].key == KeyOf(u, types[k]) && ps[k].entity == entity
    {
      var name := if c.parameterNames.None? then None else Some(c.parameterNames.value[i]);
      var parameter := new Parameter(u, name, types[i], entity);
      ps := ps + [parameter];
      i := i + 1;
    }
  }

  /** `BuildPreferredConstructor`: no parameters for a no-arg constructor, else one per parameter type. */
  method BuildPreferredConstructor(u: Universe, info: TypeInfo, c: Constructor, entity: BasicPersistentEntity?)
    returns (r: Result<PreferredConstructor, TypeError>)
    ensures r.Err? <==> BuildError(u, info, c).Some?
    ensures r.Err? ==> r.error == BuildError(u, info, c).value
    ensures r.Ok? ==> Built(u, info, c, entity, r.value)
  {
    var collected := CollectInfos(u, info, c.parameterTypes);
    if collected.Err? {
      return Err(collected.error);
    }
    var types := collected.value;
    if |types| == 0 {
      return Ok(PreferredConstructor(c, []));
    }
    if c.parameterNames.Some? && |c.parameterNames.value| < |types| {
      return Err(IndexOutOfRange);
    }
    var parameters := MakeParameters(u, c, types, entity);
    return Ok(PreferredConstructor(c, parameters));
  }

  /** The discoverer's loop state: the index chosen so far, whether a no-arg constructor was seen, how many others. */
  datatype Selection = Selection(chosen: Option<nat>, noArgFound: bool, argCount: nat)

  /**
   * The selection rule from constructor `i` on: an annotated constructor is
   * taken at once; otherwise the first constructor is kept until a no-arg
   * one replaces it; at the end, several argument constructors and no no-arg
   * one leave nothing chosen.
   */
  function Select(cs: seq<Constructor>, i: nat, s: Selection): Option<nat>
    requires i <= |cs|
    decreases |cs| - i
  {
    if i == |cs| then
      if !s.noArgFound && s.argCount > 1 then None else s.chosen
    else if cs[i].persistenceConstructor then Some(i)
    else Select(cs, i + 1, Advance(s, i, |cs[i].parameterTypes| == 0))
  }

  /** The loop state after an unannotated constructor `i`, no-arg or not. */
  function Advance(s: Selection, i: nat, noArg: bool): Selection
  {
    Selection(if s.chosen.None? || noArg then Some(i) else s.chosen,
              s.noArgFound || noArg,
              s.argCount + if noArg then 0 else 1)
  }

  /** The index of the preferred constructor, if any. */
  function Preferred(cs: seq<Constructor>): Option<nat>
  {
    Select(cs, 0, Selection(None, false, 0))
  }

  /** The first failure met before the loop stops at an annotated constructor. */
  function FirstBuildError(u: Universe, info: TypeInfo, cs: seq<Constructor>, i: nat): Option<TypeError>
    requires i <= |cs|
    decreases |cs| - i
  {
    if i == |cs| then None
    else if BuildError(u, info, cs[i]).Some? then BuildError(u, info, cs[i])
    else if cs[i].persistenceConstructor then None
    else FirstBuildError(u, info, cs, i + 1)
  }

  /** A built constructor has no parameters exactly when the source constructor has no parameter types. */
  lemma BuiltNoArg(u: Universe, info: TypeInfo, c: Constructor, entity: BasicPersistentEntity?, pc: PreferredConstructor)
    requires Built(u, info, c, entity, pc)
    ensures pc.IsNoArgConstructor() <==> |c.parameterTypes| == 0
    ensures pc.IsExplicitlyAnnotated() <==> c.persistenceConstructor
  {
  }

  /**
   * The discoverer's loop state after the constructors before `i`: the
   * selection rule from `i` on gives the preferred one, no failure was met,
   * and the constructor chosen so far was built from `cs[index]`.
   */
  ghost predicate Scanned(u: Universe, info: TypeInfo, cs: seq<Constructor>, entity: BasicPersistentEntity?, i: nat,
                          chosen: Option<PreferredConstructor>, index: Option<nat>, noArgFound: bool, argCount: nat)
    requires i <= |cs|
  {
    && Select(cs, i, Selection(index, noArgFound, argCount)) == Preferred(cs)
    && FirstBuildError(u, info, cs, i) == FirstBuildError(u, info, cs, 0)
    && (chosen.Some? <==> index.Some?)
    && (index.Some? ==> index.value < i && Built(u, info, cs[index.value], entity, chosen.value))
  }

  /**
   * One unannotated constructor in the discoverer's loop: it is chosen when
   * nothing is yet or when it has no arguments, and it is counted.
   */
  method Tally(ghost u: Universe, ghost info: TypeInfo, ghost cs: seq<Constructor>, ghost entity: BasicPersistentEntity?,
               chosen: Option<PreferredConstructor>, ghost index: Option<nat>, noArgFound: bool, argCount: nat,
               i: nat, pc: PreferredConstructor)
    returns (chosen': Option<PreferredConstructor>, ghost index': Option<nat>, noArgFound': bool, argCount': nat)
    requires i < |cs| && !cs[i].persistenceConstructor && Built(u, info, cs[i], entity, pc)
    requires BuildError(u, info, cs[i]).None?
    requires Scanned(u, info, cs, entity, i, chosen, index, noArgFound, argCount)
    ensures Selection(index', noArgFound', argCount') == Advance(Selection(index, noArgFound, argCount), i, pc.IsNoArgConstructor())
    ensures (index' == index && chosen' == chosen) || (index' == Some(i) && chosen' == Some(pc))
    ensures Scanned(u, info, cs, entity, i + 1, chosen', index', noArgFound', argCount')
  {
    chosen', index', noArgFound', argCount' := chosen, index, noArgFound, argCount;
    BuiltNoArg(u, info, cs[i], entity, pc);
    if chosen.None? || pc.IsNoArgConstructor() {
      chosen' := Some(pc);
      index' := Some(i);
    }
    if pc.IsNoArgConstructor() {
      noArgFound' := true;
    } else {
      argCount' := argCount + 1;
    }
    SelectStep(u, info, cs, i, Selection(index, noArgFound, argCount), pc.IsNoArgConstructor());
  }

  /** Past an unannotated constructor that builds, the selection and the first failure are those from the next one. */
  lemma SelectStep(u: Universe, info: TypeInfo, cs: seq<Constructor>, i: nat, s: Selection, noArg: bool)
    requires i < |cs| && !cs[i].persistenceConstructor && BuildError(u, info, cs[i]).None?
    requires noArg <==> |cs[i].parameterTypes| == 0
    ensures Select(cs, i, s) == Select(cs, i + 1, Advance(s, i, noArg))
    ensures FirstBuildError(u, info, cs, i) == FirstBuildError(u, info, cs, i + 1)
  {
  }

  /** The constructor loop of `PreferredConstructorDiscoverer`. */
  method DiscoverPreferredConstructor(u: Universe, info: TypeInfo, entity: BasicPersistentEntity?)
    returns (r: Result<Option<PreferredConstructor>, TypeError>)
    ensures var cs := Raw(u, Type(u, info)).constructors;
            && (r.Err? <==> FirstBuildError(u, info, cs, 0).Some?)
            && (r.Err? ==> r.error == FirstBuildError(u, info, cs, 0).value)
            && (r.Ok? ==> (r.value.Some? <==> Preferred(cs).Some?))
            && (r.Ok? && r.value.Some? ==> Preferred(cs).value < |cs|
                                           && Built(u, info, cs[Preferred(cs).value], entity, r.value.value))
  {
    r := ScanConstructors(u, info, Raw(u, Type(u, info)).constructors, entity);
  }

  /** The constructor loop of the discoverer over the declared constructors `cs`. */
  method ScanConstructors(u: Universe, info: TypeInfo, cs: seq<Constructor>, entity: BasicPersistentEntity?)
    returns (r: Result<Option<PreferredConstructor>, TypeError>)
    ensures r.Err? <==> FirstBuildError(u, info, cs, 0).Some?
    ensures r.Err? ==> r.error == FirstBuildError(u, info, cs, 0).value
    ensures r.Ok? ==> (r.value.Some? <==> Preferred(cs).Some?)
    ensures r.Ok? && r.value.Some? ==> Preferred(cs).value < |cs| && Built(u, info, cs[Preferred(cs).value], entity, r.value.value)
  {
    var chosen: Option<PreferredConstructor> := None;
    var noArgFound := false;
    var argCount := 0;
    ghost var index: Option<nat> := None;
    var i := 0;
    while i < |cs|
      invariant 0 <= i <= |cs|
      invariant Scanned(u, info, cs, entity, i, chosen, index, noArgFound, argCount)
    {
      var built := BuildPreferredConstructor(u, info, cs[i], entity);
      if built.Err? {
        return Err(built.error);
      }
      var pc := built.value;
      if pc.IsExplicitlyAnnotated() {
        BuiltNoArg(u, info, cs[i], entity, pc);
        assert Preferred(cs) == Some(i);
        return Ok(Some(pc));
      }
      BuiltNoArg(u, info, cs[i], entity, pc);
      chosen, index, noArgFound, argCount := Tally(u, info, cs, entity, chosen, index, noArgFound, argCount, i, pc);
      i := i + 1;
    }
    assert Preferred(cs) == if !noArgFound && argCount > 1 then None else index;
    if !noArgFound && argCount > 1 {
      chosen := None;
    }
    return Ok(chosen);
  }

  /** From any point before it, the first annotated constructor is the one chosen. */
  lemma {:induction false} AnnotatedFromHere(cs: seq<Constructor>, i: nat, s: Selection, k: nat)
    requires i <= k < |cs| && cs[k].persistenceConstructor
    requires forall j :: i <= j < k ==> !cs[j].persistenceConstructor
    ensures Select(cs, i, s) == Some(k)
    decreases k - i
  {
    if i < k {
      AnnotatedFromHere(cs, i + 1, Advance(s, i, |cs[i].parameterTypes| == 0), k);
    }
  }

  /** The first `[PersistenceConstructor]` constructor wins over everything. */
  lemma AnnotatedConstructorWins(cs: seq<Constructor>, k: nat)
    requires k < |cs| && cs[k].persistenceConstructor
    requires forall j :: 0 <= j < k ==> !cs[j].persistenceConstructor
    ensures Preferred(cs) == Some(k)
  {
    AnnotatedFromHere(cs, 0, Selection(None, false, 0), k);
  }

  /** After the last no-arg constructor, argument constructors never replace it. */
  lemma {:induction false} NoArgKept(cs: seq<Constructor>, i: nat, s: Selection, k: nat)
    requires i <= |cs| && k < i
    requires s.chosen == Some(k) && s.noArgFound
    requires forall j :: i <= j < |cs| ==> !cs[j].persistenceConstructor && |cs[j].parameterTypes| > 0
    ensures Select(cs, i, s) == Some(k)
    decreases |cs| - i
  {
    if i < |cs| {
      NoArgKept(cs, i + 1, Selection(s.chosen, true, s.argCount + 1), k);
    }
  }

  /** Up to the last no-arg constructor `k`, whatever was chosen is replaced by `k`. */
  lemma {:induction false} NoArgReached(cs: seq<Constructor>, i: nat, s: Selection, k: nat)
    requires i <= k < |cs| && |cs[k].parameterTypes| == 0
    requires forall j :: i <= j < |cs| ==> !cs[j].persistenceConstructor
    requires forall j :: k < j < |cs| ==> |cs[j].parameterTypes| > 0
    ensures Select(cs, i, s) == Some(k)
    decreases k - i
  {
    var next := Advance(s, i, |cs[i].parameterTypes| == 0);
    if i < k {
      NoArgReached(cs, i + 1, next, k);
    } else {
      NoArgKept(cs, i + 1, next, k);
    }
  }

  /** Without annotations, the last no-arg constructor is chosen. */
  lemma LastNoArgConstructorWins(cs: seq<Constructor>, k: nat)
    requires k < |cs| && |cs[k].parameterTypes| == 0
    requires forall j :: 0 <= j < |cs| ==> !cs[j].persistenceConstructor
    requires forall j :: k < j < |cs| ==> |cs[j].parameterTypes| > 0
    ensures Preferred(cs) == Some(k)
  {
    NoArgReached(cs, 0, Selection(None, false, 0), k);
  }

  /** Over argument constructors only, the count grows by one per constructor and the first is kept. */
  lemma {:induction false} ArgumentsOnlyFromHere(cs: seq<Constructor>, i: nat, s: Selection)
    requires i <= |cs| && !s.noArgFound
    requires s.chosen.None? ==> s.argCount == 0
    requires forall j :: i <= j < |cs| ==> !cs[j].persistenceConstructor && |cs[j].parameterTypes| > 0
    ensures Select(cs, i, s) ==
              if s.argCount + (|cs| - i) > 1 then None
              else if s.chosen.Some? then s.chosen
              else if i < |cs| then Some(i) else None
    decreases |cs| - i
  {
    if i < |cs| {
      ArgumentsOnlyFromHere(cs, i + 1, Selection(if s.chosen.None? then Some(i) else s.chosen, false, s.argCount + 1));
    }
  }

  /**
   * Without annotations and without a no-arg constructor, a single
   * constructor is chosen, and none when there are zero or several.
   */
  lemma ArgumentConstructorsOnly(cs: seq<Constructor>)
    requires forall j :: 0 <= j < |cs| ==> !cs[j].persistenceConstructor && |cs[j].parameterTypes| > 0
    ensures Preferred(cs) == if |cs| == 1 then Some(0) else None
  {
    ArgumentsOnlyFromHere(cs, 0, Selection(None, false, 0));
  }

  // ---------------------------------------------------------------------------
  // BasicPersistentEntity
  // ---------------------------------------------------------------------------

  /** Some property wraps the field. */
  predicate HasField(ps: seq<PersistentProperty>, f: Field)
  {
    exists k :: 0 <= k < |ps| && ps[k].field == f
  }

  /** Appending keeps every field present and adds the new one. */
  lemma HasFieldAppend(ps: seq<PersistentProperty>, p: PersistentProperty)
    ensures HasField(ps + [p], p.field)
    ensures forall f :: HasField(ps, f) ==> HasField(ps + [p], f)
  {
    assert (ps + [p])[|ps|] == p;
    forall f | HasField(ps, f) ensures HasField(ps + [p], f) {
      var k :| 0 <= k < |ps| && ps[k].field == f;
      assert (ps + [p])[k] == ps[k];
    }
  }

  /** `FirstOrDefault(property => property.Name == name)`. */
  function FirstWithName(ps: seq<PersistentProperty>, name: string): (r: Option<PersistentProperty>)
    ensures r.None? <==> forall k :: 0 <= k < |ps| ==> ps[k].Name() != name
    ensures r.Some? ==> r.value.Name() == name
    ensures r.Some? ==> exists k :: 0 <= k < |ps| && ps[k] == r.value && r.value.Name() == name
                                   && forall j :: 0 <= j < k ==> ps[j].Name() != name
  {
    if ps == [] then None
    else if ps[0].Name() == name then Some(ps[0])
    else
      var r := FirstWithName(ps[1..], name);
      assert forall k :: 1 <= k < |ps| ==> ps[k] == ps[1..][k - 1];
      if r.Some? then
        assert exists k :: 0 <= k < |ps| && ps[k] == r.value && r.value.Name() == name
                           && forall j :: 0 <= j < k ==> ps[j].Name() != name by {
          var k :| 0 <= k < |ps[1..]| && ps[1..][k] == r.value && r.value.Name() == name
                   && forall j :: 0 <= j < k ==> ps[1..][j].Name() != name;
          assert ps[k + 1] == r.value;
          forall j | 0 <= j < k + 1 ensures ps[j].Name() != name {
            if j > 0 { assert ps[j] == ps[1..][j - 1]; }
          }
        }
        r
      else r
  }

  /** The properties `DoWithProperties` hands to its handler: neither transient nor associations. */
  function Persistable(ps: seq<PersistentProperty>): seq<PersistentProperty>
  {
    if ps == [] then []
    else (if !ps[0].IsTransient() && !ps[0].IsAssociation() then [ps[0]] else []) + Persistable(ps[1..])
  }

  /** `Persistable` keeps exactly the non-transient non-association properties, none twice more than given. */
  lemma {:induction false} PersistableFilters(ps: seq<PersistentProperty>)
    ensures forall p :: p in Persistable(ps) <==> p in ps && !p.IsTransient() && !p.IsAssociation()
    ensures |Persistable(ps)| <= |ps|
  {
    if ps != [] {
      PersistableFilters(ps[1..]);
      assert ps == [ps[0]] + ps[1..];
    }
  }

  class BasicPersistentEntity {
    const information: TypeInfo
    var persistenceConstructor: Option<PreferredConstructor>
    var properties: seq<PersistentProperty>     // a set: no two wrap the same field
    var associations: seq<Association>          // a set of associations
    var idProperty: Option<PersistentProperty>
    var versionProperty: Option<PersistentProperty>

    /** The property set holds each field once, and the id and version slots hold registered properties of their kind. */
    ghost predicate Valid()
      reads this
    {
      && (forall i, j :: 0 <= i < j < |properties| ==> properties[i].field != properties[j].field)
      && (idProperty.Some? ==> idProperty.value.IsIdProperty() && HasField(properties, idProperty.value.field))
      && (versionProperty.Some? ==>
            versionProperty.value.IsVersionProperty() && HasField(properties, versionProperty.value.field))
    }

    constructor (information: TypeInfo)
      ensures this.information == information && Valid()
      ensures persistenceConstructor.None? && properties == [] && associations == []
      ensures idProperty.None? && versionProperty.None?
    {
      this.information := information;
      persistenceConstructor := None;
      properties := [];
      associations := [];
      idProperty := None;
      versionProperty := None;
    }

    /**
     * `new BasicPersistentEntity(information)`: an empty entity whose
     * preferred constructor the discoverer picks, with this entity in its parameters.
     */
    static method New(u: Universe, information: TypeInfo) returns (r: Result<BasicPersistentEntity, TypeError>)
      ensures var cs := Raw(u, Type(u, information)).constructors;
              && (r.Err? <==> FirstBuildError(u, information, cs, 0).Some?)
              && (r.Ok? ==>
                    && r.value.information == information && r.value.Valid()
                    && r.value.properties == [] && r.value.associations == []
                    && r.value.idProperty.None? && r.value.versionProperty.None?
                    && (r.value.persistenceConstructor.Some? <==> Preferred(cs).Some?)
                    && (r.value.persistenceConstructor.Some? ==>
                          Preferred(cs).value < |cs|
                          && Built(u, information, cs[Preferred(cs).value], r.value, r.value.persistenceConstructor.value)))
      ensures r.Ok? ==> fresh(r.value)
    {
      var entity := new BasicPersistentEntity(information);
      var found := DiscoverPreferredConstructor(u, information, entity);
      if found.Err? {
        return Err(found.error);
      }
      entity.persistenceConstructor := found.value;
      return Ok(entity);
    }

    /** `IsConstructorArgument`: false without a preferred constructor. */
    predicate IsConstructorArgument(p: PersistentProperty)
      reads this, if persistenceConstructor.Some? then persistenceConstructor.value.Entities() else {}
    {
      persistenceConstructor.Some? && persistenceConstructor.value.IsConstructorParameter(p)
    }

    /** `IsIdProperty(p)`: the id slot is set and equals `p`. */
    predicate IsIdProperty(p: PersistentProperty)
      reads this
    {
      idProperty.Some? && PropertyEquals(idProperty.value, p)
    }

    /** `IsVersionProperty(p)`: the version slot is set and equals `p`. */
    predicate IsVersionProperty(p: PersistentProperty)
      reads this
    {
      versionProperty.Some? && PropertyEquals(versionProperty.value, p)
    }

    predicate HasIdProperty()
      reads this
    {
      idProperty.Some?
    }

    predicate HasVersionProperty()
      reads this
    {
      versionProperty.Some?
    }

    /**
     * `AddPersistentProperty`: the property joins the set first (a property
     * with the same field keeps its place); then a second id or version
     * property is refused with the slot left as it was.
     */
    method AddPersistentProperty(p: PersistentProperty) returns (r: Result<(), MappingError>)
      requires Valid()
      modifies this
      ensures Valid()
      ensures properties == if HasField(old(properties), p.field) then old(properties) else old(properties) + [p]
      ensures associations == old(associations) && persistenceConstructor == old(persistenceConstructor)
      ensures r.Err? <==> (p.IsIdProperty() && old(idProperty).Some?)
                          || (p.IsVersionProperty() && old(versionProperty).Some?)
      ensures idProperty == if p.IsIdProperty() && old(idProperty).None? then Some(p) else old(idProperty)
      ensures versionProperty ==
                if p.IsVersionProperty() && old(versionProperty).None? && !(p.IsIdProperty() && old(idProperty).Some?)
                then Some(p) else old(versionProperty)
    {
      if !HasField(properties, p.field) {
        HasFieldAppend(properties, p);
        properties := properties + [p];
      }
      assert HasField(properties, p.field);
      if p.IsIdProperty() {
        if idProperty.Some? {
          return Err(MappingException);
        }
        idProperty := Some(p);
      }
      if p.IsVersionProperty() {
        if versionProperty.Some? {
          return Err(MappingException);
        }
        versionProperty := Some(p);
      }
      return Ok(());
    }

    /** `AddAssociation`: adds to the association set. */
    method AddAssociation(a: Association)
      modifies this
      ensures associations == if a in old(associations) then old(associations) else old(associations) + [a]
      ensures properties == old(properties) && idProperty == old(idProperty)
      ensures versionProperty == old(versionProperty) && persistenceConstructor == old(persistenceConstructor)
    {
      if a !in associations {
        associations := associations + [a];
      }
    }

    /** `GetPersistentProperty(name)`: the first property with that name, or null. */
    function GetPersistentProperty(name: string): (r: Option<PersistentProperty>)
      reads this
      ensures r.None? <==> forall k :: 0 <= k < |properties| ==> properties[k].Name() != name
      ensures r.Some? ==> r.value in properties && r.value.Name() == name
    {
      FirstWithName(properties, name)
    }

    /** `DoWithProperties`: the properties handed to the handler, in order. */
    method DoWithProperties() returns (visited: seq<PersistentProperty>)
      ensures visited == Persistable(properties)
    {
      visited := [];
      var i := 0;
      while i < |properties|
        invariant 0 <= i <= |properties|
        invariant visited + Persistable(properties[i..]) == Persistable(properties)
      {
        assert properties[i..][1..] == properties[i + 1..];
        if !properties[i].IsTransient() && !properties[i].IsAssociation() {
          visited := visited + [properties[i]];
        }
        i := i + 1;
      }
    }

    /** `DoWithAssociations`: every association is handed to the handler, in order. */
    method DoWithAssociations() returns (visited: seq<Association>)
      ensures visited == associations
    {
      visited := [];
      var i := 0;
      while i < |associations|
        invariant 0 <= i <= |associations| && visited == associations[..i]
      {
        assert associations[..i + 1] == associations[..i] + [associations[i]];
        visited := visited + [associations[i]];
        i := i + 1;
      }
      assert associations[..i] == associations;
    }

    /** `Verify`: the base entity accepts itself. */
    method Verify() returns (r: Result<(), MappingError>)
      ensures r.Ok?
    {
      return Ok(());
    }
  }
}
