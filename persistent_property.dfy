/**
 * Persistent properties: `AbstractPersistentProperty` with the attribute-driven
 * overrides of `AnnotationBasedPersistentProperty`. A property is fixed once
 * built, so it is a value. The owning entity is kept as its type information,
 * the only part of the owner the property reads.
 */
module PersistentProperties {
  import opened Wrappers
  import opened Universe
  import opened TypeInformation
  import opened SimpleTypes

  /**
   * An association between two properties. Its ends are named by their
   * fields, which is what property equality compares.
   */
  datatype Association = Association(inverse: Field, obverse: Option<Field>)

  datatype PersistentProperty = PersistentProperty(
    field: Field,
    ownerType: TypeInfo,
    information: Option<TypeInfo>,   // owner.TypeInformation.GetProperty(name), possibly null
    association: Option<Association>,
    simpleTypeHolder: SimpleTypeHolder)
  {
    function Name(): string { field.name }

    function RawType(): TypeId { field.fieldType }

    /** `[Transient]`, `[Value]` or `[Autowired]`. */
    predicate IsTransient()
    {
      field.transient || field.value.Some? || field.autowired
    }

    predicate ShallBePersisted() { !IsTransient() }

    /** `[Reference]` on a property that is not transient. */
    predicate IsAssociation()
    {
      !IsTransient() && field.reference
    }

    predicate IsIdProperty() { field.id }

    predicate IsVersionProperty() { field.version }

    /** The `[Value]` expression, or null. */
    function SpelExpression(): Option<string> { field.value }
  }

  /**
   * The constructor. The association is decided by the base constructor,
   * before the annotation-based constructor has read `[Value]` and
   * `[Autowired]`, so only `[Transient]` can veto it. `CreateAssociation` is
   * abstract in the source; `made` is the association the concrete class builds.
   */
  function NewProperty(u: Universe, field: Field, owner: TypeInfo, holder: SimpleTypeHolder, made: Association)
    : (r: Result<PersistentProperty, TypeError>)
    requires WellFormed(u)
    ensures r.Ok? <==> GetProperty(u, owner, field.name).Ok?
    ensures r.Ok? ==> && r.value.field == field && r.value.Name() == field.name
                      && r.value.RawType() == field.fieldType && r.value.ownerType == owner
                      && GetProperty(u, owner, field.name) == Ok(r.value.information)
                      && r.value.simpleTypeHolder == holder
    ensures r.Ok? ==> (r.value.association.Some? <==> !field.transient && field.reference)
                      && (r.value.association.Some? ==> r.value.association.value == made)
  {
    var information :- GetProperty(u, owner, field.name);
    var associationAtConstruction := !field.transient && field.reference;
    Ok(PersistentProperty(field, owner, information,
                          if associationAtConstruction then Some(made) else None, holder))
  }

  /**
   * Because the association is decided before `[Value]` and `[Autowired]` are
   * read, a `[Reference]` field carrying either of them gets an association
   * although it reports that it is not one.
   */
  lemma AssociationSeesOnlyTransientFlag(u: Universe, field: Field, owner: TypeInfo, holder: SimpleTypeHolder,
                                         made: Association)
    requires WellFormed(u)
    requires NewProperty(u, field, owner, holder, made).Ok?
    requires field.reference && !field.transient && (field.value.Some? || field.autowired)
    ensures NewProperty(u, field, owner, holder, made).value.association == Some(made)
    ensures !NewProperty(u, field, owner, holder, made).value.IsAssociation()
  {
  }

  /** An association is never transient, and a persisted property is exactly a non-transient one. */
  lemma AssociationIsPersisted(p: PersistentProperty)
    ensures p.IsAssociation() ==> p.ShallBePersisted()
    ensures p.ShallBePersisted() <==> !(p.field.transient || p.field.value.Some? || p.field.autowired)
  {
  }

  /** `IsCollectionLike`: dereferences the type information. */
  function IsCollectionLikeProperty(u: Universe, p: PersistentProperty): (r: Result<bool, TypeError>)
    ensures p.information.None? <==> r == Err(NullReference)
    ensures r.Ok? ==> r.value == IsCollectionLike(u, p.information.value)
  {
    match p.information
    case None => Err(NullReference)
    case Some(info) => Ok(IsCollectionLike(u, info))
  }

  /** `IsDictionary`: dereferences the type information. */
  function IsDictionaryProperty(u: Universe, p: PersistentProperty): (r: Result<bool, TypeError>)
    requires WellFormed(u)
    ensures p.information.None? <==> r == Err(NullReference)
    ensures r.Ok? ==> r.value == IsDictionary(u, p.information.value)
  {
    match p.information
    case None => Err(NullReference)
    case Some(info) => Ok(IsDictionary(u, info))
  }

  /** The actual type is present and not simple. */
  predicate IsComplex(u: Universe, p: PersistentProperty, actual: Option<TypeInfo>)
  {
    actual.Some? && !IsSimple(u, p.simpleTypeHolder.simpleTypes, Type(u, actual.value))
  }

  /**
   * `IsEntity`: the actual type is present and not simple, and the property is
   * neither transient, collection-like nor a dictionary.
   */
  function IsEntity(u: Universe, p: PersistentProperty): (r: Result<bool, TypeError>)
    requires WellFormed(u)
    ensures p.information.None? ==> r == Err(NullReference)
    ensures r == Ok(true) <==>
              && p.information.Some?
              && ActualType(u, p.information.value).Ok?
              && IsComplex(u, p, ActualType(u, p.information.value).value)
              && !p.IsTransient()
              && !IsCollectionLike(u, p.information.value)
              && !IsDictionary(u, p.information.value)
    ensures r.Err? <==> p.information.None? || ActualType(u, p.information.value).Err?
  {
    match p.information
    case None => Err(NullReference)
    case Some(info) =>
      var actual :- ActualType(u, info);
      Ok(IsComplex(u, p, actual) && !p.IsTransient() && !IsCollectionLike(u, info) && !IsDictionary(u, info))
  }

  /**
   * `PersistentEntityTypes`: the property's own information when it is an
   * entity, and the non-simple actual type of a collection or dictionary.
   * The two cases exclude each other, so there is at most one.
   */
  function PersistentEntityTypes(u: Universe, p: PersistentProperty): (r: Result<seq<TypeInfo>, TypeError>)
    requires WellFormed(u)
    ensures r.Ok? ==> |r.value| <= 1
    ensures IsEntity(u, p) == Ok(true) ==> r == Ok([p.information.value])
    ensures r.Ok? && |r.value| == 1 && IsEntity(u, p) != Ok(true) ==>
              && p.information.Some?
              && (IsCollectionLike(u, p.information.value) || IsDictionary(u, p.information.value))
              && ActualType(u, p.information.value) == Ok(Some(r.value[0]))
              && !IsSimple(u, p.simpleTypeHolder.simpleTypes, Type(u, r.value[0]))
    ensures IsEntity(u, p).Err? ==> r.Err?
    // a property that is no entity contributes the non-simple actual type of a collection or dictionary, and nothing else
    ensures IsEntity(u, p) == Ok(false) ==>
              var info := p.information.value;
              r == Ok(if (IsCollectionLike(u, info) || IsDictionary(u, info)) && IsComplex(u, p, ActualType(u, info).value)
                      then [ActualType(u, info).value.value] else [])
  {
    var entity :- IsEntity(u, p);
    var info := p.information.value;
    var first := if entity then [info] else [];
    if IsCollectionLike(u, info) || IsDictionary(u, info) then
      var actual := ActualType(u, info).value;
      var nested := if IsComplex(u, p, actual) then [actual.value] else [];
      assert !entity ==> first + nested == nested;
      Ok(first + nested)
    else Ok(first)
  }

  /** `ComponentType`: null unless the property is a dictionary or collection-like. */
  function PropertyComponentType(u: Universe, p: PersistentProperty): (r: Result<Option<TypeId>, TypeError>)
    requires WellFormed(u)
    ensures p.information.None? ==> r == Err(NullReference)
    ensures p.information.Some? && !IsDictionary(u, p.information.value) && !IsCollectionLike(u, p.information.value)
            ==> r == Ok(None)
    ensures r.Ok? && r.value.Some? ==>
              ComponentType(u, p.information.value).Ok? && ComponentType(u, p.information.value).value.Some?
              && r.value.value == Type(u, ComponentType(u, p.information.value).value.value)
    ensures p.information.Some? && (IsDictionary(u, p.information.value) || IsCollectionLike(u, p.information.value)) ==>
              match ComponentType(u, p.information.value)
              case Ok(Some(c)) => r == Ok(Some(Type(u, c)))
              case Ok(None) => r == Ok(None)
              case Err(e) => r == Err(e)
  {
    match p.information
    case None => Err(NullReference)
    case Some(info) =>
      if !IsDictionary(u, info) && !IsCollectionLike(u, info) then Ok(None)
      else
        var component :- ComponentType(u, info);
        if component.None? then Ok(None) else Ok(Some(Type(u, component.value)))
  }

  /** `DictionaryValueType`: null unless the property is a dictionary; a missing value type fails. */
  function PropertyDictionaryValueType(u: Universe, p: PersistentProperty): (r: Result<Option<TypeId>, TypeError>)
    requires WellFormed(u)
    ensures p.information.None? ==> r == Err(NullReference)
    ensures p.information.Some? && !IsDictionary(u, p.information.value) ==> r == Ok(None)
    ensures r.Ok? && r.value.Some? ==>
              IsDictionary(u, p.information.value)
              && DictionaryValueType(u, p.information.value).Ok?
              && DictionaryValueType(u, p.information.value).value.Some?
              && r.value.value == Type(u, DictionaryValueType(u, p.information.value).value.value)
    ensures (p.information.Some? && IsDictionary(u, p.information.value)
             && DictionaryValueType(u, p.information.value) == Ok(None)) ==> r == Err(NullReference)
    ensures p.information.Some? && IsDictionary(u, p.information.value) ==>
              match DictionaryValueType(u, p.information.value)
              case Ok(Some(v)) => r == Ok(Some(Type(u, v)))
              case Ok(None) => r == Err(NullReference)
              case Err(e) => r == Err(e)
  {
    match p.information
    case None => Err(NullReference)
    case Some(info) =>
      if !IsDictionary(u, info) then Ok(None)
      else
        var value :- DictionaryValueType(u, info);
        if value.None? then Err(NullReference) else Ok(Some(Type(u, value.value)))
  }

  /** `Equals`: two properties are equal exactly when they wrap the same field. */
  predicate PropertyEquals(a: PersistentProperty, b: PersistentProperty)
  {
    a == b || a.field == b.field
  }

  /** Property equality is an equivalence that ignores everything but the field. */
  lemma PropertyEqualsIsFieldEquality(a: PersistentProperty, b: PersistentProperty, c: PersistentProperty)
    ensures PropertyEquals(a, b) <==> a.field == b.field
    ensures PropertyEquals(a, a)
    ensures PropertyEquals(a, b) ==> PropertyEquals(b, a)
    ensures PropertyEquals(a, b) && PropertyEquals(b, c) ==> PropertyEquals(a, c)
  {
  }
}
