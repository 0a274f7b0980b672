/**
 * `AbstractMappingContext`: the registry of persistent entities, built by
 * walking each type's fields, creating a persistent property per field, and
 * adding the entity types those properties refer to. The concrete entity and
 * property classes are `BasicPersistentEntity` and the attribute-based
 * property, whose association takes the field as its inverse end.
 */
module MappingContexts {
  import opened Wrappers
  import opened Universe
  import opened TypeInformation
  import opened SimpleTypes
  import opened PersistentProperties
  import opened PersistentEntities
  import opened ReflectionUtils
  import opened Lists
  import PropertyPaths
  import PersistentPropertyPaths

  /** What the context throws: `MappingException`, `ArgumentException`, or a failure from below. */
  datatype ContextError = MappingException | ArgumentException | Failed(error: TypeError)

  // ---------------------------------------------------------------------------
  // FieldMatch and PersistentFieldFilter
  // ---------------------------------------------------------------------------

  /** The two shapes of name pattern the filter uses: a plain word, and a word followed by `.*`. */
  datatype NamePattern = Literal(text: string) | LiteralThenAny(prefix: string)

  /** `part` occurs in `s` starting at index `i`. */
  predicate OccursAt(s: string, part: string, i: nat)
  {
    i + |part| <= |s| && s[i..i + |part|] == part
  }

  /** Whether `part` occurs anywhere in `s`, searching from the left. */
  function Occurs(s: string, part: string): bool
    decreases |s|
  {
    if |part| > |s| then false
    else if s[..|part|] == part then true
    else Occurs(s[1..], part)
  }

  lemma {:induction false} OccursIsSubstring(s: string, part: string)
    ensures Occurs(s, part) <==> exists i: nat :: OccursAt(s, part, i)
    decreases |s|
  {
    if |part| > |s| {
      forall i: nat ensures !OccursAt(s, part, i) { }
    } else if s[..|part|] == part {
      assert OccursAt(s, part, 0);
    } else {
      OccursIsSubstring(s[1..], part);
      forall i: nat | OccursAt(s[1..], part, i) ensures OccursAt(s, part, i + 1) {
        assert s[1..][i..i + |part|] == s[i + 1..i + 1 + |part|];
      }
      forall i: nat | OccursAt(s, part, i) ensures i > 0 && OccursAt(s[1..], part, i - 1) {
        assert s[1..][i - 1..i - 1 + |part|] == s[i..i + |part|];
      }
    }
  }

  /**
   * Whether the pattern matches the name: anywhere in it, as `Regex.IsMatch`
   * does, or the whole name when `anchored`. A trailing `.*` matches any rest;
   * field names hold no line terminators.
   */
  predicate NameMatches(p: NamePattern, name: string, anchored: bool)
  {
    match p
    case Literal(text) => if anchored then name == text else Occurs(name, text)
    case LiteralThenAny(prefix) => if anchored then prefix <= name else Occurs(name, prefix)
  }

  /** A name pattern (null when empty) and a type name; one of them is always given. */
  datatype FieldMatch = FieldMatch(namePattern: Option<NamePattern>, typeName: Option<string>)

  /** `new FieldMatch(namePattern, typeName)`: both null is refused; an empty pattern is dropped. */
  function NewFieldMatch(namePattern: Option<NamePattern>, typeName: Option<string>): (r: Result<FieldMatch, ContextError>)
    ensures r.Err? <==> namePattern.None? && typeName.None?
    ensures r.Err? ==> r.error == ArgumentException
    ensures r.Ok? ==> r.value.typeName == typeName
                      && (r.value.namePattern.Some? <==> namePattern.Some? && namePattern.value != Literal(""))
                      && (r.value.namePattern.Some? ==> r.value.namePattern == namePattern)
  {
    if namePattern.None? && typeName.None? then Err(ArgumentException)
    else Ok(FieldMatch(if namePattern == Some(Literal("")) then None else namePattern, typeName))
  }

  /** `FieldMatch.Matches(name, type)`: the pattern, if any, matches the name and the type name, if any, is the type's `Name`. */
  predicate FieldMatches(u: Universe, m: FieldMatch, f: Field, anchored: bool)
  {
    && (m.namePattern.None? || NameMatches(m.namePattern.value, f.name, anchored))
    && (m.typeName.None? || Raw(u, f.fieldType).name == m.typeName.value)
  }

  /** The artificial fields the filter rejects. */
  const UnmappedFields: seq<FieldMatch> := [
    FieldMatch(Some(Literal("class")), None),
    FieldMatch(Some(LiteralThenAny("this$")), None),
    FieldMatch(Some(Literal("metaClass")), Some("groovy.lang.MetaClass"))
  ]

  /** `PersistentFieldFilter.Matches(FieldInfo)`: not static and matched by no unmapped-field rule. */
  predicate Accepts(u: Universe, f: Field, anchored: bool)
  {
    !f.isStatic && forall k :: 0 <= k < |UnmappedFields| ==> !FieldMatches(u, UnmappedFields[k], f, anchored)
  }

  /** The filter loop: static fields fail; the first matching rule rejects the field. */
  method FilterMatches(u: Universe, f: Field, anchored: bool) returns (b: bool)
    ensures b == Accepts(u, f, anchored)
  {
    if f.isStatic {
      return false;
    }
    var k := 0;
    while k < |UnmappedFields|
      invariant 0 <= k <= |UnmappedFields|
      invariant forall j :: 0 <= j < k ==> !FieldMatches(u, UnmappedFields[j], f, anchored)
    {
      if FieldMatches(u, UnmappedFields[k], f, anchored) {
        return false;
      }
      k := k + 1;
    }
    return true;
  }

  /**
   * With whole-name matching, the filter rejects exactly the static fields,
   * `class`, the names starting with `this$`, and `metaClass` of a type named
   * `groovy.lang.MetaClass`.
   */
  lemma AnchoredFilterRejects(u: Universe, f: Field)
    ensures Accepts(u, f, true) <==>
              && !f.isStatic && f.name != "class" && !("this$" <= f.name)
              && !(f.name == "metaClass" && Raw(u, f.fieldType).name == "groovy.lang.MetaClass")
  {
    assert Accepts(u, f, true) <==>
             && !f.isStatic && !FieldMatches(u, UnmappedFields[0], f, true)
             && !FieldMatches(u, UnmappedFields[1], f, true) && !FieldMatches(u, UnmappedFields[2], f, true);
  }

  /**
   * `Regex.IsMatch` finds the pattern anywhere: a field whose name only
   * contains "class" is rejected as written, and accepted by whole-name matching.
   */
  lemma UnanchoredRejectsClassification(u: Universe, f: Field)
    requires f.name == "classification" && !f.isStatic
    ensures !Accepts(u, f, false)
    ensures Accepts(u, f, true)
  {
    assert f.name[..5] == "class";
    assert FieldMatches(u, UnmappedFields[0], f, false);
    AnchoredFilterRejects(u, f);
    assert f.name[0] != "this$"[0];
    assert f.name != "metaClass" by { assert f.name[0] != "metaClass"[0]; }
  }

  /** `Type.Name` holds no namespace, so the `metaClass` rule, naming `groovy.lang.MetaClass`, never fires. */
  lemma MetaClassRuleNeverFires(u: Universe, f: Field, anchored: bool)
    requires '.' !in Raw(u, f.fieldType).name
    ensures !FieldMatches(u, UnmappedFields[2], f, anchored)
  {
    assert "groovy.lang.MetaClass"[6] == '.';
  }

  /** The filter the context hands to the field walk: the rules matched anywhere in the name, as `Regex.IsMatch` does. */
  function PersistentFieldFilter(u: Universe): Option<Field -> bool>
  {
    Some((f: Field) => Accepts(u, f, false))
  }

  // ---------------------------------------------------------------------------
  // What the context builds for one type
  // ---------------------------------------------------------------------------

  /** `CreatePersistentProperty`: the property of `field` in the owner, its association having the field as inverse end. */
  function CreateProperty(u: Universe, field: Field, owner: TypeInfo, holder: SimpleTypeHolder)
    : (r: Result<PersistentProperty, TypeError>)
    requires WellFormed(u)
    ensures r.Ok? <==> GetProperty(u, owner, field.name).Ok?
    ensures r.Ok? ==> r.value.field == field && r.value.ownerType == owner && r.value.simpleTypeHolder == holder
    ensures r.Ok? ==> (r.value.association.Some? <==> !field.transient && field.reference)
    ensures r.Ok? && r.value.association.Some? ==> r.value.association.value == Association(field, None)
  {
    NewProperty(u, field, owner, holder, Association(field, None))
  }

  /** The persisted properties created for `fields` in order; the first failure stops the creation. */
  function Created(u: Universe, owner: TypeInfo, holder: SimpleTypeHolder, fields: seq<Field>, n: nat)
    : Result<seq<PersistentProperty>, TypeError>
    requires WellFormed(u) && n <= |fields|
  {
    if n == 0 then Ok([])
    else
      match Created(u, owner, holder, fields, n - 1)
      case Err(e) => Err(e)
      case Ok(init) =>
        match CreateProperty(u, fields[n - 1], owner, holder)
        case Err(e) => Err(e)
        case Ok(p) => Ok(init + if p.IsTransient() then [] else [p])
  }

  /** The created properties are persisted ones, of the given fields, owned by the owner. */
  lemma {:induction false} CreatedAreMapped(u: Universe, owner: TypeInfo, holder: SimpleTypeHolder, fields: seq<Field>, n: nat)
    requires WellFormed(u) && n <= |fields|
    ensures var r := Created(u, owner, holder, fields, n);
            r.Ok? ==> forall k :: 0 <= k < |r.value| ==>
                        && !r.value[k].IsTransient() && r.value[k].field in fields[..n] && r.value[k].ownerType == owner
  {
    if n > 0 {
      CreatedAreMapped(u, owner, holder, fields, n - 1);
      assert fields[..n] == fields[..n - 1] + [fields[n - 1]];
      var init := Created(u, owner, holder, fields, n - 1);
      var made := CreateProperty(u, fields[n - 1], owner, holder);
      if init.Ok? && made.Ok? {
        var all := init.value + if made.value.IsTransient() then [] else [made.value];
        forall k | 0 <= k < |all|
          ensures !all[k].IsTransient() && all[k].field in fields[..n] && all[k].ownerType == owner
        {
          if k < |init.value| {
            assert all[k] == init.value[k];
          }
        }
      }
    }
  }

  /** The property set after adding `ps` in order: a property whose field is already held is not added again. */
  function Collected(ps: seq<PersistentProperty>): seq<PersistentProperty>
  {
    if ps == [] then []
    else
      var init := Collected(ps[..|ps| - 1]);
      var p := ps[|ps| - 1];
      if HasField(init, p.field) then init else init + [p]
  }

  /** The collection is a set by field: each field once, only properties added, and every added field present. */
  lemma {:induction false} CollectedIsFieldSet(ps: seq<PersistentProperty>)
    ensures var r := Collected(ps);
            && (forall i, j :: 0 <= i < j < |r| ==> r[i].field != r[j].field)
            && (forall p :: p in r ==> p in ps)
            && (forall k :: 0 <= k < |ps| ==> HasField(r, ps[k].field))
  {
    if ps != [] {
      var init := Collected(ps[..|ps| - 1]);
      var p := ps[|ps| - 1];
      CollectedIsFieldSet(ps[..|ps| - 1]);
      assert forall k :: 0 <= k < |ps| - 1 ==> ps[k] == ps[..|ps| - 1][k];
      if !HasField(init, p.field) {
        assert (init + [p])[|init|] == p;
        forall f | HasField(init, f) ensures HasField(init + [p], f) {
          var k :| 0 <= k < |init| && init[k].field == f;
          assert (init + [p])[k] == init[k];
        }
      }
    }
  }

  /** The association set after adding the associations of `ps` in order. */
  function AssociationsOf(ps: seq<PersistentProperty>): seq<Association>
  {
    if ps == [] then []
    else
      var init := AssociationsOf(ps[..|ps| - 1]);
      var p := ps[|ps| - 1];
      if p.IsAssociation() && p.association.Some? && p.association.value !in init then init + [p.association.value]
      else init
  }

  /** The association set holds exactly the associations of the association properties added. */
  lemma {:induction false} AssociationsOfAssociationProperties(ps: seq<PersistentProperty>)
    ensures forall a :: a in AssociationsOf(ps) <==>
                          exists k :: 0 <= k < |ps| && ps[k].IsAssociation() && ps[k].association == Some(a)
  {
    if ps != [] {
      AssociationsOfAssociationProperties(ps[..|ps| - 1]);
      assert forall k :: 0 <= k < |ps| - 1 ==> ps[k] == ps[..|ps| - 1][k];
    }
  }

  /** Adding one more property to the collection. */
  lemma CollectedStep(ps: seq<PersistentProperty>, p: PersistentProperty)
    ensures Collected(ps + [p]) == if HasField(Collected(ps), p.field) then Collected(ps) else Collected(ps) + [p]
    ensures AssociationsOf(ps + [p]) ==
              if p.IsAssociation() && p.association.Some? && p.association.value !in AssociationsOf(ps)
              then AssociationsOf(ps) + [p.association.value] else AssociationsOf(ps)
  {
    assert (ps + [p])[..|ps|] == ps;
  }

  /** The creator goes on to the property's entity type: not the owner's own type, and an entity. */
  predicate NeedsEntity(u: Universe, owner: TypeInfo, p: PersistentProperty)
    requires WellFormed(u)
  {
    p.information.Some? && Type(u, owner) != p.RawType() && IsEntity(u, p) == Ok(true)
  }

  // ---------------------------------------------------------------------------
  // The registry
  // ---------------------------------------------------------------------------

  /** `TryGetValue`: the entity of the first key equal to `info`. */
  function LookupIn(u: Universe, es: seq<(TypeInfo, BasicPersistentEntity)>, info: TypeInfo)
    : Option<BasicPersistentEntity>
    requires WellFormed(u)
  {
    LookupFrom(u, es, info, 0)
  }

  /** The entity of the first key at or after `i` equal to `info`. */
  function LookupFrom(u: Universe, es: seq<(TypeInfo, BasicPersistentEntity)>, info: TypeInfo, i: nat)
    : Option<BasicPersistentEntity>
    requires WellFormed(u) && i <= |es|
    decreases |es| - i
  {
    if i == |es| then None
    else if TypeInformation.Equals(u, es[i].0, info) then Some(es[i].1)
    else LookupFrom(u, es, info, i + 1)
  }

  /** Nothing is found from `i` on exactly when no key from `i` on is equal to `info`. */
  lemma {:induction false} LookupMisses(u: Universe, es: seq<(TypeInfo, BasicPersistentEntity)>, info: TypeInfo, i: nat)
    requires WellFormed(u) && i <= |es|
    ensures LookupFrom(u, es, info, i).None? <==> forall k :: i <= k < |es| ==> !TypeInformation.Equals(u, es[k].0, info)
    decreases |es| - i
  {
    if i < |es| {
      LookupMisses(u, es, info, i + 1);
    }
  }

  /** Entries added behind a key never change what it finds. */
  lemma {:induction false} LookupKeepsPrefix(u: Universe, es: seq<(TypeInfo, BasicPersistentEntity)>,
                                              more: seq<(TypeInfo, BasicPersistentEntity)>, info: TypeInfo, i: nat)
    requires WellFormed(u) && es <= more && i <= |es| && LookupFrom(u, es, info, i).Some?
    ensures LookupFrom(u, more, info, i) == LookupFrom(u, es, info, i)
    decreases |es| - i
  {
    assert more[i] == es[i];
    if !TypeInformation.Equals(u, es[i].0, info) {
      LookupKeepsPrefix(u, es, more, info, i + 1);
    }
  }

  /** A key added behind keys that differ from it finds its own entry. */
  lemma LookupFindsAppended(u: Universe, es: seq<(TypeInfo, BasicPersistentEntity)>,
                            info: TypeInfo, e: BasicPersistentEntity)
    requires WellFormed(u) && LookupIn(u, es, info).None?
    ensures LookupIn(u, es + [(info, e)], info) == Some(e)
  {
    EqualsReflexive(u, info);
    LookupMisses(u, es, info, 0);
    var more := es + [(info, e)];
    assert forall k :: 0 <= k < |es| ==> more[k] == es[k];
    LookupFirst(u, more, info, 0, |es|);
  }

  /** A found entry's key is equal to the one looked up. */
  lemma {:induction false} LookupFound(u: Universe, es: seq<(TypeInfo, BasicPersistentEntity)>, info: TypeInfo, i: nat)
    requires WellFormed(u) && i <= |es| && LookupFrom(u, es, info, i).Some?
    ensures exists k :: i <= k < |es| && TypeInformation.Equals(u, es[k].0, info) && es[k].1 == LookupFrom(u, es, info, i).value
    decreases |es| - i
  {
    if !TypeInformation.Equals(u, es[i].0, info) {
      LookupFound(u, es, info, i + 1);
    }
  }

  /** The entry found is the first one from `i` on whose key is equal. */
  lemma {:induction false} LookupFirst(u: Universe, es: seq<(TypeInfo, BasicPersistentEntity)>, info: TypeInfo, i: nat, n: nat)
    requires WellFormed(u) && i <= n < |es| && TypeInformation.Equals(u, es[n].0, info)
    requires forall k :: i <= k < n ==> !TypeInformation.Equals(u, es[k].0, info)
    ensures LookupFrom(u, es, info, i) == Some(es[n].1)
    decreases n - i
  {
    if i < n {
      LookupFirst(u, es, info, i + 1, n);
    }
  }

  /** Every entity type the properties need has an entry. */
  ghost predicate NeededRegistered(u: Universe, es: seq<(TypeInfo, BasicPersistentEntity)>, owner: TypeInfo, ps: seq<PersistentProperty>)
    requires WellFormed(u)
  {
    forall k :: 0 <= k < |ps| && NeedsEntity(u, owner, ps[k]) ==> LookupIn(u, es, ps[k].information.value).Some?
  }

  /** Entries added behind keep the needed entity types registered. */
  lemma NeededStaysRegistered(u: Universe, es: seq<(TypeInfo, BasicPersistentEntity)>, more: seq<(TypeInfo, BasicPersistentEntity)>,
                              owner: TypeInfo, ps: seq<PersistentProperty>)
    requires WellFormed(u) && es <= more && NeededRegistered(u, es, owner, ps)
    ensures NeededRegistered(u, more, owner, ps)
  {
    forall k | 0 <= k < |ps| && NeedsEntity(u, owner, ps[k])
      ensures LookupIn(u, more, ps[k].information.value).Some?
    {
      LookupKeepsPrefix(u, es, more, ps[k].information.value, 0);
    }
  }

  /** One more property whose needed entity type, if any, is registered. */
  lemma NeededSnoc(u: Universe, es: seq<(TypeInfo, BasicPersistentEntity)>, owner: TypeInfo, ps: seq<PersistentProperty>, p: PersistentProperty)
    requires WellFormed(u) && NeededRegistered(u, es, owner, ps)
    requires NeedsEntity(u, owner, p) ==> LookupIn(u, es, p.information.value).Some?
    ensures NeededRegistered(u, es, owner, ps + [p])
  {
    assert forall k :: 0 <= k < |ps| ==> (ps + [p])[k] == ps[k];
  }

  /** Every one of the types has an entry. */
  ghost predicate AllRegistered(u: Universe, es: seq<(TypeInfo, BasicPersistentEntity)>, infos: seq<TypeInfo>)
    requires WellFormed(u)
  {
    forall k :: 0 <= k < |infos| ==> LookupIn(u, es, infos[k]).Some?
  }

  /** Entries added behind keep the types registered, and one more registered type joins them. */
  lemma AllRegisteredSnoc(u: Universe, es: seq<(TypeInfo, BasicPersistentEntity)>, more: seq<(TypeInfo, BasicPersistentEntity)>,
                          infos: seq<TypeInfo>, info: TypeInfo)
    requires WellFormed(u) && es <= more && AllRegistered(u, es, infos) && LookupIn(u, more, info).Some?
    ensures AllRegistered(u, more, infos + [info])
  {
    forall k | 0 <= k < |infos| + 1 ensures LookupIn(u, more, (infos + [info])[k]).Some? {
      if k < |infos| {
        assert (infos + [info])[k] == infos[k];
        LookupKeepsPrefix(u, es, more, infos[k], 0);
      }
    }
  }

  /** No two entries have equal keys: each type information is registered once. */
  ghost predicate KeysDistinct(u: Universe, es: seq<(TypeInfo, BasicPersistentEntity)>)
    requires WellFormed(u)
  {
    forall i, j :: 0 <= i < j < |es| ==> !TypeInformation.Equals(u, es[i].0, es[j].0)
  }

  /** A key that misses the lookup can join the registry without repeating a key. */
  lemma KeysDistinctSnoc(u: Universe, es: seq<(TypeInfo, BasicPersistentEntity)>, info: TypeInfo, e: BasicPersistentEntity)
    requires WellFormed(u) && KeysDistinct(u, es) && LookupIn(u, es, info).None?
    ensures KeysDistinct(u, es + [(info, e)])
  {
    LookupMisses(u, es, info, 0);
    var more := es + [(info, e)];
    assert forall k :: 0 <= k < |es| ==> more[k] == es[k];
  }

  /** With distinct keys, a type information keys at most one entry. */
  lemma OneEntryPerKey(u: Universe, es: seq<(TypeInfo, BasicPersistentEntity)>, info: TypeInfo)
    requires WellFormed(u) && KeysDistinct(u, es)
    ensures forall i, j :: 0 <= i < |es| && 0 <= j < |es| && es[i].0 == info && es[j].0 == info ==> i == j
  {
    EqualsReflexive(u, info);
  }

  /** A property whose creation adds no entity: it is of the owner's own type, or no entity. */
  ghost predicate Settled(u: Universe, owner: TypeInfo, p: PersistentProperty)
    requires WellFormed(u)
  {
    Type(u, owner) == p.RawType() || IsEntity(u, p) == Ok(false)
  }

  /** Whether one of the properties is an id property. */
  ghost predicate HasId(ps: seq<PersistentProperty>)
    decreases |ps|
  {
    ps != [] && (HasId(ps[..|ps| - 1]) || ps[|ps| - 1].IsIdProperty())
  }

  /** Whether one of the properties is a version property. */
  ghost predicate HasVersion(ps: seq<PersistentProperty>)
    decreases |ps|
  {
    ps != [] && (HasVersion(ps[..|ps| - 1]) || ps[|ps| - 1].IsVersionProperty())
  }

  /** Properties that add no entity, and none of which repeats an id or a version property before it. */
  ghost predicate QuietProperties(u: Universe, owner: TypeInfo, ps: seq<PersistentProperty>)
    requires WellFormed(u)
    decreases |ps|
  {
    ps == [] ||
      var init, last := ps[..|ps| - 1], ps[|ps| - 1];
      && QuietProperties(u, owner, init)
      && Settled(u, owner, last)
      && !(last.IsIdProperty() && HasId(init))
      && !(last.IsVersionProperty() && HasVersion(init))
  }

  /** One more property: the markers and quietness of `ps + [p]` in terms of those of `ps`. */
  lemma Snoc(u: Universe, owner: TypeInfo, ps: seq<PersistentProperty>, p: PersistentProperty)
    requires WellFormed(u)
    ensures HasId(ps + [p]) == (HasId(ps) || p.IsIdProperty())
    ensures HasVersion(ps + [p]) == (HasVersion(ps) || p.IsVersionProperty())
    ensures QuietProperties(u, owner, ps + [p]) ==
              (QuietProperties(u, owner, ps) && Settled(u, owner, p)
               && !(p.IsIdProperty() && HasId(ps)) && !(p.IsVersionProperty() && HasVersion(ps)))
  {
    assert (ps + [p])[..|ps|] == ps;
  }

  /** Fields whose properties are all created, add no entity, and hold at most one id and one version property. */
  ghost predicate QuietFields(u: Universe, owner: TypeInfo, holder: SimpleTypeHolder, fields: seq<Field>)
    requires WellFormed(u)
  {
    var made := Created(u, owner, holder, fields, |fields|);
    made.Ok? && QuietProperties(u, owner, made.value)
  }

  /** Every id or version property the entity holds is one of `created`. */
  ghost predicate MarkersFrom(entity: BasicPersistentEntity, created: seq<PersistentProperty>)
    reads entity
  {
    && (entity.idProperty.Some? ==> HasId(created))
    && (entity.versionProperty.Some? ==> HasVersion(created))
  }

  /** The properties created for a prefix of the fields are a prefix of those created for all of them. */
  lemma {:induction false} CreatedPrefix(u: Universe, owner: TypeInfo, holder: SimpleTypeHolder, fields: seq<Field>, i: nat, n: nat)
    requires WellFormed(u) && i <= n <= |fields| && Created(u, owner, holder, fields, n).Ok?
    ensures Created(u, owner, holder, fields, i).Ok?
    ensures Created(u, owner, holder, fields, i).value <= Created(u, owner, holder, fields, n).value
    decreases n - i
  {
    if i < n {
      CreatedPrefix(u, owner, holder, fields, i, n - 1);
    }
  }

  /** Quiet properties stay quiet when cut to a prefix. */
  lemma {:induction false} QuietPrefix(u: Universe, owner: TypeInfo, ps: seq<PersistentProperty>, qs: seq<PersistentProperty>)
    requires WellFormed(u) && ps <= qs && QuietProperties(u, owner, qs)
    ensures QuietProperties(u, owner, ps)
    decreases |qs|
  {
    if |ps| < |qs| {
      QuietPrefix(u, owner, ps, qs[..|qs| - 1]);
    } else {
      assert ps == qs;
    }
  }

  /** Quiet fields have quiet properties created up to every `n`. */
  lemma QuietUpTo(u: Universe, owner: TypeInfo, holder: SimpleTypeHolder, fields: seq<Field>, n: nat)
    requires WellFormed(u) && n <= |fields| && QuietFields(u, owner, holder, fields)
    ensures Created(u, owner, holder, fields, n).Ok?
    ensures QuietProperties(u, owner, Created(u, owner, holder, fields, n).value)
  {
    CreatedPrefix(u, owner, holder, fields, n, |fields|);
    QuietPrefix(u, owner, Created(u, owner, holder, fields, n).value, Created(u, owner, holder, fields, |fields|).value);
  }

  /**
   * The step condition: when the properties created up to and including the
   * field at `i` are quiet, its property is made, and unless it is transient
   * it adds no entity and repeats no id or version property the entity
   * already holds.
   */
  lemma QuietStep(u: Universe, entity: BasicPersistentEntity, holder: SimpleTypeHolder, fields: seq<Field>, i: nat,
                  created: seq<PersistentProperty>)
    requires WellFormed(u) && i < |fields| && MarkersFrom(entity, created)
    requires Created(u, entity.information, holder, fields, i) == Ok(created)
    ensures var next := Created(u, entity.information, holder, fields, i + 1);
            next.Ok? && QuietProperties(u, entity.information, next.value) ==>
            var made := CreateProperty(u, fields[i], entity.information, holder);
            && made.Ok?
            && (!made.value.IsTransient() ==>
                  && Settled(u, entity.information, made.value)
                  && !(made.value.IsIdProperty() && entity.idProperty.Some?)
                  && !(made.value.IsVersionProperty() && entity.versionProperty.Some?))
  {
    var next := Created(u, entity.information, holder, fields, i + 1);
    if next.Ok? && QuietProperties(u, entity.information, next.value) {
      var p := CreateProperty(u, fields[i], entity.information, holder).value;
      Snoc(u, entity.information, created, p);
    }
  }

  /** The key of the entity a path walk stands on at step `k`: the owning type, then each segment's type. */
  function StepKey(u: Universe, owner: TypeInfo, segments: seq<PropertyPaths.PropertyPath>, k: nat): Option<TypeInfo>
    requires WellFormed(u) && k <= |segments|
  {
    if k == 0 then Some(owner)
    else
      match segments[k - 1].typ
      case None => None
      case Some(t) => Some(ClassInfo(Type(u, t), []))
  }

  /** Each of `visited` is the registered entity of its step's key. */
  ghost predicate Reached(u: Universe, es: seq<(TypeInfo, BasicPersistentEntity)>, owner: TypeInfo,
                          segments: seq<PropertyPaths.PropertyPath>, visited: seq<BasicPersistentEntity>)
    requires WellFormed(u)
  {
    && |visited| <= |segments|
    && forall k :: 0 <= k < |visited| ==>
         StepKey(u, owner, segments, k).Some? && LookupIn(u, es, StepKey(u, owner, segments, k).value) == Some(visited[k])
  }

  /** The entity registered for the next step's key is reached too. */
  lemma ReachedSnoc(u: Universe, es: seq<(TypeInfo, BasicPersistentEntity)>, owner: TypeInfo,
                    segments: seq<PropertyPaths.PropertyPath>, visited: seq<BasicPersistentEntity>, e: BasicPersistentEntity)
    requires WellFormed(u) && Reached(u, es, owner, segments, visited) && |visited| < |segments|
    requires StepKey(u, owner, segments, |visited|).Some?
    requires LookupIn(u, es, StepKey(u, owner, segments, |visited|).value) == Some(e)
    ensures Reached(u, es, owner, segments, visited + [e])
  {
    assert forall k :: 0 <= k < |visited| ==> (visited + [e])[k] == visited[k];
  }

  /** Entities reached stay reached as the registry grows. */
  lemma ReachedKeepsPrefix(u: Universe, es: seq<(TypeInfo, BasicPersistentEntity)>, more: seq<(TypeInfo, BasicPersistentEntity)>,
                           owner: TypeInfo, segments: seq<PropertyPaths.PropertyPath>, visited: seq<BasicPersistentEntity>)
    requires WellFormed(u) && es <= more && Reached(u, es, owner, segments, visited)
    ensures Reached(u, more, owner, segments, visited)
  {
    forall k | 0 <= k < |visited|
      ensures LookupIn(u, more, StepKey(u, owner, segments, k).value) == Some(visited[k])
    {
      LookupKeepsPrefix(u, es, more, StepKey(u, owner, segments, k).value, 0);
    }
  }

  class MappingContext {
    var entities: seq<(TypeInfo, BasicPersistentEntity)>
    var strict: bool
    var simpleTypeHolder: SimpleTypeHolder
    var initialEntitySet: seq<TypeId>

    /** Every registered entity was built for its key. */
    ghost predicate Valid()
      reads this
    {
      forall k :: 0 <= k < |entities| ==> entities[k].1.information == entities[k].0
    }

    /** An empty, lenient context with the default simple types. */
    constructor ()
      ensures Valid() && entities == [] && !strict && initialEntitySet == []
      ensures simpleTypeHolder.simpleTypes == Defaults
    {
      entities := [];
      strict := false;
      simpleTypeHolder := new SimpleTypeHolder();
      initialEntitySet := [];
    }

    /** The `Strict` setter. */
    method SetStrict(value: bool)
      modifies this
      ensures strict == value
      ensures entities == old(entities) && simpleTypeHolder == old(simpleTypeHolder)
      ensures initialEntitySet == old(initialEntitySet)
    {
      strict := value;
    }

    /** The `InitialEntitySet` setter. */
    method SetInitialEntitySet(types: seq<TypeId>)
      modifies this
      ensures initialEntitySet == types
      ensures entities == old(entities) && simpleTypeHolder == old(simpleTypeHolder) && strict == old(strict)
    {
      initialEntitySet := types;
    }

    /** The `SimpleTypeHolder` setter: null restores the defaults. */
    method SetSimpleTypeHolder(holder: SimpleTypeHolder?)
      modifies this
      ensures holder != null ==> simpleTypeHolder == holder
      ensures holder == null ==> simpleTypeHolder.simpleTypes == Defaults
      ensures entities == old(entities) && strict == old(strict) && initialEntitySet == old(initialEntitySet)
    {
      if holder == null {
        simpleTypeHolder := new SimpleTypeHolder();
      } else {
        simpleTypeHolder := holder;
      }
    }

    /** `PersistentEntities`: the registered entities. */
    function PersistentEntities(): (r: seq<BasicPersistentEntity>)
      reads this
      ensures |r| == |entities| && forall k :: 0 <= k < |r| ==> r[k] == entities[k].1
    {
      seq(|entities|, k requires 0 <= k < |entities| reads this => entities[k].1)
    }

    /** The registered entity for `info`, if any. */
    function Lookup(u: Universe, info: TypeInfo): Option<BasicPersistentEntity>
      requires WellFormed(u)
      reads this
    {
      LookupIn(u, entities, info)
    }

    /**
     * `AddPersistentEntity(typeInformation)`: the registered entity if there
     * is one; otherwise a new entity is registered first, then every field the
     * field walk hands over, as written, goes to the property creator. The nesting of calls
     * is bounded by `fuel`; running out stands for the stack overflow of an
     * unbounded chain of new type informations.
     */
    method AddPersistentEntity(u: Universe, info: TypeInfo, fuel: nat) returns (r: Result<BasicPersistentEntity, ContextError>)
      requires WellFormed(u) && Valid() && KeysDistinct(u, entities)
      modifies this
      ensures r.Err? ==> r.error != ArgumentException
      ensures Valid() && KeysDistinct(u, entities) && old(entities) <= entities
      ensures strict == old(strict) && simpleTypeHolder == old(simpleTypeHolder) && initialEntitySet == old(initialEntitySet)
      ensures old(Lookup(u, info)).Some? ==> r == Ok(old(Lookup(u, info)).value) && entities == old(entities)
      ensures r.Ok? ==> Lookup(u, info) == Some(r.value)
      ensures old(Lookup(u, info)).None? && r.Ok? ==>
                && fresh(r.value) && r.value.information == info
                && |entities| > |old(entities)| && entities[|old(entities)|] == (info, r.value)
                && Populated(u, r.value, HierarchyFields(u, Type(u, info), PersistentFieldFilter(u), true))
      // a type whose fields add no other entity, a self-reference included, registers exactly one entity
      ensures && old(Lookup(u, info)).None? && fuel > 0
              && FirstBuildError(u, info, Raw(u, Type(u, info)).constructors, 0).None?
              && QuietFields(u, info, simpleTypeHolder, HierarchyFields(u, Type(u, info), PersistentFieldFilter(u), true))
              ==> r.Ok? && entities == old(entities) + [(info, r.value)]
      decreases fuel, 5
    {
      var existing := Lookup(u, info);
      if existing.Some? {
        return Ok(existing.value);
      }
      if fuel == 0 {
        return Err(Failed(StackOverflow));
      }
      var made := BasicPersistentEntity.New(u, info);
      if made.Err? {
        return Err(Failed(made.error));
      }
      var entity := made.value;
      LookupFindsAppended(u, entities, info, entity);
      KeysDistinctSnoc(u, entities, info, entity);
      entities := entities + [(info, entity)];
      ghost var registered := entities;
      var visited := DoWithFields(u, Type(u, info), PersistentFieldFilter(u));
      var populated := PopulateEntity(u, entity, visited, fuel);
      if populated.Err? {
        return Err(populated.error);
      }
      var verified := entity.Verify();
      LookupKeepsPrefix(u, registered, entities, info, 0);
      return Ok(entity);
    }

    /**
     * The properties created for `fields` are the entity's property set, its
     * associations are theirs, and every entity type they need is registered.
     */
    ghost predicate Populated(u: Universe, entity: BasicPersistentEntity, fields: seq<Field>)
      requires WellFormed(u)
      reads this, entity
    {
      var made := Created(u, entity.information, simpleTypeHolder, fields, |fields|);
      made.Ok? && PopulatedWith(u, entity, made.value)
    }

    /** The entity holds exactly the given properties and associations, and their entity types are registered. */
    ghost predicate PopulatedWith(u: Universe, entity: BasicPersistentEntity, created: seq<PersistentProperty>)
      requires WellFormed(u)
      reads this, entity
    {
      && entity.properties == Collected(created)
      && entity.associations == AssociationsOf(created)
      && NeededRegistered(u, entities, entity.information, created)
    }

    /** The populating loop's state after the first `i` visited fields: their properties are the entity's. */
    ghost predicate Progress(u: Universe, entity: BasicPersistentEntity, visited: seq<Field>, i: nat,
                             created: seq<PersistentProperty>)
      requires WellFormed(u)
      reads this, entity
    {
      && i <= |visited| && Valid() && KeysDistinct(u, entities) && entity.Valid()
      && Created(u, entity.information, simpleTypeHolder, visited, i) == Ok(created)
      && PopulatedWith(u, entity, created) && MarkersFrom(entity, created)
    }

    /** The `foreach` of the field walk: every visited field goes to the property creator, in order. */
    method PopulateEntity(u: Universe, entity: BasicPersistentEntity, visited: seq<Field>, fuel: nat)
      returns (r: Result<(), ContextError>)
      requires WellFormed(u) && Valid() && KeysDistinct(u, entities) && entity.Valid() && fuel > 0
      requires entity.properties == [] && entity.associations == []
      requires entity.idProperty.None? && entity.versionProperty.None?
      modifies this, entity
      ensures r.Err? ==> r.error != ArgumentException
      ensures Valid() && KeysDistinct(u, entities) && old(entities) <= entities && entity.Valid()
      ensures strict == old(strict) && simpleTypeHolder == old(simpleTypeHolder) && initialEntitySet == old(initialEntitySet)
      ensures r.Ok? ==> Populated(u, entity, visited)
      ensures QuietFields(u, entity.information, simpleTypeHolder, visited) ==> r.Ok? && entities == old(entities)
      decreases fuel, 4
    {
      ghost var created: seq<PersistentProperty> := [];
      var i := 0;
      while i < |visited|
        invariant Progress(u, entity, visited, i, created) && old(entities) <= entities
        invariant strict == old(strict) && simpleTypeHolder == old(simpleTypeHolder)
        invariant initialEntitySet == old(initialEntitySet)
        invariant QuietFields(u, entity.information, simpleTypeHolder, visited) ==> entities == old(entities)
      {
        if QuietFields(u, entity.information, simpleTypeHolder, visited) {
          QuietUpTo(u, entity.information, simpleTypeHolder, visited, i + 1);
        }
        var step;
        step, created := PopulateStep(u, entity, visited, i, created, fuel);
        if step.Err? {
          return step;
        }
        i := i + 1;
      }
      return Ok(());
    }

    /** One pass of the populating loop: the field at `i` through `DoWith`, keeping the loop's invariants. */
    method PopulateStep(u: Universe, entity: BasicPersistentEntity, visited: seq<Field>, i: nat,
                        ghost created: seq<PersistentProperty>, fuel: nat)
      returns (r: Result<(), ContextError>, ghost created': seq<PersistentProperty>)
      requires WellFormed(u) && fuel > 0 && i < |visited| && Progress(u, entity, visited, i, created)
      modifies this, entity
      ensures r.Err? ==> r.error != ArgumentException
      ensures Valid() && KeysDistinct(u, entities) && old(entities) <= entities && entity.Valid()
      ensures strict == old(strict) && simpleTypeHolder == old(simpleTypeHolder) && initialEntitySet == old(initialEntitySet)
      ensures r.Ok? ==> Progress(u, entity, visited, i + 1, created')
      ensures var next := Created(u, entity.information, simpleTypeHolder, visited, i + 1);
              next.Ok? && QuietProperties(u, entity.information, next.value) ==> r.Ok? && entities == old(entities)
      decreases fuel, 3
    {
      created' := created;
      ghost var before := entities;
      QuietStep(u, entity, simpleTypeHolder, visited, i, created);
      var step := DoWith(u, entity, visited[i], fuel);
      if step.Err? {
        return Err(step.error), created';
      }
      ghost var made := CreateProperty(u, visited[i], entity.information, simpleTypeHolder);
      NeededStaysRegistered(u, before, entities, entity.information, created);
      assert Created(u, entity.information, simpleTypeHolder, visited, i + 1)
             == Ok(created + if made.value.IsTransient() then [] else [made.value]);
      if step.value.Some? {
        var p := step.value.value;
        assert p == made.value && !p.IsTransient();
        assert p.IsAssociation() ==> p.association.Some?;
        ProgressSnoc(u, entity, visited, i, created, p);
        created' := created + [p];
      } else {
        assert made.value.IsTransient() && created + [] == created;
      }
      return Ok(()), created';
    }

    /** The loop's state after one more field whose property `p` is not transient and has joined the entity. */
    lemma ProgressSnoc(u: Universe, entity: BasicPersistentEntity, visited: seq<Field>, i: nat,
                       created: seq<PersistentProperty>, p: PersistentProperty)
      requires WellFormed(u) && i < |visited| && Valid() && KeysDistinct(u, entities) && entity.Valid()
      requires Created(u, entity.information, simpleTypeHolder, visited, i) == Ok(created)
      requires CreateProperty(u, visited[i], entity.information, simpleTypeHolder) == Ok(p) && !p.IsTransient()
      requires entity.properties == if HasField(Collected(created), p.field) then Collected(created) else Collected(created) + [p]
      requires entity.associations ==
                 if p.IsAssociation() && p.association.Some? && p.association.value !in AssociationsOf(created)
                 then AssociationsOf(created) + [p.association.value] else AssociationsOf(created)
      requires NeededRegistered(u, entities, entity.information, created)
      requires NeedsEntity(u, entity.information, p) ==> Lookup(u, p.information.value).Some?
      requires entity.idProperty.Some? ==> HasId(created) || p.IsIdProperty()
      requires entity.versionProperty.Some? ==> HasVersion(created) || p.IsVersionProperty()
      ensures Progress(u, entity, visited, i + 1, created + [p])
    {
      CollectedStep(created, p);
      NeededSnoc(u, entities, entity.information, created, p);
      Snoc(u, entity.information, created, p);
    }

    /**
     * `PersistentPropertyCreator.DoWith`: create the field's property; a
     * transient one is dropped; otherwise it joins the entity (and its
     * association too), and unless it is of the entity's own type, an entity
     * property adds its entity types to the context.
     */
    method DoWith(u: Universe, entity: BasicPersistentEntity, field: Field, fuel: nat)
      returns (r: Result<Option<PersistentProperty>, ContextError>)
      requires WellFormed(u) && Valid() && KeysDistinct(u, entities) && entity.Valid() && fuel > 0
      modifies this, entity
      ensures r.Err? ==> r.error != ArgumentException
      ensures Valid() && KeysDistinct(u, entities) && old(entities) <= entities && entity.Valid()
      ensures strict == old(strict) && simpleTypeHolder == old(simpleTypeHolder) && initialEntitySet == old(initialEntitySet)
      ensures r.Ok? ==> var made := CreateProperty(u, field, entity.information, simpleTypeHolder);
                        && made.Ok?
                        && r.value == (if made.value.IsTransient() then None else Some(made.value))
      ensures r.Ok? && r.value.None? ==> entity.properties == old(entity.properties)
                                         && entity.associations == old(entity.associations)
      ensures r.Ok? && r.value.Some? ==>
                var p := r.value.value;
                && entity.properties == (if HasField(old(entity.properties), p.field) then old(entity.properties)
                                         else old(entity.properties) + [p])
                && entity.associations == (if p.IsAssociation() && p.association.value !in old(entity.associations)
                                           then old(entity.associations) + [p.association.value]
                                           else old(entity.associations))
                && (NeedsEntity(u, entity.information, p) ==> Lookup(u, p.information.value).Some?)
      ensures r.Ok? ==> && (entity.idProperty.Some? ==> old(entity.idProperty).Some? || (r.value.Some? && r.value.value.IsIdProperty()))
                        && (entity.versionProperty.Some? ==>
                              old(entity.versionProperty).Some? || (r.value.Some? && r.value.value.IsVersionProperty()))
      // a property that adds no entity and repeats no id or version property succeeds and leaves the registry alone
      ensures var made := CreateProperty(u, field, entity.information, simpleTypeHolder);
              && made.Ok?
              && (!made.value.IsTransient() ==>
                    && Settled(u, entity.information, made.value)
                    && !(made.value.IsIdProperty() && old(entity.idProperty).Some?)
                    && !(made.value.IsVersionProperty() && old(entity.versionProperty).Some?))
              ==> r.Ok? && entities == old(entities)
      decreases fuel, 2
    {
      var made := CreateProperty(u, field, entity.information, simpleTypeHolder);
      if made.Err? {
        return Err(Failed(made.error));
      }
      var p := made.value;
      if p.IsTransient() {
        return Ok(None);
      }
      var added := entity.AddPersistentProperty(p);
      if added.Err? {
        return Err(ContextError.MappingException);
      }
      if p.IsAssociation() {
        entity.AddAssociation(p.association.value);
      }
      var needed := AddNeededEntities(u, entity.information, p, fuel);
      if needed.Err? {
        return Err(needed.error);
      }
      return Ok(Some(p));
    }

    /**
     * The tail of `DoWith`: unless the property is of the owner's own type,
     * an entity property adds its entity types to the context.
     */
    method AddNeededEntities(u: Universe, owner: TypeInfo, p: PersistentProperty, fuel: nat) returns (r: Result<(), ContextError>)
      requires WellFormed(u) && Valid() && KeysDistinct(u, entities) && fuel > 0
      modifies this
      ensures r.Err? ==> r.error != ArgumentException
      ensures Valid() && KeysDistinct(u, entities) && old(entities) <= entities
      ensures strict == old(strict) && simpleTypeHolder == old(simpleTypeHolder) && initialEntitySet == old(initialEntitySet)
      ensures !NeedsEntity(u, owner, p) && (Type(u, owner) == p.RawType() || IsEntity(u, p).Ok?) ==> r == Ok(()) && entities == old(entities)
      ensures Type(u, owner) != p.RawType() && IsEntity(u, p).Err? ==> r == Err(Failed(IsEntity(u, p).error))
      ensures r.Ok? && NeedsEntity(u, owner, p) ==> Lookup(u, p.information.value).Some?
      decreases fuel, 1
    {
      if Type(u, owner) == p.RawType() {
        return Ok(());
      }
      var isEntity := IsEntity(u, p);
      if isEntity.Err? {
        return Err(Failed(isEntity.error));
      }
      if !isEntity.value {
        return Ok(());
      }
      var candidates := PersistentEntityTypes(u, p).value;
      assert candidates == [p.information.value];
      var nested := AddEntityTypes(u, candidates, fuel);
      if nested.Err? {
        return Err(nested.error);
      }
      assert Lookup(u, candidates[0]).Some?;
      return Ok(());
    }

    /** The inner `foreach` of the creator: add each entity type in turn; the first failure stops it. */
    method AddEntityTypes(u: Universe, candidates: seq<TypeInfo>, fuel: nat) returns (r: Result<(), ContextError>)
      requires WellFormed(u) && Valid() && KeysDistinct(u, entities) && fuel > 0
      modifies this
      ensures r.Err? ==> r.error != ArgumentException
      ensures Valid() && KeysDistinct(u, entities) && old(entities) <= entities
      ensures strict == old(strict) && simpleTypeHolder == old(simpleTypeHolder) && initialEntitySet == old(initialEntitySet)
      ensures r.Ok? ==> forall k :: 0 <= k < |candidates| ==> Lookup(u, candidates[k]).Some?
      decreases fuel, 0
    {
      var j := 0;
      while j < |candidates|
        invariant 0 <= j <= |candidates|
        invariant Valid() && KeysDistinct(u, entities) && old(entities) <= entities
        invariant strict == old(strict) && simpleTypeHolder == old(simpleTypeHolder)
        invariant initialEntitySet == old(initialEntitySet)
        invariant AllRegistered(u, entities, candidates[..j])
      {
        ghost var before := entities;
        var added := AddPersistentEntity(u, candidates[j], fuel - 1);
        if added.Err? {
          return Err(added.error);
        }
        AllRegisteredSnoc(u, before, entities, candidates[..j], candidates[j]);
        assert candidates[..j + 1] == candidates[..j] + [candidates[j]];
        j := j + 1;
      }
      assert candidates[..j] == candidates;
      return Ok(());
    }

    /**
     * `GetPersistentEntity(typeInformation)`: the registered entity; in strict
     * mode an unknown type is refused; a simple type has none; any other type is added.
     */
    method GetPersistentEntity(u: Universe, info: TypeInfo, fuel: nat) returns (r: Result<Option<BasicPersistentEntity>, ContextError>)
      requires WellFormed(u) && Valid() && KeysDistinct(u, entities)
      modifies this
      ensures r.Err? ==> r.error != ArgumentException
      ensures Valid() && KeysDistinct(u, entities) && old(entities) <= entities
      ensures strict == old(strict) && simpleTypeHolder == old(simpleTypeHolder) && initialEntitySet == old(initialEntitySet)
      ensures old(Lookup(u, info)).Some? ==> r == Ok(old(Lookup(u, info))) && entities == old(entities)
      ensures old(Lookup(u, info)).None? && strict ==> r == Err(ContextError.MappingException) && entities == old(entities)
      ensures old(Lookup(u, info)).None? && !strict && IsSimple(u, simpleTypeHolder.simpleTypes, Type(u, info)) ==>
                r == Ok(None) && entities == old(entities)
      ensures r.Ok? && r.value.Some? ==> Lookup(u, info) == r.value
      ensures r.Ok? && r.value.None? ==> !strict && IsSimple(u, simpleTypeHolder.simpleTypes, Type(u, info))
    {
      var existing := Lookup(u, info);
      if existing.Some? {
        return Ok(existing);
      }
      if strict {
        return Err(ContextError.MappingException);
      }
      var simple := simpleTypeHolder.IsSimpleType(u, Type(u, info));
      if simple {
        return Ok(None);
      }
      var added := AddPersistentEntity(u, info, fuel);
      if added.Err? {
        return Err(added.error);
      }
      return Ok(Some(added.value));
    }

    /** `GetPersistentEntity(persistentProperty)`: by the property's type information, which must not be null. */
    method GetPersistentEntityOf(u: Universe, p: PersistentProperty, fuel: nat)
      returns (r: Result<Option<BasicPersistentEntity>, ContextError>)
      requires WellFormed(u) && Valid() && KeysDistinct(u, entities)
      modifies this
      ensures Valid() && KeysDistinct(u, entities) && old(entities) <= entities
      ensures p.information.None? ==> r == Err(ArgumentException) && entities == old(entities)
      ensures r.Ok? && r.value.Some? ==> Lookup(u, p.information.value) == r.value
    {
      if p.information.None? {
        return Err(ArgumentException);
      }
      r := GetPersistentEntity(u, p.information.value, fuel);
    }

    /** `GetPersistentEntity(Type)`: by the class type information of the type. */
    method GetPersistentEntityForType(u: Universe, t: TypeId, fuel: nat)
      returns (r: Result<Option<BasicPersistentEntity>, ContextError>)
      requires WellFormed(u) && Valid() && KeysDistinct(u, entities)
      modifies this
      ensures Valid() && KeysDistinct(u, entities) && old(entities) <= entities
      ensures r.Ok? && r.value.Some? ==>
                Lookup(u, ClassInfo(t, [])) == r.value
                && TypeInformation.Equals(u, r.value.value.information, ClassInfo(t, []))
      ensures r.Ok? && r.value.None? ==> !strict && IsSimple(u, simpleTypeHolder.simpleTypes, t)
    {
      r := GetPersistentEntity(u, ClassInfo(t, []), fuel);
      if r.Ok? && r.value.Some? {
        LookupHoldsItsKey(u, ClassInfo(t, []));
      }
    }

    /** A found entity was built for a key equal to the one looked up; for a class type information, that key. */
    lemma LookupHoldsItsKey(u: Universe, info: TypeInfo)
      requires WellFormed(u) && Valid() && Lookup(u, info).Some?
      ensures TypeInformation.Equals(u, Lookup(u, info).value.information, info)
    {
      LookupFound(u, entities, info, 0);
    }

    /** `Initialize`: add every type of the initial entity set, in its iteration order. */
    method Initialize(u: Universe, fuel: nat) returns (r: Result<(), ContextError>)
      requires WellFormed(u) && Valid() && KeysDistinct(u, entities)
      modifies this
      ensures Valid() && KeysDistinct(u, entities) && old(entities) <= entities && initialEntitySet == old(initialEntitySet)
      ensures r.Ok? ==> forall k :: 0 <= k < |initialEntitySet| ==> Lookup(u, ClassInfo(initialEntitySet[k], [])).Some?
    {
      var i := 0;
      while i < |initialEntitySet|
        invariant 0 <= i <= |initialEntitySet|
        invariant Valid() && KeysDistinct(u, entities) && old(entities) <= entities && initialEntitySet == old(initialEntitySet)
        invariant forall k :: 0 <= k < i ==> Lookup(u, ClassInfo(initialEntitySet[k], [])).Some?
      {
        ghost var before := entities;
        var added := AddPersistentEntity(u, ClassInfo(initialEntitySet[i], []), fuel);
        if added.Err? {
          return Err(added.error);
        }
        forall k | 0 <= k < i ensures Lookup(u, ClassInfo(initialEntitySet[k], [])).Some? {
          LookupKeepsPrefix(u, before, entities, ClassInfo(initialEntitySet[k], []), 0);
        }
        i := i + 1;
      }
      return Ok(());
    }

    /**
     * `GetPersistentPropertyPath`: walk the segments, looking each name up on
     * the current entity and moving to the entity of the segment's type.
     */
    method GetPersistentPropertyPath(u: Universe, path: PropertyPaths.PropertyPath, fuel: nat)
      returns (r: Result<PersistentPropertyPaths.PersistentPropertyPath, ContextError>, ghost visited: seq<BasicPersistentEntity>)
      requires WellFormed(u) && Valid() && KeysDistinct(u, entities)
      modifies this
      ensures Valid() && KeysDistinct(u, entities) && old(entities) <= entities
      ensures Resolved(u, path.owningType, PropertyPaths.Segments(path), visited,
                       if r.Ok? then None else Some(r.error), if r.Ok? then r.value.Elements() else [])
      ensures r.Ok? ==> PersistentPropertyPaths.PropertyNames(r.value.Elements()) == PropertyPaths.Names(path)
      ensures r.Ok? ==> PersistentPropertyPaths.Join(PersistentPropertyPaths.PropertyNames(r.value.Elements()), ".")
                        == PropertyPaths.DotPath(path)
    {
      visited := [];
      var segments := PropertyPaths.Segments(path);
      var first := GetPersistentEntity(u, path.owningType, fuel);
      if first.Err? {
        return Err(first.error), visited;
      }
      var resolved;
      resolved, visited := ResolveSegments(u, path.owningType, segments, first.value, fuel);
      if resolved.Err? {
        return Err(resolved.error), visited;
      }
      var result := resolved.value;
      var names := PersistentPropertyPaths.PropertyNames(result);
      assert names == PropertyPaths.Names(path);
      JoinSpellsDotPath(path);
      var resolvedPath := NewPath(result);
      return Ok(resolvedPath), visited;
    }

    /** The walk's state after `|visited|` segments: each entity reached holds its segment's property, recorded in `result`. */
    ghost predicate Walked(u: Universe, owner: TypeInfo, segments: seq<PropertyPaths.PropertyPath>,
                           visited: seq<BasicPersistentEntity>, result: seq<PersistentProperty>)
      requires WellFormed(u)
      reads this, visited
    {
      && |result| == |visited| && Valid() && KeysDistinct(u, entities)
      && Reached(u, entities, owner, segments, visited)
      && forall k :: 0 <= k < |visited| ==>
           visited[k].GetPersistentProperty(segments[k].segment) == Some(result[k]) && result[k].Name() == segments[k].segment
    }

    /**
     * The outcome of a path walk over `segments` from `owner`: each entity of
     * `visited` is the registered one of its step; all but the last hold
     * their segment's name; the walk fails with `ArgumentException` exactly
     * when the last one lacks it; and without a failure every segment was
     * reached and `properties` are the first properties of those names.
     */
    ghost predicate Resolved(u: Universe, owner: TypeInfo, segments: seq<PropertyPaths.PropertyPath>,
                             visited: seq<BasicPersistentEntity>, failure: Option<ContextError>,
                             properties: seq<PersistentProperty>)
      requires WellFormed(u)
      reads this, visited
    {
      && Reached(u, entities, owner, segments, visited)
      && (forall k :: 0 <= k < |visited| - 1 ==> visited[k].GetPersistentProperty(segments[k].segment).Some?)
      && (failure == Some(ArgumentException) <==>
            |visited| > 0 && visited[|visited| - 1].GetPersistentProperty(segments[|visited| - 1].segment).None?)
      && (failure.None? ==>
            && |visited| == |segments| == |properties|
            && forall k :: 0 <= k < |visited| ==>
                 visited[k].GetPersistentProperty(segments[k].segment) == Some(properties[k])
                 && properties[k].Name() == segments[k].segment)
    }

    /** A walk that failed for another reason than a missing name, or reached every segment, is resolved. */
    lemma WalkedIsResolved(u: Universe, owner: TypeInfo, segments: seq<PropertyPaths.PropertyPath>,
                           visited: seq<BasicPersistentEntity>, result: seq<PersistentProperty>, failure: Option<ContextError>)
      requires WellFormed(u) && Walked(u, owner, segments, visited, result)
      requires failure != Some(ArgumentException) && (failure.None? ==> |visited| == |segments|)
      ensures Resolved(u, owner, segments, visited, failure, if failure.None? then result else [])
    {
      if |visited| > 0 {
        assert visited[|visited| - 1].GetPersistentProperty(segments[|visited| - 1].segment) == Some(result[|visited| - 1]);
      }
    }

    /** A walk that stops at an entity lacking its segment's name is resolved with `ArgumentException`. */
    lemma LacksNameIsResolved(u: Universe, owner: TypeInfo, segments: seq<PropertyPaths.PropertyPath>,
                              visited: seq<BasicPersistentEntity>, result: seq<PersistentProperty>, e: BasicPersistentEntity)
      requires WellFormed(u) && |visited| < |segments| && Walked(u, owner, segments, visited, result)
      requires Reached(u, entities, owner, segments, visited + [e])
      requires e.GetPersistentProperty(segments[|visited|].segment).None?
      ensures Resolved(u, owner, segments, visited + [e], Some(ArgumentException), [])
    {
      var vs := visited + [e];
      forall k | 0 <= k < |vs| - 1
        ensures vs[k].GetPersistentProperty(segments[k].segment).Some?
      {
        assert vs[k] == visited[k];
      }
    }

    /** One more entity reached and the property of its segment's name. */
    lemma WalkedSnoc(u: Universe, owner: TypeInfo, segments: seq<PropertyPaths.PropertyPath>,
                     visited: seq<BasicPersistentEntity>, result: seq<PersistentProperty>,
                     e: BasicPersistentEntity, p: PersistentProperty)
      requires WellFormed(u) && |visited| < |segments| && Walked(u, owner, segments, visited, result)
      requires Reached(u, entities, owner, segments, visited + [e])
      requires e.GetPersistentProperty(segments[|visited|].segment) == Some(p)
      ensures Walked(u, owner, segments, visited + [e], result + [p])
    {
      var vs, rs := visited + [e], result + [p];
      forall k | 0 <= k < |vs|
        ensures vs[k].GetPersistentProperty(segments[k].segment) == Some(rs[k]) && rs[k].Name() == segments[k].segment
      {
        if k < |visited| {
          assert vs[k] == visited[k] && rs[k] == result[k];
        }
      }
    }

    /**
     * The loop of `GetPersistentPropertyPath`: from the owner's entity
     * `current`, the property of each segment's name, then the entity of
     * the segment's type.
     */
    method ResolveSegments(u: Universe, owner: TypeInfo, segments: seq<PropertyPaths.PropertyPath>,
                           current: Option<BasicPersistentEntity>, fuel: nat)
      returns (r: Result<seq<PersistentProperty>, ContextError>, ghost visited: seq<BasicPersistentEntity>)
      requires WellFormed(u) && Valid() && KeysDistinct(u, entities)
      requires forall k :: 0 <= k < |segments| ==> (segments[k].next.Some? <==> k < |segments| - 1)
      requires current.Some? ==> Lookup(u, owner) == current
      modifies this
      ensures Valid() && KeysDistinct(u, entities) && old(entities) <= entities
      ensures Resolved(u, owner, segments, visited, if r.Ok? then None else Some(r.error), if r.Ok? then r.value else [])
    {
      visited := [];
      var entity := current;
      var result: seq<PersistentProperty> := [];
      var i := 0;
      while i < |segments|
        invariant 0 <= i <= |segments| && |visited| == i
        invariant old(entities) <= entities && Walked(u, owner, segments, visited, result)
        invariant i < |segments| && entity.Some? ==>
                    StepKey(u, owner, segments, i).Some? && Lookup(u, StepKey(u, owner, segments, i).value) == entity
      {
        if entity.None? {
          WalkedIsResolved(u, owner, segments, visited, result, Some(Failed(NullReference)));
          return Err(Failed(NullReference)), visited;
        }
        var step;
        step, visited := ResolveStep(u, owner, segments, i, entity.value, visited, result, fuel);
        if step.Err? {
          return Err(step.error), visited;
        }
        result := result + [step.value.0];
        entity := step.value.1;
        i := i + 1;
      }
      WalkedIsResolved(u, owner, segments, visited, result, None);
      return Ok(result), visited;
    }

    /** `GetPersistentEntity` for a segment's type, keeping the walk's state. */
    method NextEntity(u: Universe, ghost owner: TypeInfo, ghost segments: seq<PropertyPaths.PropertyPath>,
                      ghost visited: seq<BasicPersistentEntity>, ghost result: seq<PersistentProperty>, typ: TypeInfo, fuel: nat)
      returns (r: Result<Option<BasicPersistentEntity>, ContextError>)
      requires WellFormed(u) && Walked(u, owner, segments, visited, result)
      modifies this
      ensures old(entities) <= entities && Walked(u, owner, segments, visited, result)
      ensures r.Err? ==> r.error != ArgumentException
      ensures r.Ok? && r.value.Some? ==> Lookup(u, ClassInfo(Type(u, typ), [])) == r.value
    {
      ghost var registered := entities;
      r := GetPersistentEntity(u, ClassInfo(Type(u, typ), []), fuel);
      ReachedKeepsPrefix(u, registered, entities, owner, segments, visited);
    }

    /**
     * One segment of the walk: the property of the segment's name on
     * `entity`, then, unless it is the last segment, the entity of the
     * segment's type.
     */
    method ResolveStep(u: Universe, owner: TypeInfo, segments: seq<PropertyPaths.PropertyPath>, i: nat,
                       entity: BasicPersistentEntity, ghost visited: seq<BasicPersistentEntity>,
                       ghost result: seq<PersistentProperty>, fuel: nat)
      returns (r: Result<(PersistentProperty, Option<BasicPersistentEntity>), ContextError>,
               ghost visited': seq<BasicPersistentEntity>)
      requires WellFormed(u) && i < |segments| && |visited| == i && Walked(u, owner, segments, visited, result)
      requires segments[i].next.Some? <==> i < |segments| - 1
      requires StepKey(u, owner, segments, i).Some? && Lookup(u, StepKey(u, owner, segments, i).value) == Some(entity)
      modifies this
      ensures Valid() && KeysDistinct(u, entities) && old(entities) <= entities
      ensures visited' == visited + [entity]
      ensures r.Err? ==> Resolved(u, owner, segments, visited', Some(r.error), [])
      ensures r.Ok? ==> && Walked(u, owner, segments, visited', result + [r.value.0])
                        && (i + 1 < |segments| && r.value.1.Some? ==>
                              && StepKey(u, owner, segments, i + 1).Some?
                              && Lookup(u, StepKey(u, owner, segments, i + 1).value) == r.value.1)
    {
      ReachedSnoc(u, entities, owner, segments, visited, entity);
      visited' := visited + [entity];
      var segment := segments[i];
      var property := entity.GetPersistentProperty(segment.segment);
      if property.None? {
        LacksNameIsResolved(u, owner, segments, visited, result, entity);
        return Err(ArgumentException), visited';
      }
      WalkedSnoc(u, owner, segments, visited, result, entity, property.value);
      if segment.next.None? {
        return Ok((property.value, None)), visited';
      }
      if segment.typ.None? {
        WalkedIsResolved(u, owner, segments, visited', result + [property.value], Some(Failed(NullReference)));
        return Err(Failed(NullReference)), visited';
      }
      var next := NextEntity(u, owner, segments, visited', result + [property.value], segment.typ.value, fuel);
      if next.Err? {
        WalkedIsResolved(u, owner, segments, visited', result + [property.value], Some(next.error));
        return Err(next.error), visited';
      }
      return Ok((property.value, next.value)), visited';
    }
  }

  /** A persistent property path over a fresh list of the properties. */
  method NewPath(properties: seq<PersistentProperty>) returns (p: PersistentPropertyPaths.PersistentPropertyPath)
    requires |properties| > 0
    ensures p.Elements() == properties
  {
    var list := new List(properties);
    p := new PersistentPropertyPaths.PersistentPropertyPath(list);
  }

  /** Joining a path's names with '.' spells its dot path. */
  lemma JoinSpellsDotPath(path: PropertyPaths.PropertyPath)
    ensures PersistentPropertyPaths.Join(PropertyPaths.Names(path), ".") == PropertyPaths.DotPath(path)
  {
    PropertyPaths.DotPathJoinsNames(path);
    JoinIsJoinDots(PropertyPaths.Names(path));
  }

  lemma {:induction false} JoinIsJoinDots(names: seq<string>)
    requires |names| > 0
    ensures PersistentPropertyPaths.Join(names, ".") == PropertyPaths.JoinDots(names)
    decreases |names|
  {
    if |names| > 1 {
      JoinIsJoinDots(names[1..]);
    }
  }
}
