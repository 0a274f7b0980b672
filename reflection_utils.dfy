/**
 * `ReflectionUtils.DoWithFields`: hand every field of a type and of its base
 * types to a callback, skipping the fields a filter rejects. The callback's
 * effects depend only on the fields it is given, so the walk is modelled by
 * the sequence of fields it hands over.
 */
module ReflectionUtils {
  import opened Wrappers
  import opened Universe

  /** A field is handed over when there is no filter or the filter matches it. */
  predicate Passes(filter: Option<Field -> bool>, f: Field)
  {
    filter.None? || filter.value(f)
  }

  /** The fields of one type that pass the filter, in declaration order. */
  function Filtered(fields: seq<Field>, filter: Option<Field -> bool>): (r: seq<Field>)
    ensures forall f :: f in r <==> f in fields && Passes(filter, f)
    ensures |r| <= |fields|
  {
    if fields == [] then []
    else
      var last := fields[|fields| - 1];
      assert fields == fields[..|fields| - 1] + [last];
      Filtered(fields[..|fields| - 1], filter) + if Passes(filter, last) then [last] else []
  }

  /**
   * Whether the walk goes on to the base type `b`. As written, the do-while
   * goes on only while `b` is `object`; the evident intent, going up the
   * class hierarchy, goes on until `object`.
   */
  predicate GoesOn(b: TypeId, asWritten: bool)
  {
    if asWritten then b == ObjectType else b != ObjectType
  }

  /**
   * The fields one pass reads from `t`. As written, `GetFields(Instance |
   * NonPublic)` reports every field visible in `t`, inherited non-private
   * ones included; the documented walk, which visits each type of the
   * hierarchy in turn, reads only the fields `t` itself declares.
   */
  function TypeFields(u: Universe, t: TypeId, asWritten: bool): (r: seq<Field>)
    ensures forall f :: f in r <==> f in Raw(u, t).fields && (asWritten || f.declaringType == t)
  {
    if asWritten then Raw(u, t).fields else Filtered(Raw(u, t).fields, Some((f: Field) => f.declaringType == t))
  }

  /** The fields the walk from `t` hands over, this type's first. */
  function HierarchyFields(u: Universe, t: TypeId, filter: Option<Field -> bool>, asWritten: bool): seq<Field>
    requires WellFormed(u)
    decreases InheritanceRank(u, t)
  {
    Filtered(TypeFields(u, t, asWritten), filter) +
      match BaseType(u, t)
      case Some(b) => if GoesOn(b, asWritten) then HierarchyFields(u, b, filter, asWritten) else []
      case None => []
  }

  /** One step of the walk: this type's fields, then the walk from the base type if it goes on. */
  lemma HierarchyStep(u: Universe, t: TypeId, filter: Option<Field -> bool>, asWritten: bool)
    requires WellFormed(u)
    ensures var next := BaseType(u, t);
            HierarchyFields(u, t, filter, asWritten) ==
              Filtered(TypeFields(u, t, asWritten), filter)
              + if next.Some? && GoesOn(next.value, asWritten) then HierarchyFields(u, next.value, filter, asWritten) else []
  {
  }

  /** One type's fields through the filter, as the inner `foreach` hands them over. */
  method FilterFields(fields: seq<Field>, filter: Option<Field -> bool>) returns (handed: seq<Field>)
    ensures handed == Filtered(fields, filter)
  {
    handed := [];
    var i := 0;
    while i < |fields|
      invariant 0 <= i <= |fields| && handed == Filtered(fields[..i], filter)
    {
      assert fields[..i + 1][..i] == fields[..i];
      if Passes(filter, fields[i]) {
        handed := handed + [fields[i]];
      }
      i := i + 1;
    }
    assert fields[..i] == fields;
  }

  /** The fields the walk hands over from the cursor on; nothing once the walk has stopped. */
  function RemainingFields(u: Universe, cursor: Option<TypeId>, filter: Option<Field -> bool>, asWritten: bool): seq<Field>
    requires WellFormed(u)
  {
    if cursor.Some? then HierarchyFields(u, cursor.value, filter, asWritten) else []
  }

  /** How far the cursor is from the end of the walk. */
  function Distance(u: Universe, cursor: Option<TypeId>): nat
  {
    if cursor.Some? then InheritanceRank(u, cursor.value) + 1 else 0
  }

  /**
   * One pass of the do-while: the fields of `t` through the filter, and the
   * base type the walk moves on to, if it goes on.
   */
  method WalkStep(u: Universe, t: TypeId, filter: Option<Field -> bool>, asWritten: bool)
    returns (handed: seq<Field>, next: Option<TypeId>)
    requires WellFormed(u)
    ensures Distance(u, next) < Distance(u, Some(t))
    ensures HierarchyFields(u, t, filter, asWritten) == handed + RemainingFields(u, next, filter, asWritten)
  {
    handed := FilterFields(TypeFields(u, t, asWritten), filter);
    HierarchyStep(u, t, filter, asWritten);
    var b := BaseType(u, t);
    next := if b.Some? && GoesOn(b.value, asWritten) then b else None;
  }

  /** The do-while over the hierarchy, with the continuation rule chosen by `asWritten`. */
  method Walk(u: Universe, start: TypeId, filter: Option<Field -> bool>, asWritten: bool) returns (visited: seq<Field>)
    requires WellFormed(u)
    ensures visited == HierarchyFields(u, start, filter, asWritten)
  {
    visited := [];
    var cursor := Some(start);
    while cursor.Some?
      invariant visited + RemainingFields(u, cursor, filter, asWritten) == HierarchyFields(u, start, filter, asWritten)
      decreases Distance(u, cursor)
    {
      var handed, next := WalkStep(u, cursor.value, filter, asWritten);
      ghost var rest := RemainingFields(u, next, filter, asWritten);
      assert visited + (handed + rest) == (visited + handed) + rest;
      visited := visited + handed;
      cursor := next;
    }
    assert visited + [] == visited;
  }

  /** `DoWithFields` as written: the loop continues only while the next type is `object`. */
  method DoWithFields(u: Universe, start: TypeId, filter: Option<Field -> bool>) returns (visited: seq<Field>)
    requires WellFormed(u)
    ensures visited == HierarchyFields(u, start, filter, true)
  {
    visited := Walk(u, start, filter, true);
  }

  /** `DoWithFields` as documented: the fields declared by every type up to, not including, `object`. */
  method DoWithAllFields(u: Universe, start: TypeId, filter: Option<Field -> bool>) returns (visited: seq<Field>)
    requires WellFormed(u)
    ensures visited == HierarchyFields(u, start, filter, false)
  {
    visited := Walk(u, start, filter, false);
  }

  /** `a` is `t`, or an ancestor of `t` reached without passing through `object`. */
  predicate ReachesBelowObject(u: Universe, t: TypeId, a: TypeId)
    requires WellFormed(u)
    decreases InheritanceRank(u, t)
  {
    t == a
    || (BaseType(u, t).Some? && BaseType(u, t).value != ObjectType
        && ReachesBelowObject(u, BaseType(u, t).value, a))
  }

  /**
   * The documented walk hands over exactly the fields that pass the filter
   * and are declared by the start type or an ancestor below `object`.
   */
  lemma {:induction false} AllFieldsCoverHierarchy(u: Universe, t: TypeId, filter: Option<Field -> bool>, f: Field)
    requires WellFormed(u)
    ensures f in HierarchyFields(u, t, filter, false) <==>
              Passes(filter, f) && ReachesBelowObject(u, t, f.declaringType) && f in Raw(u, f.declaringType).fields
    decreases InheritanceRank(u, t)
  {
    var here := Filtered(TypeFields(u, t, false), filter);
    assert ReachesBelowObject(u, t, t);
    match BaseType(u, t) {
      case None =>
        assert HierarchyFields(u, t, filter, false) == here;
        assert ReachesBelowObject(u, t, f.declaringType) ==> f.declaringType == t;
      case Some(b) =>
        if b == ObjectType {
          assert HierarchyFields(u, t, filter, false) == here;
          assert ReachesBelowObject(u, t, f.declaringType) ==> f.declaringType == t;
        } else {
          assert HierarchyFields(u, t, filter, false) == here + HierarchyFields(u, b, filter, false);
          AllFieldsCoverHierarchy(u, b, filter, f);
          if f.declaringType != t {
            assert ReachesBelowObject(u, t, f.declaringType) <==> ReachesBelowObject(u, b, f.declaringType);
          }
        }
    }
  }

  /** An ancestor reached below `object` ranks no higher than the type it is reached from. */
  lemma {:induction false} ReachedRanksLower(u: Universe, t: TypeId, a: TypeId)
    requires WellFormed(u) && ReachesBelowObject(u, t, a)
    ensures InheritanceRank(u, a) <= InheritanceRank(u, t)
    decreases InheritanceRank(u, t)
  {
    if t != a {
      ReachedRanksLower(u, BaseType(u, t).value, a);
    }
  }

  /** No field occurs twice. */
  predicate Distinct(fs: seq<Field>)
  {
    forall i, j :: 0 <= i < j < |fs| ==> fs[i] != fs[j]
  }

  /** Keeping some fields of a list without repeats keeps it without repeats. */
  lemma {:induction false} FilteredDistinct(fields: seq<Field>, filter: Option<Field -> bool>)
    requires Distinct(fields)
    ensures Distinct(Filtered(fields, filter))
    decreases |fields|
  {
    if fields != [] {
      var init := fields[..|fields| - 1];
      var last := fields[|fields| - 1];
      assert Distinct(init);
      FilteredDistinct(init, filter);
      assert last !in Filtered(init, filter);
    }
  }

  /**
   * Each type's own fields are distinct, so the documented walk hands every
   * field over once: a field is read only on the type that declares it.
   */
  lemma {:induction false} AllFieldsHandedOnce(u: Universe, t: TypeId, filter: Option<Field -> bool>)
    requires WellFormed(u)
    requires forall a :: ReachesBelowObject(u, t, a) ==> Distinct(Raw(u, a).fields)
    ensures Distinct(HierarchyFields(u, t, filter, false))
    decreases InheritanceRank(u, t)
  {
    assert ReachesBelowObject(u, t, t);
    var own := TypeFields(u, t, false);
    FilteredDistinct(Raw(u, t).fields, Some((f: Field) => f.declaringType == t));
    FilteredDistinct(own, filter);
    var here := Filtered(own, filter);
    match BaseType(u, t) {
      case None =>
      case Some(b) =>
        if b != ObjectType {
          forall a | ReachesBelowObject(u, b, a) ensures Distinct(Raw(u, a).fields) {
            assert ReachesBelowObject(u, t, a);
          }
          AllFieldsHandedOnce(u, b, filter);
          var rest := HierarchyFields(u, b, filter, false);
          forall f | f in rest ensures f !in here {
            AllFieldsCoverHierarchy(u, b, filter, f);
            ReachedRanksLower(u, b, f.declaringType);
          }
          var all := here + rest;
          forall i, j | 0 <= i < j < |all| ensures all[i] != all[j] {
            if i < |here| && j >= |here| {
              assert all[j] == rest[j - |here|] && all[j] in rest;
            }
          }
        }
    }
  }

  /**
   * As written, the walk stops at any base type other than `object`: a field
   * that passes the filter and is declared on such a base type but not
   * visible in the start type, a private one, is never handed over, while
   * the documented walk hands it over.
   */
  lemma AsWrittenMissesBaseFields(u: Universe, t: TypeId, filter: Option<Field -> bool>, f: Field)
    requires WellFormed(u)
    requires BaseType(u, t).Some? && BaseType(u, t).value != ObjectType
    requires f.declaringType == BaseType(u, t).value && f in Raw(u, f.declaringType).fields
    requires f !in Raw(u, t).fields && Passes(filter, f)
    ensures HierarchyFields(u, t, filter, true) == Filtered(Raw(u, t).fields, filter)
    ensures f !in HierarchyFields(u, t, filter, true)
    ensures f in HierarchyFields(u, t, filter, false)
  {
    var b := BaseType(u, t).value;
    assert HierarchyFields(u, t, filter, false) == Filtered(TypeFields(u, t, false), filter) + HierarchyFields(u, b, filter, false);
    assert f in Filtered(TypeFields(u, b, false), filter);
  }
}
