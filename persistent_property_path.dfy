/**
 * `DefaultPersistentPropertyPath`: a non-empty chain of persistent properties
 * held in a list object, with prefix, suffix and parent operations.
 */
module PersistentPropertyPaths {
  import opened Wrappers
  import opened TypeInformation
  import opened PersistentProperties
  import opened Lists

  /** `StringUtils.CollectionToDelimitedString`: the parts with the delimiter between them. */
  function Join(parts: seq<string>, delimiter: string): string
  {
    if parts == [] then ""
    else if |parts| == 1 then parts[0]
    else parts[0] + delimiter + Join(parts[1..], delimiter)
  }

  /** Cuts a string at every occurrence of `c`. */
  function Split(s: string, c: char): (r: seq<string>)
    ensures |r| > 0
  {
    if |s| == 0 then [""]
    else if s[0] == c then [""] + Split(s[1..], c)
    else
      var rest := Split(s[1..], c);
      [[s[0]] + rest[0]] + rest[1..]
  }

  /** A piece without the delimiter, followed by the delimiter, splits off as that piece. */
  lemma {:induction false} SplitAfterPiece(a: string, c: char, b: string)
    requires c !in a
    ensures Split(a + [c] + b, c) == [a] + Split(b, c)
    ensures Split(a, c) == [a]
  {
    if |a| == 0 {
      assert a + [c] + b == [c] + b;
      assert ([c] + b)[1..] == b;
    } else {
      assert (a + [c] + b)[1..] == a[1..] + [c] + b;
      assert (a + [c] + b)[0] == a[0];
      SplitAfterPiece(a[1..], c, b);
      assert [a[0]] + a[1..] == a;
    }
  }

  /** Joining pieces that do not contain `c` with `c` and splitting at `c` gives the pieces back. */
  lemma {:induction false} SplitJoin(parts: seq<string>, c: char)
    requires |parts| > 0
    requires forall k :: 0 <= k < |parts| ==> c !in parts[k]
    ensures Split(Join(parts, [c]), c) == parts
  {
    if |parts| == 1 {
      SplitAfterPiece(parts[0], c, "");
    } else {
      SplitJoin(parts[1..], c);
      SplitAfterPiece(parts[0], c, Join(parts[1..], [c]));
      assert parts == [parts[0]] + parts[1..];
    }
  }

  /** The names of the properties, in order. */
  function PropertyNames(ps: seq<PersistentProperty>): (r: seq<string>)
    ensures |r| == |ps| && forall k :: 0 <= k < |ps| ==> r[k] == ps[k].Name()
  {
    seq(|ps|, k requires 0 <= k < |ps| => ps[k].Name())
  }

  /** The strings the converter makes of the properties; no converter means their names. */
  function Converted(ps: seq<PersistentProperty>, converter: Option<PersistentProperty -> string>): (r: seq<string>)
    ensures |r| == |ps|
    ensures converter.None? ==> r == PropertyNames(ps)
  {
    match converter
    case None => PropertyNames(ps)
    case Some(f) => seq(|ps|, k requires 0 <= k < |ps| => f(ps[k]))
  }

  /** `b` is an element-wise prefix of `p`, comparing properties by `Equals`. */
  predicate IsBase(b: seq<PersistentProperty>, p: seq<PersistentProperty>)
  {
    |b| <= |p| && forall k :: 0 <= k < |b| ==> PropertyEquals(b[k], p[k])
  }

  /** Being a base path is reflexive and transitive. */
  lemma IsBasePreorder(a: seq<PersistentProperty>, b: seq<PersistentProperty>, c: seq<PersistentProperty>)
    ensures IsBase(a, a)
    ensures IsBase(a, b) && IsBase(b, c) ==> IsBase(a, c)
  {
    forall k | 0 <= k < |a| ensures PropertyEquals(a[k], a[k]) {
      PropertyEqualsIsFieldEquality(a[k], a[k], a[k]);
    }
    if IsBase(a, b) && IsBase(b, c) {
      forall k | 0 <= k < |a| ensures PropertyEquals(a[k], c[k]) {
        PropertyEqualsIsFieldEquality(a[k], b[k], c[k]);
      }
    }
  }

  class PersistentPropertyPath {
    const properties: List<PersistentProperty>

    constructor (properties: List<PersistentProperty>)
      requires |properties.elements| > 0
      ensures this.properties == properties
    {
      this.properties := properties;
    }

    /** The constructor's argument check: an empty list is rejected. */
    static method New(properties: List<PersistentProperty>) returns (r: Result<PersistentPropertyPath, TypeError>)
      ensures |properties.elements| == 0 ==> r == Err(ArgumentError)
      ensures |properties.elements| > 0 <==> r.Ok?
      ensures r.Ok? ==> r.value.properties == properties
    {
      if |properties.elements| == 0 {
        return Err(ArgumentError);
      }
      var path := new PersistentPropertyPath(properties);
      return Ok(path);
    }

    function Elements(): seq<PersistentProperty>
    {
      properties.elements
    }

    /**
     * `ToPath(delimiter, converter)`: each property converted (by default to
     * its name), joined with the delimiter (by default ".").
     */
    method ToPath(delimiter: Option<string>, converter: Option<PersistentProperty -> string>) returns (r: string)
      ensures r == Join(Converted(Elements(), converter), delimiter.GetOr("."))
    {
      var result: seq<string> := [];
      var i := 0;
      while i < |properties.elements|
        invariant 0 <= i <= |properties.elements|
        invariant result == Converted(properties.elements[..i], converter)
      {
        var converted := match converter
                         case None => properties.elements[i].Name()
                         case Some(f) => f(properties.elements[i]);
        assert properties.elements[..i + 1] == properties.elements[..i] + [properties.elements[i]];
        result := result + [converted];
        i := i + 1;
      }
      assert properties.elements[..i] == properties.elements;
      return Join(result, delimiter.GetOr("."));
    }

    /** `ToDotPath`: the names joined with dots; when no name holds a dot, splitting at dots gives them back. */
    method ToDotPath() returns (r: string)
      ensures r == Join(PropertyNames(Elements()), ".")
      ensures (forall k :: 0 <= k < |Elements()| ==> '.' !in Elements()[k].Name()) && |Elements()| > 0
              ==> Split(r, '.') == PropertyNames(Elements())
    {
      r := ToPath(None, None);
      if (forall k :: 0 <= k < |Elements()| ==> '.' !in Elements()[k].Name()) && |Elements()| > 0 {
        SplitJoin(PropertyNames(Elements()), '.');
      }
    }

    /** `LeafProperty`: the last property, or the default when there is none. */
    function LeafProperty(): (r: Option<PersistentProperty>)
      ensures |Elements()| > 0 <==> r.Some?
      ensures r.Some? ==> r.value == Elements()[|Elements()| - 1]
    {
      if |properties.elements| == 0 then None else Some(properties.elements[|properties.elements| - 1])
    }

    /** `BaseProperty`: the first property, or the default when there is none. */
    function BaseProperty(): (r: Option<PersistentProperty>)
      ensures |Elements()| > 0 <==> r.Some?
      ensures r.Some? ==> r.value == Elements()[0]
    {
      if |properties.elements| == 0 then None else Some(properties.elements[0])
    }

    function Length(): nat
    {
      |properties.elements|
    }

    /** `IsBasePathOf`: walks this path and `path` side by side. */
    method IsBasePathOf(path: PersistentPropertyPath?) returns (b: bool)
      ensures b <==> path != null && IsBase(Elements(), path.Elements())
    {
      if path == null {
        return false;
      }
      var i := 0;
      while i < |properties.elements|
        invariant 0 <= i <= |properties.elements|
        invariant i <= |path.properties.elements|
        invariant forall k :: 0 <= k < i ==> PropertyEquals(properties.elements[k], path.properties.elements[k])
      {
        if i >= |path.properties.elements| {
          return false;
        }
        if !PropertyEquals(properties.elements[i], path.properties.elements[i]) {
          return false;
        }
        i := i + 1;
      }
      return true;
    }

    /**
     * `GetExtensionForBaseOf`: this path when `base` is not a base of it,
     * otherwise what follows the base. A base as long as this path leaves an
     * empty list, which the constructor rejects.
     */
    method GetExtensionForBaseOf(base: PersistentPropertyPath) returns (r: Result<PersistentPropertyPath, TypeError>)
      ensures !IsBase(base.Elements(), Elements()) ==> r == Ok(this)
      ensures IsBase(base.Elements(), Elements()) ==>
                && (r.Ok? <==> base.Length() < Length())
                && (r.Ok? ==> r.value.Elements() == Elements()[base.Length()..])
                && (r.Err? ==> r.error == ArgumentError)
    {
      var isBase := base.IsBasePathOf(this);
      if !isBase {
        return Ok(this);
      }
      var rest: seq<PersistentProperty> := [];
      var i := base.Length();
      while i < |properties.elements|
        invariant base.Length() <= i <= |properties.elements|
        invariant rest == properties.elements[base.Length()..i]
      {
        assert properties.elements[base.Length()..i + 1] == properties.elements[base.Length()..i] + [properties.elements[i]];
        rest := rest + [properties.elements[i]];
        i := i + 1;
      }
      var list := new List(rest);
      r := New(list);
    }

    /** `ParentPath`: this path when it has one property, otherwise all but the leaf. */
    method ParentPath() returns (r: PersistentPropertyPath)
      ensures Length() <= 1 ==> r == this
      ensures Length() > 1 ==> r.Elements() == Elements()[..Length() - 1]
    {
      var size := |properties.elements|;
      if size <= 1 {
        return this;
      }
      var list := new List(properties.elements[..size - 1]);
      r := new PersistentPropertyPath(list);
    }

    /** `Equals`: the same path object, or paths over the same list object. */
    predicate Equals(that: PersistentPropertyPath?)
    {
      this == that || (that != null && properties == that.properties)
    }
  }

  /** The parent path is a base of the path, and what extends it is the leaf alone. */
  lemma ParentIsBase(ps: seq<PersistentProperty>)
    requires |ps| > 1
    ensures IsBase(ps[..|ps| - 1], ps)
    ensures ps[|ps[..|ps| - 1]|..] == [ps[|ps| - 1]]
  {
    forall k | 0 <= k < |ps| - 1 ensures PropertyEquals(ps[..|ps| - 1][k], ps[k]) {
      PropertyEqualsIsFieldEquality(ps[k], ps[k], ps[k]);
    }
  }
}
