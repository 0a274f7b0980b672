/**
 * Property paths: a property expression such as "UserName" or "Bar.User_Name"
 * resolved against a type, one segment per property. A token that is not a
 * property is split before its last camel-case word, and the split-off words
 * are resolved against the type the head resolved to.
 */
module PropertyPaths {
  import opened Wrappers
  import opened Universe
  import opened TypeInformation

  // ---------------------------------------------------------------------------
  // Characters
  // ---------------------------------------------------------------------------

  /** `\p{Lu}` restricted to ASCII. */
  predicate IsUpper(c: char) { 'A' <= c <= 'Z' }

  /** `\p{Ll}` restricted to ASCII. */
  predicate IsLower(c: char) { 'a' <= c <= 'z' }

  /** The characters of the `Delimiters` class, `_` and `.`. */
  predicate IsDelimiter(c: char) { c == '_' || c == '.' }

  /** `Char.IsWhiteSpace` restricted to ASCII: space, tab, line feed, vertical tab, form feed, carriage return. */
  predicate IsWhiteSpace(c: char) { c == ' ' || '\t' <= c <= '\r' }

  /** `StringUtils.HasText`: some character is not white space. */
  predicate HasText(s: string)
  {
    exists k :: 0 <= k < |s| && !IsWhiteSpace(s[k])
  }

  // ---------------------------------------------------------------------------
  // The camel-case split point: `\p{Lu}+\p{Ll}*$`
  // ---------------------------------------------------------------------------

  /** `t` as a whole matches `\p{Lu}*\p{Ll}*`. */
  predicate UppersThenLowers(t: string)
  {
    if t == [] then true
    else if IsUpper(t[0]) then UppersThenLowers(t[1..])
    else forall k :: 0 <= k < |t| ==> IsLower(t[k])
  }

  /** `t` as a whole matches `\p{Lu}+\p{Ll}*`. */
  predicate CamelTail(t: string)
  {
    |t| > 0 && IsUpper(t[0]) && UppersThenLowers(t[1..])
  }

  /** The start of the longest run of lower-case letters that ends `s`. */
  function LowerSuffixStart(s: string): (j: nat)
    ensures j <= |s|
    ensures forall k :: j <= k < |s| ==> IsLower(s[k])
    ensures j == 0 || !IsLower(s[j - 1])
  {
    if s != [] && IsLower(s[|s| - 1]) then
      var j := LowerSuffixStart(s[..|s| - 1]);
      assert forall k :: j <= k < |s| - 1 ==> s[k] == s[..|s| - 1][k];
      j
    else |s|
  }

  /** The start of the longest run of upper-case letters that ends just before `j`. */
  function UpperRunStart(s: string, j: nat): (i: nat)
    requires j <= |s|
    ensures i <= j
    ensures forall k :: i <= k < j ==> IsUpper(s[k])
    ensures i == 0 || !IsUpper(s[i - 1])
  {
    if j > 0 && IsUpper(s[j - 1]) then UpperRunStart(s, j - 1) else j
  }

  /** Upper-case letters on [a, b) followed by lower-case letters to the end match `\p{Lu}*\p{Ll}*`. */
  lemma {:induction false} UppersThenLowersFrom(s: string, a: nat, b: nat)
    requires a <= b <= |s|
    requires forall k :: a <= k < b ==> IsUpper(s[k])
    requires forall k :: b <= k < |s| ==> IsLower(s[k])
    ensures UppersThenLowers(s[a..])
    decreases b - a
  {
    if a < b {
      UppersThenLowersFrom(s, a + 1, b);
      assert s[a..][1..] == s[a + 1..];
    } else if a < |s| {
      assert !IsUpper(s[a..][0]);
      assert forall k :: 0 <= k < |s[a..]| ==> s[a..][k] == s[a + k];
    }
  }

  /** Past the first character that is not upper case, a `\p{Lu}*\p{Ll}*` match holds only lower-case letters. */
  lemma {:induction false} LowerOnceLowerAfter(s: string, a: nat, k: nat)
    requires a <= k < |s|
    requires UppersThenLowers(s[a..])
    requires !IsUpper(s[k])
    ensures forall m :: k <= m < |s| ==> IsLower(s[m])
    decreases k - a
  {
    if IsUpper(s[a..][0]) {
      assert s[a..][1..] == s[a + 1..];
      LowerOnceLowerAfter(s, a + 1, k);
    } else {
      forall m | k <= m < |s| ensures IsLower(s[m]) {
        assert s[m] == s[a..][m - a];
      }
    }
  }

  /**
   * Where `\p{Lu}+\p{Ll}*$` first matches `s`, or -1 when it matches nowhere:
   * the start of the upper-case run that precedes the trailing lower-case run.
   */
  function CamelSplitIndex(s: string): (r: int)
    ensures -1 <= r < |s|
    ensures r >= 0 ==> CamelTail(s[r..])
    ensures forall k :: 0 <= k < |s| && (r < 0 || k < r) ==> !CamelTail(s[k..])
  {
    var j := LowerSuffixStart(s);
    var i := UpperRunStart(s, j);
    if i < j then
      UppersThenLowersFrom(s, i + 1, j);
      assert s[i..][1..] == s[i + 1..];
      NoEarlierMatch(s, i, j);
      i
    else
      NoEarlierMatch(s, i, j);
      -1
  }

  /** No match of `\p{Lu}+\p{Ll}*$` starts before the upper-case run or inside the trailing lower-case run. */
  lemma NoEarlierMatch(s: string, i: nat, j: nat)
    requires i <= j <= |s|
    requires forall k :: j <= k < |s| ==> IsLower(s[k])
    requires j == 0 || !IsLower(s[j - 1])
    requires forall k :: i <= k < j ==> IsUpper(s[k])
    requires i == 0 || !IsUpper(s[i - 1])
    ensures forall k :: 0 <= k < |s| && (k < i || j <= k) ==> !CamelTail(s[k..])
  {
    forall k | 0 <= k < |s| && (k < i || j <= k)
      ensures !CamelTail(s[k..])
    {
      if CamelTail(s[k..]) {
        assert IsUpper(s[k]) by { assert s[k..][0] == s[k]; }
        if k < i {
          assert k != i - 1;
          assert s[k..][1..] == s[k + 1..];
          LowerOnceLowerAfter(s, k + 1, i - 1);
        }
      }
    }
  }

  // ---------------------------------------------------------------------------
  // The part splitter: `(?:[_\.]?([_\.]*?[^_\.]+))` over "_" + source
  // ---------------------------------------------------------------------------

  /** Where the run of delimiters that starts at `i` ends. */
  function DelimiterEnd(s: string, i: nat): (j: nat)
    requires i <= |s|
    ensures i <= j <= |s|
    ensures forall k :: i <= k < j ==> IsDelimiter(s[k])
    ensures j < |s| ==> !IsDelimiter(s[j])
    decreases |s| - i
  {
    if i < |s| && IsDelimiter(s[i]) then DelimiterEnd(s, i + 1) else i
  }

  /** Where the run of non-delimiters that starts at `i` ends. */
  function TokenEnd(s: string, i: nat): (j: nat)
    requires i <= |s|
    ensures i <= j <= |s|
    ensures forall k :: i <= k < j ==> !IsDelimiter(s[k])
    ensures j < |s| ==> IsDelimiter(s[j])
    decreases |s| - i
  {
    if i < |s| && !IsDelimiter(s[i]) then TokenEnd(s, i + 1) else i
  }

  /**
   * The successive matches of the splitter regex on `s` from position `i`,
   * each without its first character. A match is a whole run of delimiters
   * followed by a whole run of other characters; trailing delimiters match
   * nothing.
   */
  function MatchesFrom(s: string, i: nat): (parts: seq<string>)
    requires i <= |s|
    decreases |s| - i
  {
    var d := DelimiterEnd(s, i);
    var e := TokenEnd(s, d);
    if e == d then [] else [s[i + 1..e]] + MatchesFrom(s, e)
  }

  /** The parts `From` resolves one after another. */
  function Splitter(source: string): seq<string>
  {
    MatchesFrom("_" + source, 0)
  }

  /** `s` with its delimiters removed. */
  function Strip(s: string): string
  {
    if s == [] then [] else (if IsDelimiter(s[0]) then [] else [s[0]]) + Strip(s[1..])
  }

  /** The strings of `parts`, concatenated. */
  function Concat(parts: seq<string>): string
  {
    if parts == [] then [] else parts[0] + Concat(parts[1..])
  }

  lemma {:induction false} StripAppend(a: string, b: string)
    ensures Strip(a + b) == Strip(a) + Strip(b)
  {
    if a == [] {
      assert a + b == b;
    } else {
      assert (a + b)[0] == a[0];
      assert (a + b)[1..] == a[1..] + b;
      StripAppend(a[1..], b);
    }
  }

  lemma {:induction false} StripDelimiters(s: string)
    requires forall k :: 0 <= k < |s| ==> IsDelimiter(s[k])
    ensures Strip(s) == []
  {
    if s != [] {
      StripDelimiters(s[1..]);
    }
  }

  /** The matches from a delimiter, or from the end, are non-empty and end in a non-delimiter. */
  lemma {:induction false} MatchesAreTokens(s: string, i: nat)
    requires i <= |s| && (i == |s| || IsDelimiter(s[i]))
    ensures forall p :: p in MatchesFrom(s, i) ==> |p| > 0 && !IsDelimiter(p[|p| - 1])
    decreases |s| - i
  {
    var d := DelimiterEnd(s, i);
    var e := TokenEnd(s, d);
    if e > d {
      assert d > i;
      MatchesAreTokens(s, e);
      var part := s[i + 1..e];
      assert part[|part| - 1] == s[e - 1];
      assert MatchesFrom(s, i) == [part] + MatchesFrom(s, e);
    }
  }

  /** The matches from a delimiter, or from the end, hold every non-delimiter from there on, in order. */
  lemma {:induction false} MatchesKeepTokens(s: string, i: nat)
    requires i <= |s| && (i == |s| || IsDelimiter(s[i]))
    ensures Strip(Concat(MatchesFrom(s, i))) == Strip(s[i..])
    decreases |s| - i
  {
    var d := DelimiterEnd(s, i);
    var e := TokenEnd(s, d);
    if e == d {
      assert d == |s|;
      assert forall k :: 0 <= k < |s[i..]| ==> s[i..][k] == s[i + k];
      StripDelimiters(s[i..]);
    } else {
      MatchesKeepTokens(s, e);
      var part := s[i + 1..e];
      assert Concat(MatchesFrom(s, i)) == part + Concat(MatchesFrom(s, e));
      StripAppend(part, Concat(MatchesFrom(s, e)));
      StripSplit(s, i, e);
    }
  }

  /** Dropping the delimiter at `i` and cutting at `m` does not change what `Strip` keeps of `s[i..]`. */
  lemma StripSplit(s: string, i: nat, m: nat)
    requires i < m <= |s| && IsDelimiter(s[i])
    ensures Strip(s[i..]) == Strip(s[i + 1..m]) + Strip(s[m..])
  {
    assert s[i..][0] == s[i];
    assert s[i..][1..] == s[i + 1..m] + s[m..];
    StripAppend(s[i + 1..m], s[m..]);
  }

  /** Splitting loses no letter of the source and yields no empty part. */
  lemma SplitterKeepsTokens(source: string)
    ensures forall p :: p in Splitter(source) ==> |p| > 0 && !IsDelimiter(p[|p| - 1])
    ensures Strip(Concat(Splitter(source))) == Strip(source)
  {
    var s := "_" + source;
    MatchesAreTokens(s, 0);
    MatchesKeepTokens(s, 0);
    assert s[0..] == s;
    StripAppend("_", source);
  }

  /** A source without delimiters is a single part. */
  lemma SplitterOfPlainToken(source: string)
    requires source != []
    requires forall k :: 0 <= k < |source| ==> !IsDelimiter(source[k])
    ensures Splitter(source) == [source]
  {
    var s := "_" + source;
    assert !IsDelimiter(s[1]) by { assert s[1] == source[0]; }
    assert DelimiterEnd(s, 0) == 1 by { assert DelimiterEnd(s, 0) == DelimiterEnd(s, 1); }
    assert forall k :: 1 <= k < |s| ==> !IsDelimiter(s[k]) by {
      forall k | 1 <= k < |s| ensures !IsDelimiter(s[k]) {
        assert s[k] == source[k - 1];
      }
    }
    assert TokenEnd(s, 1) == |s|;
    assert MatchesFrom(s, |s|) == [];
    assert s[1..|s|] == source;
  }

  // ---------------------------------------------------------------------------
  // Paths and the reference exception
  // ---------------------------------------------------------------------------

  /**
   * One segment of a path: the type it was resolved on, its name, the actual
   * type of the property (null when that has none), whether the property is
   * collection-like, and the next segment.
   */
  datatype PropertyPath = PropertyPath(
    owningType: TypeInfo,
    segment: string,
    typ: Option<TypeInfo>,
    isCollection: bool,
    next: Option<PropertyPath>)

  /** `PropertyReferenceException`: the main constructor, or one of the message-only ones. */
  datatype PropertyReferenceException =
    | Unresolved(name: string, owner: TypeInfo, baseProperty: Option<PropertyPath>)
    | Described(message: Option<string>)
  {
    function PropertyName(): Option<string>
    {
      if Unresolved? then Some(name) else None
    }

    function Type(): Option<TypeInfo>
    {
      if Unresolved? then Some(owner) else None
    }

    function BaseProperty(): Option<PropertyPath>
    {
      if Unresolved? then baseProperty else None
    }
  }

  /** What resolving a path can throw: the reference exception, an argument check, or a resolver error. */
  datatype PathError =
    | Unresolvable(exception: PropertyReferenceException)
    | InvalidArgument
    | Resolver(error: TypeError)

  /** The main constructor of the exception, with its argument checks. */
  function NewReferenceException(name: string, owner: Option<TypeInfo>, baseProperty: Option<PropertyPath>)
    : (r: Result<PropertyReferenceException, PathError>)
    ensures r.Ok? <==> HasText(name) && owner.Some?
    ensures r.Err? ==> r.error == InvalidArgument
    ensures r.Ok? ==> r.value.PropertyName() == Some(name) && r.value.Type() == owner
                      && r.value.BaseProperty() == baseProperty
  {
    if !HasText(name) || owner.None? then Err(InvalidArgument)
    else Ok(Unresolved(name, owner.value, baseProperty))
  }

  const MessagePrefix: string := "No property "
  const MessageInfix: string := " found for type "

  /** `ApplicationException`'s message when none is given. */
  const DefaultMessage: string := "Error in the application."

  /**
   * `Message`: the template naming the property and the name of the type's
   * resolved raw type; without name and type, the base message.
   */
  function Message(u: Universe, e: PropertyReferenceException): (r: string)
    ensures e.Unresolved? ==>
              var typeName := Raw(u, TypeInformation.Type(u, e.owner)).name;
              && |r| == |MessagePrefix| + |e.name| + |MessageInfix| + |typeName|
              && r[..|MessagePrefix|] == MessagePrefix
              && r[|MessagePrefix|..|MessagePrefix| + |e.name|] == e.name
              && r[|MessagePrefix| + |e.name|..|r| - |typeName|] == MessageInfix
              && r[|r| - |typeName|..] == typeName
    ensures e.Described? && e.message.None? ==> r == DefaultMessage
    ensures e.Described? && e.message.Some? ==> r == e.message.value
  {
    match e
    case Unresolved(name, owner, _) => MessagePrefix + name + MessageInfix + Raw(u, TypeInformation.Type(u, owner)).name
    case Described(message) => message.GetOr(DefaultMessage)
  }

  /** `s.Contains(sub)` holds of anything written around `sub`. */
  lemma {:induction false} ContainsInfix(a: string, sub: string, c: string)
    ensures Contains(a + sub + c, sub)
    decreases |a|
  {
    if a == [] {
      assert (a + sub + c)[..|sub|] == sub;
    } else {
      assert (a + sub + c)[1..] == a[1..] + sub + c;
      ContainsInfix(a[1..], sub, c);
    }
  }

  /** The message of an unresolved property mentions "property <name>". */
  lemma MessageNamesProperty(u: Universe, e: PropertyReferenceException)
    requires e.Unresolved?
    ensures Contains(Message(u, e), "property " + e.name)
  {
    var typeName := Raw(u, TypeInformation.Type(u, e.owner)).name;
    MessageRegrouped(e.name, typeName);
    ContainsInfix("No ", "property " + e.name, MessageInfix + typeName);
  }

  /** The message template, regrouped around "property <name>". */
  lemma MessageRegrouped(name: string, typeName: string)
    ensures MessagePrefix + name + MessageInfix + typeName == "No " + ("property " + name) + (MessageInfix + typeName)
  {
    assert MessagePrefix == "No " + "property ";
    calc {
      MessagePrefix + name + MessageInfix + typeName;
      ("No " + "property ") + name + MessageInfix + typeName;
      { assert ("No " + "property ") + name == "No " + ("property " + name); }
      "No " + ("property " + name) + MessageInfix + typeName;
    }
  }

  // ---------------------------------------------------------------------------
  // Resolution
  // ---------------------------------------------------------------------------

  /**
   * The constructor `PropertyPath(name, owningType, base)`: the name must have
   * text and the owning type be present; a name the owning type has no
   * property for throws the reference exception carrying `base`.
   */
  function NewPropertyPath(u: Universe, name: string, owningType: Option<TypeInfo>, baseProperty: Option<PropertyPath>)
    : (r: Result<PropertyPath, PathError>)
    requires WellFormed(u)
    ensures !HasText(name) || owningType.None? ==> r == Err(InvalidArgument)
    ensures HasText(name) && owningType.Some? && GetProperty(u, owningType.value, name) == Ok(None) ==>
              r == Err(Unresolvable(Unresolved(name, owningType.value, baseProperty)))
    ensures r.Ok? ==>
              && HasText(name) && owningType.Some?
              && r.value.owningType == owningType.value && r.value.segment == name && r.value.next.None?
              && var property := GetProperty(u, owningType.value, name);
                 && property.Ok? && property.value.Some?
                 && r.value.isCollection == IsCollectionLike(u, property.value.value)
                 && ActualType(u, property.value.value) == Ok(r.value.typ)
    ensures r.Err? && r.error.Unresolvable? ==> r.error.exception.Unresolved? && r.error.exception.name == name
  {
    if !HasText(name) || owningType.None? then Err(InvalidArgument)
    else
      match GetProperty(u, owningType.value, name)
      case Err(e) => Err(Resolver(e))
      case Ok(None) => Err(Unresolvable(Unresolved(name, owningType.value, baseProperty)))
      case Ok(Some(property)) =>
        match ActualType(u, property)
        case Err(e) => Err(Resolver(e))
        case Ok(actual) => Ok(PropertyPath(owningType.value, name, actual, IsCollectionLike(u, property), None))
  }

  /** The segment names of a path, in order. */
  function Names(p: PropertyPath): (r: seq<string>)
    ensures |r| > 0 && r[0] == p.segment
  {
    [p.segment] + (if p.next.Some? then Names(p.next.value) else [])
  }

  /**
   * The four-argument `Create`: resolve `source` as a whole, then `addTail`
   * against its type. Only when `source` itself is not a property is it split
   * at the last camel-case word and the split-off word carried in front of
   * `addTail`; without a split point the first exception is thrown. Once a
   * head has resolved, a failure in its tail is thrown as it is.
   */
  function Create(u: Universe, source: string, typ: Option<TypeInfo>, addTail: string, baseProperty: Option<PropertyPath>)
    : (r: Result<PropertyPath, PathError>)
    requires WellFormed(u)
    decreases |source| + |addTail|, |source|
    // the segments spell out the source followed by the carried tail
    ensures r.Ok? && (addTail == [] || HasText(addTail)) ==> Concat(Names(r.value)) == source + addTail
    // the first segment is always a property of `typ`
    ensures r.Ok? ==> typ.Some? && r.value.owningType == typ.value
                      && GetProperty(u, typ.value, r.value.segment).Ok?
                      && GetProperty(u, typ.value, r.value.segment).value.Some?
  {
    match NewPropertyPath(u, source, typ, baseProperty)
    case Ok(current) =>
      if HasText(addTail) then
        match Create(u, addTail, current.typ, [], Some(current))
        case Ok(tail) =>
          assert Concat(Names(tail)) == addTail + [];
          Ok(current.(next := Some(tail)))
        case Err(e) => Err(e)
      else Ok(current)
    case Err(e) =>
      if !e.Unresolvable? then Err(e)
      else
        var position := CamelSplitIndex(source);
        if position > 0 then
          var head := source[..position];
          var tail := source[position..];
          assert HasText(tail + addTail) by {
            assert tail[0] == (tail + addTail)[0];
            assert !IsWhiteSpace((tail + addTail)[0]);
          }
          SplitCarry(source, position, addTail);
          Create(u, head, typ, tail + addTail, baseProperty)
        else Err(e)
  }

  /** Cutting `s` at `k` and carrying the cut-off end in front of `t` keeps the text. */
  lemma SplitCarry(s: string, k: nat, t: string)
    requires k <= |s|
    ensures s[..k] + (s[k..] + t) == s + t
  {
    assert s == s[..k] + s[k..];
  }

  /**
   * `Create` prefers the whole source: when it resolves and there is no tail
   * it is the result; anything but a reference exception is thrown at once;
   * without a split point the exception for the whole source is thrown.
   */
  lemma CreatePrefersWholeSource(u: Universe, source: string, typ: Option<TypeInfo>, addTail: string, baseProperty: Option<PropertyPath>)
    requires WellFormed(u)
    ensures var whole := NewPropertyPath(u, source, typ, baseProperty);
            && (whole.Ok? && !HasText(addTail) ==> Create(u, source, typ, addTail, baseProperty) == whole)
            && (whole.Err? && !whole.error.Unresolvable? ==> Create(u, source, typ, addTail, baseProperty) == whole)
            && (whole.Err? && CamelSplitIndex(source) <= 0 ==> Create(u, source, typ, addTail, baseProperty) == whole)
  {
  }

  /**
   * Once the whole source has resolved, an unresolvable carried tail without
   * a split point is reported for the tail itself, with the resolved head,
   * which has no `Next` yet, as base property; shorter heads are not tried.
   */
  lemma TailFailureNamesHead(u: Universe, source: string, typ: Option<TypeInfo>, addTail: string, baseProperty: Option<PropertyPath>)
    requires WellFormed(u)
    requires NewPropertyPath(u, source, typ, baseProperty).Ok?
    requires HasText(addTail) && CamelSplitIndex(addTail) <= 0
    requires var head := NewPropertyPath(u, source, typ, baseProperty).value;
             head.typ.Some? && GetProperty(u, head.typ.value, addTail) == Ok(None)
    ensures var head := NewPropertyPath(u, source, typ, baseProperty).value;
            && head.next.None?
            && Create(u, source, typ, addTail, baseProperty) == Err(Unresolvable(Unresolved(addTail, head.typ.value, Some(head))))
  {
    var head := NewPropertyPath(u, source, typ, baseProperty).value;
    assert Create(u, addTail, head.typ, [], Some(head)) == NewPropertyPath(u, addTail, head.typ, Some(head));
  }

  /**
   * The linking loop of `From` as written: each later part is resolved
   * against the type of the previous part's first segment and replaces that
   * segment's `Next`; exceptions carry the previous part as base. What the
   * linking builds is stated by `LinkResolvable` (the result stays
   * resolvable), `LinkRebuilds` (linking a path's later names onto its first
   * segment gives the path back) and `LinkDropsCamelTail` (a first part that
   * splits into several segments keeps only its first once another part
   * follows).
   */
  function Link(u: Universe, parts: seq<string>, previous: PropertyPath): (r: Result<PropertyPath, PathError>)
    requires WellFormed(u)
    ensures r.Ok? ==> r.value.segment == previous.segment && r.value.owningType == previous.owningType
  {
    if parts == [] then Ok(previous)
    else
      var current :- Create(u, parts[0], previous.typ, [], Some(previous));
      var rest :- Link(u, parts[1..], current);
      Ok(previous.(next := Some(rest)))
  }

  /** `From(source, type)`: the parts resolved one after another; no part at all gives null. */
  function Parsed(u: Universe, source: string, typ: Option<TypeInfo>): (r: Result<Option<PropertyPath>, PathError>)
    requires WellFormed(u)
  {
    var parts := Splitter(source);
    if parts == [] then Ok(None)
    else
      var first :- Create(u, parts[0], typ, [], None);
      var path :- Link(u, parts[1..], first);
      Ok(Some(path))
  }

  /** `p` with its first segments replaced by `heads`, in order. */
  function Relink(heads: seq<PropertyPath>, last: PropertyPath): PropertyPath
  {
    if heads == [] then last else heads[0].(next := Some(Relink(heads[1..], last)))
  }

  lemma {:induction false} RelinkSnoc(heads: seq<PropertyPath>, h: PropertyPath, last: PropertyPath)
    ensures Relink(heads + [h], last) == Relink(heads, h.(next := Some(last)))
  {
    if heads != [] {
      assert (heads + [h])[1..] == heads[1..] + [h];
      RelinkSnoc(heads[1..], h, last);
    }
  }

  /** `Link`'s outcome once the heads already linked are put in front. */
  function Relinked(heads: seq<PropertyPath>, r: Result<PropertyPath, PathError>): Result<PropertyPath, PathError>
  {
    match r
    case Ok(p) => Ok(Relink(heads, p))
    case Err(e) => Err(e)
  }

  /**
   * `PropertyPath.From(source, type)`: split, resolve the first part against
   * `typ`, then each later part against the current part, linking it in.
   */
  method From(u: Universe, source: string, typ: Option<TypeInfo>) returns (r: Result<Option<PropertyPath>, PathError>)
    requires WellFormed(u)
    ensures r == Parsed(u, source, typ)
  {
    var parts := Splitter(source);
    if |parts| == 0 {
      return Ok(None);
    }
    var created := Create(u, parts[0], typ, [], None);
    if created.Err? {
      return Err(created.error);
    }
    var first := created.value;
    var heads: seq<PropertyPath> := [];
    var current := first;
    var i := 1;
    while i < |parts|
      invariant 1 <= i <= |parts|
      invariant Link(u, parts[1..], first) == Relinked(heads, Link(u, parts[i..], current))
    {
      var next := Create(u, parts[i], current.typ, [], Some(current));
      if next.Err? {
        assert Link(u, parts[i..], current) == Err(next.error);
        return Err(next.error);
      }
      assert parts[i..][1..] == parts[i + 1..];
      match Link(u, parts[i + 1..], next.value) {
        case Ok(rest) => RelinkSnoc(heads, current, rest);
        case Err(_) =>
      }
      heads := heads + [current];
      current := next.value;
      i := i + 1;
    }
    assert parts[i..] == [];
    return Ok(Some(Relink(heads, current)));
  }

  /** A source without delimiters is resolved by `Create` alone. */
  lemma ParsedPlainToken(u: Universe, source: string, typ: Option<TypeInfo>)
    requires WellFormed(u)
    requires source != []
    requires forall k :: 0 <= k < |source| ==> !IsDelimiter(source[k])
    ensures Parsed(u, source, typ) == match Create(u, source, typ, [], None)
                                      case Ok(p) => Ok(Some(p))
                                      case Err(e) => Err(e)
  {
    SplitterOfPlainToken(source);
    assert Splitter(source)[1..] == [];
  }

  /** A source of delimiters only has no part and gives null. */
  lemma ParsedDelimitersOnly(u: Universe, source: string, typ: Option<TypeInfo>)
    requires WellFormed(u)
    requires forall k :: 0 <= k < |source| ==> IsDelimiter(source[k])
    ensures Parsed(u, source, typ) == Ok(None)
  {
    var s := "_" + source;
    assert forall k :: 0 <= k < |s| ==> IsDelimiter(s[k]) by {
      forall k | 0 <= k < |s| ensures IsDelimiter(s[k]) {
        if k > 0 { assert s[k] == source[k - 1]; }
      }
    }
  }

  // ---------------------------------------------------------------------------
  // Evidently intended linking (see the findings)
  // ---------------------------------------------------------------------------

  /** `q` hung after the last segment of `p`. */
  function Append(p: PropertyPath, q: PropertyPath): (r: PropertyPath)
    ensures Names(r) == Names(p) + Names(q)
    ensures r.segment == p.segment && r.owningType == p.owningType
  {
    match p.next
    case None => p.(next := Some(q))
    case Some(n) =>
      var rest := Append(n, q);
      var r := p.(next := Some(rest));
      assert Names(r) == [p.segment] + Names(rest);
      assert [p.segment] + (Names(n) + Names(q)) == ([p.segment] + Names(n)) + Names(q);
      r
  }

  /** The last segment of a path. */
  function Leaf(p: PropertyPath): (r: PropertyPath)
    ensures r.next.None?
    ensures r == Segments(p)[|Segments(p)| - 1]
  {
    match p.next
    case None => p
    case Some(n) => Leaf(n)
  }

  /**
   * Linking as evidently intended: each later part is resolved against the
   * type of the previous part's last segment and appended after it.
   */
  function LinkAtLeaf(u: Universe, parts: seq<string>, previous: PropertyPath): Result<PropertyPath, PathError>
    requires WellFormed(u)
  {
    if parts == [] then Ok(previous)
    else
      var current :- Create(u, parts[0], Leaf(previous).typ, [], Some(previous));
      var rest :- LinkAtLeaf(u, parts[1..], current);
      Ok(Append(previous, rest))
  }

  lemma {:induction false} ConcatAppend(a: seq<string>, b: seq<string>)
    ensures Concat(a + b) == Concat(a) + Concat(b)
  {
    if a == [] {
      assert a + b == b;
    } else {
      assert (a + b)[0] == a[0];
      assert (a + b)[1..] == a[1..] + b;
      ConcatAppend(a[1..], b);
    }
  }

  /** With the intended linking the segments spell out the previous path followed by all parts. */
  /** One step of `LinkAtLeaf`, unfolded. */
  lemma LinkAtLeafStep(u: Universe, parts: seq<string>, previous: PropertyPath)
    requires WellFormed(u)
    requires parts != [] && LinkAtLeaf(u, parts, previous).Ok?
    ensures var created := Create(u, parts[0], Leaf(previous).typ, [], Some(previous));
            && created.Ok? && Concat(Names(created.value)) == parts[0]
            && LinkAtLeaf(u, parts[1..], created.value).Ok?
            && LinkAtLeaf(u, parts, previous).value == Append(previous, LinkAtLeaf(u, parts[1..], created.value).value)
  {
    var created := Create(u, parts[0], Leaf(previous).typ, [], Some(previous));
    assert Concat(Names(created.value)) == parts[0] + [];
  }

  /** The spelling of a path followed by the spelling of a part and the parts after it. */
  lemma ConcatSpell(a: seq<string>, b: seq<string>, parts: seq<string>)
    requires parts != [] && Concat(b) == parts[0] + Concat(parts[1..])
    ensures Concat(a + b) == Concat(a) + Concat(parts)
  {
    ConcatAppend(a, b);
  }

  lemma {:induction false} LinkAtLeafSpellsParts(u: Universe, parts: seq<string>, previous: PropertyPath)
    requires WellFormed(u)
    requires LinkAtLeaf(u, parts, previous).Ok?
    ensures Concat(Names(LinkAtLeaf(u, parts, previous).value)) == Concat(Names(previous)) + Concat(parts)
  {
    if parts != [] {
      LinkAtLeafStep(u, parts, previous);
      var current := Create(u, parts[0], Leaf(previous).typ, [], Some(previous)).value;
      LinkAtLeafSpellsParts(u, parts[1..], current);
      var rest := LinkAtLeaf(u, parts[1..], current).value;
      ConcatSpell(Names(previous), Names(rest), parts);
    }
  }

  /** `From` with the intended linking. */
  function ParsedAtLeaf(u: Universe, source: string, typ: Option<TypeInfo>): Result<Option<PropertyPath>, PathError>
    requires WellFormed(u)
  {
    var parts := Splitter(source);
    if parts == [] then Ok(None)
    else
      var first :- Create(u, parts[0], typ, [], None);
      var path :- LinkAtLeaf(u, parts[1..], first);
      Ok(Some(path))
  }

  /** `ParsedAtLeaf` on a source with parts, unfolded. */
  lemma ParsedAtLeafStep(u: Universe, source: string, typ: Option<TypeInfo>)
    requires WellFormed(u)
    requires ParsedAtLeaf(u, source, typ).Ok? && ParsedAtLeaf(u, source, typ).value.Some?
    ensures var parts := Splitter(source);
            var created := Create(u, parts[0], typ, [], None);
            && parts != [] && created.Ok? && Concat(Names(created.value)) == parts[0]
            && LinkAtLeaf(u, parts[1..], created.value).Ok?
            && ParsedAtLeaf(u, source, typ).value.value == LinkAtLeaf(u, parts[1..], created.value).value
  {
    var parts := Splitter(source);
    var created := Create(u, parts[0], typ, [], None);
    assert Concat(Names(created.value)) == parts[0] + [];
  }

  /** With the intended linking every letter of the source ends up in a segment, in order. */
  lemma ParsedAtLeafKeepsTokens(u: Universe, source: string, typ: Option<TypeInfo>)
    requires WellFormed(u)
    requires ParsedAtLeaf(u, source, typ).Ok? && ParsedAtLeaf(u, source, typ).value.Some?
    ensures Strip(Concat(Names(ParsedAtLeaf(u, source, typ).value.value))) == Strip(source)
  {
    var parts := Splitter(source);
    ParsedAtLeafStep(u, source, typ);
    var first := Create(u, parts[0], typ, [], None).value;
    LinkAtLeafSpellsParts(u, parts[1..], first);
    assert Concat(parts) == parts[0] + Concat(parts[1..]);
    SplitterKeepsTokens(source);
  }

  /**
   * As written, a first part that splits into several segments loses all but
   * its first segment as soon as a second part follows: that segment's `Next`
   * is overwritten with the second part.
   */
  lemma LinkDropsCamelTail(u: Universe, first: PropertyPath, part: string)
    requires WellFormed(u)
    requires first.next.Some?
    requires Link(u, [part], first).Ok?
    ensures Names(Link(u, [part], first).value) == [first.segment] + Names(Create(u, part, first.typ, [], Some(first)).value)
    ensures |Names(Link(u, [part], first).value)| < |Names(first)| + |Names(Create(u, part, first.typ, [], Some(first)).value)|
  {
    var current := Create(u, part, first.typ, [], Some(first)).value;
    assert [part][1..] == [];
    assert Link(u, [part], first).value == first.(next := Some(current));
    assert |Names(first)| >= 2;
  }

  // ---------------------------------------------------------------------------
  // Queries
  // ---------------------------------------------------------------------------

  /** The segments of a path, from this one along `Next`. */
  function Segments(p: PropertyPath): (r: seq<PropertyPath>)
    ensures |r| > 0 && r[0] == p
    ensures |r| == |Names(p)|
    ensures forall k :: 0 <= k < |r| ==> r[k].segment == Names(p)[k]
    ensures forall k :: 0 <= k < |r| ==> (r[k].next.Some? <==> k < |r| - 1)
  {
    [p] + (if p.next.Some? then Segments(p.next.value) else [])
  }

  /** Names joined with '.'. */
  function JoinDots(names: seq<string>): string
    requires |names| > 0
  {
    if |names| == 1 then names[0] else names[0] + "." + JoinDots(names[1..])
  }

  /** `DotPath`: this segment, then '.' and the rest of the path. */
  function DotPath(p: PropertyPath): (r: string)
  {
    match p.next
    case None => p.segment
    case Some(n) => p.segment + "." + DotPath(n)
  }

  lemma {:induction false} DotPathJoinsNames(p: PropertyPath)
    ensures DotPath(p) == JoinDots(Names(p))
  {
    match p.next {
      case None =>
      case Some(n) =>
        DotPathJoinsNames(n);
        assert Names(p)[1..] == Names(n);
    }
  }

  /** `LeafProperty`: follow `Next` until there is none. */
  method LeafProperty(p: PropertyPath) returns (r: PropertyPath)
    ensures r.next.None?
    ensures r == Segments(p)[|Segments(p)| - 1]
  {
    r := p;
    while r.next.Some?
      invariant Segments(r)[|Segments(r)| - 1] == Segments(p)[|Segments(p)| - 1]
      decreases r
    {
      assert Segments(r) == [r] + Segments(r.next.value);
      r := r.next.value;
    }
  }

  /**
   * `Equals`: same name, equal resolved types and null-safe equal `Next`; the
   * owning type is not compared. A segment without a resolved type
   * dereferences null. Equal values stand for the same object.
   */
  function PathEquals(u: Universe, a: PropertyPath, b: PropertyPath): (r: Result<bool, TypeError>)
    requires WellFormed(u)
    ensures r == Ok(true) ==> DotPath(a) == DotPath(b)
    ensures a.segment != b.segment ==> r == Ok(false)
  {
    if a == b then Ok(true)
    else if a.segment != b.segment then Ok(false)
    else match a.typ
      case None => Err(NullReference)
      case Some(t) =>
        if b.typ.None? || !TypeInformation.Equals(u, t, b.typ.value) then Ok(false)
        else match (a.next, b.next)
          case (None, None) => Ok(true)
          case (Some(x), Some(y)) => PathEquals(u, x, y)
          case _ => Ok(false)
  }

  /** Every segment has a resolved type. */
  predicate Typed(p: PropertyPath)
  {
    p.typ.Some? && (p.next.Some? ==> Typed(p.next.value))
  }

  /** Equality ignores the owning type of every segment. */
  lemma {:induction false} PathEqualsIgnoresOwningType(u: Universe, a: PropertyPath, b: PropertyPath)
    requires WellFormed(u)
    requires Typed(a)
    requires Names(a) == Names(b) && |Segments(a)| == |Segments(b)|
    requires forall k :: 0 <= k < |Segments(a)| ==> Segments(a)[k].typ == Segments(b)[k].typ
    ensures PathEquals(u, a, b) == Ok(true)
  {
    if a != b {
      EqualsReflexive(u, a.typ.value);
      assert Segments(b)[0].typ == b.typ;
      if a.next.Some? && b.next.Some? {
        SameShapeTail(a, b);
        PathEqualsIgnoresOwningType(u, a.next.value, b.next.value);
      }
    }
  }

  /** Two paths with the same names and segment types have tails with the same names and segment types. */
  lemma SameShapeTail(a: PropertyPath, b: PropertyPath)
    requires a.next.Some? && b.next.Some?
    requires Names(a) == Names(b) && |Segments(a)| == |Segments(b)|
    requires forall k :: 0 <= k < |Segments(a)| ==> Segments(a)[k].typ == Segments(b)[k].typ
    ensures Names(a.next.value) == Names(b.next.value) && |Segments(a.next.value)| == |Segments(b.next.value)|
    ensures forall k :: 0 <= k < |Segments(a.next.value)| ==> Segments(a.next.value)[k].typ == Segments(b.next.value)[k].typ
  {
    var x, y := a.next.value, b.next.value;
    assert Segments(a) == [a] + Segments(x);
    assert Segments(b) == [b] + Segments(y);
    assert Names(x) == Names(a)[1..];
    assert Names(y) == Names(b)[1..];
    forall k | 0 <= k < |Segments(x)| ensures Segments(x)[k].typ == Segments(y)[k].typ {
      assert Segments(x)[k] == Segments(a)[k + 1];
      assert Segments(y)[k] == Segments(b)[k + 1];
    }
  }

  // ---------------------------------------------------------------------------
  // Re-parsing the dotted path
  // ---------------------------------------------------------------------------

  /** No character of `s` is a delimiter. */
  predicate Plain(s: string)
  {
    forall k :: 0 <= k < |s| ==> !IsDelimiter(s[k])
  }

  /** No segment name holds a delimiter. */
  predicate PlainNames(p: PropertyPath)
  {
    Plain(p.segment) && (p.next.Some? ==> PlainNames(p.next.value))
  }

  /**
   * Every segment is what the constructor gives for its name on its owning
   * type, and each following segment is owned by the type of the one before.
   */
  ghost predicate Resolvable(u: Universe, p: PropertyPath)
    requires WellFormed(u)
  {
    && NewPropertyPath(u, p.segment, Some(p.owningType), None) == Ok(p.(next := None))
    && (p.next.Some? ==> p.typ == Some(p.next.value.owningType) && Resolvable(u, p.next.value))
  }

  /** The base property only travels with the exception: a segment that resolves is the same for any base. */
  lemma NewPropertyPathAnyBase(u: Universe, name: string, owningType: Option<TypeInfo>, b1: Option<PropertyPath>, b2: Option<PropertyPath>)
    requires WellFormed(u)
    requires NewPropertyPath(u, name, owningType, b1).Ok?
    ensures NewPropertyPath(u, name, owningType, b2) == NewPropertyPath(u, name, owningType, b1)
  {
  }

  /** What `Create` builds is a resolvable path. */
  lemma {:induction false} CreateResolvable(u: Universe, source: string, typ: Option<TypeInfo>, addTail: string, baseProperty: Option<PropertyPath>)
    requires WellFormed(u)
    ensures var r := Create(u, source, typ, addTail, baseProperty);
            r.Ok? ==> Resolvable(u, r.value)
    decreases |source| + |addTail|, |source|
  {
    match NewPropertyPath(u, source, typ, baseProperty)
    case Ok(current) =>
      NewPropertyPathAnyBase(u, source, typ, baseProperty, None);
      if HasText(addTail) {
        CreateResolvable(u, addTail, current.typ, [], Some(current));
      }
    case Err(e) =>
      if e.Unresolvable? {
        var position := CamelSplitIndex(source);
        if position > 0 {
          CreateResolvable(u, source[..position], typ, source[position..] + addTail, baseProperty);
        }
      }
  }

  /** Linking parts onto a resolvable path keeps it resolvable. */
  lemma {:induction false} LinkResolvable(u: Universe, parts: seq<string>, previous: PropertyPath)
    requires WellFormed(u) && Resolvable(u, previous)
    ensures var r := Link(u, parts, previous);
            r.Ok? ==> Resolvable(u, r.value)
    decreases |parts|
  {
    if parts != [] {
      CreateResolvable(u, parts[0], previous.typ, [], Some(previous));
      match Create(u, parts[0], previous.typ, [], Some(previous))
      case Ok(current) =>
        LinkResolvable(u, parts[1..], current);
        assert previous.(next := None) == previous.(next := Some(current)).(next := None);
      case Err(_) =>
    }
  }

  /** Every name is non-empty and delimiter-free. */
  predicate PlainTexts(names: seq<string>)
  {
    names == [] || (names[0] != [] && Plain(names[0]) && PlainTexts(names[1..]))
  }

  /** From just after `i`, `s` spells the names, each followed by a delimiter except the last, which ends `s`. */
  predicate JoinedAt(s: string, i: nat, names: seq<string>)
    decreases |names|
  {
    && |names| > 0 && i + 1 + |names[0]| <= |s| && s[i + 1..i + 1 + |names[0]|] == names[0]
    && (|names| == 1 ==> i + 1 + |names[0]| == |s|)
    && (|names| > 1 ==> i + 1 + |names[0]| < |s| && IsDelimiter(s[i + 1 + |names[0]|])
                        && JoinedAt(s, i + 1 + |names[0]|, names[1..]))
  }

  /** The join of several names is the first name, a '.', and the join of the others. */
  lemma JoinDotsHead(t: string, names: seq<string>)
    requires |names| > 1 && t == JoinDots(names)
    ensures |names[0]| < |t| && t[..|names[0]|] == names[0] && t[|names[0]|] == '.'
    ensures t[|names[0]| + 1..] == JoinDots(names[1..])
  {
    var n := names[0];
    assert t == n + ("." + JoinDots(names[1..]));
  }

  /** Names joined with '.' after position `i` are spelled there in the sense of `JoinedAt`. */
  lemma {:induction false} JoinDotsJoinedAt(s: string, i: nat, names: seq<string>)
    requires i < |s| && |names| > 0 && s[i + 1..] == JoinDots(names)
    ensures JoinedAt(s, i, names)
    decreases |names|
  {
    var n, e, t := names[0], i + 1 + |names[0]|, s[i + 1..];
    if |names| == 1 {
      assert e == |s| && s[i + 1..e] == n;
    } else {
      JoinDotsHead(t, names);
      assert s[i + 1..e] == t[..|n|];
      assert s[e] == t[|n|];
      assert s[e + 1..] == t[|n| + 1..];
      JoinDotsJoinedAt(s, e, names[1..]);
      assert e < |s| && IsDelimiter(s[e]) && JoinedAt(s, e, names[1..]);
    }
  }

  /** A delimiter-free first name bounds the first match after a delimiter. */
  lemma JoinedBounds(s: string, i: nat, names: seq<string>)
    requires i < |s| && IsDelimiter(s[i]) && JoinedAt(s, i, names) && PlainTexts(names)
    ensures var e := i + 1 + |names[0]|;
            i + 1 < e <= |s| && DelimiterEnd(s, i) == i + 1 && TokenEnd(s, i + 1) == e
  {
    var n, e := names[0], i + 1 + |names[0]|;
    assert Plain(n);
    assert forall k :: i + 1 <= k < e ==> !IsDelimiter(s[k]) by {
      forall k | i + 1 <= k < e ensures !IsDelimiter(s[k]) { assert s[k] == n[k - i - 1]; }
    }
    assert DelimiterEnd(s, i) == DelimiterEnd(s, i + 1);
    assert TokenEnd(s, i + 1) == e;
  }

  /** The matches from `i` are the token that ends at `e` and the matches from `e`. */
  lemma MatchesOneToken(s: string, i: nat, e: nat)
    requires i + 1 < e <= |s| && DelimiterEnd(s, i) == i + 1 && TokenEnd(s, i + 1) == e
    ensures MatchesFrom(s, i) == [s[i + 1..e]] + MatchesFrom(s, e)
    ensures e == |s| ==> MatchesFrom(s, i) == [s[i + 1..e]]
  {
    if e == |s| {
      assert MatchesFrom(s, e) == [];
    }
  }

  /** The matches after a delimiter that is followed by the spelled names are those names. */
  lemma {:induction false} MatchesOfJoined(s: string, i: nat, names: seq<string>)
    requires i < |s| && IsDelimiter(s[i]) && JoinedAt(s, i, names) && PlainTexts(names)
    ensures MatchesFrom(s, i) == names
    decreases |names|
  {
    var e := i + 1 + |names[0]|;
    JoinedBounds(s, i, names);
    MatchesOneToken(s, i, e);
    if |names| == 1 {
      assert names == [s[i + 1..e]];
    } else {
      MatchesOfJoined(s, e, names[1..]);
      assert names == [s[i + 1..e]] + names[1..];
    }
  }

  /** A resolvable path with delimiter-free names has non-empty, delimiter-free names. */
  lemma {:induction false} NamesArePlainTexts(u: Universe, p: PropertyPath)
    requires WellFormed(u) && Resolvable(u, p) && PlainNames(p)
    ensures PlainTexts(Names(p))
    decreases p
  {
    assert HasText(p.segment);
    if p.next.Some? {
      var n := p.next.value;
      NamesArePlainTexts(u, n);
      assert Names(p)[1..] == Names(n);
    } else {
      assert Names(p)[1..] == [];
    }
  }

  /** Linking the later names of a resolvable path onto its first segment rebuilds it. */
  lemma {:induction false} LinkRebuilds(u: Universe, q: PropertyPath)
    requires WellFormed(u) && Resolvable(u, q)
    ensures Link(u, Names(q)[1..], q.(next := None)) == Ok(q)
    decreases q
  {
    if q.next.Some? {
      var n := q.next.value;
      var parts := Names(q)[1..];
      assert parts == Names(n);
      NewPropertyPathAnyBase(u, n.segment, Some(n.owningType), None, Some(q.(next := None)));
      CreatePrefersWholeSource(u, n.segment, q.typ, [], Some(q.(next := None)));
      assert Create(u, parts[0], q.typ, [], Some(q.(next := None))) == Ok(n.(next := None));
      LinkRebuilds(u, n);
      assert parts[1..] == Names(n)[1..];
    }
  }

  /** Every path `Parsed` yields is resolvable and owned by the given type. */
  lemma ParsedResolvable(u: Universe, source: string, typ: Option<TypeInfo>)
    requires WellFormed(u)
    ensures var r := Parsed(u, source, typ);
            r.Ok? && r.value.Some? ==>
              && typ == Some(r.value.value.owningType)
              && Resolvable(u, r.value.value)
  {
    var parts := Splitter(source);
    if parts != [] {
      CreateResolvable(u, parts[0], typ, [], None);
      match Create(u, parts[0], typ, [], None)
      case Ok(first) =>
        LinkResolvable(u, parts[1..], first);
      case Err(_) =>
    }
  }

  /** A resolvable path with delimiter-free names is what parsing its dotted form on its owning type gives. */
  lemma ParsedDotPath(u: Universe, p: PropertyPath)
    requires WellFormed(u) && Resolvable(u, p) && PlainNames(p)
    ensures Parsed(u, DotPath(p), Some(p.owningType)) == Ok(Some(p))
  {
    var names := Names(p);
    DotPathJoinsNames(p);
    NamesArePlainTexts(u, p);
    var s := "_" + DotPath(p);
    assert s[1..] == JoinDots(names);
    JoinDotsJoinedAt(s, 0, names);
    MatchesOfJoined(s, 0, names);
    CreatePrefersWholeSource(u, p.segment, Some(p.owningType), [], None);
    LinkRebuilds(u, p);
  }

  /**
   * Re-parsing the dotted form of a parsed path on the same type gives the
   * same path back, which is therefore equal to it, as long as no segment
   * name holds a delimiter.
   */
  lemma ParsedRoundTrip(u: Universe, source: string, typ: Option<TypeInfo>)
    requires WellFormed(u)
    requires Parsed(u, source, typ).Ok? && Parsed(u, source, typ).value.Some?
    requires PlainNames(Parsed(u, source, typ).value.value)
    ensures var p := Parsed(u, source, typ).value.value;
            && Parsed(u, DotPath(p), typ) == Ok(Some(p))
            && PathEquals(u, p, p) == Ok(true)
  {
    ParsedResolvable(u, source, typ);
    ParsedDotPath(u, Parsed(u, source, typ).value.value);
  }

  // ---------------------------------------------------------------------------
  // The enumerator
  // ---------------------------------------------------------------------------

  /**
   * `PropertyPathEnumerator`: yields the start segment, then each following
   * one, then reports the end. `position` counts the calls to `MoveNext`
   * since the last `Reset` or `Dispose`.
   */
  class PropertyPathEnumerator {
    const start: PropertyPath
    var current: Option<PropertyPath>
    var isFirst: bool
    ghost var position: nat

    ghost predicate Valid()
      reads this
    {
      && (isFirst <==> position == 0)
      && position <= |Segments(start)| + 1
      && (!isFirst ==> current == (if position <= |Segments(start)| then Some(Segments(start)[position - 1]) else None))
    }

    constructor (propertyPath: PropertyPath)
      ensures Valid() && start == propertyPath && current.None? && isFirst && position == 0
    {
      start := propertyPath;
      current := None;
      isFirst := true;
      position := 0;
    }

    function Current(): Option<PropertyPath>
      reads this
    {
      current
    }

    /**
     * `MoveNext`: true while a segment is current. Once it has answered
     * false, the current segment is null and a further call dereferences it.
     */
    method MoveNext() returns (r: Result<bool, TypeError>)
      requires Valid()
      modifies this
      ensures old(position) <= |Segments(start)| ==>
                && Valid() && position == old(position) + 1
                && r == Ok(position <= |Segments(start)|)
                && (r == Ok(true) ==> current == Some(Segments(start)[position - 1]))
                && (r == Ok(false) ==> current.None?)
      ensures old(position) == |Segments(start)| + 1 ==> r == Err(NullReference) && unchanged(this)
    {
      if isFirst {
        current := Some(start);
        isFirst := false;
        position := 1;
        return Ok(true);
      }
      if current.None? {
        return Err(NullReference);
      }
      var k := position;
      assert Segments(start)[k - 1] == current.value;
      SegmentsFollowNext(start, k - 1);
      current := current.value.next;
      position := position + 1;
      return Ok(current.Some?);
    }

    /** `Reset`: the start segment is current again and the next `MoveNext` yields it. */
    method Reset()
      modifies this
      ensures Valid() && current == Some(start) && isFirst && position == 0
    {
      current := Some(start);
      isFirst := true;
      position := 0;
    }

    /** `Dispose`: no segment is current and the next `MoveNext` starts over. */
    method Dispose()
      modifies this
      ensures Valid() && current.None? && isFirst && position == 0
    {
      current := None;
      isFirst := true;
      position := 0;
    }
  }

  /** The segment after the k-th is its `Next`. */
  lemma {:induction false} SegmentsFollowNext(p: PropertyPath, k: nat)
    requires k < |Segments(p)|
    ensures Segments(p)[k].next == (if k + 1 < |Segments(p)| then Some(Segments(p)[k + 1]) else None)
    decreases p
  {
    if k > 0 {
      assert Segments(p) == [p] + Segments(p.next.value);
      SegmentsFollowNext(p.next.value, k - 1);
    } else if p.next.Some? {
      assert Segments(p)[1] == Segments(p.next.value)[0];
    }
  }
}
