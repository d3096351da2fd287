/**
 Canonical request targets (kamrui-media-edge/camera-api/camera-service-signature.js):
 the query is decoded, re-encoded and sorted; the path is kept as it is.
 */
module QueryCanonical {
  import opened PercentCoding
  import opened Sorting
  import opened Text
  import opened Wrappers

  datatype Pair = Pair(name: string, value: string)

  datatype TargetError = InvalidTarget | MalformedEscape

  // --- The function ---

  predicate ValidTarget(raw: string) {
    && "/" <= raw && !("//" <= raw) && '#' !in raw
    && '\r' !in raw && '\n' !in raw && '\0' !in raw
  }

  function PathOf(raw: string): string {
    raw[..IndexOf(raw, '?')]
  }

  function QueryOf(raw: string): string {
    var k := IndexOf(raw, '?');
    if k == |raw| then "" else raw[k + 1..]
  }

  function RawPair(part: string): Pair {
    var k := IndexOf(part, '=');
    if k == |part| then Pair(part, "") else Pair(part[..k], part[k + 1..])
  }

  function ParsePart(part: string): Option<Pair> {
    var raw := RawPair(part);
    var name, value := DecodeComponent(raw.name), DecodeComponent(raw.value);
    if name.None? || value.None? then None else Some(Pair(name.value, value.value))
  }

  function ParseParts(parts: seq<string>): (r: Option<seq<Pair>>)
    ensures r.None? <==> exists p :: p in parts && ParsePart(p).None?
    ensures r.Some? ==> |r.value| == |parts| && forall i :: 0 <= i < |parts| ==> ParsePart(parts[i]) == Some(r.value[i])
  {
    if parts == [] then Some([])
    else
      var rest := ParseParts(parts[1..]);
      if ParsePart(parts[0]).None? || rest.None? then None else Some([ParsePart(parts[0]).value] + rest.value)
  }

  function EncodePair(p: Pair): Pair {
    Pair(EncodeComponent(p.name), EncodeComponent(p.value))
  }

  /** The comparison of the sort; equal pairs are indistinguishable, so that the tie on
      the original index shows nowhere. */
  predicate PairLeq(a: Pair, b: Pair) {
    if a.name != b.name then Leq(a.name, b.name) else Leq(a.value, b.value)
  }

  function Show(p: Pair): string {
    p.name + "=" + p.value
  }

  function CanonicalQuery(pairs: seq<Pair>): string {
    Join(Map(Show, Sort(Map(EncodePair, pairs), PairLeq)), '&')
  }

  /** canonicalizeRequestTarget. */
  function Canonicalize(raw: string): Result<string, TargetError> {
    if !ValidTarget(raw) then Err(InvalidTarget)
    else if QueryOf(raw) == "" then Ok(PathOf(raw))
    else
      var pairs := ParseParts(Split(QueryOf(raw), '&'));
      if pairs.None? then Err(MalformedEscape)
      else Ok(PathOf(raw) + "?" + CanonicalQuery(pairs.value))
  }

  // --- What a target means ---

  /** The decoded pairs of the query; an empty query has none. */
  function PairsOf(raw: string): Option<seq<Pair>> {
    if QueryOf(raw) == "" then Some([]) else ParseParts(Split(QueryOf(raw), '&'))
  }

  function Form(path: string, pairs: seq<Pair>): string {
    if pairs == [] then path else path + "?" + CanonicalQuery(pairs)
  }

  lemma CanonicalizeIff(raw: string, canonical: string)
    ensures Canonicalize(raw) == Ok(canonical) <==>
      ValidTarget(raw) && PairsOf(raw).Some? && canonical == Form(PathOf(raw), PairsOf(raw).value)
  {
  }

  // --- The order ---

  lemma PairOrder(a: Pair, b: Pair, c: Pair)
    ensures PairLeq(a, b) || PairLeq(b, a)
    ensures PairLeq(a, b) && PairLeq(b, a) ==> a == b
    ensures PairLeq(a, b) && PairLeq(b, c) ==> PairLeq(a, c)
  {
    LeqIsTotalOrder();
  }

  lemma PairLeqIsTotalOrder()
    ensures TotalOrder(PairLeq)
  {
    forall a, b ensures PairLeq(a, b) || PairLeq(b, a) {
      PairOrder(a, b, a);
    }
    forall a, b | PairLeq(a, b) && PairLeq(b, a) ensures a == b {
      PairOrder(a, b, a);
    }
    forall a, b, c | PairLeq(a, b) && PairLeq(b, c) ensures PairLeq(a, c) {
      PairOrder(a, b, c);
    }
  }

  // --- Reading the canonical form back ---

  lemma ShownPair(p: Pair)
    ensures var e := EncodePair(p);
      && '&' !in Show(e) && '=' in Show(e)
      && RawPair(Show(e)) == e && ParsePart(Show(e)) == Some(p)
  {
    hide EncodeComponent, DecodeComponent, IndexOf;
    var e := EncodePair(p);
    EncodedChars(p.name);
    EncodedChars(p.value);
    IndexOfAppend(e.name, '=', e.value);
    assert Show(e) == e.name + ['='] + e.value;
    assert Show(e)[..|e.name|] == e.name && Show(e)[|e.name| + 1..] == e.value;
    DecodeUndoesEncode(p.name);
    DecodeUndoesEncode(p.value);
  }

  function DecodePair(e: Pair): Pair {
    var p := ParsePart(Show(e));
    if p.None? then e else p.value
  }

  /** The pairs in the order in which the canonical query lists them. */
  function Listed(pairs: seq<Pair>): (r: seq<Pair>)
    ensures |r| == |pairs|
  {
    assert |multiset(Sort(Map(EncodePair, pairs), PairLeq))| == |pairs|;
    Map(DecodePair, Sort(Map(EncodePair, pairs), PairLeq))
  }

  lemma SortedPairsAreEncoded(pairs: seq<Pair>)
    ensures var sorted := Sort(Map(EncodePair, pairs), PairLeq);
      && Map(EncodePair, Listed(pairs)) == sorted
      && multiset(Listed(pairs)) == multiset(pairs)
      && |sorted| == |pairs|
      && forall e :: e in sorted ==> '&' !in Show(e) && ParsePart(Show(e)) == Some(DecodePair(e))
  {
    hide Sort, EncodePair, Show, ParsePart;
    var encoded := Map(EncodePair, pairs);
    var sorted := Sort(encoded, PairLeq);
    SameElements(sorted, encoded);
    forall e | e in sorted
      ensures '&' !in Show(e) && ParsePart(Show(e)) == Some(DecodePair(e)) && EncodePair(DecodePair(e)) == e
    {
      var i :| 0 <= i < |encoded| && encoded[i] == e;
      ShownPair(pairs[i]);
    }
    forall i | 0 <= i < |pairs| ensures DecodePair(encoded[i]) == pairs[i] {
      ShownPair(pairs[i]);
    }
    assert Map(DecodePair, encoded) == pairs;
    MapKeepsMultiset(DecodePair, sorted, encoded);
  }

  lemma CanonicalQueryIsRead(pairs: seq<Pair>)
    requires pairs != []
    ensures ParseParts(Split(CanonicalQuery(pairs), '&')) == Some(Listed(pairs))
    ensures CanonicalQuery(pairs) != ""
  {
    hide Sort, EncodePair, ParsePart, ParseParts, Split, Join, DecodePair, Show;
    var sorted := Sort(Map(EncodePair, pairs), PairLeq);
    var parts := Map(Show, sorted);
    SortedPairsAreEncoded(pairs);
    forall p | p in parts ensures '&' !in p {
      var i :| 0 <= i < |parts| && parts[i] == p;
      assert sorted[i] in sorted;
    }
    SplitJoin(parts, '&');
    forall i | 0 <= i < |parts| ensures ParsePart(parts[i]) == Some(Listed(pairs)[i]) {
      assert sorted[i] in sorted;
    }
    var parsed := ParseParts(parts);
    forall p | p in parts ensures ParsePart(p).Some? {
      var i :| 0 <= i < |parts| && parts[i] == p;
    }
    assert parsed.value == Listed(pairs);
    if CanonicalQuery(pairs) == "" {
      EmptySplit();
      assert parts == [""];
      assert Show(sorted[0]) == "";
      ShowIsNotEmpty(sorted[0]);
    }
  }

  lemma EmptySplit()
    ensures Split("", '&') == [""]
  {
  }

  lemma ShowIsNotEmpty(p: Pair)
    ensures Show(p) != ""
  {
  }

  lemma CanonicalQueryDependsOnMultiset(a: seq<Pair>, b: seq<Pair>)
    requires multiset(a) == multiset(b)
    ensures CanonicalQuery(a) == CanonicalQuery(b)
  {
    MapKeepsMultiset(EncodePair, a, b);
    PairLeqIsTotalOrder();
    SortCanonical(Map(EncodePair, a), Map(EncodePair, b), PairLeq);
  }

  predicate IsQueryChar(c: char) {
    IsUnreserved(c) || c in "%=&"
  }

  lemma CanonicalQueryChars(pairs: seq<Pair>, c: char)
    requires c in CanonicalQuery(pairs)
    ensures IsQueryChar(c)
  {
    hide Sort, EncodeComponent, Join;
    var encoded := Map(EncodePair, pairs);
    var sorted := Sort(encoded, PairLeq);
    var parts := Map(Show, sorted);
    JoinChars(parts, '&', c);
    if InSome(parts, c) {
      var p :| p in parts && c in p;
      var i :| 0 <= i < |parts| && parts[i] == p;
      SameElements(sorted, encoded);
      assert sorted[i] in encoded;
      var k :| 0 <= k < |pairs| && encoded[k] == sorted[i];
      EncodedChars(pairs[k].name);
      EncodedChars(pairs[k].value);
    }
  }

  lemma PathIsValid(raw: string)
    requires ValidTarget(raw)
    ensures '?' !in PathOf(raw) && ValidTarget(PathOf(raw))
  {
    assert forall c :: c in PathOf(raw) ==> c in raw;
    var path := PathOf(raw);
    assert raw[0] == '/' && path[0] == '/';
    assert |path| >= 2 ==> path[..2] == raw[..2];
  }

  lemma FormIsRead(path: string, pairs: seq<Pair>)
    requires '?' !in path
    ensures PathOf(Form(path, pairs)) == path
    ensures PairsOf(Form(path, pairs)) == Some(Listed(pairs))
  {
    hide CanonicalQuery, IndexOf, Split, ParseParts, Sort;
    if pairs == [] {
      IndexOfAbsent(path, '?');
      assert path[..|path|] == path;
      assert Listed(pairs) == [];
    } else {
      var query := CanonicalQuery(pairs);
      CanonicalQueryIsRead(pairs);
      IndexOfAppend(path, '?', query);
      var form := path + ['?'] + query;
      assert Form(path, pairs) == form;
      assert form[..|path|] == path && form[|path| + 1..] == query;
    }
  }

  lemma FormIsValid(path: string, pairs: seq<Pair>)
    requires ValidTarget(path)
    ensures ValidTarget(Form(path, pairs))
  {
    hide CanonicalQuery;
    var form := Form(path, pairs);
    forall c | c in form ensures c !in "#\r\n\0" {
      if c !in path && c != '?' {
        CanonicalQueryChars(pairs, c);
      }
    }
    assert forall c :: c in "#\r\n\0" ==> c !in form;
    assert "#\r\n\0"[0] == '#' && "#\r\n\0"[1] == '\r' && "#\r\n\0"[2] == '\n' && "#\r\n\0"[3] == '\0';
    assert path <= form;
    assert |path| >= 2 ==> form[..2] == path[..2];
    assert |path| == 1 && |form| >= 2 ==> form[1] == '?';
  }

  lemma FormDependsOnMultiset(path: string, a: seq<Pair>, b: seq<Pair>)
    requires multiset(a) == multiset(b)
    ensures Form(path, a) == Form(path, b)
  {
    hide CanonicalQuery;
    SameElements(a, b);
    CanonicalQueryDependsOnMultiset(a, b);
  }

  lemma ListedIsPermutation(pairs: seq<Pair>)
    ensures multiset(Listed(pairs)) == multiset(pairs)
  {
    SortedPairsAreEncoded(pairs);
  }

  // --- Results ---

  /** A canonical target is its own canonical form. */
  lemma CanonicalizeIdempotent(raw: string)
    requires Canonicalize(raw).Ok?
    ensures Canonicalize(Canonicalize(raw).value) == Canonicalize(raw)
  {
    hide CanonicalQuery, Listed, Canonicalize, ValidTarget, PathOf, PairsOf, Form;
    var canonical := Canonicalize(raw).value;
    CanonicalizeIff(raw, canonical);
    var path, pairs := PathOf(raw), PairsOf(raw).value;
    PathIsValid(raw);
    FormIsRead(path, pairs);
    FormIsValid(path, pairs);
    ListedIsPermutation(pairs);
    FormDependsOnMultiset(path, Listed(pairs), pairs);
    CanonicalizeIff(canonical, canonical);
  }

  /** Two accepted targets have one canonical form exactly when they have the same path and
      the same decoded pairs, in any order. */
  lemma SameCanonicalIff(a: string, b: string)
    requires Canonicalize(a).Ok? && Canonicalize(b).Ok?
    ensures Canonicalize(a) == Canonicalize(b) <==>
      PathOf(a) == PathOf(b) && multiset(PairsOf(a).value) == multiset(PairsOf(b).value)
  {
    hide CanonicalQuery, Listed, Canonicalize, ValidTarget, PathOf, PairsOf, Form;
    CanonicalizeIff(a, Canonicalize(a).value);
    CanonicalizeIff(b, Canonicalize(b).value);
    var p, q := PairsOf(a).value, PairsOf(b).value;
    PathIsValid(a);
    PathIsValid(b);
    FormIsRead(PathOf(a), p);
    FormIsRead(PathOf(b), q);
    ListedIsPermutation(p);
    ListedIsPermutation(q);
    if multiset(p) == multiset(q) {
      FormDependsOnMultiset(PathOf(a), p, q);
    }
  }

  function Target(path: string, parts: seq<string>): string {
    path + "?" + Join(parts, '&')
  }

  predicate IsPartList(parts: seq<string>) {
    parts != [] && forall p :: p in parts ==> '&' !in p
  }

  lemma TargetIsRead(path: string, parts: seq<string>)
    requires '?' !in path && IsPartList(parts)
    ensures PathOf(Target(path, parts)) == path && QueryOf(Target(path, parts)) == Join(parts, '&')
    ensures Split(Join(parts, '&'), '&') == parts
  {
    hide IndexOf, Join, Split;
    var query := Join(parts, '&');
    SplitJoin(parts, '&');
    IndexOfAppend(path, '?', query);
    var form := path + ['?'] + query;
    assert Target(path, parts) == form;
    assert form[..|path|] == path && form[|path| + 1..] == query;
  }

  lemma PermutedChars(a: seq<string>, b: seq<string>, c: char)
    requires multiset(a) == multiset(b)
    ensures c in Join(a, '&') <==> c in Join(b, '&')
  {
    SameElements(a, b);
    JoinChars(a, '&', c);
    JoinChars(b, '&', c);
  }

  lemma PermutedTargetIsValid(path: string, a: seq<string>, b: seq<string>)
    requires multiset(a) == multiset(b)
    ensures ValidTarget(Target(path, a)) <==> ValidTarget(Target(path, b))
  {
    hide Join;
    var s, t := Target(path, a), Target(path, b);
    forall c ensures c in s <==> c in t {
      PermutedChars(a, b, c);
    }
    assert forall i :: 0 <= i <= |path| ==> s[i] == t[i];
    assert "/" <= s <==> s[0] == '/';
    assert "/" <= t <==> t[0] == '/';
    if path != "" {
      assert "//" <= s <==> s[0] == s[1] == '/';
      assert "//" <= t <==> t[0] == t[1] == '/';
    }
  }

  lemma PermutedPartsParse(a: seq<string>, b: seq<string>)
    requires multiset(a) == multiset(b)
    ensures ParseParts(a).None? <==> ParseParts(b).None?
    ensures ParseParts(a).Some? ==> multiset(ParseParts(a).value) == multiset(ParseParts(b).value)
  {
    hide ParsePart;
    SameElements(a, b);
    if ParseParts(a).Some? && ParseParts(b).Some? {
      var parse := (p: string) => if ParsePart(p).Some? then ParsePart(p).value else Pair("", "");
      assert Map(parse, a) == ParseParts(a).value;
      assert Map(parse, b) == ParseParts(b).value;
      MapKeepsMultiset(parse, a, b);
    }
  }

  /** Permuting the parts of the query changes nothing, rejections included. */
  lemma PermutationIrrelevant(path: string, a: seq<string>, b: seq<string>)
    requires '?' !in path && IsPartList(a) && IsPartList(b) && multiset(a) == multiset(b)
    ensures Canonicalize(Target(path, a)) == Canonicalize(Target(path, b))
  {
    TargetIsRead(path, a);
    TargetIsRead(path, b);
    PermutedTargetIsValid(path, a, b);
    PermutedPartsParse(a, b);
    EmptyTogether(a, b);
    hide ParseParts, PathOf, QueryOf, ValidTarget, Target, Join, Split, CanonicalQuery;
    if ParseParts(a).Some? {
      CanonicalQueryDependsOnMultiset(ParseParts(a).value, ParseParts(b).value);
    }
  }

  lemma FirstChar(s: string)
    ensures s == "" || s[0] in s
  {
  }

  lemma EmptyTogether(a: seq<string>, b: seq<string>)
    requires IsPartList(a) && IsPartList(b) && multiset(a) == multiset(b)
    ensures Join(a, '&') == "" <==> Join(b, '&') == ""
  {
    forall c ensures c in Join(a, '&') <==> c in Join(b, '&') {
      PermutedChars(a, b, c);
    }
    FirstChar(Join(a, '&'));
    FirstChar(Join(b, '&'));
  }

  /** Re-encoding changes nothing either: parts that spell the same pairs are
      interchangeable, except that an empty query is no pair while `=` is an empty one. */
  lemma ReencodingIrrelevantIff(path: string, a: seq<string>, b: seq<string>)
    requires '?' !in path && IsPartList(a) && IsPartList(b) && |a| == |b|
    requires ValidTarget(Target(path, a)) && ValidTarget(Target(path, b))
    requires forall i :: 0 <= i < |a| ==> ParsePart(a[i]) == ParsePart(b[i])
    ensures Canonicalize(Target(path, a)) == Canonicalize(Target(path, b)) <==>
      (Join(a, '&') == "" <==> Join(b, '&') == "")
  {
    hide ParsePart, CanonicalQuery, PathOf, QueryOf, ValidTarget, Target, Join, Split;
    TargetIsRead(path, a);
    TargetIsRead(path, b);
    SameParts(a, b);
    if Join(a, '&') == "" {
      EmptyQueryParses(a);
    }
    if Join(b, '&') == "" {
      EmptyQueryParses(b);
    }
  }

  lemma SameParts(a: seq<string>, b: seq<string>)
    requires |a| == |b| && forall i :: 0 <= i < |a| ==> ParsePart(a[i]) == ParsePart(b[i])
    ensures ParseParts(a) == ParseParts(b)
  {
    hide ParsePart;
    if ParseParts(a).Some? && ParseParts(b).Some? {
      assert ParseParts(a).value == ParseParts(b).value;
    }
  }

  lemma EmptyQueryParses(a: seq<string>)
    requires IsPartList(a) && Join(a, '&') == ""
    ensures ParseParts(a).Some?
  {
    hide ParseParts;
    SplitJoin(a, '&');
    assert a == [""];
    assert ParsePart("") == Some(Pair("", ""));
  }

  // --- What a query says ---

  /** The first equals sign of the part is at k. */
  ghost predicate EqualsAt(part: string, k: nat) {
    k < |part| && part[k] == '=' && '=' !in part[..k]
  }

  /** The part spells the pair: name and value around the first equals sign, or a name alone. */
  ghost predicate SpellsPair(part: string, pair: Pair) {
    || ('=' !in part && Spells(part, pair.name) && pair.value == "")
    || (exists k: nat :: EqualsAt(part, k) && Spells(part[..k], pair.name) && Spells(part[k + 1..], pair.value))
  }

  lemma EqualsAtIndex(part: string, k: nat)
    ensures EqualsAt(part, k) <==> k == IndexOf(part, '=') && k < |part|
  {
    var i := IndexOf(part, '=');
    assert i < k <= |part| ==> part[i] in part[..k];
    assert k < i ==> part[k] in part[..i];
  }

  lemma PartIff(part: string, pair: Pair)
    ensures ParsePart(part) == Some(pair) <==> SpellsPair(part, pair)
  {
    hide DecodeComponent, Spells, EqualsAt;
    var i := IndexOf(part, '=');
    var raw := RawPair(part);
    DecodeIff(raw.name, pair.name);
    DecodeIff(raw.value, pair.value);
    SpellsNothing(pair.value);
    forall k: nat ensures EqualsAt(part, k) <==> k == i && k < |part| {
      EqualsAtIndex(part, k);
    }
    assert '=' in part <==> i < |part| by {
      assert part[..|part|] == part;
    }
  }

  lemma SpellsNothing(text: string)
    ensures Spells("", text) <==> text == ""
  {
  }

  /** The pairs of a target are those that the parts of its query spell, part by part, and it
      has none when some part spells nothing. */
  lemma PairsOfIff(path: string, parts: seq<string>, pairs: seq<Pair>)
    requires '?' !in path && IsPartList(parts) && Join(parts, '&') != ""
    ensures PathOf(Target(path, parts)) == path
    ensures PairsOf(Target(path, parts)) == Some(pairs) <==>
      |pairs| == |parts| && forall i :: 0 <= i < |parts| ==> SpellsPair(parts[i], pairs[i])
  {
    hide Join, Split, PathOf, QueryOf, SpellsPair, ParsePart;
    TargetIsRead(path, parts);
    if |pairs| == |parts| {
      forall i | 0 <= i < |parts| ensures ParsePart(parts[i]) == Some(pairs[i]) <==> SpellsPair(parts[i], pairs[i]) {
        PartIff(parts[i], pairs[i]);
      }
      if forall i :: 0 <= i < |parts| ==> SpellsPair(parts[i], pairs[i]) {
        assert ParseParts(parts).Some?;
        assert ParseParts(parts).value == pairs;
      }
    }
  }
}
