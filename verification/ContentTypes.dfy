/**
 Normalized Content-Type headers (kamrui-media-edge/camera-api/camera-service-signature.js):
 trimmed, lower-cased, parameters sorted.
 */
module ContentTypes {
  import opened QueryCanonical
  import opened Sorting
  import opened Text
  import opened Wrappers

  /** A parsed header: nothing, or a media type with its parameters. */
  datatype Content = Nothing | Typed(media: string, parameters: seq<Pair>)

  predicate IsTokenChar(c: char) {
    'a' <= c <= 'z' || '0' <= c <= '9' || c in "!#$&^_.+-"
  }

  predicate IsToken(s: string) {
    s != "" && forall c :: c in s ==> IsTokenChar(c)
  }

  /** Two tokens around one slash. */
  predicate IsMediaType(s: string) {
    var k := IndexOf(s, '/');
    k < |s| && IsToken(s[..k]) && IsToken(s[k + 1..])
  }

  predicate HasBreak(s: string) {
    '\r' in s || '\n' in s || '\0' in s
  }

  function NonEmpty(parts: seq<string>): (r: seq<string>)
    ensures forall p :: p in r <==> p in parts && p != ""
  {
    if parts == [] then []
    else if parts[0] == "" then NonEmpty(parts[1..])
    else [parts[0]] + NonEmpty(parts[1..])
  }

  function ParseParameter(part: string): Option<Pair> {
    var k := IndexOf(part, '=');
    if k == 0 || k == |part| then None
    else
      var name, value := ToLower(Trim(part[..k])), Trim(part[k + 1..]);
      if !IsToken(name) || value == "" || HasBreak(value) then None else Some(Pair(name, value))
  }

  function ParseParameters(parts: seq<string>): (r: Option<seq<Pair>>)
    ensures r.None? <==> exists p :: p in parts && ParseParameter(p).None?
    ensures r.Some? ==> |r.value| == |parts| && forall i :: 0 <= i < |parts| ==> ParseParameter(parts[i]) == Some(r.value[i])
  {
    if parts == [] then Some([])
    else
      var rest := ParseParameters(parts[1..]);
      if ParseParameter(parts[0]).None? || rest.None? then None else Some([ParseParameter(parts[0]).value] + rest.value)
  }

  function ParseParts(parts: seq<string>): Option<Content> {
    if parts == [] then Some(Nothing)
    else
      var media, parameters := ToLower(parts[0]), ParseParameters(parts[1..]);
      if !IsMediaType(media) || parameters.None? then None else Some(Typed(media, parameters.value))
  }

  function Parse(value: string): Option<Content> {
    ParseParts(NonEmpty(Map(Trim, Split(value, ';'))))
  }

  function Pieces(c: Content): seq<string>
    requires c.Typed?
  {
    [c.media] + Map(Show, Sort(c.parameters, PairLeq))
  }

  function ShowContent(c: Content): string {
    if c.Nothing? then "" else Join(Pieces(c), ';')
  }

  /** normalizeContentType; None where it throws. */
  function NormalizeContentType(value: string): Option<string> {
    var parsed := Parse(value);
    if parsed.None? then None else Some(ShowContent(parsed.value))
  }

  // --- Every parsed header is in normal form but for the order ---

  predicate NormalParameter(p: Pair) {
    && IsToken(p.name) && ToLower(p.name) == p.name
    && p.value != "" && Trimmed(p.value) && !HasBreak(p.value) && ';' !in p.value
  }

  predicate NormalMedia(media: string) {
    IsMediaType(media) && ToLower(media) == media
  }

  ghost predicate Normal(c: Content) {
    c.Typed? ==> NormalMedia(c.media) && forall p :: p in c.parameters ==> NormalParameter(p)
  }

  lemma ParameterIsNormal(part: string)
    requires ';' !in part && ParseParameter(part).Some?
    ensures NormalParameter(ParseParameter(part).value)
  {
    hide IsToken, Trim;
    var k := IndexOf(part, '=');
    var rest := part[k + 1..];
    LowerTwice(Trim(part[..k]));
    TrimChars(rest);
    assert forall c :: c in rest ==> c in part;
  }

  lemma ParsedIsNormal(value: string)
    requires Parse(value).Some?
    ensures Normal(Parse(value).value)
  {
    var split := Split(value, ';');
    var trimmed := Map(Trim, split);
    var parts := NonEmpty(trimmed);
    hide Trim, Split, NonEmpty, Map, ParseParameter, NormalParameter, IsMediaType;
    forall p | p in parts ensures ';' !in p {
      var i :| 0 <= i < |trimmed| && trimmed[i] == p;
      assert split[i] in split;
      TrimChars(split[i]);
    }
    if parts != [] {
      LowerTwice(parts[0]);
      var parameters := ParseParameters(parts[1..]).value;
      forall p | p in parameters ensures NormalParameter(p) {
        var i :| 0 <= i < |parameters| && parameters[i] == p;
        assert parts[1..][i] in parts;
        ParameterIsNormal(parts[1..][i]);
      }
    }
  }

  // --- Reading the normal form back ---

  lemma TokenChars(s: string)
    requires IsToken(s)
    ensures forall c :: c in s ==> !IsSpace(c) && c !in ";=/\r\n\0"
    ensures Trimmed(s)
  {
  }

  lemma MediaChars(s: string)
    requires IsMediaType(s)
    ensures forall c :: c in s ==> !IsSpace(c) && c != ';' && c != '\n'
    ensures s != "" && Trimmed(s)
  {
    hide IsToken;
    var k := IndexOf(s, '/');
    TokenChars(s[..k]);
    TokenChars(s[k + 1..]);
    forall c | c in s ensures !IsSpace(c) && c != ';' && c != '\n' {
      assert s == s[..k] + ['/'] + s[k + 1..];
    }
  }

  lemma ShownParameter(p: Pair)
    requires NormalParameter(p)
    ensures ';' !in Show(p) && Show(p) != "" && Trimmed(Show(p)) && ParseParameter(Show(p)) == Some(p)
    ensures '\n' !in Show(p)
  {
    hide IsToken, IsSpace, IndexOf, Trim;
    NameIsNotEmpty(p.name);
    TokenChars(p.name);
    IndexOfAppend(p.name, '=', p.value);
    assert Show(p) == p.name + ['='] + p.value;
    assert Show(p)[..|p.name|] == p.name && Show(p)[|p.name| + 1..] == p.value;
    assert '=' !in p.name;
    assert Show(p)[0] == p.name[0] && Show(p)[|Show(p)| - 1] == p.value[|p.value| - 1];
    assert Trimmed(p.name);
    TrimOfTrimmed(p.name);
    TrimOfTrimmed(p.value);
  }

  lemma NameIsNotEmpty(s: string)
    requires IsToken(s)
    ensures s != ""
  {
  }

  lemma {:induction false} NonEmptyKeepsAll(parts: seq<string>)
    requires forall p :: p in parts ==> p != ""
    ensures NonEmpty(parts) == parts
  {
    if parts != [] {
      assert parts[0] in parts && forall p :: p in parts[1..] ==> p in parts;
      NonEmptyKeepsAll(parts[1..]);
    }
  }

  lemma SortedAreNormal(c: Content)
    requires c.Typed? && Normal(c)
    ensures forall p :: p in Sort(c.parameters, PairLeq) ==> NormalParameter(p)
  {
    SameElements(Sort(c.parameters, PairLeq), c.parameters);
  }

  ghost predicate IsPiece(s: string) {
    ';' !in s && s != "" && Trimmed(s) && '\n' !in s
  }

  lemma PiecesAreRead(c: Content)
    requires c.Typed? && Normal(c)
    ensures forall s :: s in Pieces(c) ==> IsPiece(s)
    ensures ParseParts(Pieces(c)) == Some(Typed(c.media, Sort(c.parameters, PairLeq)))
  {
    hide NormalParameter, ParseParameter, IsMediaType, Show, Sort;
    var sorted := Sort(c.parameters, PairLeq);
    SortedAreNormal(c);
    MediaChars(c.media);
    var shown := Map(Show, sorted);
    forall i | 0 <= i < |shown| ensures IsPiece(shown[i]) && ParseParameter(shown[i]) == Some(sorted[i]) {
      assert sorted[i] in sorted;
      ShownParameter(sorted[i]);
    }
    assert Pieces(c)[1..] == shown;
    forall s | s in shown ensures ParseParameter(s).Some? {
      var i :| 0 <= i < |shown| && shown[i] == s;
    }
    assert ParseParameters(shown).value == sorted;
  }

  lemma ShownIsParsed(c: Content)
    requires c.Typed? && Normal(c)
    ensures Parse(ShowContent(c)) == Some(Typed(c.media, Sort(c.parameters, PairLeq)))
  {
    hide ParseParts, Pieces, Split, Join, Trim;
    PiecesAreRead(c);
    var pieces := Pieces(c);
    HasMedia(c);
    SplitJoin(pieces, ';');
    forall i | 0 <= i < |pieces| ensures Trim(pieces[i]) == pieces[i] {
      assert pieces[i] in pieces;
      TrimOfTrimmed(pieces[i]);
    }
    assert Map(Trim, pieces) == pieces;
    NonEmptyKeepsAll(pieces);
  }

  lemma HasMedia(c: Content)
    requires c.Typed?
    ensures Pieces(c) != []
  {
  }

  /** A normalized header is its own normal form. */
  lemma NormalizeContentTypeIdempotent(value: string)
    requires NormalizeContentType(value).Some?
    ensures NormalizeContentType(NormalizeContentType(value).value) == NormalizeContentType(value)
  {
    hide Parse, Sort, Normal, Join;
    var c := Parse(value).value;
    ParsedIsNormal(value);
    if c.Typed? {
      ShownIsParsed(c);
      PairLeqIsTotalOrder();
      SortSorted(c.parameters, PairLeq);
      SortFixesSorted(Sort(c.parameters, PairLeq), PairLeq);
    } else {
      EmptyParses();
    }
  }

  lemma EmptyParses()
    ensures Parse("") == Some(Nothing)
  {
    assert Split("", ';') == [""];
    assert Map(Trim, [""]) == [""];
  }

  lemma ContentTypeHasNoNewline(value: string)
    requires NormalizeContentType(value).Some?
    ensures '\n' !in NormalizeContentType(value).value
  {
    hide Parse, Normal, Join, Pieces;
    var c := Parse(value).value;
    ParsedIsNormal(value);
    if c.Typed? {
      PiecesAreRead(c);
      JoinChars(Pieces(c), ';', '\n');
    }
  }

  /** Headers normalize alike exactly when they name the same media type and the same
      parameters, in any order. */
  lemma SameContentTypeIff(a: string, b: string)
    requires Parse(a).Some? && Parse(b).Some? && Parse(a).value.Typed? && Parse(b).value.Typed?
    ensures NormalizeContentType(a) == NormalizeContentType(b) <==>
      && Parse(a).value.media == Parse(b).value.media
      && multiset(Parse(a).value.parameters) == multiset(Parse(b).value.parameters)
  {
    hide Parse, Sort, Normal, Join;
    var c, d := Parse(a).value, Parse(b).value;
    ParsedIsNormal(a);
    ParsedIsNormal(b);
    ShownIsParsed(c);
    ShownIsParsed(d);
    PairLeqIsTotalOrder();
    if multiset(c.parameters) == multiset(d.parameters) {
      SortCanonical(c.parameters, d.parameters, PairLeq);
    }
    assert multiset(Sort(c.parameters, PairLeq)) == multiset(c.parameters);
    assert multiset(Sort(d.parameters, PairLeq)) == multiset(d.parameters);
  }

  // --- What a header says ---

  /** The part spells the parameter: a token in any case before its first equals sign, a value
      after it, with white space around both. */
  ghost predicate SpellsParameter(part: string, p: Pair) {
    exists k: nat ::
      && EqualsAt(part, k) && k > 0 && IsToken(p.name) && p.name == ToLower(Trim(part[..k]))
      && p.value == Trim(part[k + 1..]) && p.value != "" && !HasBreak(p.value)
  }

  lemma ParameterIff(part: string, p: Pair)
    ensures ParseParameter(part) == Some(p) <==> SpellsParameter(part, p)
  {
    hide Trim, ToLower, IsToken, EqualsAt, HasBreak;
    forall k: nat ensures EqualsAt(part, k) <==> k == IndexOf(part, '=') && k < |part| {
      EqualsAtIndex(part, k);
    }
  }

  /** Two tokens around a slash. */
  lemma MediaTypeIff(s: string)
    ensures IsMediaType(s) <==> exists k: nat :: k < |s| && s[k] == '/' && IsToken(s[..k]) && IsToken(s[k + 1..])
  {
    var i := IndexOf(s, '/');
    forall k: nat | k < |s| ensures s[k] == '/' && IsToken(s[..k]) ==> k == i {
      assert k < i ==> s[k] in s[..i];
      assert i < k ==> s[i] in s[..k];
      assert !IsTokenChar('/');
    }
  }

  /** The parts of a header that are not blank. */
  function Written(parts: seq<string>): seq<string> {
    NonEmpty(Map(Trim, parts))
  }

  /** A header names a media type and parameters exactly when its non-blank parts spell them, in
      order; blank parts are no parts. */
  lemma ParseIff(parts: seq<string>, media: string, parameters: seq<Pair>)
    requires parts != [] && forall p :: p in parts ==> ';' !in p
    ensures Parse(Join(parts, ';')) == Some(Nothing) <==> Written(parts) == []
    ensures Parse(Join(parts, ';')) == Some(Typed(media, parameters)) <==>
      var written := Written(parts);
      && |written| == |parameters| + 1 && media == ToLower(written[0]) && IsMediaType(media)
      && forall i :: 0 <= i < |parameters| ==> SpellsParameter(written[i + 1], parameters[i])
  {
    hide Join, Split, NonEmpty, Map, IsMediaType, ToLower, SpellsParameter, ParseParameter;
    SplitJoin(parts, ';');
    var written := Written(parts);
    if |written| == |parameters| + 1 {
      var rest := written[1..];
      forall i | 0 <= i < |parameters| ensures ParseParameter(rest[i]) == Some(parameters[i]) <==> SpellsParameter(written[i + 1], parameters[i]) {
        ParameterIff(rest[i], parameters[i]);
      }
      if forall i :: 0 <= i < |parameters| ==> SpellsParameter(written[i + 1], parameters[i]) {
        assert ParseParameters(rest).Some?;
        assert ParseParameters(rest).value == parameters;
      }
    }
  }
}
