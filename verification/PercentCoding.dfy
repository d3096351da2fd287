/**
 Percent-encoding of query components as encodeURIComponent and decodeURIComponent do it,
 with the corrections of kamrui-media-edge/camera-api/camera-service-signature.js.
 Text is a sequence of Unicode scalar values.
 */
module PercentCoding {
  import opened Wrappers

  type Byte = b: nat | b < 256

  // --- UTF-8 (RFC 3629) ---

  function Utf8(c: char): (bytes: seq<Byte>)
    ensures 1 <= |bytes| <= 4
  {
    var u := c as int;
    if u < 0x80 then [u]
    else if u < 0x800 then [0xC0 + u / 0x40, Low(u)]
    else if u < 0x1_0000 then [0xE0 + u / 0x1000, Low(u / 0x40), Low(u)]
    else [0xF0 + u / 0x4_0000, Low(u / 0x1000), Low(u / 0x40), Low(u)]
  }

  /** The continuation byte with the six low bits of u. */
  function Low(u: nat): (b: Byte)
    ensures IsContinuation(b)
  {
    0x80 + u % 0x40
  }

  predicate IsContinuation(b: Byte) {
    0x80 <= b < 0xC0
  }

  /** How many bytes the sequence that starts with b has; 0 if none can. */
  function SequenceLength(b: Byte): nat {
    if b < 0x80 then 1
    else if b < 0xC0 then 0
    else if b < 0xE0 then 2
    else if b < 0xF0 then 3
    else if b < 0xF8 then 4
    else 0
  }

  predicate IsScalar(u: int) {
    0 <= u < 0xD800 || 0xE000 <= u < 0x11_0000
  }

  /** The scalar value of one byte sequence: no overlong form, no surrogate. */
  function FromUtf8(bytes: seq<Byte>): Option<char> {
    if bytes == [] || SequenceLength(bytes[0]) != |bytes| then None
    else if exists i :: 1 <= i < |bytes| && !IsContinuation(bytes[i]) then None
    else
      var u := CodePoint(bytes);
      if !IsScalar(u) || u < Least(|bytes|) then None else Some(u as char)
  }

  function Least(length: nat): nat {
    if length <= 1 then 0 else if length == 2 then 0x80 else if length == 3 then 0x800 else 0x1_0000
  }

  /** The six bits of a continuation byte. */
  function Bits(b: Byte): int {
    b as int - 0x80
  }

  function CodePoint(bytes: seq<Byte>): int
    requires bytes != [] && SequenceLength(bytes[0]) == |bytes|
  {
    var lead := bytes[0] as int;
    if |bytes| == 1 then lead
    else if |bytes| == 2 then (lead - 0xC0) * 0x40 + Bits(bytes[1])
    else if |bytes| == 3 then ((lead - 0xE0) * 0x40 + Bits(bytes[1])) * 0x40 + Bits(bytes[2])
    else (((lead - 0xF0) * 0x40 + Bits(bytes[1])) * 0x40 + Bits(bytes[2])) * 0x40 + Bits(bytes[3])
  }

  lemma SixBits(high: int, low: int)
    requires 0 <= low < 0x40
    ensures (high * 0x40 + low) / 0x40 == high && (high * 0x40 + low) % 0x40 == low
  {
  }

  lemma CodePointOfUtf8(c: char)
    ensures var bytes := Utf8(c);
      && SequenceLength(bytes[0]) == |bytes| && CodePoint(bytes) == c as int
      && (forall i :: 1 <= i < |bytes| ==> IsContinuation(bytes[i])) && Least(|bytes|) <= c as int
  {
    var u := c as int;
    if u >= 0x80 {
      assert u == u / 0x40 * 0x40 + u % 0x40;
      assert u / 0x40 == u / 0x1000 * 0x40 + u / 0x40 % 0x40;
      assert u / 0x1000 == u / 0x4_0000 * 0x40 + u / 0x1000 % 0x40;
    }
  }

  lemma Utf8RoundTrip(c: char)
    ensures FromUtf8(Utf8(c)) == Some(c)
  {
    CodePointOfUtf8(c);
    hide CodePoint, Utf8, SequenceLength, Least, IsContinuation;
  }

  predicate Continues(bytes: seq<Byte>) {
    forall i :: 1 <= i < |bytes| ==> IsContinuation(bytes[i])
  }

  lemma ThreeBytes(bytes: seq<Byte>, u: nat)
    requires |bytes| == 3 && SequenceLength(bytes[0]) == 3 && Continues(bytes) && u == CodePoint(bytes)
    ensures bytes == [0xE0 + u / 0x1000, Low(u / 0x40), Low(u)]
  {
    var lead := bytes[0] as int;
    SixBits(lead - 0xE0, Bits(bytes[1]));
    SixBits((lead - 0xE0) * 0x40 + Bits(bytes[1]), Bits(bytes[2]));
    QuotientTwice(u);
  }

  lemma FourBytes(bytes: seq<Byte>, u: nat)
    requires |bytes| == 4 && SequenceLength(bytes[0]) == 4 && Continues(bytes) && u == CodePoint(bytes)
    ensures bytes == [0xF0 + u / 0x4_0000, Low(u / 0x1000), Low(u / 0x40), Low(u)]
  {
    var lead := bytes[0] as int;
    var upper := (lead - 0xF0) * 0x40 + Bits(bytes[1]);
    SixBits(lead - 0xF0, Bits(bytes[1]));
    SixBits(upper, Bits(bytes[2]));
    SixBits(upper * 0x40 + Bits(bytes[2]), Bits(bytes[3]));
    QuotientTwice(u);
    QuotientThrice(u);
  }

  /** The UTF-8 form is the only accepted one. */
  lemma Utf8Unique(bytes: seq<Byte>, c: char)
    requires FromUtf8(bytes) == Some(c)
    ensures bytes == Utf8(c)
  {
    var u := c as int;
    assert Continues(bytes) && u == CodePoint(bytes) && Least(|bytes|) <= u < 0x11_0000;
    if |bytes| == 2 {
      SixBits(bytes[0] as int - 0xC0, Bits(bytes[1]));
    } else if |bytes| == 3 {
      ThreeBytes(bytes, u);
    } else if |bytes| == 4 {
      FourBytes(bytes, u);
    }
  }

  lemma QuotientTwice(u: nat)
    ensures u / 0x1000 == u / 0x40 / 0x40
  {
  }

  lemma QuotientThrice(u: nat)
    ensures u / 0x4_0000 == u / 0x40 / 0x40 / 0x40
  {
  }

  // --- Encoding ---

  function HexDigit(d: nat): char
    requires d < 16
  {
    "0123456789ABCDEF"[d]
  }

  function Escape(bytes: seq<Byte>): string {
    if bytes == [] then ""
    else ['%', HexDigit(bytes[0] / 16), HexDigit(bytes[0] % 16)] + Escape(bytes[1..])
  }

  predicate IsAlphanumeric(c: char) {
    'A' <= c <= 'Z' || 'a' <= c <= 'z' || '0' <= c <= '9'
  }

  /** What encodeURIComponent leaves alone. */
  predicate IsUriUnescaped(c: char) {
    IsAlphanumeric(c) || c in "-_.!~*'()"
  }

  function UriEncodeChar(c: char): string {
    if IsUriUnescaped(c) then [c] else Escape(Utf8(c))
  }

  function EncodeURIComponent(s: string): string {
    if s == "" then ""
    else UriEncodeChar(s[0]) + EncodeURIComponent(s[1..])
  }

  /** `replace(/[!'()*]/g, ...)`. */
  function ReplaceMarks(s: string): string {
    if s == "" then ""
    else (if s[0] in "!'()*" then Escape([s[0] as int]) else [s[0]]) + ReplaceMarks(s[1..])
  }

  /** encodeQueryComponent. */
  function EncodeComponent(s: string): string {
    ReplaceMarks(EncodeURIComponent(s))
  }

  /** Section 2.3 of RFC 3986. */
  predicate IsUnreserved(c: char) {
    IsAlphanumeric(c) || c in "-._~"
  }

  function EncodeChar(c: char): string {
    if IsUnreserved(c) then [c] else Escape(Utf8(c))
  }

  /** Section 2.1 of RFC 3986 for everything that section 2.3 does not reserve out. */
  function EncodeAll(s: string): string {
    if s == "" then "" else EncodeChar(s[0]) + EncodeAll(s[1..])
  }

  lemma {:induction false} ReplaceMarksAppend(a: string, b: string)
    ensures ReplaceMarks(a + b) == ReplaceMarks(a) + ReplaceMarks(b)
  {
    if a == "" {
      assert a + b == b;
    } else {
      assert (a + b)[1..] == a[1..] + b;
      ReplaceMarksAppend(a[1..], b);
    }
  }

  lemma {:induction false} KeepsPlain(s: string)
    requires forall c :: c in s ==> c !in "!'()*"
    ensures ReplaceMarks(s) == s
  {
    if s != "" {
      KeepsPlain(s[1..]);
    }
  }

  lemma {:induction false} EscapeChars(bytes: seq<Byte>)
    ensures forall c :: c in Escape(bytes) ==> IsAlphanumeric(c) || c == '%'
  {
    if bytes != [] {
      EscapeChars(bytes[1..]);
    }
  }

  lemma MarksOfChar(c: char)
    ensures ReplaceMarks(UriEncodeChar(c)) == EncodeChar(c)
  {
    if !IsUriUnescaped(c) {
      EscapeChars(Utf8(c));
      KeepsPlain(Escape(Utf8(c)));
    } else if c in "!'()*" {
      assert Utf8(c) == [c as int];
      assert ReplaceMarks([c]) == Escape([c as int]) + "";
    }
  }

  /** The two passes encode exactly what is not unreserved. */
  lemma {:induction false} EncodesAllButUnreserved(s: string)
    ensures EncodeComponent(s) == EncodeAll(s)
  {
    hide IsUriUnescaped, Escape, EncodeChar, Utf8, ReplaceMarks;
    if s == "" {
      EmptyHasNoMarks();
    } else {
      EncodesAllButUnreserved(s[1..]);
      ReplaceMarksAppend(UriEncodeChar(s[0]), EncodeURIComponent(s[1..]));
      MarksOfChar(s[0]);
    }
  }

  lemma EmptyHasNoMarks()
    ensures ReplaceMarks("") == ""
  {
  }

  /** Nothing encoded holds a delimiter of the query or a character outside ASCII. */
  lemma {:induction false} EncodedChars(s: string)
    ensures forall c :: c in EncodeComponent(s) ==> IsUnreserved(c) || c == '%'
  {
    EncodesAllButUnreserved(s);
    if s != "" {
      EncodedChars(s[1..]);
      EncodesAllButUnreserved(s[1..]);
      EscapeChars(Utf8(s[0]));
    }
  }

  // --- Decoding ---

  function HexValue(c: char): Option<nat> {
    if '0' <= c <= '9' then Some(c as int - 48)
    else if 'A' <= c <= 'F' then Some(c as int - 55)
    else if 'a' <= c <= 'f' then Some(c as int - 87)
    else None
  }

  /** The byte escaped at the start of s. */
  function Octet(s: string): (r: Option<Byte>)
    ensures r.Some? ==> |s| >= 3
  {
    if |s| < 3 || s[0] != '%' || HexValue(s[1]).None? || HexValue(s[2]).None? then None
    else Some(HexValue(s[1]).value * 16 + HexValue(s[2]).value)
  }

  function Octets(s: string, n: nat): (r: Option<seq<Byte>>)
    ensures r.Some? ==> |r.value| == n && |s| >= 3 * n
  {
    if n == 0 then Some([])
    else if Octet(s).None? then None
    else
      var rest := Octets(s[3..], n - 1);
      if rest.None? then None else Some([Octet(s).value] + rest.value)
  }

  /** The scalar value escaped at the start of s, and how many bytes it takes. */
  function EscapedChar(s: string): (r: Option<(char, nat)>)
    ensures r.Some? ==> r.value.1 > 0 && |s| >= 3 * r.value.1
  {
    if Octet(s).None? then None
    else
      var n := SequenceLength(Octet(s).value);
      if n == 0 then None
      else
        var octets := Octets(s, n);
        if octets.None? || FromUtf8(octets.value).None? then None
        else Some((FromUtf8(octets.value).value, n))
  }

  function Prepend(c: char, rest: Option<string>): Option<string> {
    if rest.None? then None else Some([c] + rest.value)
  }

  /** decodeURIComponent; None where it throws. */
  function DecodeURIComponent(s: string): Option<string> {
    if s == "" then Some("")
    else if s[0] != '%' then Prepend(s[0], DecodeURIComponent(s[1..]))
    else
      var escaped := EscapedChar(s);
      if escaped.None? then None
      else Prepend(escaped.value.0, DecodeURIComponent(s[3 * escaped.value.1..]))
  }

  function PlusToSpace(s: string): (r: string)
    ensures |r| == |s| && forall i :: 0 <= i < |s| ==> r[i] == if s[i] == '+' then ' ' else s[i]
  {
    if s == "" then "" else [if s[0] == '+' then ' ' else s[0]] + PlusToSpace(s[1..])
  }

  /** decodeQueryComponent. */
  function DecodeComponent(s: string): Option<string> {
    DecodeURIComponent(PlusToSpace(s))
  }

  // --- What decoding means ---

  /** p writes c: literally, as a plus sign for a space, or as the escaped bytes of its
      UTF-8 form, with hexadecimal digits of either case. */
  ghost predicate SpellsChar(p: string, c: char) {
    || (p == [c] && c != '%' && c != '+')
    || (p == "+" && c == ' ')
    || (|p| == 3 * |Utf8(c)| && Octets(p, |Utf8(c)|) == Some(Utf8(c)))
  }

  ghost predicate Spells(x: string, text: string)
    decreases |text|
  {
    if text == "" then x == ""
    else exists k :: 0 < k <= |x| && SpellsChar(x[..k], text[0]) && Spells(x[k..], text[1..])
  }

  lemma {:induction false} OctetsOfPrefix(s: string, n: nat, k: nat)
    requires 3 * n <= k <= |s|
    ensures Octets(s[..k], n) == Octets(s, n)
  {
    if n > 0 {
      assert s[..k][3..] == s[3..][..k - 3];
      OctetsOfPrefix(s[3..], n - 1, k - 3);
    }
  }

  lemma {:induction false} OctetsIgnorePlus(s: string, n: nat)
    ensures Octets(PlusToSpace(s), n) == Octets(s, n)
  {
    if n > 0 && |s| >= 3 {
      assert PlusToSpace(s)[3..] == PlusToSpace(s[3..]);
      OctetsIgnorePlus(s[3..], n - 1);
    }
  }

  lemma EscapedCharIff(s: string, c: char, n: nat)
    ensures EscapedChar(s) == Some((c, n)) <==> n == |Utf8(c)| && Octets(s, n) == Some(Utf8(c))
  {
    if Octet(s).Some? {
      if EscapedChar(s) == Some((c, n)) {
        Utf8Unique(Octets(s, n).value, c);
      }
      if n == |Utf8(c)| && Octets(s, n) == Some(Utf8(c)) {
        Utf8RoundTrip(c);
        assert Utf8(c)[0] == Octet(s).value;
      }
    }
  }

  /** A literal character that reaches decodeURIComponent. */
  lemma LiteralChar(x: string, c: char)
    requires x != "" && PlusToSpace(x)[0] != '%'
    ensures SpellsChar(x[..1], c) <==> PlusToSpace(x)[0] == c
  {
    assert x[..1] == [x[0]];
  }

  /** Otherwise an escape sequence of just the right length. */
  lemma EscapedAtStart(x: string, c: char, k: nat)
    requires x != "" && PlusToSpace(x)[0] == '%' && 0 < k <= |x|
    ensures SpellsChar(x[..k], c) <==> k == 3 * |Utf8(c)| && EscapedChar(PlusToSpace(x)) == Some((c, |Utf8(c)|))
  {
    hide Octets, EscapedChar, Utf8, SpellsChar, PlusToSpace;
    var n := |Utf8(c)|;
    OctetsIgnorePlus(x, n);
    EscapedCharIff(PlusToSpace(x), c, n);
    if k == 3 * n {
      OctetsOfPrefix(x, n, k);
    }
    SpelledByEscape(x[..k], c);
  }

  lemma SpelledByEscape(p: string, c: char)
    requires p != "" && p[0] == '%'
    ensures SpellsChar(p, c) <==> |p| == 3 * |Utf8(c)| && Octets(p, |Utf8(c)|) == Some(Utf8(c))
  {
    hide Octets, Utf8;
  }

  lemma EscapeStartsWithPercent(p: string, n: nat)
    requires n > 0 && Octets(p, n).Some?
    ensures p != "" && p[0] == '%'
  {
  }

  lemma LiteralLength(x: string, c: char, k: nat)
    requires x != "" && PlusToSpace(x)[0] != '%' && 0 < k <= |x| && SpellsChar(x[..k], c)
    ensures k == 1
  {
    hide Octets, Utf8;
    var p := x[..k];
    assert p[0] == x[0];
    if Octets(p, |Utf8(c)|) == Some(Utf8(c)) {
      EscapeStartsWithPercent(p, |Utf8(c)|);
    }
  }

  /** Decoding to `text` is soundly read off the input ... */
  lemma {:induction false} DecodedIsSpelled(x: string, text: string)
    requires DecodeComponent(x) == Some(text)
    ensures Spells(x, text)
    decreases |x|
  {
    var y := PlusToSpace(x);
    if x == "" {
    } else if y[0] != '%' {
      assert y[1..] == PlusToSpace(x[1..]);
      LiteralChar(x, text[0]);
      DecodedIsSpelled(x[1..], text[1..]);
    } else {
      var k := 3 * EscapedChar(y).value.1;
      assert y[k..] == PlusToSpace(x[k..]);
      EscapedCharIff(y, text[0], EscapedChar(y).value.1);
      hide EscapedChar, Utf8, SpellsChar;
      EscapedAtStart(x, text[0], k);
      DecodedIsSpelled(x[k..], text[1..]);
    }
  }

  lemma FirstCharDecodes(x: string, c: char, k: nat, rest: string)
    requires 0 < k <= |x| && SpellsChar(x[..k], c) && DecodeComponent(x[k..]) == Some(rest)
    ensures DecodeComponent(x) == Some([c] + rest)
  {
    hide SpellsChar, Utf8, EscapedChar;
    var y := PlusToSpace(x);
    assert y[k..] == PlusToSpace(x[k..]);
    if y[0] == '%' {
      EscapedAtStart(x, c, k);
    } else {
      LiteralLength(x, c, k);
      LiteralChar(x, c);
    }
  }

  /** ... and whatever is spelled decodes. */
  lemma {:induction false} SpelledIsDecoded(x: string, text: string)
    requires Spells(x, text)
    ensures DecodeComponent(x) == Some(text)
    decreases |text|
  {
    hide SpellsChar, DecodeURIComponent;
    if text == "" {
      EmptyDecodes();
    } else {
      var k :| 0 < k <= |x| && SpellsChar(x[..k], text[0]) && Spells(x[k..], text[1..]);
      SpelledIsDecoded(x[k..], text[1..]);
      FirstCharDecodes(x, text[0], k, text[1..]);
      assert text == [text[0]] + text[1..];
    }
  }

  lemma EmptyDecodes()
    ensures DecodeComponent("") == Some("")
  {
  }

  /** decodeQueryComponent yields a text exactly for the inputs that spell it. */
  lemma DecodeIff(x: string, text: string)
    ensures DecodeComponent(x) == Some(text) <==> Spells(x, text)
  {
    if DecodeComponent(x) == Some(text) {
      DecodedIsSpelled(x, text);
    }
    if Spells(x, text) {
      SpelledIsDecoded(x, text);
    }
  }

  lemma HexDigitIsRead(d: nat)
    requires d < 16
    ensures HexValue(HexDigit(d)) == Some(d)
  {
  }

  lemma ByteIsRead(b: Byte, rest: string)
    ensures Octet(['%', HexDigit(b / 16), HexDigit(b % 16)] + rest) == Some(b)
  {
    HexDigitIsRead(b / 16);
    HexDigitIsRead(b % 16);
    hide HexDigit, HexValue;
  }

  lemma OctetsStep(s: string, b: Byte, bytes: seq<Byte>)
    requires Octet(s) == Some(b) && Octets(s[3..], |bytes|) == Some(bytes)
    ensures Octets(s, |bytes| + 1) == Some([b] + bytes)
  {
  }

  lemma {:induction false} EscapeIsRead(bytes: seq<Byte>, rest: string)
    ensures Octets(Escape(bytes) + rest, |bytes|) == Some(bytes)
  {
    if bytes != [] {
      hide HexDigit, Octet, Octets;
      var head, tail := ['%', HexDigit(bytes[0] / 16), HexDigit(bytes[0] % 16)], Escape(bytes[1..]) + rest;
      assert Escape(bytes) + rest == head + tail;
      EscapeIsRead(bytes[1..], rest);
      ByteIsRead(bytes[0], tail);
      OctetsStep(head + tail, bytes[0], bytes[1..]);
      assert (head + tail)[3..] == tail;
      assert bytes == [bytes[0]] + bytes[1..];
    }
  }

  lemma {:induction false} EscapeLength(bytes: seq<Byte>)
    ensures |Escape(bytes)| == 3 * |bytes|
  {
    if bytes != [] {
      EscapeLength(bytes[1..]);
    }
  }

  lemma EncodedCharSpells(c: char)
    ensures SpellsChar(EncodeChar(c), c)
  {
    if !IsUnreserved(c) {
      EscapeIsRead(Utf8(c), "");
      EscapeLength(Utf8(c));
      assert Escape(Utf8(c)) + "" == Escape(Utf8(c));
    }
  }

  lemma {:induction false} EncodedSpells(text: string)
    ensures Spells(EncodeAll(text), text)
    decreases |text|
  {
    if text != "" {
      var first := EncodeChar(text[0]);
      var x := EncodeAll(text);
      EncodedCharSpells(text[0]);
      EncodedSpells(text[1..]);
      EscapeLength(Utf8(text[0]));
      assert x[..|first|] == first && x[|first|..] == EncodeAll(text[1..]);
    }
  }

  /** Decoding undoes encoding. */
  lemma DecodeUndoesEncode(text: string)
    ensures DecodeComponent(EncodeComponent(text)) == Some(text)
  {
    EncodesAllButUnreserved(text);
    EncodedSpells(text);
    SpelledIsDecoded(EncodeAll(text), text);
  }

  lemma EncodeInjective(a: string, b: string)
    requires EncodeComponent(a) == EncodeComponent(b)
    ensures a == b
  {
    DecodeUndoesEncode(a);
    DecodeUndoesEncode(b);
  }
}
