/**
 The fallback of `cssEscape`, and the decoder it has to agree with: consuming an escaped code
 point, section 4.3.7 of CSS Syntax Module Level 3.
 */
module CssText {
  import opened JsValues

  type CodePoint = c: int | 0 <= c <= 0x10FFFF

  const BACKSLASH: Unit := 0x5C
  const REPLACEMENT: CodePoint := 0xFFFD

  // ---------------------------------------------------------------- escaping

  /** `Array.from(value)`: surrogate pairs are one element, lone surrogates stay. */
  function CodePoints(s: JsString): seq<CodePoint> {
    if s == [] then []
    else if |s| >= 2 && 0xD800 <= s[0] <= 0xDBFF && 0xDC00 <= s[1] <= 0xDFFF then
      [0x10000 + (s[0] - 0xD800) * 0x400 + (s[1] - 0xDC00)] + CodePoints(s[2..])
    else [s[0]] + CodePoints(s[1..])
  }

  /** The code units of code points. */
  function Units(cs: seq<CodePoint>): JsString {
    if cs == [] then []
    else if cs[0] < 0x10000 then [cs[0]] + Units(cs[1..])
    else
      var above := cs[0] - 0x10000;
      [0xD800 + above / 0x400, 0xDC00 + above % 0x400] + Units(cs[1..])
  }

  predicate IsPair(high: int, low: int) {
    0xD800 <= high <= 0xDBFF && 0xDC00 <= low <= 0xDFFF
  }

  predicate NoPairs(cs: seq<CodePoint>) {
    forall i :: 0 <= i < |cs| - 1 ==> !IsPair(cs[i], cs[i + 1])
  }

  lemma NoPairsMore(c: CodePoint, cs: seq<CodePoint>)
    requires NoPairs(cs) && (cs != [] ==> !IsPair(c, cs[0]))
    ensures NoPairs([c] + cs)
  {
    forall i | 0 <= i < |cs| ensures !IsPair(([c] + cs)[i], ([c] + cs)[i + 1]) {
      if i > 0 { assert !IsPair(cs[i - 1], cs[i - 1 + 1]); }
    }
  }

  lemma UnitsMore(c: CodePoint, cs: seq<CodePoint>)
    ensures c < 0x10000 ==> Units([c] + cs) == [c] + Units(cs)
    ensures forall high: Unit, low: Unit ::
              IsPair(high, low) && c == 0x10000 + (high - 0xD800) * 0x400 + (low - 0xDC00) ==>
                Units([c] + cs) == [high, low] + Units(cs)
  {
    assert ([c] + cs)[1..] == cs;
  }

  /** Splitting a string into code points loses nothing, and leaves no surrogate pair apart. */
  lemma {:induction false} CodePointsExactly(s: JsString)
    ensures Units(CodePoints(s)) == s && NoPairs(CodePoints(s))
    ensures s != [] ==> CodePoints(s) != [] && (CodePoints(s)[0] == s[0] || CodePoints(s)[0] >= 0x10000)
    decreases |s|
  {
    if s != [] {
      var n := if |s| >= 2 && IsPair(s[0], s[1]) then 2 else 1;
      var (c, rest) := (CodePoints(s)[0], s[n..]);
      CodePointsExactly(rest);
      assert CodePoints(s) == [c] + CodePoints(rest) && s == s[..n] + rest;
      UnitsMore(c, CodePoints(rest));
      NoPairsMore(c, CodePoints(rest));
    }
  }

  function HexDigit(n: int): Unit
    requires 0 <= n < 16
  {
    if n < 10 then 0x30 + n else 0x61 + (n - 10)
  }

  /** `n.toString(16)`. */
  function Hex(n: nat): JsString {
    if n < 16 then [HexDigit(n)] else Hex(n / 16) + [HexDigit(n % 16)]
  }

  function EscapePoint(c: CodePoint): JsString {
    [BACKSLASH] + Hex(c) + [SPACE]
  }

  function EscapePoints(cs: seq<CodePoint>): JsString {
    if cs == [] then [] else EscapePoint(cs[0]) + EscapePoints(cs[1..])
  }

  /** `cssEscape` where `CSS.escape` is missing. */
  function CssEscape(value: JsString): JsString {
    EscapePoints(CodePoints(value))
  }

  // ---------------------------------------------------------------- decoding

  predicate IsHex(u: Unit) {
    0x30 <= u <= 0x39 || 0x41 <= u <= 0x46 || 0x61 <= u <= 0x66
  }

  function HexValue(u: Unit): nat
    requires IsHex(u)
  {
    if u <= 0x39 then u - 0x30 else if u <= 0x46 then u - 0x41 + 10 else u - 0x61 + 10
  }

  predicate AllHex(s: JsString) {
    forall i :: 0 <= i < |s| ==> IsHex(s[i])
  }

  /** How many hex digits the text starts with, at most `max`. */
  function HexRun(text: JsString, max: nat): (n: nat)
    ensures n <= |text| && n <= max && AllHex(text[..n])
  {
    if max == 0 || text == [] || !IsHex(text[0]) then 0 else 1 + HexRun(text[1..], max - 1)
  }

  function Value(digits: JsString): nat
    requires AllHex(digits)
  {
    if digits == [] then 0 else 16 * Value(digits[..|digits| - 1]) + HexValue(digits[|digits| - 1])
  }

  predicate IsWhitespace(u: Unit) {
    u == 0x20 || u == 0x09 || u == 0x0A
  }

  predicate IsSurrogate(c: int) {
    0xD800 <= c <= 0xDFFF
  }

  /** Zero, surrogates and numbers that are no code points become the replacement character. */
  function Repair(n: nat): CodePoint {
    if n == 0 || IsSurrogate(n) || n > 0x10FFFF then REPLACEMENT else n
  }

  /** The code points that a text stands for, escapes resolved. */
  function Decode(text: JsString): seq<CodePoint>
    decreases |text|
  {
    if text == [] then []
    else if text[0] != BACKSLASH then [text[0]] + Decode(text[1..])
    else if |text| == 1 then [REPLACEMENT]
    else if !IsHex(text[1]) then [text[1]] + Decode(text[2..])
    else
      var n := HexRun(text[1..], 6);
      var rest := text[1 + n..];
      [Repair(Value(text[1..][..n]))]
      + Decode(if rest != [] && IsWhitespace(rest[0]) then rest[1..] else rest)
  }

  // ---------------------------------------------------------------- round trip

  lemma {:induction false} HexReads(n: nat)
    ensures AllHex(Hex(n)) && Value(Hex(n)) == n && |Hex(n)| >= 1
  {
    if n >= 16 {
      HexReads(n / 16);
      var init, d := Hex(n / 16), HexDigit(n % 16);
      assert (init + [d])[..|init|] == init;
    } else {
      assert Hex(n)[..0] == [];
    }
  }

  function Pow16(k: nat): nat {
    if k == 0 then 1 else 16 * Pow16(k - 1)
  }

  lemma {:induction false} HexLength(n: nat, k: nat)
    requires k >= 1 && n < Pow16(k)
    ensures |Hex(n)| <= k
  {
    assert Pow16(1) == 16 * Pow16(0);
    if n >= 16 {
      HexLength(n / 16, k - 1);
    }
  }

  lemma HexFits(c: CodePoint)
    ensures 1 <= |Hex(c)| <= 6
  {
    HexReads(c);
    assert Pow16(2) == 256 && Pow16(4) == 256 * Pow16(2) && Pow16(6) == 256 * Pow16(4);
    HexLength(c, 6);
  }

  lemma {:induction false} HexRunStops(digits: JsString, rest: JsString, max: nat)
    requires AllHex(digits) && |digits| <= max && rest != [] && !IsHex(rest[0])
    ensures HexRun(digits + rest, max) == |digits|
  {
    if digits == [] {
      assert digits + rest == rest;
    } else {
      assert (digits + rest)[1..] == digits[1..] + rest;
      HexRunStops(digits[1..], rest, max - 1);
    }
  }

  lemma DecodeEscape(c: CodePoint, tail: JsString)
    ensures Decode(EscapePoint(c) + tail) == [Repair(c)] + Decode(tail)
  {
    var digits := Hex(c);
    var text := EscapePoint(c) + tail;
    HexReads(c);
    HexFits(c);
    assert text[1..] == digits + ([SPACE] + tail);
    assert text[1] == digits[0];
    HexRunStops(digits, [SPACE] + tail, 6);
    assert text[1..][..|digits|] == digits;
    assert text[1 + |digits|..] == [SPACE] + tail;
    assert ([SPACE] + tail)[1..] == tail;
  }

  function RepairAll(cs: seq<CodePoint>): (r: seq<CodePoint>)
    ensures |r| == |cs| && forall i :: 0 <= i < |cs| ==> r[i] == Repair(cs[i])
  {
    seq(|cs|, i requires 0 <= i < |cs| => Repair(cs[i]))
  }

  lemma {:induction false} DecodeEscapes(cs: seq<CodePoint>)
    ensures Decode(EscapePoints(cs)) == RepairAll(cs)
  {
    if cs != [] {
      DecodeEscape(cs[0], EscapePoints(cs[1..]));
      DecodeEscapes(cs[1..]);
      assert RepairAll(cs) == [Repair(cs[0])] + RepairAll(cs[1..]);
    }
  }

  /**
   Decoding an escaped string gives its code points, with U+FFFD for each zero and lone surrogate;
   so it undoes escaping exactly on the strings without those.
   */
  lemma EscapeRoundTrip(value: JsString)
    ensures var (cs, ds) := (CodePoints(value), Decode(CssEscape(value)));
            && |ds| == |cs|
            && (forall i :: 0 <= i < |cs| ==> ds[i] == if cs[i] == 0 || IsSurrogate(cs[i]) then 0xFFFD else cs[i])
            && (ds == cs <==> forall i :: 0 <= i < |cs| ==> cs[i] != 0 && !IsSurrogate(cs[i]))
  {
    var cs := CodePoints(value);
    DecodeEscapes(cs);
    if Decode(CssEscape(value)) == cs {
      forall i | 0 <= i < |cs| ensures cs[i] != 0 && !IsSurrogate(cs[i]) {
        assert RepairAll(cs)[i] == cs[i];
      }
    }
  }

  /** Escaping undoes decoding on every text that escaping produced from such a string. */
  lemma EscapeAgain(cs: seq<CodePoint>)
    requires forall i :: 0 <= i < |cs| ==> cs[i] != 0 && !IsSurrogate(cs[i])
    ensures EscapePoints(Decode(EscapePoints(cs))) == EscapePoints(cs)
  {
    DecodeEscapes(cs);
    assert RepairAll(cs) == cs;
  }

  // ---------------------------------------------------------------- no control characters

  lemma {:induction false} HexIsClean(n: nat)
    ensures NoControl(Hex(n))
  {
    if n >= 16 { HexIsClean(n / 16); }
  }

  /** Escaped text is free of control characters, whatever the value. */
  lemma {:induction false} EscapeIsClean(cs: seq<CodePoint>)
    ensures NoControl(EscapePoints(cs))
  {
    if cs != [] {
      HexIsClean(cs[0]);
      EscapeIsClean(cs[1..]);
    }
  }
}
