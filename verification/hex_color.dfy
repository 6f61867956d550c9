/**
 * `lerp_color` of Heart_2_for_girlfriend.py: parse two `#rrggbb` strings into
 * byte channels, blend each channel linearly with `int()` truncation, and
 * print the blend as `#` and two lowercase hex digits per channel.
 */
module HexColor {
  import opened Wrappers
  import opened PyNum

  // ---------------------------------------------------------------- digits

  predicate IsHexDigit(c: char) {
    '0' <= c <= '9' || 'a' <= c <= 'f' || 'A' <= c <= 'F'
  }

  /** The digits Python's `x` format writes. */
  predicate IsLowerHexDigit(c: char) {
    '0' <= c <= '9' || 'a' <= c <= 'f'
  }

  function DigitValue(c: char): (d: nat)
    requires IsHexDigit(c)
    ensures d < 16
    ensures IsLowerHexDigit(c) ==> (d < 10 <==> '0' <= c <= '9')
  {
    if c <= '9' then c as int - '0' as int
    else if c <= 'F' then c as int - 'A' as int + 10
    else c as int - 'a' as int + 10
  }

  /** The lowercase digit for d; reading it back gives d. */
  function LowerDigit(d: nat): (c: char)
    requires d < 16
    ensures IsLowerHexDigit(c) && DigitValue(c) == d
  {
    if d < 10 then ('0' as int + d) as char else ('a' as int + d - 10) as char
  }

  /** ASCII lowercasing, as it acts on hex digits. */
  function ToLower(c: char): (l: char)
    ensures IsHexDigit(c) ==> IsLowerHexDigit(l) && DigitValue(l) == DigitValue(c)
  {
    if 'A' <= c <= 'Z' then (c as int + 32) as char else c
  }

  function LowerAll(s: string): (l: string)
    ensures |l| == |s| && forall i :: 0 <= i < |s| ==> l[i] == ToLower(s[i])
  {
    if s == [] then [] else [ToLower(s[0])] + LowerAll(s[1..])
  }

  lemma LowerDigitOfValue(c: char)
    requires IsHexDigit(c)
    ensures LowerDigit(DigitValue(c)) == ToLower(c)
  {
  }

  // ------------------------------------------------------- int(s, 16)

  /**
   * `int(s, 16)` on a slice of at most a few characters: the value of a
   * non-empty run of hex digits of either case; None stands for the
   * ValueError Python raises on anything else.
   */
  function ParseHex(s: string): (r: Option<nat>)
    ensures r.Some? <==> |s| > 0 && forall i :: 0 <= i < |s| ==> IsHexDigit(s[i])
    ensures r.Some? && |s| <= 1 ==> r.value < 16
    ensures r.Some? && |s| <= 2 ==> r.value < 256
    decreases |s|
  {
    if |s| == 0 || !IsHexDigit(s[|s| - 1]) then None
    else if |s| == 1 then Some(DigitValue(s[0]))
    else match ParseHex(s[..|s| - 1])
      case None => None
      case Some(high) => Some(16 * high + DigitValue(s[|s| - 1]))
  }

  // ------------------------------------------------------- f"{n:02x}"

  /** `format(n, 'x')` for n >= 0: lowercase digits, no leading zeros. */
  function HexDigits(n: nat): (s: string)
    ensures |s| >= 1 && forall i :: 0 <= i < |s| ==> IsLowerHexDigit(s[i])
    ensures n < 16 <==> |s| == 1
    ensures n < 256 ==> |s| <= 2
    ensures n > 0 ==> s[0] != '0'
    ensures ParseHex(s) == Some(n)
    decreases n
  {
    if n < 16 then [LowerDigit(n)] else HexDigits(n / 16) + [LowerDigit(n % 16)]
  }

  /**
   * `f"{n:02x}"`: zero-padded to two characters after any sign; values
   * outside 0..255 keep all their digits.
   */
  function Format02x(n: int): (s: string)
    ensures 0 <= n < 256 ==> |s| == 2 && IsLowerHexDigit(s[0]) && IsLowerHexDigit(s[1])
    ensures 0 <= n ==> ParseHex(s) == Some(n)
    ensures n < 0 ==> |s| >= 2 && s[0] == '-'
    ensures 256 <= n ==> |s| >= 3
  {
    if n < 0 then "-" + HexDigits(-n)
    else if n < 16 then ['0', LowerDigit(n)]
    else HexDigits(n)
  }

  lemma DigitPair(hi: nat, lo: nat)
    requires hi < 16 && lo < 16
    ensures (16 * hi + lo) / 16 == hi && (16 * hi + lo) % 16 == lo
  {
  }

  /** Two hex digits read as 16 times the first digit plus the second. */
  lemma ParsePair(s: string)
    requires |s| == 2 && IsHexDigit(s[0]) && IsHexDigit(s[1])
    ensures ParseHex(s) == Some(16 * DigitValue(s[0]) + DigitValue(s[1]))
  {
    assert s[..1] == [s[0]];
  }

  /** A byte 16·hi + lo prints as the two lowercase digits of hi and lo. */
  lemma FormatPair(hi: nat, lo: nat)
    requires hi < 16 && lo < 16
    ensures Format02x(16 * hi + lo) == [LowerDigit(hi), LowerDigit(lo)]
  {
    var n := 16 * hi + lo;
    if hi != 0 {
      DigitPair(hi, lo);
      assert HexDigits(n) == HexDigits(hi) + [LowerDigit(lo)];
    }
  }

  /** Two hex digits print back as themselves, lowercased. */
  lemma {:induction false} FormatParsedPair(s: string)
    requires |s| == 2 && IsHexDigit(s[0]) && IsHexDigit(s[1])
    ensures ParseHex(s).Some? && Format02x(ParseHex(s).value) == LowerAll(s)
  {
    ParsePair(s);
    FormatPair(DigitValue(s[0]), DigitValue(s[1]));
    LowerDigitOfValue(s[0]);
    LowerDigitOfValue(s[1]);
  }

  // ------------------------------------------------------------ colours

  datatype Rgb = Rgb(r: int, g: int, b: int)

  predicate IsByteColor(c: Rgb) {
    0 <= c.r < 256 && 0 <= c.g < 256 && 0 <= c.b < 256
  }

  /** What `lerp_color` returns for well-behaved inputs: `#` and six lowercase hex digits. */
  predicate IsCanonical(s: string) {
    |s| == 7 && s[0] == '#' && forall i :: 1 <= i < 7 ==> IsLowerHexDigit(s[i])
  }

  /** `s.lstrip(ch)`: drops every leading ch and nothing else. */
  function LStrip(s: string, ch: char): (t: string)
    ensures |t| <= |s| && t == s[|s| - |t|..]
    ensures |t| > 0 ==> t[0] != ch
    ensures forall i :: 0 <= i < |s| - |t| ==> s[i] == ch
  {
    if |s| > 0 && s[0] == ch then LStrip(s[1..], ch) else s
  }

  /** Python's `s[i:j]` for 0 <= i <= j: both bounds are clipped to the length. */
  function Slice(s: string, i: nat, j: nat): (t: string)
    requires i <= j
    ensures |t| == (if j <= |s| then j else |s|) - (if i <= |s| then i else |s|)
    ensures forall k :: 0 <= k < |t| ==> t[k] == s[i + k]
    ensures j <= |s| ==> t == s[i..j]
  {
    if j <= |s| then s[i..j] else if i <= |s| then s[i..] else []
  }

  /**
   * Lines 40-43 for one argument: strip the leading `#`s and read the three
   * two-character slices as base-16 numbers.
   */
  function ParseColor(c: string): (r: Option<Rgb>)
    ensures r.Some? ==> IsByteColor(r.value)
  {
    var s := LStrip(c, '#');
    match (ParseHex(Slice(s, 0, 2)), ParseHex(Slice(s, 2, 4)), ParseHex(Slice(s, 4, 6)))
    case (Some(r), Some(g), Some(b)) => Some(Rgb(r, g, b))
    case _ => None
  }

  /** A colour whose stripped text starts with six hex digits. */
  predicate IsHexColor(c: string) {
    var s := LStrip(c, '#');
    |s| >= 6 && forall i :: 0 <= i < 6 ==> IsHexDigit(s[i])
  }

  function FormatColor(c: Rgb): string {
    "#" + Format02x(c.r) + Format02x(c.g) + Format02x(c.b)
  }

  /** The blend `a + (b - a) * t` of lines 44-46, before `int()`. */
  function Lerp(a: int, b: int, t: real): real {
    a as real + (b - a) as real * t
  }

  /** One channel of lines 44-46: `int(a + (b - a) * t)`. */
  function Mix(a: int, b: int, t: real): int {
    Trunc(Lerp(a, b, t))
  }

  function Blend(c1: Rgb, c2: Rgb, t: real): Rgb {
    Rgb(Mix(c1.r, c2.r, t), Mix(c1.g, c2.g, t), Mix(c1.b, c2.b, t))
  }

  /** `lerp_color(c1, c2, t)`; a malformed colour raises ValueError. */
  function LerpColor(c1: string, c2: string, t: real): (r: Result<string>)
    ensures r.Ok? <==> ParseColor(c1).Some? && ParseColor(c2).Some?
    ensures r.Err? ==> r.fault == ValueError
  {
    match (ParseColor(c1), ParseColor(c2))
    case (Some(a), Some(b)) => Ok(FormatColor(Blend(a, b, t)))
    case _ => Err(ValueError)
  }

  // ------------------------------------------------------------- lemmas

  /** Blending a channel with itself gives the channel back, whatever t is. */
  lemma MixSame(a: int, t: real)
    ensures Mix(a, a, t) == a
  {
    assert (a - a) as real * t == 0.0;
  }

  /** t = 0 gives the first channel, t = 1 the second. */
  lemma MixEnds(a: int, b: int)
    ensures Mix(a, b, 0.0) == a && Mix(a, b, 1.0) == b
  {
  }

  lemma ScaleWithin(d: real, t: real)
    requires 0.0 <= d && 0.0 <= t <= 1.0
    ensures 0.0 <= d * t <= d
  {
  }

  lemma ScaleNegated(d: real, t: real)
    ensures (-d) * t == -(d * t)
  {
  }

  /** On the reals, a + d·t lies between a and a + d for 0 <= t <= 1. */
  lemma BlendWithin(a: real, d: real, t: real)
    requires 0.0 <= t <= 1.0
    ensures 0.0 <= d ==> a <= a + d * t <= a + d
    ensures d <= 0.0 ==> a + d <= a + d * t <= a
  {
    if 0.0 <= d {
      ScaleWithin(d, t);
    } else {
      ScaleWithin(-d, t);
      ScaleNegated(d, t);
    }
  }

  /** Truncation keeps a real inside any integer interval that holds it. */
  lemma TruncWithin(x: real, lo: int, hi: int)
    requires lo as real <= x <= hi as real
    ensures lo <= Trunc(x) <= hi
  {
  }

  /** Before truncation, the blend lies between the two channels. */
  lemma LerpWithin(a: int, b: int, t: real)
    requires 0.0 <= t <= 1.0
    ensures a <= b ==> a as real <= Lerp(a, b, t) <= b as real
    ensures b <= a ==> b as real <= Lerp(a, b, t) <= a as real
  {
    BlendWithin(a as real, (b - a) as real, t);
  }

  /** For 0 <= t <= 1 the blended channel lies between the two input channels. */
  lemma MixBetween(a: int, b: int, t: real)
    requires 0.0 <= t <= 1.0
    ensures a <= b ==> a <= Mix(a, b, t) <= b
    ensures b <= a ==> b <= Mix(a, b, t) <= a
  {
    LerpWithin(a, b, t);
    if a <= b {
      TruncWithin(Lerp(a, b, t), a, b);
    } else {
      TruncWithin(Lerp(a, b, t), b, a);
    }
  }

  /** A text that does not start with `#` loses exactly the one `#` put before it. */
  lemma StripOneHash(s: string)
    requires |s| > 0 && s[0] != '#'
    ensures LStrip("#" + s, '#') == s
  {
    assert ("#" + s)[1..] == s;
  }

  /** ParseColor reads its three slices from the stripped text. */
  lemma {:induction false} ParseSixDigits(c: string, s: string, rgb: Rgb)
    requires LStrip(c, '#') == s && |s| >= 6
    requires ParseHex(s[0..2]) == Some(rgb.r) && ParseHex(s[2..4]) == Some(rgb.g)
    requires ParseHex(s[4..6]) == Some(rgb.b)
    ensures ParseColor(c) == Some(rgb)
  {
    assert Slice(s, 0, 2) == s[0..2] && Slice(s, 2, 4) == s[2..4] && Slice(s, 4, 6) == s[4..6];
  }

  /** Three two-character pieces sit at offsets 0, 2 and 4 of their concatenation. */
  lemma ThreePairs(r: string, g: string, b: string)
    requires |r| == 2 && |g| == 2 && |b| == 2
    ensures var s := r + g + b; |s| == 6 && s[0..2] == r && s[2..4] == g && s[4..6] == b
  {
  }

  /** A byte colour prints as `#` followed by its three two-digit channels. */
  lemma {:induction false} FormatSplits(c: Rgb) returns (s: string)
    requires IsByteColor(c)
    ensures FormatColor(c) == "#" + s && |s| == 6
    ensures s[0..2] == Format02x(c.r) && s[2..4] == Format02x(c.g) && s[4..6] == Format02x(c.b)
    ensures forall i :: 0 <= i < 6 ==> IsLowerHexDigit(s[i])
  {
    var r, g, b := Format02x(c.r), Format02x(c.g), Format02x(c.b);
    s := r + g + b;
    ThreePairs(r, g, b);
    ConcatAssoc("#", r, g, b);
    assert forall i :: 0 <= i < 6 ==> s[i] == (if i < 2 then r[i] else if i < 4 then g[i - 2] else b[i - 4]);
  }

  /** Reading a printed byte colour gives the colour back; the text is canonical. */
  lemma {:induction false} FormatThenParse(c: Rgb)
    requires IsByteColor(c)
    ensures IsCanonical(FormatColor(c))
    ensures ParseColor(FormatColor(c)) == Some(c)
  {
    var s := FormatSplits(c);
    assert forall i :: 1 <= i < 7 ==> FormatColor(c)[i] == s[i - 1];
    StripOneHash(s);
    ParseSixDigits(FormatColor(c), s, c);
  }

  /** Parsing then printing a six-digit colour lowercases its first six digits. */
  lemma {:induction false} ParseThenFormat(c: string)
    requires IsHexColor(c)
    ensures ParseColor(c).Some?
    ensures FormatColor(ParseColor(c).value) == "#" + LowerAll(LStrip(c, '#')[..6])
  {
    var s := LStrip(c, '#');
    var rgb := ReadPairs(s);
    ParseSixDigits(c, s, rgb);
    GlueSix(s, rgb);
  }

  /** The three pairs of six hex digits read as channels that print as the lowercased pairs. */
  lemma {:induction false} ReadPairs(s: string) returns (rgb: Rgb)
    requires |s| >= 6 && forall i :: 0 <= i < 6 ==> IsHexDigit(s[i])
    ensures ParseHex(s[0..2]) == Some(rgb.r) && Format02x(rgb.r) == LowerAll(s[0..2])
    ensures ParseHex(s[2..4]) == Some(rgb.g) && Format02x(rgb.g) == LowerAll(s[2..4])
    ensures ParseHex(s[4..6]) == Some(rgb.b) && Format02x(rgb.b) == LowerAll(s[4..6])
  {
    assert IsHexDigit(s[0]) && IsHexDigit(s[1]) && IsHexDigit(s[2]);
    assert IsHexDigit(s[3]) && IsHexDigit(s[4]) && IsHexDigit(s[5]);
    FormatParsedPair(s[0..2]);
    FormatParsedPair(s[2..4]);
    FormatParsedPair(s[4..6]);
    rgb := Rgb(ParseHex(s[0..2]).value, ParseHex(s[2..4]).value, ParseHex(s[4..6]).value);
  }

  /** Printing three channels that print as the three pairs of s gives `#` and those pairs. */
  lemma {:induction false} GlueSix(s: string, rgb: Rgb)
    requires |s| >= 6
    requires Format02x(rgb.r) == LowerAll(s[0..2]) && Format02x(rgb.g) == LowerAll(s[2..4])
    requires Format02x(rgb.b) == LowerAll(s[4..6])
    ensures FormatColor(rgb) == "#" + LowerAll(s[..6])
  {
    var p0, p1, p2 := s[0..2], s[2..4], s[4..6];
    SplitSix(s);
    LowerAllSplit(p0, p1 + p2);
    LowerAllSplit(p1, p2);
    ConcatAssoc("#", LowerAll(p0), LowerAll(p1), LowerAll(p2));
  }

  lemma ConcatAssoc(a: string, b: string, c: string, d: string)
    ensures a + b + c + d == a + (b + c + d) == a + (b + (c + d))
  {
  }

  lemma SplitSix(s: string)
    requires |s| >= 6
    ensures s[..6] == s[0..2] + (s[2..4] + s[4..6])
  {
  }

  lemma LowerAllSplit(a: string, b: string)
    ensures LowerAll(a + b) == LowerAll(a) + LowerAll(b)
  {
  }

  /** `lerp_color(c, c, t)` prints the channels of c, for every t. */
  lemma {:induction false} LerpSelf(c: string, t: real)
    requires ParseColor(c).Some?
    ensures LerpColor(c, c, t) == Ok(FormatColor(ParseColor(c).value))
  {
    var p := ParseColor(c).value;
    MixSame(p.r, t);
    MixSame(p.g, t);
    MixSame(p.b, t);
    assert Blend(p, p, t) == p;
  }

  /** For a `#rrggbb` colour, `lerp_color(c, c, t)` is c with one `#`, lowercased. */
  lemma {:induction false} LerpSelfText(c: string, t: real)
    requires IsHexColor(c)
    ensures LerpColor(c, c, t) == Ok("#" + LowerAll(LStrip(c, '#')[..6]))
  {
    ParseThenFormat(c);
    LerpSelf(c, t);
  }

  /**
   * A five-digit colour is not cut but padded: its last slice is the single
   * digit `e`, which prints back as `0e`.
   */
  lemma {:induction false} LerpFiveDigits(t: real)
    ensures LerpColor("#abcde", "#abcde", t) == Ok("#abcd0e")
  {
    ParseFiveDigits();
    LerpSelf("#abcde", t);
    PrintPadded();
  }

  lemma ParseFiveDigits()
    ensures ParseColor("#abcde") == Some(Rgb(171, 205, 14))
  {
    var c, s := "#abcde", "abcde";
    assert c[1..] == s;
    assert LStrip(c, '#') == s;
    assert Slice(s, 0, 2) == "ab" && Slice(s, 2, 4) == "cd" && Slice(s, 4, 6) == "e";
    ParsePair("ab");
    ParsePair("cd");
    assert ParseHex("e") == Some(14);
  }

  lemma PrintPadded()
    ensures FormatColor(Rgb(171, 205, 14)) == "#abcd0e"
  {
    FormatPair(10, 11);
    FormatPair(12, 13);
    FormatPair(0, 14);
    assert Format02x(171) == "ab" && Format02x(205) == "cd" && Format02x(14) == "0e";
    assert "#" + "ab" == "#ab";
    assert "#ab" + "cd" == "#abcd";
    assert "#abcd" + "0e" == "#abcd0e";
  }

  /** t = 0 gives the channels of the first colour, t = 1 those of the second. */
  lemma {:induction false} LerpEnds(c1: string, c2: string)
    requires ParseColor(c1).Some? && ParseColor(c2).Some?
    ensures LerpColor(c1, c2, 0.0) == Ok(FormatColor(ParseColor(c1).value))
    ensures LerpColor(c1, c2, 1.0) == Ok(FormatColor(ParseColor(c2).value))
  {
    var a, b := ParseColor(c1).value, ParseColor(c2).value;
    MixEnds(a.r, b.r);
    MixEnds(a.g, b.g);
    MixEnds(a.b, b.b);
    assert Blend(a, b, 0.0) == a && Blend(a, b, 1.0) == b;
  }

  /** Channels of a blend with 0 <= t <= 1 lie between those of the inputs. */
  predicate Between(x: int, a: int, b: int) {
    (a <= x <= b) || (b <= x <= a)
  }

  /**
   * For 0 <= t <= 1 each blended channel lies between the input channels,
   * so the output is canonical `#rrggbb` text that reads back as the blend:
   * it is again a valid input to `lerp_color`.
   */
  lemma {:induction false} LerpStaysCanonical(c1: string, c2: string, t: real)
    requires 0.0 <= t <= 1.0
    requires LerpColor(c1, c2, t).Ok?
    ensures IsCanonical(LerpColor(c1, c2, t).value)
    ensures ParseColor(LerpColor(c1, c2, t).value) == Some(Blend(ParseColor(c1).value, ParseColor(c2).value, t))
    ensures var a, b, m := ParseColor(c1).value, ParseColor(c2).value, Blend(ParseColor(c1).value, ParseColor(c2).value, t);
      Between(m.r, a.r, b.r) && Between(m.g, a.g, b.g) && Between(m.b, a.b, b.b)
  {
    var a, b := ParseColor(c1).value, ParseColor(c2).value;
    MixBetween(a.r, b.r, t);
    MixBetween(a.g, b.g, t);
    MixBetween(a.b, b.b, t);
    FormatThenParse(Blend(a, b, t));
  }

  /**
   * The renderer feeds a blend back in as the first colour of another blend
   * (Heart_2_for_girlfriend.py:129 and :131); that second call cannot raise.
   */
  lemma {:induction false} LerpChains(c1: string, c2: string, t: real, c3: string, u: real)
    requires 0.0 <= t <= 1.0
    requires LerpColor(c1, c2, t).Ok? && ParseColor(c3).Some?
    ensures LerpColor(LerpColor(c1, c2, t).value, c3, u).Ok?
  {
    LerpStaysCanonical(c1, c2, t);
  }
}
