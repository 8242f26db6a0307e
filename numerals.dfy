/** Decimal and hexadecimal numerals: the formatting the source does with std::to_string,
    std::hex/std::uppercase and std::fixed/std::setprecision, and the scanning it does
    with sscanf, std::istringstream and std::stod. */
module Numerals {
  import opened Wrappers

  predicate IsDigit(c: char) {
    '0' <= c <= '9'
  }

  predicate AllDigits(s: string) {
    forall k :: 0 <= k < |s| ==> IsDigit(s[k])
  }

  function DigitValue(c: char): nat
    requires IsDigit(c)
  {
    c as int - '0' as int
  }

  function DigitChar(d: nat): (c: char)
    requires d < 10
    ensures IsDigit(c) && DigitValue(c) == d
  {
    ('0' as int + d) as char
  }

  /** The number a digit string denotes, most significant digit first. */
  function DigitsValue(s: string): nat
    requires AllDigits(s)
  {
    if s == [] then 0 else DigitsValue(s[..|s| - 1]) * 10 + DigitValue(s[|s| - 1])
  }

  /** std::to_string of a non-negative integer: its digits, without leading zeros. */
  function NatToDecimal(n: nat): (s: string)
    ensures s != [] && AllDigits(s)
    ensures DigitsValue(s) == n
    ensures s[0] == '0' ==> s == "0"
  {
    if n < 10 then [DigitChar(n)]
    else
      var s := NatToDecimal(n / 10) + [DigitChar(n % 10)];
      assert s[..|s| - 1] == NatToDecimal(n / 10);
      s
  }

  /** The decimal text of an int: a '-' before the digits when negative. */
  function IntToString(i: int): (s: string)
    ensures s != []
    ensures i < 0 ==> s[0] == '-' && AllDigits(s[1..]) && DigitsValue(s[1..]) == -i
    ensures i >= 0 ==> AllDigits(s) && DigitsValue(s) == i
  {
    if i < 0 then
      var s := "-" + NatToDecimal(-i);
      assert s[1..] == NatToDecimal(-i);
      s
    else NatToDecimal(i)
  }

  predicate IsHexDigit(c: char) {
    IsDigit(c) || 'A' <= c <= 'F'
  }

  predicate AllHexDigits(s: string) {
    forall k :: 0 <= k < |s| ==> IsHexDigit(s[k])
  }

  function HexDigitValue(c: char): nat
    requires IsHexDigit(c)
  {
    if IsDigit(c) then DigitValue(c) else c as int - 'A' as int + 10
  }

  function HexDigitChar(d: nat): (c: char)
    requires d < 16
    ensures IsHexDigit(c) && HexDigitValue(c) == d
  {
    if d < 10 then DigitChar(d) else ('A' as int + d - 10) as char
  }

  /** The number an upper-case hexadecimal digit string denotes. */
  function HexValue(s: string): nat
    requires AllHexDigits(s)
  {
    if s == [] then 0 else HexValue(s[..|s| - 1]) * 16 + HexDigitValue(s[|s| - 1])
  }

  /** `std::hex << std::uppercase << n`: upper-case hexadecimal digits, no leading zeros. */
  function Hex(n: nat): (s: string)
    ensures s != [] && AllHexDigits(s)
    ensures HexValue(s) == n
    ensures s[0] == '0' ==> s == "0"
  {
    if n < 16 then [HexDigitChar(n)]
    else
      var s := Hex(n / 16) + [HexDigitChar(n % 16)];
      assert s[..|s| - 1] == Hex(n / 16);
      s
  }

  function Pow10(p: nat): (r: nat)
    ensures r >= 1
  {
    if p == 0 then 1 else 10 * Pow10(p - 1)
  }

  /** |r| scaled by 10^p and rounded to the nearest integer, halves away from zero. */
  function Scaled(r: real, p: nat): nat {
    var a := if r < 0.0 then -r else r;
    var n := (a * Pow10(p) as real + 0.5).Floor;
    assert n >= 0;
    n
  }

  /** n / 10^p, as a real. */
  function Ratio(n: nat, p: nat): real {
    n as real / Pow10(p) as real
  }

  /** `r` rounded to `p` decimals, halves away from zero. */
  function Round(r: real, p: nat): real {
    var v := Ratio(Scaled(r, p), p);
    if r < 0.0 then -v else v
  }

  /** The `p`-digit, zero-padded decimal text of `m`. */
  function PaddedDigits(m: nat, p: nat): (s: string)
    requires m < Pow10(p)
    ensures |s| == p && AllDigits(s) && DigitsValue(s) == m
  {
    if p == 0 then ""
    else
      var s := PaddedDigits(m / 10, p - 1) + [DigitChar(m % 10)];
      assert s[..|s| - 1] == PaddedDigits(m / 10, p - 1);
      s
  }

  /** The text std::fixed with std::setprecision(p) prints for a value whose magnitude scaled
      by 10^p rounds to `n`: a '-' when `negative`, the integer part, and for p > 0 a '.'
      followed by exactly p decimals. */
  function FixedText(negative: bool, n: nat, p: nat): string {
    (if negative then "-" else "") + WholeDigits(n, p) + (if p == 0 then "" else "." + FracDigits(n, p))
  }

  /** The integer part of n / 10^p, in decimal. */
  function WholeDigits(n: nat, p: nat): (s: string)
    ensures s != [] && AllDigits(s)
  {
    var q := Pow10(p);
    DivBounds(n, q);
    NatToDecimal(n / q)
  }

  /** The remainder of n / 10^p as exactly p digits. */
  function FracDigits(n: nat, p: nat): (s: string)
    ensures |s| == p && AllDigits(s)
  {
    var q := Pow10(p);
    DivBounds(n, q);
    PaddedDigits(n % q, p)
  }

  /** `std::fixed << std::setprecision(p) << r`. */
  function Fixed(r: real, p: nat): string {
    FixedText(r < 0.0, Scaled(r, p), p)
  }

  /** Characters that can appear in a numeral this module formats. */
  predicate IsNumeralChar(c: char) {
    IsDigit(c) || c == '-' || c == '.'
  }

  /** Every character of a numeral text is a digit, '-' or '.'. */
  predicate NumeralText(s: string) {
    forall k :: 0 <= k < |s| ==> IsNumeralChar(s[k])
  }

  lemma NumeralJoin(a: string, b: string)
    requires NumeralText(a) && NumeralText(b)
    ensures NumeralText(a + b)
  {
    forall k | 0 <= k < |a + b| ensures IsNumeralChar((a + b)[k]) {
      if k >= |a| {
        assert (a + b)[k] == b[k - |a|];
      }
    }
  }

  lemma DigitsNumeral(s: string)
    requires AllDigits(s)
    ensures NumeralText(s)
  {
  }

  /** The decimals FixedText prints after the integer part. */
  lemma FracNumeral(n: nat, p: nat)
    ensures NumeralText(if p == 0 then "" else "." + FracDigits(n, p))
  {
    if p > 0 {
      DigitsNumeral(FracDigits(n, p));
      NumeralJoin(".", FracDigits(n, p));
    }
  }

  lemma NumeralPieces(a: string, b: string, c: string)
    requires NumeralText(a) && AllDigits(b) && NumeralText(c)
    ensures NumeralText(a + b + c)
  {
    DigitsNumeral(b);
    NumeralJoin(a, b);
    NumeralJoin(a + b, c);
  }

  lemma FixedTextChars(negative: bool, n: nat, p: nat)
    ensures NumeralText(FixedText(negative, n, p))
  {
    FracNumeral(n, p);
    NumeralPieces(if negative then "-" else "", WholeDigits(n, p), if p == 0 then "" else "." + FracDigits(n, p));
  }

  lemma FixedChars(r: real, p: nat)
    ensures forall k :: 0 <= k < |Fixed(r, p)| ==> IsNumeralChar(Fixed(r, p)[k])
  {
    FixedTextChars(r < 0.0, Scaled(r, p), p);
  }

  lemma IntToStringChars(i: int)
    ensures forall k :: 0 <= k < |IntToString(i)| ==> IsNumeralChar(IntToString(i)[k])
  {
  }

  /** isspace in the "C" locale. */
  predicate IsSpace(c: char) {
    c == ' ' || c == '\t' || c == '\n' || c == '\r' || c as int == 11 || c as int == 12
  }

  /** The first position at or after `i` that does not hold white space. */
  function SkipSpaces(s: string, i: nat): (j: nat)
    requires i <= |s|
    ensures i <= j <= |s| && (j < |s| ==> !IsSpace(s[j]))
    decreases |s| - i
  {
    if i < |s| && IsSpace(s[i]) then SkipSpaces(s, i + 1) else i
  }

  /** Everything SkipSpaces passes over is white space. */
  lemma {:induction false} SpacesRun(s: string, i: nat)
    requires i <= |s|
    ensures forall k :: i <= k < SkipSpaces(s, i) ==> IsSpace(s[k])
    decreases |s| - i
  {
    if i < |s| && IsSpace(s[i]) {
      SpacesRun(s, i + 1);
    }
  }

  /** The end of the run of digits that starts at `i`. */
  function DigitsEnd(s: string, i: nat): (j: nat)
    requires i <= |s|
    ensures i <= j <= |s| && (j < |s| ==> !IsDigit(s[j]))
    decreases |s| - i
  {
    if i < |s| && IsDigit(s[i]) then DigitsEnd(s, i + 1) else i
  }

  /** Everything DigitsEnd passes over is a digit. */
  lemma {:induction false} DigitsRun(s: string, i: nat)
    requires i <= |s|
    ensures AllDigits(s[i..DigitsEnd(s, i)])
    decreases |s| - i
  {
    if i < |s| && IsDigit(s[i]) {
      var j := DigitsEnd(s, i + 1);
      DigitsRun(s, i + 1);
      assert s[i..j] == [s[i]] + s[i + 1..j];
    }
  }

  /** After optional white space, the position past an optional '+' or '-'. */
  function SignEnd(s: string): (a: nat)
    ensures a <= |s|
  {
    var i := SkipSpaces(s, 0);
    if i < |s| && (s[i] == '-' || s[i] == '+') then i + 1 else i
  }

  /** Whether the sign SignEnd skipped was a '-'. */
  predicate Negative(s: string) {
    var i := SkipSpaces(s, 0);
    i < |s| && s[i] == '-'
  }

  /** sscanf's "%d" at the start of `s`: white space, an optional sign and at least one
      digit. Gives the value and the number of characters consumed. */
  function ScanInt(s: string): (r: Option<(int, nat)>)
    ensures r.Some? ==> r.value.1 <= |s|
  {
    var a := SignEnd(s);
    var b := DigitsEnd(s, a);
    DigitsRun(s, a);
    if b == a then None
    else
      var v: int := DigitsValue(s[a..b]);
      Some((if Negative(s) then -v else v, b))
  }

  /** A decimal numeral at the start of `s`, as strtod and the stream extractor for double
      read one: white space, an optional sign, digits with at most one '.', and at least one
      digit. Gives the value and the number of characters consumed. */
  function ScanReal(s: string): (r: Option<(real, nat)>)
    ensures r.Some? ==> 0 < r.value.1 <= |s|
  {
    var a := SignEnd(s);
    var b := DigitsEnd(s, a);
    var point := b < |s| && s[b] == '.';
    var c := if point then DigitsEnd(s, b + 1) else b;
    DigitsRun(s, a);
    var frac := if point then (DigitsRun(s, b + 1); s[b + 1..c]) else "";
    if b == a && frac == [] then None
    else
      var v := PointValue(s[a..b], frac);
      Some((if Negative(s) then -v else v, c))
  }

  /** The value of the numeral `whole . frac`, both parts strings of digits. */
  function PointValue(whole: string, frac: string): real
    requires AllDigits(whole) && AllDigits(frac)
  {
    DigitsValue(whole) as real + DigitsValue(frac) as real / Pow10(|frac|) as real
  }

  /** DigitsEnd stops exactly where a run of digits meets a non-digit. */
  lemma DigitsEndAt(s: string, a: nat, e: nat)
    requires a <= e <= |s| && AllDigits(s[a..e]) && (e == |s| || !IsDigit(s[e]))
    ensures DigitsEnd(s, a) == e
    decreases e - a
  {
    if a < e {
      assert s[a] == s[a..e][0];
      assert s[a + 1..e] == s[a..e][1..];
      DigitsEndAt(s, a + 1, e);
    }
  }

  /** Splitting a scaled integer into whole and fractional parts, over the reals. */
  lemma RealSplit(n: nat, q: nat)
    requires q >= 1
    ensures (n / q) as real + (n % q) as real / q as real == n as real / q as real
  {
    var d, m := n / q, n % q;
    assert n == d * q + m;
    assert n as real == d as real * q as real + m as real;
    calc {
      n as real / q as real;
      (d as real * q as real + m as real) / q as real;
      d as real * q as real / q as real + m as real / q as real;
      d as real + m as real / q as real;
    }
  }

  /** Scanning the decimal text of an int gives the int back, and consumes exactly that text. */
  lemma ScanIntToString(i: int, tail: string)
    requires tail == [] || !IsDigit(tail[0])
    ensures ScanInt(IntToString(i) + tail) == Some((i, |IntToString(i)|))
  {
    var t := IntToString(i);
    var s := t + tail;
    assert s[0] == t[0];
    assert SkipSpaces(s, 0) == 0;
    var a := if i < 0 then 1 else 0;
    assert SignEnd(s) == a;
    assert s[a..|t|] == t[a..];
    DigitsEndAt(s, a, |t|);
  }

  /** ScanIntToString, for a text given by name. */
  lemma ScanIntAt(i: int, tail: string, t: string)
    requires tail == [] || !IsDigit(tail[0])
    requires t == IntToString(i) + tail
    ensures ScanInt(t) == Some((i, |IntToString(i)|))
  {
    ScanIntToString(i, tail);
  }

  /** Where the scanner's boundaries fall on `sign whole . frac` followed by a non-digit. */
  lemma PointedBounds(negative: bool, whole: string, frac: string, tail: string)
    requires whole != [] && AllDigits(whole) && frac != [] && AllDigits(frac)
    requires tail == [] || !IsDigit(tail[0])
    ensures var sign := if negative then "-" else "";
            var s := sign + whole + "." + frac + tail;
            var b := |sign| + |whole|;
            && SignEnd(s) == |sign| && Negative(s) == negative
            && DigitsEnd(s, |sign|) == b && s[|sign|..b] == whole
            && b < |s| && s[b] == '.'
            && DigitsEnd(s, b + 1) == b + 1 + |frac| && s[b + 1..b + 1 + |frac|] == frac
  {
    var sign := if negative then "-" else "";
    var s := sign + whole + "." + frac + tail;
    var a := |sign|;
    var b := a + |whole|;
    var c := b + 1 + |frac|;
    assert s[0] == if negative then '-' else whole[0];
    assert SkipSpaces(s, 0) == 0;
    assert s[a..b] == whole;
    assert s[b] == '.';
    DigitsEndAt(s, a, b);
    assert s[b + 1..c] == frac;
    DigitsEndAt(s, b + 1, c);
  }

  /** Scanning `sign whole . frac` followed by a non-digit reads exactly that numeral. */
  lemma ScanPointed(negative: bool, whole: string, frac: string, tail: string, s: string)
    requires whole != [] && AllDigits(whole) && frac != [] && AllDigits(frac)
    requires tail == [] || !IsDigit(tail[0])
    requires s == (if negative then "-" else "") + whole + "." + frac + tail
    ensures var v := PointValue(whole, frac);
            ScanReal(s) == Some((if negative then -v else v, |s| - |tail|))
  {
    var sign := if negative then "-" else "";
    PointedBounds(negative, whole, frac, tail);
    var b := |sign| + |whole|;
    ScanRealPointed(s, |sign|, b, |s| - |tail|, negative, whole, frac);
  }

  /** ScanReal on text whose sign, whole digits, '.' and decimals end where given. */
  lemma ScanRealPointed(s: string, a: nat, b: nat, c: nat, negative: bool, whole: string, frac: string)
    requires SignEnd(s) == a && a < b < |s| && DigitsEnd(s, a) == b && s[b] == '.'
    requires b + 1 < c <= |s| && DigitsEnd(s, b + 1) == c
    requires s[a..b] == whole && s[b + 1..c] == frac && AllDigits(whole) && AllDigits(frac)
    requires Negative(s) == negative
    ensures var v := PointValue(whole, frac);
            ScanReal(s) == Some((if negative then -v else v, c))
  {
  }

  /** The whole and fractional digits FixedText prints denote n / 10^p. */
  lemma FixedTextValue(n: nat, p: nat)
    requires p > 0
    ensures PointValue(WholeDigits(n, p), FracDigits(n, p)) == Ratio(n, p)
  {
    var q := Pow10(p);
    DivBounds(n, q);
    RealSplit(n, q);
  }

  /** Bounds on Euclidean division the solver does not find on its own in larger contexts. */
  lemma DivBounds(n: nat, q: nat)
    requires q >= 1
    ensures 0 <= n / q <= n && 0 <= n % q < q
  {
  }

  /** The parts of fixed-point text with decimals: the sign, the whole digits, '.', and
      the p fractional digits. */
  lemma FixedTextParts(negative: bool, n: nat, p: nat) returns (whole: string, frac: string)
    requires p > 0
    ensures whole != [] && AllDigits(whole) && frac != [] && AllDigits(frac)
    ensures whole == WholeDigits(n, p) && frac == FracDigits(n, p)
    ensures FixedText(negative, n, p) == (if negative then "-" else "") + whole + "." + frac
  {
    whole := WholeDigits(n, p);
    frac := FracDigits(n, p);
    var sign := if negative then "-" else "";
    assert sign + whole + ("." + frac) == sign + whole + "." + frac;
  }

  /** Scanning fixed-point text gives the value it denotes, and consumes exactly that text. */
  lemma ScanFixedText(negative: bool, n: nat, p: nat, tail: string)
    requires p > 0
    requires tail == [] || !IsDigit(tail[0])
    ensures var v := Ratio(n, p);
            ScanReal(FixedText(negative, n, p) + tail) == Some((if negative then -v else v, |FixedText(negative, n, p)|))
  {
    var whole, frac := FixedTextParts(negative, n, p);
    var t := FixedText(negative, n, p);
    ScanPointed(negative, whole, frac, tail, t + tail);
    FixedTextValue(n, p);
  }

  /** Scanning what `Fixed(r, p)` prints gives `r` rounded to p decimals. */
  lemma ScanFixed(r: real, p: nat, tail: string)
    requires p > 0
    requires tail == [] || !IsDigit(tail[0])
    ensures ScanReal(Fixed(r, p) + tail) == Some((Round(r, p), |Fixed(r, p)|))
  {
    ScanFixedText(r < 0.0, Scaled(r, p), p, tail);
  }

  /** The same, for fixed-point text that ends its string. */
  lemma ScanFixedWhole(r: real, p: nat)
    requires p > 0
    ensures ScanReal(Fixed(r, p)) == Some((Round(r, p), |Fixed(r, p)|))
  {
    ScanFixed(r, p, []);
    assert Fixed(r, p) + [] == Fixed(r, p);
  }

  // ---------------------------------------------------------------------------------------
  // Printed numbers read back

  /** What may follow a number without extending it. */
  predicate Ends(tail: string) {
    tail == [] || !IsDigit(tail[0])
  }

  /** `f` is the text of integer `a` for sscanf's %d, whatever ends it. */
  ghost predicate ReadsInt(f: string, a: int) {
    forall tail {:trigger ScanInt(f + tail)} :: Ends(tail) ==> ScanInt(f + tail) == Some((a, |f|))
  }

  /** `f` is the text of number `v` for sscanf's %f and for `>>` into a double. */
  ghost predicate ReadsReal(f: string, v: real) {
    forall tail {:trigger ScanReal(f + tail)} :: Ends(tail) ==> ScanReal(f + tail) == Some((v, |f|))
  }
}
