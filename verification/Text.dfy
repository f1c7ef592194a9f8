/** Decimal text: what printf prints and what int(), float(), atoi and sscanf("%d") read back. */
module Text {
  import opened Common

  predicate IsDigit(c: char) { '0' <= c <= '9' }

  predicate IsDigitOrDot(c: char) { IsDigit(c) || c == '.' }

  predicate IsUpper(c: char) { 'A' <= c <= 'Z' }

  /** isspace in the C locale. */
  predicate IsSpace(c: char) { c == ' ' || '\t' <= c <= '\r' }

  /** The ASCII characters that str.strip() and \s treat as white space: C's, and the four separators 1C to 1F. */
  predicate IsPythonSpace(c: char) { IsSpace(c) || '\U{1C}' <= c <= '\U{1F}' }

  predicate All(s: string, p: char -> bool) {
    forall i :: 0 <= i < |s| ==> p(s[i])
  }

  predicate NotNewline(c: char) { c != '\n' }

  predicate NotNul(c: char) { c != '\0' }

  function Digit(d: nat): (c: char)
    requires d < 10
    ensures IsDigit(c) && DigitValue(c) == d
  {
    '0' + d as char
  }

  function DigitValue(c: char): (d: nat)
    requires IsDigit(c)
    ensures d < 10
  {
    c as nat - '0' as nat
  }

  /** The value of a string of digits. */
  function NatValue(s: string): nat
    requires All(s, IsDigit)
  {
    if s == "" then 0 else 10 * NatValue(s[..|s| - 1]) + DigitValue(s[|s| - 1])
  }

  function PrintNat(n: nat): (s: string)
    ensures s != "" && All(s, IsDigit)
  {
    if n < 10 then [Digit(n)] else PrintNat(n / 10) + [Digit(n % 10)]
  }

  /** The last `places` decimal digits of `n`, with leading zeros. */
  function PrintDigits(n: nat, places: nat): (s: string)
    ensures |s| == places && All(s, IsDigit)
  {
    if places == 0 then "" else PrintDigits(n / 10, places - 1) + [Digit(n % 10)]
  }

  /** `n` without its last `places` decimal digits. */
  function DropDigits(n: nat, places: nat): nat {
    if places == 0 then n else DropDigits(n / 10, places - 1)
  }

  /** %.{places}f of the non-negative number units / 10^places. */
  function PrintUnits(units: nat, places: nat): (s: string)
    requires places > 0
    ensures All(s, IsDigitOrDot) && s != "" && IsDigit(s[0]) && IsDigit(s[|s| - 1])
  {
    PrintNat(DropDigits(units, places)) + ("." + PrintDigits(units, places))
  }

  lemma {:induction false} PrintedNatValue(n: nat)
    ensures NatValue(PrintNat(n)) == n
  {
    if n >= 10 {
      PrintedNatValue(n / 10);
      assert PrintNat(n)[..|PrintNat(n)| - 1] == PrintNat(n / 10);
    }
  }

  /** The digits before and after the point, written without it, are the number of units. */
  lemma {:induction false} JoinDigits(n: nat, places: nat)
    ensures NatValue(PrintNat(DropDigits(n, places)) + PrintDigits(n, places)) == n
  {
    var all := PrintNat(DropDigits(n, places)) + PrintDigits(n, places);
    if places == 0 {
      PrintedNatValue(n);
      assert all == PrintNat(n);
    } else {
      JoinDigits(n / 10, places - 1);
      assert all[..|all| - 1] == PrintNat(DropDigits(n / 10, places - 1)) + PrintDigits(n / 10, places - 1);
    }
  }

  // ---------- Runs and strings ----------

  function Pow10(k: nat): (p: nat)
    ensures p > 0
  {
    if k == 0 then 1 else 10 * Pow10(k - 1)
  }

  /** The decimal number units / 10^places. */
  datatype Number = Number(units: nat, places: nat) {
    function Value(): real {
      units as real / Pow10(places) as real
    }
  }

  /** The leading characters of `s` that satisfy `p`. */
  function RunLength(s: string, p: char -> bool): (k: nat)
    ensures k <= |s| && (forall i :: 0 <= i < k ==> p(s[i])) && (k < |s| ==> !p(s[k]))
  {
    if s == "" || !p(s[0]) then 0
    else
      var k := RunLength(s[1..], p);
      assert forall i :: 1 <= i <= k ==> p(s[i]) by { assert forall i :: 1 <= i <= k ==> s[i] == s[1..][i - 1]; }
      k + 1
  }

  lemma RunOf(run: string, rest: string, p: char -> bool)
    requires All(run, p) && (rest == "" || !p(rest[0]))
    ensures RunLength(run + rest, p) == |run|
  {
    var k := RunLength(run + rest, p);
    assert forall i :: 0 <= i < |run| ==> (run + rest)[i] == run[i];
    assert rest != "" ==> (run + rest)[|run|] == rest[0];
  }

  /** The C string that starts a buffer. */
  function CString(s: string): (r: string)
    ensures r <= s && All(r, NotNul)
  {
    s[..RunLength(s, NotNul)]
  }

  /** A text cut at its line ends: the complete lines, and what follows the last line end. */
  datatype Split = Split(lines: seq<string>, rest: string)

  /** `s` without the characters at its end that satisfy `p`. */
  function DropTrailing(s: string, p: char -> bool): (r: string)
    ensures r <= s && forall i :: |r| <= i < |s| ==> p(s[i])
    ensures r != "" ==> !p(r[|r| - 1])
    ensures s != "" && !p(s[|s| - 1]) ==> r == s
  {
    if s == "" || !p(s[|s| - 1]) then s else DropTrailing(s[..|s| - 1], p)
  }

  lemma {:induction false} DropTrailingAt(s: string, k: nat, p: char -> bool)
    requires k <= |s| && (forall i :: k <= i < |s| ==> p(s[i])) && (k > 0 ==> !p(s[k - 1]))
    ensures DropTrailing(s, p) == s[..k]
  {
    if k < |s| {
      DropTrailingAt(s[..|s| - 1], k, p);
      assert s[..|s| - 1][..k] == s[..k];
    } else {
      assert s[..k] == s;
    }
  }

  function DropReturns(s: string): (r: string)
    ensures '\r' !in r
  {
    if s == "" then ""
    else (if s[0] == '\r' then "" else [s[0]]) + DropReturns(s[1..])
  }

  lemma {:induction false} NoReturnsToDrop(s: string)
    requires '\r' !in s
    ensures DropReturns(s) == s
  {
    if s != "" {
      NoReturnsToDrop(s[1..]);
    }
  }

  // ---------- int() and float() ----------

  /**
   * float() of a string of digits and dots. None stands for the ValueError of a second dot, of no digit, or of any
   * other character.
   */
  function ParseFloat(s: string): Option<Number> {
    var k := RunLength(s, IsDigit);
    var front := s[..k];
    if k == |s| then
      if s == "" then None else Some(Number(NatValue(s), 0))
    else
      var back := s[k + 1..];
      if s[k] == '.' && All(back, IsDigit) && front + back != "" then Some(Number(NatValue(front + back), |back|))
      else None
  }

  /** int() of a string of digits; None stands for the ValueError of anything else. */
  function ParseInt(s: string): Option<nat> {
    if s != "" && All(s, IsDigit) then Some(NatValue(s)) else None
  }

  lemma FloatRoundTrip(units: nat, places: nat)
    requires places > 0
    ensures ParseFloat(PrintUnits(units, places)) == Some(Number(units, places))
  {
    var front, back := PrintNat(DropDigits(units, places)), PrintDigits(units, places);
    var s := PrintUnits(units, places);
    RunOf(front, "." + back, IsDigit);
    assert s[..|front|] == front && s[|front| + 1..] == back;
    JoinDigits(units, places);
  }

  /** Digits with at most one dot among them are the number they spell; a second dot is an error. */
  lemma FloatIs(front: string, back: string, more: string)
    requires All(front, IsDigit) && All(back, IsDigit) && front + back != ""
    ensures front != "" ==> ParseFloat(front) == Some(Number(NatValue(front), 0))
    ensures ParseFloat(front + ("." + back)) == Some(Number(NatValue(front + back), |back|))
    ensures ParseFloat(front + ("." + (back + ("." + more)))) == None
  {
    hide NatValue, RunLength;
    RunOf(front, "", IsDigit);
    assert front + "" == front;
    var rest := "." + back;
    RunOf(front, rest, IsDigit);
    assert (front + rest)[..|front|] == front && (front + rest)[|front| + 1..] == back;
    var twice := back + ("." + more);
    RunOf(front, "." + twice, IsDigit);
    var all := front + ("." + twice);
    assert all[|front| + 1..] == twice && twice[|back|] == '.';
  }

  // ---------- Whole numbers with a sign ----------

  ghost predicate InInt32(n: int) { -0x8000_0000 <= n < 0x8000_0000 }

  function PrintInt(n: int): string {
    if n < 0 then "-" + PrintNat(-n) else PrintNat(n)
  }

  /** A number with at most one sign; None when there is no digit. */
  function SignedInt(t: string): Option<int> {
    var u := if t != "" && (t[0] == '-' || t[0] == '+') then t[1..] else t;
    var digits := u[..RunLength(u, IsDigit)];
    if digits == "" then None else Some(if t[0] == '-' then -(NatValue(digits) as int) else NatValue(digits))
  }

  /** The number that atoi and sscanf("%d") find behind white space; None when there is none. */
  function LeadingInt(s: string): Option<int> {
    SignedInt(s[RunLength(s, IsSpace)..])
  }

  lemma SignedIntIs(sign: string, digits: string, rest: string)
    requires (sign == "" || sign == "-" || sign == "+") && digits != "" && All(digits, IsDigit)
    requires rest == "" || !IsDigit(rest[0])
    ensures var n: int := NatValue(digits); SignedInt(sign + (digits + rest)) == Some(if sign == "-" then -n else n)
  {
    hide NatValue, RunLength;
    var u := digits + rest;
    var t := sign + u;
    RunOf(digits, rest, IsDigit);
    assert u[..|digits|] == digits && u[0] == digits[0];
    assert sign != "" ==> t[0] == sign[0] && t[1..] == u;
    assert sign == "" ==> t == u;
  }

  /** White space, at most one sign, digits, and anything that does not go on with a digit. */
  lemma LeadingIntIs(blanks: string, sign: string, digits: string, rest: string)
    requires All(blanks, IsSpace) && (sign == "" || sign == "-" || sign == "+")
    requires digits != "" && All(digits, IsDigit) && (rest == "" || !IsDigit(rest[0]))
    ensures var n: int := NatValue(digits);
      LeadingInt(blanks + (sign + (digits + rest))) == Some(if sign == "-" then -n else n)
  {
    hide NatValue, RunLength, SignedInt;
    var t := sign + (digits + rest);
    assert t[0] == if sign == "" then digits[0] else sign[0];
    RunOf(blanks, t, IsSpace);
    assert (blanks + t)[|blanks|..] == t;
    SignedIntIs(sign, digits, rest);
  }

  /** Text that does not begin with a digit or a sign holds no number. */
  lemma NoLeadingInt(blanks: string, rest: string)
    requires All(blanks, IsSpace)
    requires rest == "" || !(IsDigit(rest[0]) || IsSpace(rest[0]) || rest[0] == '-' || rest[0] == '+')
    ensures LeadingInt(blanks + rest) == None
  {
    hide NatValue;
    RunOf(blanks, rest, IsSpace);
    assert (blanks + rest)[|blanks|..] == rest;
  }

  lemma IntRoundTrip(n: int)
    ensures LeadingInt(PrintInt(n)) == Some(n)
    ensures PrintInt(n) != "" && !IsSpace(PrintInt(n)[|PrintInt(n)| - 1])
    ensures forall i :: 0 <= i < |PrintInt(n)| ==> IsDigit(PrintInt(n)[i]) || PrintInt(n)[i] == '-'
  {
    hide LeadingInt, NatValue, PrintNat;
    var digits := PrintNat(if n < 0 then -n else n);
    var sign := if n < 0 then "-" else "";
    PrintedNatValue(if n < 0 then -n else n);
    LeadingIntIs("", sign, digits, "");
    assert "" + (sign + (digits + "")) == PrintInt(n);
  }

  lemma IntLength(n: int)
    requires InInt32(n)
    ensures |PrintInt(n)| <= 11
  {
    assert Pow10(10) == 10_000_000_000;
    NatLength(if n < 0 then -n else n, 10);
  }

  // ---------- printf of a signed number ----------

  /** A number as %.{p}f prints it: a sign, and a whole number of units of the last place. */
  datatype Fixed = Fixed(negative: bool, units: nat)

  function PrintFixed(x: Fixed, places: nat): (s: string)
    requires places > 0
    ensures s != "" && IsDigit(s[|s| - 1])
    ensures forall i :: 0 <= i < |s| ==> IsDigitOrDot(s[i]) || s[i] == '-'
    ensures s[0] == '-' <==> x.negative
  {
    (if x.negative then "-" else "") + PrintUnits(x.units, places)
  }

  /** The nearest whole number, ties to even. */
  function Nearest(x: real): (k: nat)
    requires x >= 0.0
    ensures -0.5 <= k as real - x <= 0.5
    ensures k as real - x == 0.5 || k as real - x == -0.5 ==> k % 2 == 0
  {
    var below := x.Floor;
    var part := x - below as real;
    if part > 0.5 || (part == 0.5 && below % 2 == 1) then below + 1 else below
  }

  /** x in units of the last place. */
  function InUnits(x: real, places: nat): real {
    x * Pow10(places) as real
  }

  lemma InUnitsIsMonotone(x: real, y: real, places: nat)
    requires 0.0 <= x <= y
    ensures 0.0 <= InUnits(x, places) <= InUnits(y, places)
  {
    var p := Pow10(places) as real;
    assert (y - x) * p >= 0.0;
    assert x * p >= 0.0;
  }

  /** A non-negative number rounded to whole units of the last place. */
  function NearestUnits(x: real, places: nat): nat
    requires x >= 0.0
  {
    InUnitsIsMonotone(x, x, places);
    Nearest(InUnits(x, places))
  }

  /** Rounding to the nearest unit of the last place. */
  function Round(x: real, places: nat): Fixed {
    Fixed(x < 0.0, NearestUnits(if x < 0.0 then -x else x, places))
  }

  /** The distance between a decimal number and `x`, in units of its last place. */
  function ErrorInUnits(k: Number, x: real): real {
    (k.Value() - x) * Pow10(k.places) as real
  }

  lemma ErrorCountsUnits(k: Number, x: real)
    ensures ErrorInUnits(k, x) == k.units as real - InUnits(x, k.places)
  {
    var p, units := Pow10(k.places) as real, k.units as real;
    var q := units / p;
    assert q * p == units;
    assert (q - x) * p == q * p - x * p;
  }

  /** What is read back is within half a unit of the last place of what was logged. */
  lemma RoundIsNearest(x: real, places: nat)
    requires x >= 0.0
    ensures !Round(x, places).negative
    ensures -0.5 <= ErrorInUnits(Number(Round(x, places).units, places), x) <= 0.5
  {
    hide ErrorInUnits, Pow10;
    InUnitsIsMonotone(x, x, places);
    ErrorCountsUnits(Number(Round(x, places).units, places), x);
  }

  /** `x` is `v` in units of 1 / scale, to within half a unit, with the sign of `v`. */
  ghost predicate Prints(x: Fixed, v: real, scale: real) {
    && (x.negative <==> v < 0.0)
    && -0.5 <= x.units as real - scale * (if v < 0.0 then -v else v) <= 0.5
  }

  /** The same for what %.1f and %.2f print. */
  lemma RoundPrints(v: real)
    ensures Prints(Round(v, 1), v, 10.0)
    ensures Prints(Round(v, 2), v, 100.0)
  {
    hide Nearest;
    var size := if v < 0.0 then -v else v;
    assert Pow10(1) == 10 && Pow10(2) == 100;
    RoundIsNearest(size, 1);
    RoundIsNearest(size, 2);
    ErrorCountsUnits(Number(Round(size, 1).units, 1), size);
    ErrorCountsUnits(Number(Round(size, 2).units, 2), size);
    assert InUnits(size, 1) == 10.0 * size && InUnits(size, 2) == 100.0 * size;
  }

  /** A number read back that was printed as `v`, with one or two places. */
  ghost predicate Reads(k: Number, v: real, places: nat) {
    k.places == places && 1 <= places <= 2 && Prints(Fixed(false, k.units), v, if places == 1 then 10.0 else 100.0)
  }

  lemma {:induction false} NatLength(n: nat, k: nat)
    requires k > 0 && n < Pow10(k)
    ensures |PrintNat(n)| <= k
  {
    if n >= 10 {
      NatLength(n / 10, k - 1);
    }
  }
}
