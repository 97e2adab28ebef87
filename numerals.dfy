/** Decimal text: Python's `f"{x:.Nf}"` and `f"{x:,.Nf}"` renderings, and the
    `float(...)` parse the report generator applies to cleaned strings.

    A rendering is a sign, the integer part (optionally grouped by commas
    every three digits) and, when N > 0, a point and exactly N fraction
    digits. The magnitude is rounded half-up to N places; the parse reads such
    a text back to the rounded value, which is the partner of every rendering
    below. */
module Numerals {
  import opened Common

  function Abs(x: real): (a: real)
    ensures a >= 0.0 && (a == x || a == -x)
  {
    if x < 0.0 then -x else x
  }

  predicate IsDigit(c: char) { '0' <= c <= '9' }

  predicate AllDigits(s: string) {
    forall i :: 0 <= i < |s| ==> IsDigit(s[i])
  }

  function DigitValue(c: char): nat
    requires IsDigit(c)
  {
    (c as int) - ('0' as int)
  }

  function DigitChar(d: nat): (c: char)
    requires d < 10
    ensures IsDigit(c) && DigitValue(c) == d
  {
    (('0' as int) + d) as char
  }

  /** Python's `str(n)` for a non-negative int: digits, no leading zeros. */
  function NatText(n: nat): (s: string)
    ensures |s| >= 1 && AllDigits(s)
  {
    if n < 10 then [DigitChar(n)] else NatText(n / 10) + [DigitChar(n % 10)]
  }

  /** The last `width` digits of n, zero-padded on the left. */
  function Padded(n: nat, width: nat): (s: string)
    ensures |s| == width && AllDigits(s)
  {
    if width == 0 then "" else Padded(n / 10, width - 1) + [DigitChar(n % 10)]
  }

  /** The number a string of digits denotes. */
  function DigitsValue(s: string): nat
    requires AllDigits(s)
  {
    if s == [] then 0 else 10 * DigitsValue(s[..|s| - 1]) + DigitValue(s[|s| - 1])
  }

  lemma {:induction false} NatTextValue(n: nat)
    ensures DigitsValue(NatText(n)) == n
  {
    if n >= 10 {
      var s := NatText(n);
      assert s[..|s| - 1] == NatText(n / 10);
      NatTextValue(n / 10);
    }
  }

  /** m with its last k digits dropped: m / 10^k. */
  function Shift(m: nat, k: nat): (q: nat)
    ensures q <= m
  {
    if k == 0 then m else Shift(m / 10, k - 1)
  }

  /** The digits of m, split after its first |m| - k: the text of m / 10^k
      followed by the last k digits, when m / 10^k is not zero. */
  lemma {:induction false} NatTextSplit(m: nat, k: nat)
    requires Shift(m, k) >= 1
    ensures NatText(m) == NatText(Shift(m, k)) + Padded(m, k)
  {
    if k > 0 {
      assert m / 10 >= 1;
      NatTextSplit(m / 10, k - 1);
    }
  }

  /** The digits of m / 10^k followed by the last k digits of m denote m. */
  lemma {:induction false} SplitValue(m: nat, k: nat)
    ensures DigitsValue(NatText(Shift(m, k)) + Padded(m, k)) == m
  {
    if k == 0 {
      assert NatText(Shift(m, k)) + Padded(m, k) == NatText(m);
      NatTextValue(m);
    } else {
      var a := NatText(Shift(m / 10, k - 1)) + Padded(m / 10, k - 1);
      var s := NatText(Shift(m, k)) + Padded(m, k);
      SplitStep(m, k);
      DigitsSnoc(a, m % 10);
      SplitValue(m / 10, k - 1);
      assert DigitsValue(s) == 10 * (m / 10) + m % 10;
    }
  }

  /** The split text of m ends in m's last digit, after the split text
      of m / 10. */
  lemma SplitStep(m: nat, k: nat)
    requires k > 0
    ensures NatText(Shift(m, k)) + Padded(m, k) ==
      NatText(Shift(m / 10, k - 1)) + Padded(m / 10, k - 1) + [DigitChar(m % 10)]
  {
    assert Shift(m, k) == Shift(m / 10, k - 1);
    assert Padded(m, k) == Padded(m / 10, k - 1) + [DigitChar(m % 10)];
  }

  /** Appending a digit multiplies by ten and adds it. */
  lemma DigitsSnoc(a: string, d: nat)
    requires AllDigits(a) && d < 10
    ensures AllDigits(a + [DigitChar(d)])
    ensures DigitsValue(a + [DigitChar(d)]) == 10 * DigitsValue(a) + d
  {
    assert (a + [DigitChar(d)])[..|a|] == a;
  }

  /** Python's `,` grouping of an integer part: a comma every three digits. */
  function Grouped(n: nat): (s: string)
    ensures |s| >= 1 && IsDigit(s[0])
    ensures forall i :: 0 <= i < |s| ==> IsDigit(s[i]) || s[i] == ','
  {
    if n < 1000 then NatText(n) else Grouped(n / 1000) + "," + Padded(n, 3)
  }

  /** `s.replace(c, '')` */
  function Without(s: string, c: char): (r: string)
    ensures c !in r
  {
    if s == [] then [] else (if s[0] == c then [] else [s[0]]) + Without(s[1..], c)
  }

  lemma {:induction false} WithoutConcat(a: string, b: string, c: char)
    ensures Without(a + b, c) == Without(a, c) + Without(b, c)
  {
    if a == [] {
      assert a + b == b;
    } else {
      var h := if a[0] == c then [] else [a[0]];
      assert (a + b)[1..] == a[1..] + b;
      WithoutConcat(a[1..], b, c);
      calc {
        Without(a + b, c);
        h + Without(a[1..] + b, c);
        h + (Without(a[1..], c) + Without(b, c));
        (h + Without(a[1..], c)) + Without(b, c);
      }
    }
  }

  lemma {:induction false} WithoutAbsent(s: string, c: char)
    requires c !in s
    ensures Without(s, c) == s
  {
    if s != [] {
      WithoutAbsent(s[1..], c);
    }
  }

  /** Removing the commas from a grouped integer gives its plain text. */
  lemma {:induction false} GroupedUngroups(n: nat)
    ensures Without(Grouped(n), ',') == NatText(n)
  {
    if n < 1000 {
      WithoutAbsent(NatText(n), ',');
    } else {
      var q := n / 1000;
      UngroupStep(Grouped(q), Padded(n, 3));
      GroupedUngroups(q);
      ShiftThree(n);
      NatTextSplit(n, 3);
    }
  }

  /** Removing the commas around a comma-free group joins it to the rest. */
  lemma UngroupStep(g: string, p: string)
    requires ',' !in p
    ensures Without(g + "," + p, ',') == Without(g, ',') + p
  {
    WithoutConcat(g + ",", p, ',');
    WithoutConcat(g, ",", ',');
    WithoutAbsent(p, ',');
    assert Without(",", ',') == "";
    assert Without(g, ',') + "" == Without(g, ',');
  }

  /** Dropping three digits is dividing by a thousand. */
  lemma ShiftThree(n: nat)
    ensures Shift(n, 3) == n / 1000
  {
    var a := n / 10;
    var b := a / 10;
    assert Shift(n, 3) == Shift(a, 2) == Shift(b, 1) == Shift(b / 10, 0);
    assert b / 10 == n / 1000;
  }

  /** x * 10^k */
  function Scaled(x: real, k: nat): real
    decreases k
  {
    if k == 0 then x else Scaled(10.0 * x, k - 1)
  }

  /** n / 10^k */
  function Unscaled(n: nat, k: nat): real {
    if k == 0 then n as real else Unscaled(n, k - 1) / 10.0
  }

  lemma {:induction false} ScaledLinear(a: real, b: real, k: nat)
    ensures Scaled(a - b, k) == Scaled(a, k) - Scaled(b, k)
    ensures Scaled(-a, k) == -Scaled(a, k)
    ensures a >= 0.0 ==> Scaled(a, k) >= 0.0
    decreases k
  {
    if k > 0 {
      assert 10.0 * (a - b) == 10.0 * a - 10.0 * b;
      ScaledLinear(10.0 * a, 10.0 * b, k - 1);
    }
  }

  lemma {:induction false} ScaledUnscaled(n: nat, k: nat)
    ensures Scaled(Unscaled(n, k), k) == n as real
  {
    if k > 0 {
      ScaledUnscaledStep(n, k);
    }
  }

  lemma {:induction false} ScaledUnscaledStep(n: nat, k: nat)
    requires 0 < k
    ensures Scaled(Unscaled(n, k), k) == n as real
  {
    assert 10.0 * Unscaled(n, k) == Unscaled(n, k - 1);
    if k > 1 {
      ScaledUnscaledStep(n, k - 1);
    }
  }

  /** Round half up: the integer nearest to a non-negative r. */
  function RoundHalfUp(r: real): (m: nat)
    requires r >= 0.0
    ensures m as real - 0.5 <= r < m as real + 0.5
  {
    (r + 0.5).Floor
  }

  /** |x| in units of 10^-places, rounded. */
  function Units(x: real, places: nat): nat {
    ScaledLinear(Abs(x), 0.0, places);
    RoundHalfUp(Scaled(Abs(x), places))
  }

  function Sign(negative: bool): string { if negative then "-" else "" }

  /** The digits after the sign: the integer part, then a point and exactly
      `places` fraction digits when places > 0. */
  function Body(m: nat, places: nat, grouped: bool): string {
    (if grouped then Grouped(Shift(m, places)) else NatText(Shift(m, places)))
      + (if places == 0 then "" else "." + Padded(m, places))
  }

  /** Python's `f"{x:.{places}f}"`, or `f"{x:,.{places}f}"` when `grouped`.
      The sign is printed for every negative x, as Python prints "-0.00". */
  function Fixed(x: real, places: nat, grouped: bool): (s: string)
    ensures |s| >= 1
  {
    Sign(x < 0.0) + Body(Units(x, places), places, grouped)
  }

  lemma BodyUngroups(m: nat, places: nat)
    ensures Without(Body(m, places, true), ',') == Body(m, places, false)
  {
    var whole := Shift(m, places);
    var tail := if places == 0 then "" else "." + Padded(m, places);
    GroupedUngroups(whole);
    WithoutConcat(Grouped(whole), tail, ',');
    assert ',' !in tail by {
      assert forall i :: 0 <= i < |tail| ==> tail[i] == '.' || IsDigit(tail[i]);
    }
    WithoutAbsent(tail, ',');
  }

  /** Grouping only inserts commas. */
  lemma FixedUngroups(x: real, places: nat)
    ensures Without(Fixed(x, places, true), ',') == Fixed(x, places, false)
  {
    var m := Units(x, places);
    BodyUngroups(m, places);
    WithoutConcat(Sign(x < 0.0), Body(m, places, true), ',');
    WithoutAbsent(Sign(x < 0.0), ',');
  }

  /** Characters a rendered number is made of. */
  predicate NumeralChar(c: char) {
    IsDigit(c) || c == ',' || c == '.' || c == '-' || c == '+'
  }

  predicate AllNumeralChars(s: string) {
    forall i :: 0 <= i < |s| ==> NumeralChar(s[i])
  }

  /** The digits after the sign are digits, commas and points only. */
  lemma BodyChars(m: nat, places: nat, grouped: bool)
    ensures forall i :: 0 <= i < |Body(m, places, grouped)| ==>
      IsDigit(Body(m, places, grouped)[i]) || Body(m, places, grouped)[i] == ',' || Body(m, places, grouped)[i] == '.'
  {
    var w := if grouped then Grouped(Shift(m, places)) else NatText(Shift(m, places));
    var tail := if places == 0 then "" else "." + Padded(m, places);
    assert forall i :: 0 <= i < |w| ==> IsDigit(w[i]) || w[i] == ',';
    assert forall i :: 0 <= i < |tail| ==> IsDigit(tail[i]) || tail[i] == '.';
  }

  /** A printed number has no plus sign, and a minus sign only in front and
      only for a negative x, where it always has one. (Its single point is
      stated by FixedPlaces.) */
  lemma FixedChars(x: real, places: nat, grouped: bool)
    ensures AllNumeralChars(Fixed(x, places, grouped))
    ensures '+' !in Fixed(x, places, grouped)
    ensures forall i :: 0 <= i < |Fixed(x, places, grouped)| && Fixed(x, places, grouped)[i] == '-' ==> i == 0 && x < 0.0
    ensures x < 0.0 ==> Fixed(x, places, grouped)[0] == '-'
  {
    var b := Body(Units(x, places), places, grouped);
    BodyChars(Units(x, places), places, grouped);
    assert Fixed(x, places, grouped) == Sign(x < 0.0) + b;
  }

  /** The index of the first '.', or |s| when there is none. */
  function DotIndex(s: string): (k: nat)
    ensures k <= |s|
    ensures k < |s| ==> s[k] == '.'
    ensures forall i :: 0 <= i < k ==> s[i] != '.'
  {
    if s == [] then 0
    else if s[0] == '.' then 0
    else 1 + DotIndex(s[1..])
  }

  lemma {:induction false} DotIndexFirst(s: string, k: nat)
    requires k <= |s|
    requires forall i :: 0 <= i < k ==> s[i] != '.'
    requires k < |s| ==> s[k] == '.'
    ensures DotIndex(s) == k
  {
    if s != [] && s[0] != '.' {
      DotIndexFirst(s[1..], k - 1);
    }
  }

  /** A rendering has its point exactly `places` characters from the end,
      and no point at all when places == 0. */
  lemma FixedPlaces(x: real, places: nat)
    ensures var s := Fixed(x, places, false);
      DotIndex(s) == if places == 0 then |s| else |s| - places - 1
  {
    var m := Units(x, places);
    var sign := Sign(x < 0.0);
    var w := NatText(Shift(m, places));
    var tail := if places == 0 then "" else "." + Padded(m, places);
    var s := Fixed(x, places, false);
    assert s == sign + w + tail;
    var k := |sign| + |w|;
    assert forall i :: 0 <= i < k ==> s[i] != '.' by {
      forall i | 0 <= i < k
        ensures s[i] != '.'
      {
        if i < |sign| { assert s[i] == '-'; } else { assert s[i] == w[i - |sign|]; }
      }
    }
    if places > 0 {
      assert s[k] == '.';
    }
    DotIndexFirst(s, k);
  }

  /** Python's `float(s)` on a literal without sign: digits, optionally a
      point and more digits, at least one digit in all. */
  function ParseUnsigned(s: string): Option<real> {
    var k := DotIndex(s);
    var whole := s[..k];
    var frac := if k < |s| then s[k + 1..] else "";
    if AllDigits(whole) && AllDigits(frac) && |whole| + |frac| > 0 then
      Some(Unscaled(DigitsValue(whole + frac), |frac|))
    else
      None
  }

  /** Python's `float(s)` on a stripped plain decimal literal; None where
      Python raises ValueError. */
  function ParseDecimal(s: string): Option<real> {
    if |s| > 0 && (s[0] == '-' || s[0] == '+') then
      match ParseUnsigned(s[1..])
      case Some(v) => Some(if s[0] == '-' then -v else v)
      case None => None
    else
      ParseUnsigned(s)
  }

  /** The value a rendering denotes: x rounded to `places` places. */
  function Rounded(x: real, places: nat): real {
    var v := Unscaled(Units(x, places), places);
    if x < 0.0 then -v else v
  }

  lemma BodyParses(m: nat, places: nat)
    ensures ParseUnsigned(Body(m, places, false)) == Some(Unscaled(m, places))
  {
    var w := NatText(Shift(m, places));
    var p := Padded(m, places);
    var s := Body(m, places, false);
    BodyDot(m, places);
    SplitValue(m, places);
    if places > 0 {
      assert s == w + "." + p;
      assert s[..|w|] == w;
      assert s[|w| + 1..] == p;
    } else {
      assert s == w && w + "" == w;
    }
  }

  /** The point of a body comes right after the integer part. */
  lemma BodyDot(m: nat, places: nat)
    ensures DotIndex(Body(m, places, false)) == |NatText(Shift(m, places))|
  {
    var w := NatText(Shift(m, places));
    var s := Body(m, places, false);
    assert forall i :: 0 <= i < |w| ==> s[i] == w[i];
    DotIndexFirst(s, |w|);
  }

  /** Round trip: parsing a rendering gives back x rounded to `places` places. */
  lemma FixedParses(x: real, places: nat)
    ensures ParseDecimal(Fixed(x, places, false)) == Some(Rounded(x, places))
  {
    var m := Units(x, places);
    var v := Unscaled(m, places);
    BodyParses(m, places);
    BodyStartsWithDigit(m, places);
    SignedParses(x < 0.0, Body(m, places, false), v);
    assert Fixed(x, places, false) == Sign(x < 0.0) + Body(m, places, false);
    assert Rounded(x, places) == if x < 0.0 then -v else v;
  }

  /** A sign before an unsigned literal negates its value. */
  lemma SignedParses(negative: bool, body: string, v: real)
    requires body != [] && IsDigit(body[0]) && ParseUnsigned(body) == Some(v)
    ensures ParseDecimal(Sign(negative) + body) == Some(if negative then -v else v)
  {
    if negative {
      assert (Sign(negative) + body)[1..] == body;
    } else {
      assert Sign(negative) + body == body;
    }
  }

  lemma BodyStartsWithDigit(m: nat, places: nat)
    ensures Body(m, places, false) != [] && IsDigit(Body(m, places, false)[0])
  {
    var w := NatText(Shift(m, places));
    assert Body(m, places, false)[0] == w[0];
  }

  /** The rounding error of a rendering is at most half a unit in the last
      place: |Rounded(x) - x| * 10^places <= 1/2. */
  lemma RoundedError(x: real, places: nat)
    ensures 2.0 * Scaled(Abs(Rounded(x, places) - x), places) <= 1.0
  {
    var m := Units(x, places);
    var v := Unscaled(m, places);
    ScaledUnscaled(m, places);
    ScaledLinear(v, Abs(x), places);
    ScaledLinear(Abs(x), v, places);
    assert Abs(Rounded(x, places) - x) == Abs(v - Abs(x));
    if v >= Abs(x) {
      assert Abs(v - Abs(x)) == v - Abs(x);
    } else {
      assert Abs(v - Abs(x)) == -(v - Abs(x));
      ScaledLinear(v - Abs(x), 0.0, places);
    }
  }
}
