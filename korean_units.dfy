/** The Korean large-number convention the three presenters share: a value is
    shown in exactly one band chosen by its magnitude, largest first —
    조 (10^12), 억 (10^8), 만 (10^4) — as the value divided by the band's
    scale with two decimals followed by the band's marker; below 10^4 it is
    shown as a whole number with thousands separators.

    ParseKorean reads such a text back; KoreanRoundTrip proves that it
    recovers the value within half a unit of the last printed digit. */
module KoreanUnits {
  import opened Common
  import opened Numerals

  /** What a formatter may be handed: Python None, a float NaN, or a number. */
  datatype Amount = Missing | NotANumber | Finite(x: real)

  /** `format_currency` applied to a record's field: None is passed through,
      and `abs` of a string raises TypeError. */
  function AmountOf(v: Value): (r: Result<Amount>)
    ensures r.Err? <==> v.Str?
    ensures v.Num? ==> r == Ok(Finite(v.x))
    ensures v.Null? ==> r == Ok(Missing)
  {
    match v
    case Null => Ok(Missing)
    case Num(x) => Ok(Finite(x))
    case Str(_) => Err(TypeError)
  }

  datatype Band = Jo | Eok | Man | Ones

  /** The band of x, tested on |x| from the largest scale down. */
  function BandOf(x: real): Band {
    var a := Abs(x);
    if a >= 1000000000000.0 then Jo
    else if a >= 100000000.0 then Eok
    else if a >= 10000.0 then Man
    else Ones
  }

  function Scale(b: Band): real {
    match b
    case Jo => 1000000000000.0
    case Eok => 100000000.0
    case Man => 10000.0
    case Ones => 1.0
  }

  /** x in units of band b: ToBand(x, b), one constant per band. */
  function ToBand(x: real, b: Band): real {
    match b
    case Jo => x / 1000000000000.0
    case Eok => x / 100000000.0
    case Man => x / 10000.0
    case Ones => x
  }

  /** A figure y of band b in units: FromBand(y, b), one constant per band. */
  function FromBand(y: real, b: Band): real {
    match b
    case Jo => y * 1000000000000.0
    case Eok => y * 100000000.0
    case Man => y * 10000.0
    case Ones => y
  }

  function Marker(b: Band): string {
    match b
    case Jo => "조"
    case Eok => "억"
    case Man => "만"
    case Ones => ""
  }

  /** The bands are disjoint, cover every number, and are chosen by |x| alone. */
  lemma BandBounds(x: real)
    ensures BandOf(x) == Jo <==> Abs(x) >= 1000000000000.0
    ensures BandOf(x) == Eok <==> 100000000.0 <= Abs(x) < 1000000000000.0
    ensures BandOf(x) == Man <==> 10000.0 <= Abs(x) < 100000000.0
    ensures BandOf(x) == Ones <==> Abs(x) < 10000.0
    ensures BandOf(-x) == BandOf(x)
  {
  }

  /** In a scaled band the figure before the marker is at least 1 in
      magnitude, and below 10^4 in every band but 조. */
  lemma ScaledFigureRange(x: real)
    requires BandOf(x) != Ones
    ensures 1.0 <= Abs(ToBand(x, BandOf(x)))
    ensures BandOf(x) != Jo ==> Abs(ToBand(x, BandOf(x))) < 10000.0
  {
  }

  /** The figure printed for x: two decimals of x / scale in a scaled band,
      the comma-grouped whole number in the lowest band. */
  function Numeral(x: real): string {
    var b := BandOf(x);
    if b == Ones then Fixed(x, 0, true) else Fixed(ToBand(x, b), 2, false)
  }

  /** The figure of a negative amount is that of its magnitude with a
      leading minus, in the same band. */
  lemma NumeralNegated(x: real)
    requires x > 0.0
    ensures BandOf(-x) == BandOf(x)
    ensures Numeral(-x) == "-" + Numeral(x)
  {
    var b := BandOf(x);
    assert BandOf(-x) == b;
    var f := ToBand(x, b);
    assert ToBand(-x, b) == -f;
    if b == Ones {
      NegatedFixed(x, 0, true);
    } else {
      NegatedFixed(f, 2, false);
    }
  }

  lemma NegatedFixed(x: real, places: nat, grouped: bool)
    requires x > 0.0
    ensures Fixed(-x, places, grouped) == "-" + Fixed(x, places, grouped)
  {
    assert Abs(-x) == Abs(x);
    assert Units(-x, places) == Units(x, places);
  }

  /** Half a unit of the last printed digit, in the value's own units. */
  function Tolerance(b: Band): real {
    if b == Ones then 0.5 else Scale(b) / 200.0
  }

  /** The number of leading characters that can belong to a printed number. */
  function NumeralSpan(s: string): (n: nat)
    ensures n <= |s|
  {
    if s == [] || !NumeralChar(s[0]) then 0 else 1 + NumeralSpan(s[1..])
  }

  lemma {:induction false} NumeralSpanOf(a: string, b: string)
    requires AllNumeralChars(a)
    requires b == [] || !NumeralChar(b[0])
    ensures NumeralSpan(a + b) == |a|
  {
    if a == [] {
      assert a + b == b;
    } else {
      assert (a + b)[1..] == a[1..] + b;
      NumeralSpanOf(a[1..], b);
    }
  }

  /** Which band a text after the figure names, given what follows the marker. */
  function BandNamed(rest: string, tail: string): Option<Band> {
    if rest == "조" + tail then Some(Jo)
    else if rest == "억" + tail then Some(Eok)
    else if rest == "만" + tail then Some(Man)
    else if rest == tail then Some(Ones)
    else None
  }

  lemma BandNamedMarker(b: Band, tail: string)
    ensures BandNamed(Marker(b) + tail, tail) == Some(b)
  {
    var s := Marker(b) + tail;
    if b != Jo {
      assert s != "조" + tail by {
        if b == Ones { assert |s| != |"조" + tail|; } else { assert s[0] != ("조" + tail)[0]; }
      }
    }
    if b != Jo && b != Eok {
      assert s != "억" + tail by {
        if b == Ones { assert |s| != |"억" + tail|; } else { assert s[0] != ("억" + tail)[0]; }
      }
    }
    if b == Ones {
      assert s != "만" + tail by { assert |s| != |"만" + tail|; }
      assert s == tail;
    }
  }

  /** The value a printed figure stands for in band b: the figure with its
      thousands separators removed, read as a decimal, times the band's scale. */
  function ReadFigure(figure: string, b: Band): Option<real> {
    match ParseDecimal(Without(figure, ','))
    case None => None
    case Some(y) => Some(FromBand(y, b))
  }

  /** Reads a formatted amount back: the leading figure, in the band its
      marker names, when the text ends in that marker followed by `tail`. */
  function ParseKorean(s: string, tail: string): Option<real> {
    var n := NumeralSpan(s);
    match BandNamed(s[n..], tail)
    case None => None
    case Some(b) => ReadFigure(s[..n], b)
  }

  lemma ScaledTwoPlaces(e: real)
    ensures Scaled(e, 2) == 100.0 * e
  {
    assert Scaled(e, 2) == Scaled(10.0 * e, 1) == Scaled(100.0 * e, 0);
  }

  /** The number of decimals printed in band b. */
  function Places(b: Band): nat { if b == Ones then 0 else 2 }

  /** Text made of a printed figure, a marker and a tail is split exactly at
      the end of the figure. */
  lemma ParseKoreanSplit(figure: string, b: Band, tail: string)
    requires AllNumeralChars(figure)
    requires tail == [] || !NumeralChar(tail[0])
    ensures ParseKorean(figure + (Marker(b) + tail), tail) == ReadFigure(figure, b)
  {
    var rest := Marker(b) + tail;
    var s := figure + rest;
    assert rest == [] || !NumeralChar(rest[0]);
    NumeralSpanOf(figure, rest);
    assert s[..|figure|] == figure && s[|figure|..] == rest;
    BandNamedMarker(b, tail);
  }

  /** The printed figure, commas removed, reads back as x / scale rounded to
      the band's decimals. */
  lemma FigureValue(x: real)
    ensures AllNumeralChars(Numeral(x))
    ensures ParseDecimal(Without(Numeral(x), ',')) == Some(Rounded(ToBand(x, BandOf(x)), Places(BandOf(x))))
  {
    var b := BandOf(x);
    if b == Ones {
      FixedChars(x, 0, true);
      FixedUngroups(x, 0);
      FixedParses(x, 0);
      assert ToBand(x, b) == x;
    } else {
      var f := ToBand(x, b);
      FixedChars(f, 2, false);
      FixedNoCommas(f, 2);
      WithoutAbsent(Fixed(f, 2, false), ',');
      FixedParses(f, 2);
    }
  }

  /** Rounding x / scale and scaling back is off by at most the tolerance. */
  lemma FigureError(x: real)
    ensures Abs(FromBand(Rounded(ToBand(x, BandOf(x)), Places(BandOf(x))), BandOf(x)) - x) <= Tolerance(BandOf(x))
  {
    var b := BandOf(x);
    var f := ToBand(x, b);
    var y := Rounded(f, Places(b));
    RoundedError(f, Places(b));
    if b == Ones {
      assert f == x;
      assert Scaled(Abs(y - f), 0) == Abs(y - f);
    } else {
      ScaledTwoPlaces(Abs(y - f));
      assert Abs(y - f) <= 1.0 / 200.0;
      match b
      case Jo => assert y * 1000000000000.0 - x == 1000000000000.0 * (y - f);
      case Eok => assert y * 100000000.0 - x == 100000000.0 * (y - f);
      case Man => assert y * 10000.0 - x == 10000.0 * (y - f);
    }
  }

  /** Inverse consistency: reading a formatted amount back gives the value
      within half a unit of the last printed digit of its band. */
  lemma KoreanRoundTrip(x: real, tail: string)
    requires tail == [] || !NumeralChar(tail[0])
    ensures ParseKorean(Numeral(x) + Marker(BandOf(x)) + tail, tail).Some?
    ensures Abs(ParseKorean(Numeral(x) + Marker(BandOf(x)) + tail, tail).value - x) <= Tolerance(BandOf(x))
  {
    var b := BandOf(x);
    var y := Rounded(ToBand(x, b), Places(b));
    FigureValue(x);
    FigureError(x);
    ReadBack(Numeral(x), b, tail, y);
  }

  /** A figure that reads as y, followed by band b's marker and the tail,
      reads back as y times the band's scale. */
  lemma ReadBack(figure: string, b: Band, tail: string, y: real)
    requires AllNumeralChars(figure)
    requires tail == [] || !NumeralChar(tail[0])
    requires ParseDecimal(Without(figure, ',')) == Some(y)
    ensures ParseKorean(figure + Marker(b) + tail, tail) == Some(FromBand(y, b))
  {
    ReadFigureOf(figure, b, y);
    ParseKoreanSplit(figure, b, tail);
    assert figure + Marker(b) + tail == figure + (Marker(b) + tail);
  }

  lemma ReadFigureOf(figure: string, b: Band, y: real)
    requires ParseDecimal(Without(figure, ',')) == Some(y)
    ensures ReadFigure(figure, b) == Some(FromBand(y, b))
  {
  }

  lemma FixedNoCommas(x: real, places: nat)
    ensures ',' !in Fixed(x, places, false)
  {
    var m := Units(x, places);
    var w := NatText(Shift(m, places));
    var tail := if places == 0 then "" else "." + Padded(m, places);
    assert forall i :: 0 <= i < |w| ==> IsDigit(w[i]);
    assert forall i :: 0 <= i < |tail| ==> tail[i] == '.' || IsDigit(tail[i]);
    assert Fixed(x, places, false) == Sign(x < 0.0) + w + tail;
  }
}
