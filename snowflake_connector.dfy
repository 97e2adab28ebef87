/** The two module-level formatters of the warehouse connector, which the
    Streamlit dashboard imports: `format_currency` renders an amount in the
    Korean bands, `format_percentage` renders a rate with a fixed number of
    decimals. Both print a plain zero for a missing value or NaN. */
module SnowflakeConnector {
  import opened Common
  import opened Numerals
  import opened KoreanUnits

  /** `format_currency(value, unit)` */
  function FormatCurrency(value: Amount, unit: string := "원"): (s: string)
    ensures !value.Finite? ==> s == "0"
    ensures value.Finite? ==> s == Numeral(value.x) + Marker(BandOf(value.x)) + " " + unit
  {
    match value
    case Missing => "0"
    case NotANumber => "0"
    case Finite(x) =>
      var a := Abs(x);
      if a >= 1000000000000.0 then Fixed(x / 1000000000000.0, 2, false) + "조" + " " + unit
      else if a >= 100000000.0 then Fixed(x / 100000000.0, 2, false) + "억" + " " + unit
      else if a >= 10000.0 then Fixed(x / 10000.0, 2, false) + "만" + " " + unit
      else Fixed(x, 0, true) + " " + unit
  }

  /** Reading a currency text back (figure times the scale its marker
      names) recovers the amount within half a unit of the last printed
      digit: 0.005 조, 0.005 억, 0.005 만, or 0.5 below 만. */
  lemma FormatCurrencyReadsBack(x: real, unit: string)
    ensures ParseKorean(FormatCurrency(Finite(x), unit), " " + unit).Some?
    ensures Abs(ParseKorean(FormatCurrency(Finite(x), unit), " " + unit).value - x) <= Tolerance(BandOf(x))
  {
    var figure := Numeral(x);
    var marker := Marker(BandOf(x));
    assert figure + marker + " " + unit == figure + marker + (" " + unit);
    KoreanRoundTrip(x, " " + unit);
  }

  /** After the printed figure comes exactly the band's marker (none below
      10^4), a space and the unit. */
  lemma FormatCurrencyMarker(x: real, unit: string)
    ensures var s := FormatCurrency(Finite(x), unit);
      s[NumeralSpan(s)..] == Marker(BandOf(x)) + " " + unit
  {
    var figure := Numeral(x);
    var rest := Marker(BandOf(x)) + " " + unit;
    var s := FormatCurrency(Finite(x), unit);
    assert s == figure + rest;
    FigureValue(x);
    assert rest == [] || !NumeralChar(rest[0]);
    NumeralSpanOf(figure, rest);
    assert s[|figure|..] == rest;
  }

  /** A negative amount prints as its magnitude with a leading minus. */
  lemma FormatCurrencyNegated(x: real, unit: string)
    requires x > 0.0
    ensures FormatCurrency(Finite(-x), unit) == "-" + FormatCurrency(Finite(x), unit)
  {
    CurrencyShape(x, unit);
    CurrencyShape(-x, unit);
    NumeralNegated(x);
    MinusPrefix(Numeral(x), Numeral(-x), Marker(BandOf(x)) + " " + unit);
  }

  lemma MinusPrefix(a: string, b: string, rest: string)
    requires b == "-" + a
    ensures b + rest == "-" + (a + rest)
  {
  }

  lemma CurrencyShape(x: real, unit: string)
    ensures FormatCurrency(Finite(x), unit) == Numeral(x) + (Marker(BandOf(x)) + " " + unit)
  {
    var m := Marker(BandOf(x));
    assert Numeral(x) + m + " " + unit == Numeral(x) + (m + " " + unit);
  }

  /** `format_percentage(value, decimals)` */
  function FormatPercentage(value: Amount, decimals: nat := 2): (s: string)
    ensures |s| >= 2 && s[|s| - 1] == '%'
    ensures !value.Finite? ==> s == "0%"
  {
    match value
    case Missing => "0%"
    case NotANumber => "0%"
    case Finite(x) => Fixed(x, decimals, false) + "%"
  }

  /** The text before '%' reads back as the rate rounded to `decimals`
      places, with exactly `decimals` digits after the point. */
  lemma FormatPercentageReadsBack(x: real, decimals: nat)
    ensures var s := FormatPercentage(Finite(x), decimals);
      ParseDecimal(s[..|s| - 1]) == Some(Rounded(x, decimals))
      && DotIndex(s[..|s| - 1]) == if decimals == 0 then |s| - 1 else |s| - decimals - 2
    ensures 2.0 * Scaled(Abs(Rounded(x, decimals) - x), decimals) <= 1.0
  {
    var s := FormatPercentage(Finite(x), decimals);
    assert s[..|s| - 1] == Fixed(x, decimals, false);
    FixedParses(x, decimals);
    FixedPlaces(x, decimals);
    RoundedError(x, decimals);
  }
}
