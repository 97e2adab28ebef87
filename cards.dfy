/** The metric card shared by the static HTML generator and the Streamlit
    dashboard: a title, the value as text, and an optional change line whose
    arrow and colour follow the sign of the change. */
module Cards {
  import opened Common
  import opened Numerals

  /** The change line: `up` selects "↑" and the positive style, otherwise
      "↓" and the negative style; `magnitude` is |change| with one decimal,
      printed before "%" and the caption. */
  datatype Badge = Badge(up: bool, magnitude: string, caption: string)

  /** How the value is shown: through a currency formatter, or as the
      number with one decimal and thousands separators followed by the unit
      (any field value, printed as Python prints it). */
  datatype Shown = Currency(text: string) | Plain(figure: string, unit: Value)

  datatype Card = Card(title: Value, shown: Shown, badge: Option<Badge>)

  /** The change line for a numeric change. */
  function BadgeOf(change: real, caption: string): (b: Badge)
    ensures b.up <==> change >= 0.0
    ensures ParseDecimal(b.magnitude) == Some(Rounded(Abs(change), 1))
    ensures '-' !in b.magnitude
    ensures b.caption == caption
  {
    FixedParses(Abs(change), 1);
    FixedUnsigned(Abs(change), 1);
    Badge(change >= 0.0, Fixed(Abs(change), 1, false), caption)
  }

  /** A rendering of a non-negative number carries no minus sign. */
  lemma FixedUnsigned(x: real, places: nat)
    requires x >= 0.0
    ensures '-' !in Fixed(x, places, false)
  {
    var m := Units(x, places);
    var w := NatText(Shift(m, places));
    var tail := if places == 0 then "" else "." + Padded(m, places);
    assert Fixed(x, places, false) == w + tail;
    assert forall i :: 0 <= i < |w| ==> IsDigit(w[i]);
    assert forall i :: 0 <= i < |tail| ==> tail[i] == '.' || IsDigit(tail[i]);
  }

  /** `if change is not None:` followed by `change >= 0`: no line for None,
      a TypeError for a string. */
  function ChangeBadge(change: Value, caption: string): (r: Result<Option<Badge>>)
    ensures r.Err? <==> change.Str?
    ensures r == Ok(None) <==> change.Null?
    ensures change.Num? ==> r == Ok(Some(BadgeOf(change.x, caption)))
  {
    match change
    case Null => Ok(None)
    case Num(c) => Ok(Some(BadgeOf(c, caption)))
    case Str(_) => Err(TypeError)
  }

  /** `f"{value:,.1f}"`: a ValueError for a string, a TypeError for None. */
  function PlainFigure(value: Value): (r: Result<string>)
    ensures r.Ok? <==> value.Num?
    ensures value.Num? ==> Without(r.value, ',') == Fixed(value.x, 1, false)
    ensures value.Str? ==> r == Err(ValueError)
    ensures value.Null? ==> r == Err(TypeError)
  {
    match value
    case Num(x) =>
      FixedUngroups(x, 1);
      Ok(Fixed(x, 1, true))
    case Str(_) => Err(ValueError)
    case Null => Err(TypeError)
  }

  /** Only the unit "원" goes through the currency formatter. */
  predicate IsWon(unit: Value) {
    unit == Str("원")
  }
}
