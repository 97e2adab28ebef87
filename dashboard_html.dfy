/** The static HTML dashboard generator (generate_dashboard_html.py): its
    own copy of the currency formatter, the metric card, and the data
    shaping behind the summary, income statement and balance sheet tabs and
    the chart data of the page. The HTML, CSS and Chart.js text around the
    data is not modelled; each tab yields the values it would render. */
module DashboardHtml {
  import opened Common
  import opened Numerals
  import opened Ordering
  import opened Grouping
  import opened KoreanUnits
  import opened Cards
  import SnowflakeConnector

  /** `format_currency(value, unit)` of this file: like the connector's, but
      with no NaN check, so NaN fails every band test and prints as "nan". */
  function FormatCurrency(value: Amount, unit: string := "원"): (s: string)
    ensures value.Missing? ==> s == "0"
    ensures value.NotANumber? ==> s == "nan " + unit
    ensures value.Finite? ==> s == Numeral(value.x) + Marker(BandOf(value.x)) + " " + unit
  {
    match value
    case Missing => "0"
    case NotANumber => "nan " + unit
    case Finite(x) =>
      var a := Abs(x);
      if a >= 1000000000000.0 then Fixed(x / 1000000000000.0, 2, false) + "조" + " " + unit
      else if a >= 100000000.0 then Fixed(x / 100000000.0, 2, false) + "억" + " " + unit
      else if a >= 10000.0 then Fixed(x / 10000.0, 2, false) + "만" + " " + unit
      else Fixed(x, 0, true) + " " + unit
  }

  /** The two copies agree everywhere except on NaN, where the connector
      prints "0" and this file prints "nan" and the unit. */
  lemma AgreesWithConnector(value: Amount, unit: string)
    ensures value != NotANumber <==> FormatCurrency(value, unit) == SnowflakeConnector.FormatCurrency(value, unit)
  {
    if value == NotANumber {
      assert FormatCurrency(value, unit)[0] == 'n';
    }
  }

  /** `format_currency(v, '원')` on a field value: abs of a string raises. */
  function CurrencyCell(v: Value): (r: Result<string>)
    ensures r.Err? <==> v.Str?
    ensures v.Null? ==> r == Ok("0")
    ensures v.Num? ==> r == Ok(Numeral(v.x) + Marker(BandOf(v.x)) + " 원")
  {
    match AmountOf(v)
    case Err(e) => Err(e)
    case Ok(a) =>
      assert v.Num? ==> Numeral(v.x) + Marker(BandOf(v.x)) + " " + "원" == Numeral(v.x) + Marker(BandOf(v.x)) + " 원";
      Ok(FormatCurrency(a, "원"))
  }

  /** `format_currency(value, unit) if unit == "원" else f"{value:,.1f} {unit}"` */
  function ShownValue(value: Value, unit: Value): (r: Result<Shown>)
    ensures r.Ok? ==> (r.value.Currency? <==> IsWon(unit))
    ensures IsWon(unit) ==> (r.Err? <==> value.Str?)
    ensures !IsWon(unit) ==> (r.Err? <==> !value.Num?)
    ensures r.Ok? && !IsWon(unit) ==> r.value.unit == unit && Without(r.value.figure, ',') == Fixed(value.x, 1, false)
  {
    if IsWon(unit) then
      match CurrencyCell(value)
      case Err(e) => Err(e)
      case Ok(s) => Ok(Currency(s))
    else
      match PlainFigure(value)
      case Err(e) => Err(e)
      case Ok(f) => Ok(Plain(f, unit))
  }

  /** `generate_metric_card(item)`: the value is formatted before the
      change is examined, so a bad value is reported first. */
  function MetricCard(item: Record): (r: Result<Card>)
    ensures r.Ok? ==> r.value.title == GetOr(item, SKey("항목"), Str(""))
    ensures r.Ok? ==>
      && ShownValue(GetOr(item, SKey("값"), Num(0.0)), GetOr(item, SKey("단위"), Str(""))) == Ok(r.value.shown)
      && ChangeBadge(GetOr(item, SKey("변동률"), Null), "전년 대비") == Ok(r.value.badge)
    ensures r.Ok? ==> (r.value.badge.None? <==> !HasKey(item, SKey("변동률")) || Get(item, SKey("변동률")) == Some(Null))
    ensures r.Ok? && r.value.badge.Some? ==>
      && r.value.badge.value.caption == "전년 대비"
      && Get(item, SKey("변동률")).Some? && Get(item, SKey("변동률")).value.Num?
      && (r.value.badge.value.up <==> Get(item, SKey("변동률")).value.x >= 0.0)
    ensures r.Err? <==>
      || ShownValue(GetOr(item, SKey("값"), Num(0.0)), GetOr(item, SKey("단위"), Str(""))).Err?
      || GetOr(item, SKey("변동률"), Null).Str?
  {
    var name := GetOr(item, SKey("항목"), Str(""));
    var value := GetOr(item, SKey("값"), Num(0.0));
    var unit := GetOr(item, SKey("단위"), Str(""));
    var change := GetOr(item, SKey("변동률"), Null);
    match ShownValue(value, unit)
    case Err(e) => Err(e)
    case Ok(shown) =>
      match ChangeBadge(change, "전년 대비")
      case Err(e) => Err(e)
      case Ok(badge) => Ok(Card(name, shown, badge))
  }

  /** One row of the summary table: name, shown value, the change cell and
      whether it takes the positive style. */
  datatype SummaryLine = SummaryLine(name: Value, shown: Shown, change: string, positive: bool)

  /** `f"{change:+.1f}%"`: the sign is always printed. */
  function SignedPercent(c: real): (s: string)
    ensures |s| >= 2 && s[|s| - 1] == '%'
    ensures s[0] == (if c >= 0.0 then '+' else '-')
    ensures ParseDecimal(s[..|s| - 1]) == Some(Rounded(c, 1))
  {
    var f := Fixed(c, 1, false);
    FixedParses(c, 1);
    if c >= 0.0 then
      FixedUnsigned(c, 1);
      assert ("+" + f + "%")[..|f| + 1] == "+" + f;
      assert f[0] != '-' && f[0] != '+' by {
        assert f[0] in f;
        assert IsDigit(NatText(Shift(Units(c, 1), 1))[0]);
      }
      "+" + f + "%"
    else
      assert (f + "%")[..|f|] == f;
      f + "%"
  }

  /** One line of `generate_summary_tab`'s table: the name, the value by
      the same path as the card, and the change signed to one place, or
      "-" without a change. */
  function SummaryLineOf(item: Record): (r: Result<SummaryLine>)
    ensures r.Ok? ==>
      && r.value.name == GetOr(item, SKey("항목"), Str(""))
      && ShownValue(GetOr(item, SKey("값"), Num(0.0)), GetOr(item, SKey("단위"), Str(""))) == Ok(r.value.shown)
    ensures r.Ok? && GetOr(item, SKey("변동률"), Null).Num? ==>
      r.value.change == SignedPercent(GetOr(item, SKey("변동률"), Null).x)
    ensures r.Ok? ==> (r.value.change == "-" <==> !HasKey(item, SKey("변동률")) || Get(item, SKey("변동률")) == Some(Null))
    ensures r.Ok? ==> (r.value.positive <==> GetOr(item, SKey("변동률"), Null).Num? && GetOr(item, SKey("변동률"), Null).x >= 0.0)
    ensures r.Err? <==>
      || ShownValue(GetOr(item, SKey("값"), Num(0.0)), GetOr(item, SKey("단위"), Str(""))).Err?
      || GetOr(item, SKey("변동률"), Null).Str?
  {
    var name := GetOr(item, SKey("항목"), Str(""));
    var value := GetOr(item, SKey("값"), Num(0.0));
    var unit := GetOr(item, SKey("단위"), Str(""));
    var change := GetOr(item, SKey("변동률"), Null);
    match ShownValue(value, unit)
    case Err(e) => Err(e)
    case Ok(shown) =>
      match change
      case Null => Ok(SummaryLine(name, shown, "-", false))
      case Num(c) =>
        var s := SignedPercent(c);
        assert s != "-" by { assert s[|s| - 1] == '%'; }
        Ok(SummaryLine(name, shown, s, c >= 0.0))
      case Str(_) => Err(ValueError)
  }

  datatype SummaryView = NoSummary | Summary(cards: seq<Card>, lines: seq<SummaryLine>)

  /** The data of `generate_summary_tab`: nothing for no rows; otherwise
      cards for the first six rows only and a table line for every row,
      failing with the first error raised. */
  method SummaryTab(rows: seq<Record>) returns (r: Result<SummaryView>)
    ensures rows == [] <==> r == Ok(NoSummary)
    ensures r.Ok? && rows != [] ==>
      && Traverse(MetricCard, rows[..Min(6, |rows|)]) == Ok(r.value.cards)
      && Traverse(SummaryLineOf, rows) == Ok(r.value.lines)
    ensures r.Err? <==> Traverse(MetricCard, rows[..Min(6, |rows|)]).Err? || Traverse(SummaryLineOf, rows).Err?
  {
    if rows == [] {
      return Ok(NoSummary);
    }
    var cards := LeadingCards(rows, Min(6, |rows|));
    if cards.Err? {
      return Err(cards.error);
    }
    var lines := SummaryLines(rows);
    if lines.Err? {
      return Err(lines.error);
    }
    return Ok(Summary(cards.value, lines.value));
  }

  /** The summary tab shows a card for each of the first six rows, fewer
      when there are fewer rows, in row order. */
  lemma SummaryCardsLeading(rows: seq<Record>, cards: seq<Card>)
    requires Traverse(MetricCard, rows[..Min(6, |rows|)]) == Ok(cards)
    ensures |cards| == Min(6, |rows|) && |cards| <= 6
    ensures forall i :: 0 <= i < |cards| ==> MetricCard(rows[i]) == Ok(cards[i])
  {
    var lead := rows[..Min(6, |rows|)];
    TraverseSpec(MetricCard, lead);
    assert forall i :: 0 <= i < |lead| ==> lead[i] == rows[i];
  }

  /** `for item in summary_data[:n]: cards_html += generate_metric_card(item)` */
  method LeadingCards(rows: seq<Record>, n: nat) returns (r: Result<seq<Card>>)
    requires n <= |rows|
    ensures r == Traverse(MetricCard, rows[..n])
  {
    var cards: seq<Card> := [];
    var i := 0;
    while i < n
      invariant 0 <= i <= n
      invariant Traverse(MetricCard, rows[..i]) == Ok(cards)
    {
      var card := MetricCard(rows[i]);
      TraverseNext(MetricCard, rows, i);
      if card.Err? {
        TraverseStops(MetricCard, rows[..i + 1], rows[..n]);
        return Err(card.error);
      }
      cards := cards + [card.value];
      i := i + 1;
    }
    assert rows[..n] == rows[..i];
    return Ok(cards);
  }

  /** `for item in summary_data: table_rows += ...` */
  method SummaryLines(rows: seq<Record>) returns (r: Result<seq<SummaryLine>>)
    ensures r == Traverse(SummaryLineOf, rows)
  {
    var lines: seq<SummaryLine> := [];
    var i := 0;
    while i < |rows|
      invariant 0 <= i <= |rows|
      invariant Traverse(SummaryLineOf, rows[..i]) == Ok(lines)
    {
      var line := SummaryLineOf(rows[i]);
      TraverseNext(SummaryLineOf, rows, i);
      if line.Err? {
        TraverseStops(SummaryLineOf, rows[..i + 1], rows);
        return Err(line.error);
      }
      lines := lines + [line.value];
      i := i + 1;
    }
    assert rows == rows[..i];
    return Ok(lines);
  }

  // ----- Income statement: year columns, pivot, datasets -----

  /** A year column: any key other than '항목' whose text contains '년'.
      Keys here come from JSON and are strings; a number's text never
      contains '년'. */
  predicate IsYearColumn(k: Key) {
    k.SKey? && k.name != "항목" && '년' in k.name
  }

  /** The year columns among the first n keys of a row. */
  function RowYears(item: Record, n: nat): set<string>
    requires n <= |item|
  {
    if n == 0 then {}
    else RowYears(item, n - 1) + (if IsYearColumn(item[n - 1].0) then {item[n - 1].0.name} else {})
  }

  /** The year columns of all rows. */
  function YearKeys(rows: seq<Record>): set<string> {
    if rows == [] then {}
    else YearKeys(rows[..|rows| - 1]) + RowYears(rows[|rows| - 1], |rows[|rows| - 1]|)
  }

  lemma {:induction false} RowYearsMember(item: Record, n: nat, y: string)
    requires n <= |item|
    ensures y in RowYears(item, n) <==> exists k :: 0 <= k < n && item[k].0 == SKey(y) && IsYearColumn(item[k].0)
  {
    if n > 0 {
      RowYearsMember(item, n - 1, y);
    }
  }

  lemma {:induction false} YearKeysMember(rows: seq<Record>, y: string)
    ensures y in YearKeys(rows) <==> exists item :: item in rows && y in RowYears(item, |item|)
  {
    if rows != [] {
      var init := rows[..|rows| - 1];
      YearKeysMember(init, y);
      assert rows == init + [rows[|rows| - 1]];
    }
  }

  /** The year list of `generate_income_statement_tab` (and of
      `generate_html`): distinct year columns in order of first appearance,
      then sorted in descending string order. */
  method ExtractYears(rows: seq<Record>) returns (years: seq<string>)
    ensures StrictlyDescending(years)
    ensures forall y :: y in years <==> y in YearKeys(rows)
  {
    var seen: seq<string> := [];
    var i := 0;
    while i < |rows|
      invariant 0 <= i <= |rows|
      invariant NoDuplicates(seen)
      invariant forall y :: y in seen <==> y in YearKeys(rows[..i])
    {
      var item := rows[i];
      var j := 0;
      while j < |item|
        invariant 0 <= j <= |item|
        invariant NoDuplicates(seen)
        invariant forall y :: y in seen <==> y in YearKeys(rows[..i]) + RowYears(item, j)
      {
        var key := item[j].0;
        if IsYearColumn(key) && key.name !in seen {
          seen := seen + [key.name];
        }
        j := j + 1;
      }
      assert rows[..i + 1][..i] == rows[..i];
      i := i + 1;
    }
    assert rows[..i] == rows;
    SortDistinct(seen);
    years := SortDescending(seen);
    assert forall y :: y in years <==> y in multiset(years);
    assert forall y :: y in seen <==> y in multiset(seen);
  }

  /** The year list does not depend on the order of the rows: any two
      strictly descending lists of the year columns of the same rows, in
      any order, are equal. */
  lemma YearsIgnoreRowOrder(rows: seq<Record>, reordered: seq<Record>, a: seq<string>, b: seq<string>)
    requires multiset(rows) == multiset(reordered)
    requires StrictlyDescending(a) && forall y :: y in a <==> y in YearKeys(rows)
    requires StrictlyDescending(b) && forall y :: y in b <==> y in YearKeys(reordered)
    ensures a == b
  {
    forall y
      ensures y in YearKeys(rows) <==> y in YearKeys(reordered)
    {
      YearKeysMember(rows, y);
      YearKeysMember(reordered, y);
      assert forall item :: item in rows <==> item in multiset(rows);
      assert forall item :: item in reordered <==> item in multiset(reordered);
    }
    StrictlyDescendingUnique(a, b);
  }

  /** `[item.get(year, 0) for year in years]` */
  function PivotRow(item: Record, years: seq<string>): (cells: seq<Value>)
    ensures |cells| == |years|
    ensures forall k :: 0 <= k < |years| && !HasKey(item, SKey(years[k])) ==> cells[k] == Num(0.0)
  {
    seq(|years|, k requires 0 <= k < |years| => GetOr(item, SKey(years[k]), Num(0.0)))
  }

  /** The pivot reproduces the row's own cells, year by year, and puts 0
      where the row has no such column. */
  lemma PivotReproducesCells(item: Record, years: seq<string>, k: nat, v: Value)
    requires DistinctKeys(item) && k < |years|
    ensures (SKey(years[k]), v) in item ==> PivotRow(item, years)[k] == v
    ensures !HasKey(item, SKey(years[k])) ==> PivotRow(item, years)[k] == Num(0.0)
  {
    if (SKey(years[k]), v) in item {
      GetStored(item, SKey(years[k]), v);
    }
  }

  /** One table row of the income tab: the name and one currency text per
      year, or the TypeError a string cell raises. */
  function IncomeLine(item: Record, years: seq<string>): (r: Result<(Value, seq<string>)>)
    ensures r.Ok? ==> r.value.0 == GetOr(item, SKey("항목"), Str("")) && |r.value.1| == |years|
  {
    match Traverse(CurrencyCell, PivotRow(item, years))
    case Err(e) => Err(e)
    case Ok(cells) =>
      TraverseSpec(CurrencyCell, PivotRow(item, years));
      Ok((GetOr(item, SKey("항목"), Str("")), cells))
  }

  /** Every table row holds exactly one cell per year, in the order of the
      year list, each the currency text of that year's pivot value. */
  lemma IncomeLineCells(item: Record, years: seq<string>)
    requires IncomeLine(item, years).Ok?
    ensures |IncomeLine(item, years).value.1| == |years|
    ensures forall k :: 0 <= k < |years| ==>
      CurrencyCell(PivotRow(item, years)[k]) == Ok(IncomeLine(item, years).value.1[k])
  {
    TraverseSpec(CurrencyCell, PivotRow(item, years));
  }

  /** The table rows of `generate_income_statement_tab`. */
  method IncomeTable(rows: seq<Record>, years: seq<string>) returns (r: Result<seq<(Value, seq<string>)>>)
    ensures r == Traverse(item => IncomeLine(item, years), rows)
  {
    var lines: seq<(Value, seq<string>)> := [];
    var i := 0;
    while i < |rows|
      invariant 0 <= i <= |rows|
      invariant Traverse(item => IncomeLine(item, years), rows[..i]) == Ok(lines)
    {
      assert rows[..i + 1][..i] == rows[..i];
      var line := IncomeLine(rows[i], years);
      if line.Err? {
        TraverseStops(item => IncomeLine(item, years), rows[..i + 1], rows);
        return Err(line.error);
      }
      lines := lines + [line.value];
      i := i + 1;
    }
    assert rows == rows[..i];
    return Ok(lines);
  }

  /** Some row holds a string under one of the year columns. */
  predicate StringCell(rows: seq<Record>) {
    exists i, y :: 0 <= i < |rows| && y in YearKeys(rows) && GetOr(rows[i], SKey(y), Num(0.0)).Str?
  }

  lemma IncomeLineFails(item: Record, years: seq<string>)
    ensures IncomeLine(item, years).Err? <==>
      exists k :: 0 <= k < |years| && GetOr(item, SKey(years[k]), Num(0.0)).Str?
  {
    var cells := PivotRow(item, years);
    TraverseSpec(CurrencyCell, cells);
    assert forall k :: 0 <= k < |years| ==> cells[k] == GetOr(item, SKey(years[k]), Num(0.0));
  }

  /** The income table fails exactly when a year cell holds a string. */
  lemma IncomeFails(rows: seq<Record>, years: seq<string>)
    requires forall y :: y in years <==> y in YearKeys(rows)
    ensures Traverse(item => IncomeLine(item, years), rows).Err? <==> StringCell(rows)
  {
    var f := item => IncomeLine(item, years);
    TraverseSpec(f, rows);
    if Traverse(f, rows).Err? {
      var i :| 0 <= i < |rows| && f(rows[i]).Err?;
      IncomeLineFails(rows[i], years);
      var k :| 0 <= k < |years| && GetOr(rows[i], SKey(years[k]), Num(0.0)).Str?;
      assert years[k] in YearKeys(rows);
    }
    if StringCell(rows) {
      var i, y :| 0 <= i < |rows| && y in YearKeys(rows) && GetOr(rows[i], SKey(y), Num(0.0)).Str?;
      var k :| 0 <= k < |years| && years[k] == y;
      IncomeLineFails(rows[i], years);
      assert f(rows[i]).Err?;
    }
  }

  datatype IncomeView = NoIncome | Income(years: seq<string>, table: seq<(Value, seq<string>)>)

  /** The data of `generate_income_statement_tab`. */
  method IncomeTab(rows: seq<Record>) returns (r: Result<IncomeView>)
    ensures rows == [] <==> r == Ok(NoIncome)
    ensures rows != [] ==> (r.Err? <==> StringCell(rows))
    ensures r.Ok? && rows != [] ==>
      && StrictlyDescending(r.value.years)
      && (forall y :: y in r.value.years <==> y in YearKeys(rows))
      && Traverse(item => IncomeLine(item, r.value.years), rows) == Ok(r.value.table)
  {
    if rows == [] {
      return Ok(NoIncome);
    }
    var years := ExtractYears(rows);
    var table := IncomeTable(rows, years);
    IncomeFails(rows, years);
    if table.Err? {
      return Err(table.error);
    }
    return Ok(Income(years, table.value));
  }

  /** A Chart.js dataset: its title, its values and its palette index. */
  datatype Dataset = Dataset(title: Value, values: seq<Value>, color: nat)

  /** `income_all_datasets` of `generate_html`: one dataset per row, in row
      order, coloured cyclically from a palette of seven. */
  method AllDatasets(rows: seq<Record>, years: seq<string>) returns (ds: seq<Dataset>)
    ensures |ds| == |rows|
    ensures forall i :: 0 <= i < |rows| ==>
      ds[i] == Dataset(GetOr(rows[i], SKey("항목"), Str("")), PivotRow(rows[i], years), i % 7)
  {
    ds := [];
    var i := 0;
    while i < |rows|
      invariant 0 <= i <= |rows|
      invariant |ds| == i
      invariant forall k :: 0 <= k < i ==>
        ds[k] == Dataset(GetOr(rows[k], SKey("항목"), Str("")), PivotRow(rows[k], years), k % 7)
    {
      ds := ds + [Dataset(GetOr(rows[i], SKey("항목"), Str("")), PivotRow(rows[i], years), i % 7)];
      i := i + 1;
    }
  }

  const MainItems: seq<string> := ["매출액", "영업이익", "순이익"]

  /** `next((item for item in rows if item.get('항목') == name), None)`:
      the position of the first row with that name. */
  function FirstNamed(rows: seq<Record>, name: string): (r: Option<nat>)
    ensures r.Some? ==> r.value < |rows|
  {
    if rows == [] then None
    else if Get(rows[0], SKey("항목")) == Some(Str(name)) then Some(0)
    else
      match FirstNamed(rows[1..], name)
      case None => None
      case Some(j) => Some(j + 1)
  }

  /** The row found carries the name and no earlier row does; nothing is
      found when no row carries it. */
  lemma {:induction false} FirstNamedMeaning(rows: seq<Record>, name: string)
    ensures var r := FirstNamed(rows, name);
      && (r.Some? ==> Get(rows[r.value], SKey("항목")) == Some(Str(name)))
      && (r.Some? ==> forall j :: 0 <= j < r.value ==> Get(rows[j], SKey("항목")) != Some(Str(name)))
      && (r.None? ==> forall j :: 0 <= j < |rows| ==> Get(rows[j], SKey("항목")) != Some(Str(name)))
  {
    if rows != [] && Get(rows[0], SKey("항목")) != Some(Str(name)) {
      FirstNamedMeaning(rows[1..], name);
      assert forall j :: 1 <= j < |rows| ==> rows[j] == rows[1..][j - 1];
    }
  }

  /** The trend datasets for the first m of 매출액, 영업이익, 순이익: for
      each that some row names, in that order, a dataset from the first such
      row, coloured by the item's place in that list. */
  function Trend(rows: seq<Record>, years: seq<string>, m: nat): (t: seq<Dataset>)
    requires m <= |MainItems|
    ensures |t| <= m
    ensures forall i :: 0 <= i < |t| ==> t[i].color < m && t[i].title == Str(MainItems[t[i].color])
  {
    if m == 0 then []
    else
      Trend(rows, years, m - 1) +
      match FirstNamed(rows, MainItems[m - 1])
      case None => []
      case Some(i) => [Dataset(Str(MainItems[m - 1]), PivotRow(rows[i], years), m - 1)]
  }

  /** One trend dataset drawn from the first row naming main item `color`. */
  predicate TrendEntry(rows: seq<Record>, years: seq<string>, d: Dataset) {
    && d.color < |MainItems|
    && d.title == Str(MainItems[d.color])
    && FirstNamed(rows, MainItems[d.color]).Some?
    && d.values == PivotRow(rows[FirstNamed(rows, MainItems[d.color]).value], years)
  }

  /** Each trend dataset comes from the first row naming its item, and
      the colours rise strictly with the position. */
  lemma {:induction false} TrendEntries(rows: seq<Record>, years: seq<string>, m: nat)
    requires m <= |MainItems|
    ensures forall k :: 0 <= k < |Trend(rows, years, m)| ==>
      TrendEntry(rows, years, Trend(rows, years, m)[k]) && Trend(rows, years, m)[k].color < m
    ensures forall k, l :: 0 <= k < l < |Trend(rows, years, m)| ==>
      Trend(rows, years, m)[k].color < Trend(rows, years, m)[l].color
  {
    if m > 0 {
      TrendEntries(rows, years, m - 1);
      var before := Trend(rows, years, m - 1);
      var t := Trend(rows, years, m);
      var found := FirstNamed(rows, MainItems[m - 1]);
      if found.None? {
        assert t == before;
      } else {
        var d := Dataset(Str(MainItems[m - 1]), PivotRow(rows[found.value], years), m - 1);
        assert t == before + [d];
        assert TrendEntry(rows, years, d);
      }
    }
  }

  /** Each step keeps the datasets so far and adds at most the one for
      the next item, when some row names it. */
  lemma TrendStep(rows: seq<Record>, years: seq<string>, m: nat)
    requires 0 < m <= |MainItems|
    ensures Trend(rows, years, m)[..|Trend(rows, years, m - 1)|] == Trend(rows, years, m - 1)
    ensures FirstNamed(rows, MainItems[m - 1]).Some? ==>
      |Trend(rows, years, m)| == |Trend(rows, years, m - 1)| + 1
      && Trend(rows, years, m)[|Trend(rows, years, m - 1)|].color == m - 1
    ensures FirstNamed(rows, MainItems[m - 1]).None? ==> |Trend(rows, years, m)| == |Trend(rows, years, m - 1)|
  {
  }

  /** Some dataset carries colour p. */
  predicate HasColor(ds: seq<Dataset>, p: nat) {
    exists k :: 0 <= k < |ds| && ds[k].color == p
  }

  /** Extending a list of datasets by ones of other colours does not change
      whether colour p occurs. */
  lemma HasColorExtend(before: seq<Dataset>, t: seq<Dataset>, p: nat)
    requires |before| <= |t| && t[..|before|] == before
    requires forall k :: |before| <= k < |t| ==> t[k].color != p
    ensures HasColor(t, p) <==> HasColor(before, p)
  {
    if HasColor(t, p) {
      var k :| 0 <= k < |t| && t[k].color == p;
      assert t[..|before|][k] == before[k];
    }
    if HasColor(before, p) {
      var k :| 0 <= k < |before| && before[k].color == p;
      assert t[..|before|][k] == t[k];
    }
  }

  /** Colours all below p leave p out. */
  lemma ColorsBelow(ds: seq<Dataset>, p: nat)
    requires forall k :: 0 <= k < |ds| ==> ds[k].color < p
    ensures !HasColor(ds, p)
  {
  }

  /** An item has a trend dataset exactly when some row names it. */
  lemma {:induction false} TrendCovers(rows: seq<Record>, years: seq<string>, m: nat, p: nat)
    requires p < m <= |MainItems|
    ensures FirstNamed(rows, MainItems[p]).Some? <==> HasColor(Trend(rows, years, m), p)
  {
    TrendEntries(rows, years, m - 1);
    TrendStep(rows, years, m);
    var before := Trend(rows, years, m - 1);
    var t := Trend(rows, years, m);
    if p < m - 1 {
      TrendCovers(rows, years, m - 1, p);
      HasColorExtend(before, t, p);
    } else if FirstNamed(rows, MainItems[p]).None? {
      assert t == before;
      ColorsBelow(before, p);
    } else {
      assert t[|before|].color == p;
    }
  }

  /** The trend datasets of `generate_html`. */
  method TrendDatasets(rows: seq<Record>, years: seq<string>) returns (ds: seq<Dataset>)
    ensures ds == Trend(rows, years, |MainItems|)
  {
    ds := [];
    var m := 0;
    while m < |MainItems|
      invariant 0 <= m <= |MainItems|
      invariant ds == Trend(rows, years, m)
    {
      var found := FirstNamed(rows, MainItems[m]);
      if found.Some? {
        ds := ds + [Dataset(Str(MainItems[m]), PivotRow(rows[found.value], years), m)];
      }
      m := m + 1;
    }
  }

  // ----- Balance sheet: category totals -----

  /** `item.get('분류', '기타')`: the category a row is grouped under. */
  function CategoryOf(item: Record): Value {
    GetOr(item, SKey("분류"), Str("기타"))
  }

  /** `item.get('값', 0)` */
  function AmountField(item: Record): Value {
    GetOr(item, SKey("값"), Num(0.0))
  }

  /** A row's category and amount; adding a string or None to a number
      raises TypeError. */
  function PairOf(item: Record): (r: Result<(Value, real)>)
    ensures r.Ok? <==> AmountField(item).Num?
    ensures r.Ok? ==> r.value == (CategoryOf(item), AmountField(item).x)
    ensures r.Err? ==> r.error == TypeError
  {
    match AmountField(item)
    case Num(x) => Ok((CategoryOf(item), x))
    case _ => Err(TypeError)
  }

  /** The category totals of the balance tab and of the balance chart data
      of `generate_html`: per category, in order of first appearance, the
      running sum of the amounts. */
  method CategoryTotals(rows: seq<Record>) returns (r: Result<seq<(Value, real)>>)
    ensures Traverse(PairOf, rows).Err? ==> r == Err(TypeError)
    ensures Traverse(PairOf, rows).Ok? ==> r == Ok(Totals(Traverse(PairOf, rows).value))
  {
    var totals: seq<(Value, real)> := [];
    ghost var pairs: seq<(Value, real)> := [];
    var i := 0;
    while i < |rows|
      invariant 0 <= i <= |rows|
      invariant Traverse(PairOf, rows[..i]) == Ok(pairs)
      invariant totals == Totals(pairs)
    {
      TraverseNext(PairOf, rows, i);
      var category := CategoryOf(rows[i]);
      var amount := AmountField(rows[i]);
      if !amount.Num? {
        TraverseStops(PairOf, rows[..i + 1], rows);
        return Err(TypeError);
      }
      totals := AddToTotal(totals, category, amount.x);
      TotalsSnoc(pairs, (category, amount.x));
      pairs := pairs + [(category, amount.x)];
      i := i + 1;
    }
    assert rows == rows[..i];
    return Ok(totals);
  }

  /** `if category not in totals: totals[category] = 0` followed by
      `totals[category] += amount`. */
  method AddToTotal(totals: seq<(Value, real)>, category: Value, amount: real) returns (t: seq<(Value, real)>)
    ensures t == Update(totals, category, amount)
  {
    t := totals;
    var j := IndexOf(t, category);
    if j == |t| {
      t := t + [(category, 0.0)];
    }
    t := t[j := (category, t[j].1 + amount)];
  }

  /** Some amount is not a number exactly when the totals fail. */
  lemma TotalsFail(rows: seq<Record>)
    ensures Traverse(PairOf, rows).Err? <==> exists i :: 0 <= i < |rows| && !AmountField(rows[i]).Num?
  {
    TraverseSpec(PairOf, rows);
  }

  /** The category of every row, in row order. */
  function Categories(rows: seq<Record>): (cs: seq<Value>)
    ensures |cs| == |rows|
    ensures forall i :: 0 <= i < |rows| ==> cs[i] == CategoryOf(rows[i])
  {
    seq(|rows|, i requires 0 <= i < |rows| => CategoryOf(rows[i]))
  }

  /** The pairs carry the rows' categories, in row order. */
  lemma PairKeys(rows: seq<Record>)
    requires Traverse(PairOf, rows).Ok?
    ensures Keys(Traverse(PairOf, rows).value) == Categories(rows)
  {
    TraverseSpec(PairOf, rows);
  }

  /** The category totals list every category once, in order of first
      appearance, each with the sum of its rows' amounts, and together they
      add up to the sum of all amounts. */
  lemma CategoryTotalsMeaning(rows: seq<Record>)
    requires Traverse(PairOf, rows).Ok?
    ensures var pairs := Traverse(PairOf, rows).value;
      && Keys(Totals(pairs)) == Dedup(Categories(rows))
      && (forall j :: 0 <= j < |Totals(pairs)| ==> Totals(pairs)[j].1 == SumFor(pairs, Totals(pairs)[j].0))
      && SumAll(Totals(pairs)) == SumAll(pairs)
  {
    var pairs := Traverse(PairOf, rows).value;
    PairKeys(rows);
    TotalsMeaning(pairs);
    TotalsPreserveAll(pairs);
  }

  /** One line of the balance table: the name, the amount in 원 and the
      category as given (`item.get('분류', '')`, no "기타" here). */
  datatype BalanceLine = BalanceLine(name: Value, amount: string, category: Value)

  function BalanceLineOf(item: Record): (r: Result<BalanceLine>)
    ensures r.Err? <==> AmountField(item).Str?
    ensures r.Ok? ==> r.value.category == GetOr(item, SKey("분류"), Str(""))
    ensures r.Ok? ==>
      && r.value.name == GetOr(item, SKey("항목"), Str(""))
      && CurrencyCell(AmountField(item)) == Ok(r.value.amount)
  {
    match CurrencyCell(AmountField(item))
    case Err(e) => Err(e)
    case Ok(text) => Ok(BalanceLine(GetOr(item, SKey("항목"), Str("")), text, GetOr(item, SKey("분류"), Str(""))))
  }

  /** The lines of the balance table, one per row in row order. */
  method BalanceLines(rows: seq<Record>) returns (r: Result<seq<BalanceLine>>)
    ensures r == Traverse(BalanceLineOf, rows)
  {
    var lines: seq<BalanceLine> := [];
    var i := 0;
    while i < |rows|
      invariant 0 <= i <= |rows|
      invariant Traverse(BalanceLineOf, rows[..i]) == Ok(lines)
    {
      var line := BalanceLineOf(rows[i]);
      TraverseNext(BalanceLineOf, rows, i);
      if line.Err? {
        TraverseStops(BalanceLineOf, rows[..i + 1], rows);
        return Err(line.error);
      }
      lines := lines + [line.value];
      i := i + 1;
    }
    assert rows == rows[..i];
    return Ok(lines);
  }

  /** Once every amount has been summed, no table line can fail. */
  lemma BalanceLinesFollow(rows: seq<Record>)
    requires Traverse(PairOf, rows).Ok?
    ensures Traverse(BalanceLineOf, rows).Ok?
    ensures |Traverse(BalanceLineOf, rows).value| == |rows|
  {
    TraverseSpec(PairOf, rows);
    TraverseSpec(BalanceLineOf, rows);
    assert forall i :: 0 <= i < |rows| ==> PairOf(rows[i]).Ok?;
  }

  /** The overview boxes: each category with its total in 원. */
  function OverviewOf(totals: seq<(Value, real)>): (o: seq<(Value, string)>)
    ensures |o| == |totals|
    ensures forall j :: 0 <= j < |totals| ==>
      o[j].0 == totals[j].0 && CurrencyCell(Num(totals[j].1)) == Ok(o[j].1)
  {
    seq(|totals|, j requires 0 <= j < |totals| => (totals[j].0, FormatCurrency(Finite(totals[j].1), "원")))
  }

  datatype BalanceView = NoBalance | Balance(overview: seq<(Value, string)>, lines: seq<BalanceLine>)

  /** The data of `generate_balance_sheet_tab`: nothing without rows;
      otherwise the category overview and the table, or the TypeError that
      summing a non-numeric amount raises. */
  method BalanceTab(rows: seq<Record>) returns (r: Result<BalanceView>)
    ensures rows == [] <==> r == Ok(NoBalance)
    ensures rows != [] ==> (r.Err? <==> Traverse(PairOf, rows).Err?)
    ensures r.Ok? && rows != [] ==>
      && r.value.overview == OverviewOf(Totals(Traverse(PairOf, rows).value))
      && Ok(r.value.lines) == Traverse(BalanceLineOf, rows)
  {
    if rows == [] {
      return Ok(NoBalance);
    }
    var totals := CategoryTotals(rows);
    if totals.Err? {
      return Err(totals.error);
    }
    var overview := OverviewOf(totals.value);
    var lines := BalanceLines(rows);
    BalanceLinesFollow(rows);
    return Ok(Balance(overview, lines.value));
  }

  // ----- The whole page -----

  /** The three lists of the dashboard's data file; a missing key reads as
      the empty list. */
  datatype Data = Data(summary: seq<Record>, income: seq<Record>, balance: seq<Record>)

  /** The lists behind the two summary charts: names, values and changes
      (`item.get('변동률', 0)`: a missing change is charted as 0). */
  function SummaryChart(rows: seq<Record>): (c: (seq<Value>, seq<Value>, seq<Value>))
    ensures |c.0| == |rows| && |c.1| == |rows| && |c.2| == |rows|
    ensures forall i :: 0 <= i < |rows| ==>
      && c.0[i] == GetOr(rows[i], SKey("항목"), Str(""))
      && c.1[i] == GetOr(rows[i], SKey("값"), Num(0.0))
      && c.2[i] == GetOr(rows[i], SKey("변동률"), Num(0.0))
  {
    (seq(|rows|, i requires 0 <= i < |rows| => GetOr(rows[i], SKey("항목"), Str(""))),
     seq(|rows|, i requires 0 <= i < |rows| => GetOr(rows[i], SKey("값"), Num(0.0))),
     seq(|rows|, i requires 0 <= i < |rows| => GetOr(rows[i], SKey("변동률"), Num(0.0))))
  }

  /** The chart labels name the cards: the i-th summary card carries the
      i-th label, and a change charted as nonzero carries a badge. */
  lemma SummaryChartMatchesCards(rows: seq<Record>, i: nat)
    requires i < |rows| && MetricCard(rows[i]).Ok?
    ensures SummaryChart(rows).0[i] == MetricCard(rows[i]).value.title
    ensures SummaryChart(rows).2[i] != Num(0.0) && SummaryChart(rows).2[i] != Null ==> MetricCard(rows[i]).value.badge.Some?
  {
  }

  /** What the page shows: the three tabs and the data of its charts. */
  datatype Page = Page(
    summary: SummaryView, income: IncomeView, balance: BalanceView,
    summaryChart: (seq<Value>, seq<Value>, seq<Value>),
    years: seq<string>, allDatasets: seq<Dataset>, trend: seq<Dataset>,
    balanceChart: seq<(Value, real)>)

  /** The income chart data of `generate_html`: the year list once more,
      every row as a dataset, and the trend of the main items. */
  method IncomeCharts(rows: seq<Record>) returns (years: seq<string>, all: seq<Dataset>, trend: seq<Dataset>)
    ensures StrictlyDescending(years)
    ensures forall y :: y in years <==> y in YearKeys(rows)
    ensures |all| == |rows|
    ensures forall i :: 0 <= i < |rows| ==>
      && all[i].title == GetOr(rows[i], SKey("항목"), Str(""))
      && all[i].values == PivotRow(rows[i], years) && all[i].color == i % 7
    ensures trend == Trend(rows, years, |MainItems|)
  {
    years := ExtractYears(rows);
    all := AllDatasets(rows, years);
    trend := TrendDatasets(rows, years);
  }

  /** `generate_html`: the tabs are built first, in order, and the first
      error raised stops the page; the chart data repeats the year
      extraction and the category totals of the tabs, so it cannot fail
      once they have succeeded. */
  method GenerateHtml(data: Data) returns (r: Result<Page>)
    ensures r.Err? <==>
      || Traverse(MetricCard, data.summary[..Min(6, |data.summary|)]).Err?
      || Traverse(SummaryLineOf, data.summary).Err?
      || StringCell(data.income)
      || Traverse(PairOf, data.balance).Err?
    ensures r.Ok? ==>
      && StrictlyDescending(r.value.years)
      && (forall y :: y in r.value.years <==> y in YearKeys(data.income))
      && r.value.trend == Trend(data.income, r.value.years, |MainItems|)
      && |r.value.allDatasets| == |data.income|
      && (r.value.income.Income? ==> r.value.income.years == r.value.years)
      && r.value.balanceChart == Totals(Traverse(PairOf, data.balance).value)
    ensures r.Ok? ==>
      && r.value.summaryChart == SummaryChart(data.summary)
      && (forall i :: 0 <= i < |data.income| ==>
            && r.value.allDatasets[i].title == GetOr(data.income[i], SKey("항목"), Str(""))
            && r.value.allDatasets[i].values == PivotRow(data.income[i], r.value.years)
            && r.value.allDatasets[i].color == i % 7)
    ensures r.Ok? ==>
      && (data.summary == [] <==> r.value.summary == NoSummary)
      && (data.summary != [] ==>
            && r.value.summary.Summary?
            && Traverse(MetricCard, data.summary[..Min(6, |data.summary|)]) == Ok(r.value.summary.cards)
            && Traverse(SummaryLineOf, data.summary) == Ok(r.value.summary.lines))
    ensures r.Ok? ==>
      && (data.income == [] <==> r.value.income == NoIncome)
      && (data.income != [] ==>
            && r.value.income.Income?
            && Traverse(item => IncomeLine(item, r.value.years), data.income) == Ok(r.value.income.table))
    ensures r.Ok? ==>
      && (data.balance == [] <==> r.value.balance == NoBalance)
      && (data.balance != [] ==>
            && r.value.balance.Balance?
            && r.value.balance.overview == OverviewOf(Totals(Traverse(PairOf, data.balance).value))
            && Ok(r.value.balance.lines) == Traverse(BalanceLineOf, data.balance))
  {
    var summary := SummaryTab(data.summary);
    if summary.Err? {
      return Err(summary.error);
    }
    var income := IncomeTab(data.income);
    if income.Err? {
      return Err(income.error);
    }
    var balance := BalanceTab(data.balance);
    if balance.Err? {
      return Err(balance.error);
    }
    var years, all, trend := IncomeCharts(data.income);
    if income.value.Income? {
      YearsIgnoreRowOrder(data.income, data.income, income.value.years, years);
    }
    var totals := CategoryTotals(data.balance);
    if totals.Err? {
      assert false;
    }
    return Ok(Page(summary.value, income.value, balance.value, SummaryChart(data.summary),
                   years, all, trend, totals.value));
  }
}
