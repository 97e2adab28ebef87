/** The Streamlit dashboard (dashboard.py): its metric card, the six cards
    at the top of the summary tab, the category totals of the balance sheet
    tab and the two 2024 margins of the analysis tab. The Streamlit widgets
    and Plotly charts are not modelled; each piece yields what it shows. */
module Dashboard {
  import opened Common
  import opened Numerals
  import opened Ordering
  import opened Grouping
  import opened KoreanUnits
  import opened Cards
  import SnowflakeConnector

  // ----- Metric card -----

  /** `create_metric_card(label, value, unit, change, change_label)` with the
      connector's `format_currency`. Unlike the static generator's card, the
      change is compared with 0 before the value is formatted. */
  function CreateMetricCard(title: Value, value: Value, unit: Value, change: Value, changeLabel: string): (r: Result<Card>)
    ensures change.Str? ==> r == Err(TypeError)
    ensures !change.Str? && IsWon(unit) ==> (r.Err? <==> value.Str?)
    ensures !change.Str? && !IsWon(unit) ==> (r.Err? <==> !value.Num?)
    ensures !change.Str? && !IsWon(unit) && value.Str? ==> r == Err(ValueError)
    ensures r.Ok? ==>
      && r.value.title == title
      && (r.value.badge.None? <==> change.Null?)
      && (r.value.badge.Some? ==> r.value.badge.value == BadgeOf(change.x, changeLabel))
      && (r.value.shown.Currency? <==> IsWon(unit))
    ensures r.Ok? && IsWon(unit) ==>
      r.value.shown.text == (if value.Null? then "0" else Numeral(value.x) + Marker(BandOf(value.x)) + " 원")
    ensures r.Ok? && !IsWon(unit) ==>
      r.value.shown.unit == unit && Without(r.value.shown.figure, ',') == Fixed(value.x, 1, false)
  {
    match ChangeBadge(change, changeLabel)
    case Err(e) => Err(e)
    case Ok(badge) =>
      if IsWon(unit) then
        match AmountOf(value)
        case Err(e) => Err(e)
        case Ok(a) =>
          assert value.Num? ==> SnowflakeConnector.FormatCurrency(a, "원") == Numeral(value.x) + Marker(BandOf(value.x)) + " 원";
          Ok(Card(title, Currency(SnowflakeConnector.FormatCurrency(a, "원")), badge))
      else
        match PlainFigure(value)
        case Err(e) => Err(e)
        case Ok(f) => Ok(Card(title, Plain(f, unit), badge))
  }

  /** A string change and a string value with another unit: the dashboard
      reports the change (TypeError) where the static page reports the
      value (ValueError). */
  lemma CardErrorOrder(title: Value, s: string, t: string, unit: string)
    requires unit != "원"
    ensures CreateMetricCard(title, Str(s), Str(unit), Str(t), "전년 대비") == Err(TypeError)
    ensures PlainFigure(Str(s)) == Err(ValueError)
  {
  }

  // ----- Top cards of the summary tab -----

  /** The card of one summary row in the loop over `head(6)`: `row['항목']`
      and `row['값']` raise KeyError when the column is absent; the caption
      is "전년 대비" exactly when there is a change. */
  function TopCard(row: Record): (r: Result<Card>)
    ensures !HasKey(row, SKey("항목")) || !HasKey(row, SKey("값")) ==> r == Err(KeyError)
    ensures r.Ok? ==> r.value.title == Get(row, SKey("항목")).value
    ensures r.Ok? && r.value.badge.Some? ==> r.value.badge.value.caption == "전년 대비"
    ensures r.Ok? ==> (r.value.badge.None? <==> GetOr(row, SKey("변동률"), Null) == Null)
    ensures HasKey(row, SKey("항목")) && HasKey(row, SKey("값")) ==>
      var change := GetOr(row, SKey("변동률"), Null);
      r == CreateMetricCard(Get(row, SKey("항목")).value, Get(row, SKey("값")).value, GetOr(row, SKey("단위"), Str("")),
                            change, if change != Null then "전년 대비" else "")
  {
    var change := GetOr(row, SKey("변동률"), Null);
    var changeLabel := if change != Null then "전년 대비" else "";
    match Get(row, SKey("항목"))
    case None => Err(KeyError)
    case Some(name) =>
      match Get(row, SKey("값"))
      case None => Err(KeyError)
      case Some(value) => CreateMetricCard(name, value, GetOr(row, SKey("단위"), Str("")), change, changeLabel)
  }

  /** A card placed in one of the three columns. */
  datatype Placed = Placed(column: nat, card: Card)

  function PlacedCard(p: (nat, Record)): (r: Result<Placed>)
    ensures r.Ok? <==> TopCard(p.1).Ok?
    ensures r.Ok? ==> r.value == Placed(p.0 % 3, TopCard(p.1).value)
  {
    match TopCard(p.1)
    case Err(e) => Err(e)
    case Ok(c) => Ok(Placed(p.0 % 3, c))
  }

  /** The rows paired with their positions, as `iterrows()` over a frame
      with the default index. */
  function Numbered(rows: seq<Record>): (ps: seq<(nat, Record)>)
    ensures |ps| == |rows|
    ensures forall i :: 0 <= i < |rows| ==> ps[i] == (i, rows[i])
  {
    seq(|rows|, i requires 0 <= i < |rows| => (i, rows[i]))
  }

  /** The cards at the top of the summary tab. */
  function TopCards(rows: seq<Record>): (r: Result<seq<Placed>>)
    ensures rows == [] ==> r == Ok([])
    ensures r.Ok? ==> |r.value| <= 6
  {
    TraverseSpec(PlacedCard, Numbered(rows[..Min(6, |rows|)]));
    Traverse(PlacedCard, Numbered(rows[..Min(6, |rows|)]))
  }

  /** Only the first six rows become cards, the i-th in column i % 3, so no
      column holds more than two; the first failing row aborts the tab. */
  lemma TopCardsMeaning(rows: seq<Record>)
    ensures TopCards(rows).Ok? ==> |TopCards(rows).value| == Min(6, |rows|)
    ensures TopCards(rows).Ok? ==> forall i :: 0 <= i < Min(6, |rows|) ==>
      TopCard(rows[i]).Ok? && TopCards(rows).value[i] == Placed(i % 3, TopCard(rows[i]).value)
  {
    var lead := Numbered(rows[..Min(6, |rows|)]);
    TraverseSpec(PlacedCard, lead);
    if TopCards(rows).Ok? {
      var cards := TopCards(rows).value;
      forall i | 0 <= i < Min(6, |rows|)
        ensures TopCard(rows[i]).Ok? && cards[i] == Placed(i % 3, TopCard(rows[i]).value)
      {
        assert lead[i] == (i, rows[i]);
        assert PlacedCard(lead[i]) == Ok(cards[i]);
      }
    }
  }

  /** The tab fails exactly when one of the first six rows fails. */
  lemma TopCardsFail(rows: seq<Record>)
    ensures TopCards(rows).Err? <==> exists i :: 0 <= i < Min(6, |rows|) && TopCard(rows[i]).Err?
  {
    var lead := Numbered(rows[..Min(6, |rows|)]);
    TraverseSpec(PlacedCard, lead);
    if TopCards(rows).Err? {
      var i :| 0 <= i < |lead| && PlacedCard(lead[i]).Err?;
      assert TopCard(rows[i]).Err?;
    }
    if exists i :: 0 <= i < Min(6, |rows|) && TopCard(rows[i]).Err? {
      var i :| 0 <= i < Min(6, |rows|) && TopCard(rows[i]).Err?;
      assert PlacedCard(lead[i]).Err?;
    }
  }

  /** Column c receives at most the cards of rows c and c + 3. */
  lemma ColumnHoldsTwo(rows: seq<Record>, c: nat, i: nat)
    requires TopCards(rows).Ok? && i < |TopCards(rows).value|
    requires TopCards(rows).value[i].column == c
    ensures i == c || i == c + 3
  {
    TopCardsMeaning(rows);
    assert i < 6 && c == i % 3;
    SixPositions(i);
  }

  lemma SixPositions(i: nat)
    requires i < 6
    ensures i == i % 3 || i == i % 3 + 3
  {
  }

  // ----- Category totals of the balance sheet tab -----

  /** `groupby('분류')['값'].sum()` on the (category, value) columns: one
      total per category, categories in ascending order. */
  function GroupBySum(pairs: seq<(string, real)>): (g: seq<(string, real)>)
    ensures |g| == |Dedup(Keys(pairs))|
    ensures forall i :: 0 <= i < |g| ==> g[i].1 == SumFor(pairs, g[i].0)
  {
    var keys := SortAscending(Dedup(Keys(pairs)));
    seq(|keys|, i requires 0 <= i < |keys| => (keys[i], SumFor(pairs, keys[i])))
  }

  /** Each category appears once, in ascending order, with the sum of its
      values; the totals add up to the sum of all values. */
  lemma GroupBySumMeaning(pairs: seq<(string, real)>)
    ensures StrictlyAscending(Keys(GroupBySum(pairs)))
    ensures forall k :: k in Keys(GroupBySum(pairs)) <==> k in Keys(pairs)
    ensures forall i :: 0 <= i < |GroupBySum(pairs)| ==> GroupBySum(pairs)[i].1 == SumFor(pairs, GroupBySum(pairs)[i].0)
    ensures SumAll(GroupBySum(pairs)) == SumAll(pairs)
  {
    var g := GroupBySum(pairs);
    var d := Dedup(Keys(pairs));
    assert NoDuplicates(d);
    SortAscendingDistinct(d);
    var keys := SortAscending(d);
    assert Keys(g) == keys;
    forall i, j | 0 <= i < j < |Keys(g)|
      ensures Keys(g)[i] != Keys(g)[j]
    {
      LessIrreflexive(keys[i]);
    }
    forall i | 0 <= i < |pairs|
      ensures pairs[i].0 in Keys(g)
    {
      assert Keys(pairs)[i] == pairs[i].0;
    }
    TotalsPreserveSum(pairs, g);
  }

  /** The dashboard and the static page show the same category totals,
      possibly in a different order. */
  lemma GroupBySumPermutes(pairs: seq<(string, real)>)
    ensures |GroupBySum(pairs)| == |Totals(pairs)|
    ensures forall p :: p in GroupBySum(pairs) <==> p in Totals(pairs)
  {
    var g := GroupBySum(pairs);
    var t := Totals(pairs);
    GroupBySumMeaning(pairs);
    TotalsMeaning(pairs);
    var d := Dedup(Keys(pairs));
    assert |SortDescending(d)| == |d| by {
      assert |multiset(SortDescending(d))| == |multiset(d)|;
    }
    SameSums(pairs, g, t);
  }

  /** The orders do differ: the static page lists 자산 before 부채 as they
      come, the dashboard lists 부채 first. */
  lemma GroupByOrderDiffers()
    ensures var pairs := [("자산", 1.0), ("부채", 2.0)];
      Keys(Totals(pairs)) == ["자산", "부채"] && Keys(GroupBySum(pairs)) != Keys(Totals(pairs))
  {
    var pairs := [("자산", 1.0), ("부채", 2.0)];
    TotalsMeaning(pairs);
    assert Keys(pairs) == ["자산", "부채"];
    assert pairs[..1] == [("자산", 1.0)];
    assert Dedup(Keys(pairs)) == ["자산", "부채"] by {
      assert Keys(pairs)[..1] == ["자산"];
      assert ["자산"][..0] == [];
    }
    GroupBySumMeaning(pairs);
    assert !Less("자산", "부채");
  }

  // ----- Margins of the analysis tab -----

  /** A row of the income statement query: item, year and amount. */
  datatype IncomeRow = IncomeRow(item: string, year: int, amount: real)

  /** `income_data[(항목 == item) & (연도 == year)]['금액'].values`, in row order. */
  function AmountsOf(rows: seq<IncomeRow>, item: string, year: int): (a: seq<real>)
    ensures |a| <= |rows|
    ensures a == [] <==> forall i :: 0 <= i < |rows| ==> rows[i].item != item || rows[i].year != year
  {
    if rows == [] then []
    else
      var rest := AmountsOf(rows[1..], item, year);
      assert forall i :: 1 <= i < |rows| ==> rows[i] == rows[1..][i - 1];
      if rows[0].item == item && rows[0].year == year then [rows[0].amount] + rest else rest
  }

  /** The first amount is that of the first matching row. */
  lemma {:induction false} AmountsFirst(rows: seq<IncomeRow>, item: string, year: int, k: nat)
    requires k < |rows| && rows[k].item == item && rows[k].year == year
    requires forall i :: 0 <= i < k ==> rows[i].item != item || rows[i].year != year
    ensures AmountsOf(rows, item, year) != [] && AmountsOf(rows, item, year)[0] == rows[k].amount
  {
    if k > 0 {
      AmountsFirst(rows[1..], item, year, k - 1);
    }
  }

  /** A margin shown as `st.metric(label, f"{m:.2f}%")`. */
  datatype Metric = Metric(ratio: real, text: string)

  function MetricOf(ratio: real): (m: Metric)
    ensures m.ratio == ratio
    ensures |m.text| >= 2 && m.text[|m.text| - 1] == '%'
    ensures ParseDecimal(m.text[..|m.text| - 1]) == Some(Rounded(ratio, 2))
  {
    SnowflakeConnector.FormatPercentageReadsBack(ratio, 2);
    Metric(ratio, SnowflakeConnector.FormatPercentage(Finite(ratio), 2))
  }

  datatype Margins = Margins(operating: Option<Metric>, net: Option<Metric>)

  const MarginYear := 2024

  /** The operating margin, shown only when 2024 revenue and operating
      profit rows exist and revenue is positive. */
  function OperatingMargin(rows: seq<IncomeRow>): (m: Option<Metric>)
    ensures var rev := AmountsOf(rows, "매출액", MarginYear);
      var op := AmountsOf(rows, "영업이익", MarginYear);
      && (m.Some? <==> rev != [] && op != [] && rev[0] > 0.0)
      && (m.Some? ==> m.value.ratio == Margin(op[0], rev[0]))
  {
    var rev := AmountsOf(rows, "매출액", MarginYear);
    var op := AmountsOf(rows, "영업이익", MarginYear);
    if |rev| > 0 && |op| > 0 && rev[0] > 0.0 then
      Some(MetricOf(Margin(op[0], rev[0])))
    else None
  }

  /** `(part / base) * 100` as a metric: times its base it gives back a
      hundred times the part. */
  function Margin(part: real, base: real): (ratio: real)
    requires base > 0.0
    ensures ratio * base == part * 100.0
  {
    var ratio := (part / base) * 100.0;
    assert ratio * base == part * 100.0 by {
      calc {
        ratio * base;
        ((part / base) * base) * 100.0;
        part * 100.0;
      }
    }
    ratio
  }

  /** The analysis tab's margins as written: the net margin's guard tests
      `revenue_2024[0] > 0` without checking that a revenue row exists, so
      a 2024 net income row without a 2024 revenue row raises IndexError
      (and the page shows its load error). The operating margin has not
      been shown before the error: its guard also needs a revenue row, so
      no metric is lost with the `Err` result. */
  function MarginsAsWritten(rows: seq<IncomeRow>): (r: Result<Margins>)
    ensures var rev := AmountsOf(rows, "매출액", MarginYear);
      var net := AmountsOf(rows, "순이익", MarginYear);
      r.Err? <==> net != [] && rev == []
  {
    var rev := AmountsOf(rows, "매출액", MarginYear);
    var net := AmountsOf(rows, "순이익", MarginYear);
    var operating := OperatingMargin(rows);
    if |net| > 0 then
      if |rev| == 0 then Err(IndexError)
      else if rev[0] > 0.0 then Ok(Margins(operating, Some(MetricOf(Margin(net[0], rev[0])))))
      else Ok(Margins(operating, None))
    else Ok(Margins(operating, None))
  }

  /** A single 2024 net income row is enough to make the tab fail. */
  lemma NetMarginIndexError()
    ensures MarginsAsWritten([IncomeRow("순이익", 2024, 5.0)]) == Err(IndexError)
  {
    var rows := [IncomeRow("순이익", 2024, 5.0)];
    assert AmountsOf(rows, "순이익", MarginYear) != [];
    assert AmountsOf(rows, "매출액", MarginYear) == [];
  }

  /** The margins with the guard the operating margin already has: a net
      margin needs a revenue row too. Never fails. */
  function Margins2024(rows: seq<IncomeRow>): (m: Margins)
    ensures var rev := AmountsOf(rows, "매출액", MarginYear);
      var net := AmountsOf(rows, "순이익", MarginYear);
      && m.operating == OperatingMargin(rows)
      && (m.net.Some? <==> rev != [] && net != [] && rev[0] > 0.0)
      && (m.net.Some? ==> m.net.value.ratio == Margin(net[0], rev[0]))
  {
    var rev := AmountsOf(rows, "매출액", MarginYear);
    var net := AmountsOf(rows, "순이익", MarginYear);
    var net' :=
      if |net| > 0 && |rev| > 0 && rev[0] > 0.0 then Some(MetricOf(Margin(net[0], rev[0]))) else None;
    Margins(OperatingMargin(rows), net')
  }

  /** Wherever the code as written succeeds, the corrected margins agree
      with it. */
  lemma MarginsCorrectionAgrees(rows: seq<IncomeRow>)
    requires MarginsAsWritten(rows).Ok?
    ensures MarginsAsWritten(rows).value == Margins2024(rows)
  {
  }

  /** Both margins are ratios to the first 2024 revenue row: a margin is
      shown only when that revenue is positive, so no division by zero. */
  lemma MarginsDivideByRevenue(rows: seq<IncomeRow>)
    requires Margins2024(rows).operating.Some? || Margins2024(rows).net.Some?
    ensures AmountsOf(rows, "매출액", MarginYear) != [] && AmountsOf(rows, "매출액", MarginYear)[0] > 0.0
  {
  }

  /** The year is fixed: rows of other years never produce a margin. */
  lemma {:induction false} MarginsIgnoreOtherYears(rows: seq<IncomeRow>)
    requires forall i :: 0 <= i < |rows| ==> rows[i].year != MarginYear
    ensures Margins2024(rows) == Margins(None, None)
  {
  }
}
