# Korean financial figures and report shaping

This project models the data layer of a small financial dashboard. The
dashboard shows a company's summary metrics, its income statement by year
and its balance sheet. It does so three ways: as an interactive Streamlit
page (`dashboard.py`), as a static HTML page (`generate_dashboard_html.py`),
and as an HTML report built by a `FinancialReportGenerator` class
(`financial_report_generator.py`). All three print amounts in Korean large
units: 조 (10^12), 억 (10^8) and 만 (10^4). Each does this through its own
copy of the formatter (`format_currency` in `snowflake_connector.py` and in
`generate_dashboard_html.py`, and `_format_number` in the report generator).

The model covers these parts:

- the three formatters and `format_percentage`. Each formatter is proved
  to read back: parsing the printed figure and its unit marker gives the
  amount back, within the rounding of that unit.
- the metric cards of all three presenters: which formatter shows the
  value, the arrow and class chosen by the sign of the change, and the
  truncation to six cards.
- year-column extraction. The HTML page keeps keys containing "년"; the
  report keeps digit keys, at most five.
- the income pivot, and the comparison chart of the report.
- the category totals of the balance sheet in first-seen order, the
  pandas group-by in sorted order, and the report's substring filters for
  assets, liabilities and equity.
- the report's generic table and its constructor.
- the 2024 margin ratios of the Streamlit page.

Files, one module each:

- `common.dfy`: field values, rows as ordered association lists, `dict.get`, Python exceptions, and a loop that stops at the first error (`Traverse`).
- `numerals.dfy`: Python's `:.Nf` and `:,.Nf` formatting, the `float()` parser, and `str.replace` of one character.
- `ordering.dfy`: Python's ordering of `str` and `sorted`.
- `grouping.dfy`: first-seen de-duplication and group-by-sum over an ordered dict.
- `korean_units.dfy`: the four bands, their markers, and a reader for the printed text.
- `cards.dfy`: the metric card shared by the HTML page and the Streamlit page.
- `snowflake_connector.dfy`, `dashboard_html.dfy`, `report_generator.dfy`, `dashboard.dfy`: one per source file.

The loops of the source that build lists, sets and dicts are Dafny methods
with loop invariants. Each such method is proved against a recursive
specification function, and the properties of the source are proved about
those functions as lemmas. The pure formatting and presentation code is
written as functions.

Where the written description of the system and the code disagree, the
model follows the code:

- Balance-sheet classification. The report filters the names for "자산", "부채" and "자본" independently, so one item can count in two totals. It is not a first-match priority (`ReportGenerator.CountedTwice`).
- Unparsable strings. `_format_number` returns an unparsable string unchanged rather than turning it into 0. Only the comparison chart turns it into 0 (`ReportGenerator.ChartValueMeaning`).
- The net margin. It is not simply omitted when 2024 revenue is missing: the code raises IndexError (see Findings).
- The margin year. It stays the literal 2024, as in the code (`Dashboard.MarginYear`).

## Model

| member | source | states |
|---|---|---|
| Common.Get | generate_dashboard_html.py:30-33 | `dict.get` finds nothing exactly when the key is absent, and otherwise returns a value stored under that key |
| Common.Resolve | financial_report_generator.py:57-60 | a field is read under its Korean key if present, else under its English key, else the default |
| Common.ResolvePrefersPrimary | financial_report_generator.py:57-60 | whenever the Korean key is present, its value wins whatever the English key holds |
| Common.TraverseSpec | generate_dashboard_html.py:61-62 | a loop over rows that raises at the first bad row succeeds iff no row fails; it then holds one result per row in order; otherwise it raises the first failing row's error |
| Common.TraverseStops | generate_dashboard_html.py:61-62 | once a prefix of the rows has raised, later rows cannot change the outcome |
| Numerals.Abs | snowflake_connector.py:143 | `abs` is non-negative and equals x or -x |
| Numerals.NatTextValue | snowflake_connector.py:152 | the decimal digits printed for n read back as n |
| Numerals.NatTextSplit | snowflake_connector.py:152 | the digits of m are the digits of m without its last k digits, followed by those k digits zero-padded |
| Numerals.GroupedUngroups | snowflake_connector.py:152 | removing the thousands separators of `{n:,}` leaves exactly the plain digits of n |
| Numerals.FixedUngroups | generate_dashboard_html.py:35 | `{x:,.Nf}` without its commas is `{x:.Nf}` |
| Numerals.RoundHalfUp | snowflake_connector.py:146 | the rounded count of units lies within half a unit of the exact value |
| Numerals.FixedParses | snowflake_connector.py:146 | `float()` of `{x:.Nf}` is x rounded to N places, so the printed text means what it shows |
| Numerals.FixedPlaces | snowflake_connector.py:159 | `{x:.Nf}` has exactly N digits after its only point, and no point when N is 0 |
| Numerals.RoundedError | snowflake_connector.py:159 | the printed value differs from x by at most half a unit in the last printed place |
| Numerals.FixedChars | snowflake_connector.py:146 | a printed number holds only digits, commas, points and a minus sign; it has no plus sign; a minus appears only in front and exactly when x is negative (the single point is stated by `Numerals.FixedPlaces`) |
| Numerals.WithoutConcat | financial_report_generator.py:288 | removing a character from joined text removes it from each part |
| Numerals.WithoutAbsent | financial_report_generator.py:288 | removing a character the text does not hold leaves it unchanged |
| Ordering.LessIrreflexive | generate_dashboard_html.py:140 | no string sorts before itself |
| Ordering.LessTransitive | generate_dashboard_html.py:140 | Python's string order is transitive |
| Ordering.LessTotal | generate_dashboard_html.py:140 | any two different strings are ordered one way |
| Ordering.SortDescending | generate_dashboard_html.py:140 | `sorted(..., reverse=True)` is a permutation of its input and non-increasing |
| Ordering.SortDistinct | generate_dashboard_html.py:134-140 | sorting distinct strings in reverse gives a strictly descending list |
| Ordering.StrictlyDescendingUnique | generate_dashboard_html.py:134-140 | two strictly descending lists with the same members are equal |
| Ordering.SortAscendingDistinct | dashboard.py:712 | `sorted` of distinct strings is strictly ascending and holds the same strings |
| Ordering.Reverse | dashboard.py:712 | reversal keeps the length and the multiset and reads the input back to front |
| Grouping.Dedup | generate_dashboard_html.py:205-210 | first-seen de-duplication holds no duplicates and exactly the input's members |
| Grouping.DedupFirstOccurrence | generate_dashboard_html.py:205-210 | de-duplicated keys keep the order of their first occurrence in the input |
| Grouping.FirstIndex | generate_dashboard_html.py:208 | the position of the first occurrence of a member |
| Grouping.IndexOf | generate_dashboard_html.py:336-338 | where a key sits in an ordered dict, or its size when the key is absent |
| Grouping.Update | generate_dashboard_html.py:336-338 | adding an amount to a known category replaces that one entry with its total plus the amount and leaves the others; a new category is appended last with the amount |
| Grouping.TotalsSnoc | generate_dashboard_html.py:333-338 | the totals of one more pair are the earlier totals updated by `Update` with that pair |
| Grouping.TotalsMeaning | generate_dashboard_html.py:333-338 | the totals hold each category once in first-seen order, each with the sum of that category's amounts |
| Grouping.TotalsPreserveAll | generate_dashboard_html.py:213-215 | the category totals add up to the sum of all amounts |
| Grouping.SameSums | dashboard.py:712 | two tables of per-category sums over the same categories hold the same entries whatever their order |
| KoreanUnits.AmountOf | generate_dashboard_html.py:13-16 | a missing field passes to the formatter as None, and `abs` of a string raises TypeError |
| KoreanUnits.BandBounds | snowflake_connector.py:143-152 | exactly one band applies, chosen by the thresholds on |x| (조 ≥ 10^12, 억 ≥ 10^8, 만 ≥ 10^4, else plain); x and -x fall in the same band |
| KoreanUnits.ScaledFigureRange | snowflake_connector.py:145-150 | a scaled figure is at least 1, and below 10000 in the 억 and 만 bands |
| KoreanUnits.NumeralNegated | snowflake_connector.py:143-152 | the figure of -x is the figure of x with a leading minus |
| KoreanUnits.NegatedFixed | snowflake_connector.py:146 | printing -x prints x behind a minus sign |
| KoreanUnits.BandNamedMarker | snowflake_connector.py:146-150 | the reader recognises each band's marker |
| KoreanUnits.NumeralSpanOf | snowflake_connector.py:146-152 | the reader's figure ends exactly where the printed number ends |
| KoreanUnits.FigureValue | snowflake_connector.py:145-152 | the printed figure, without separators, parses as the scaled value rounded to 2 places (0 in the plain band) |
| KoreanUnits.FigureError | snowflake_connector.py:145-152 | scaling the rounded figure back differs from x by at most half a unit of its band's last place |
| KoreanUnits.KoreanRoundTrip | snowflake_connector.py:145-152 | figure, marker and any tail not starting with a digit read back to x within the band's tolerance |
| KoreanUnits.ReadBack | snowflake_connector.py:145-152 | a figure that parses as y, followed by band b's marker, reads as y times b's scale |
| KoreanUnits.FixedNoCommas | snowflake_connector.py:146 | `:.2f` prints no thousands separator |
| SnowflakeConnector.FormatCurrency | snowflake_connector.py:138-152 | None and NaN give "0" with no unit; any other amount gives its band's figure, the band's marker, a space and the unit |
| SnowflakeConnector.FormatCurrencyReadsBack | snowflake_connector.py:138-152 | the text of any amount reads back to that amount within the rounding of its band |
| SnowflakeConnector.FormatCurrencyMarker | snowflake_connector.py:145-152 | what follows the printed number is exactly the band marker, a space and the unit |
| SnowflakeConnector.FormatCurrencyNegated | snowflake_connector.py:143-152 | a negative amount prints as its magnitude behind a minus sign |
| SnowflakeConnector.FormatPercentage | snowflake_connector.py:155-159 | the text ends in "%", and None and NaN give "0%" |
| SnowflakeConnector.FormatPercentageReadsBack | snowflake_connector.py:159 | before the "%" stands the value rounded to `decimals` places, with exactly that many digits after the point |
| Cards.BadgeOf | generate_dashboard_html.py:38-41 | the arrow points up iff the change is ≥ 0; the magnitude shown is |change| to one place, with no minus sign |
| Cards.FixedUnsigned | generate_dashboard_html.py:41 | printing a non-negative number shows no minus sign |
| Cards.ChangeBadge | generate_dashboard_html.py:37-41 | no change line for None, a TypeError for a string change, otherwise the change line of its number |
| Cards.PlainFigure | generate_dashboard_html.py:35 | `{value:,.1f}` is the number to one place with separators; a string raises ValueError and None raises TypeError |
| DashboardHtml.FormatCurrency | generate_dashboard_html.py:11-25 | None gives "0"; there is no NaN test, so NaN prints as "nan" and the unit; other amounts print as in the connector |
| DashboardHtml.AgreesWithConnector | generate_dashboard_html.py:11-25 | the two `format_currency` copies differ exactly on NaN |
| DashboardHtml.CurrencyCell | generate_dashboard_html.py:149-150 | a table cell in 원 fails iff the value is a string; None gives "0" |
| DashboardHtml.ShownValue | generate_dashboard_html.py:35 | only the unit "원" goes through `format_currency`; any other unit shows the value to one place with separators, then the unit; the failing inputs of each path |
| DashboardHtml.MetricCard | generate_dashboard_html.py:28-49 | the card's title; its value is `ShownValue` of 값 and 단위; its change line is `ChangeBadge` of 변동률 (none iff the change is missing or None; up iff ≥ 0, the magnitude `abs(change)` to one place, captioned "전년 대비"); it fails iff the value or the change cannot be formatted |
| DashboardHtml.SignedPercent | generate_dashboard_html.py:78 | `{change:+.1f}%` starts with the sign of the change and reads back as the change to one place |
| DashboardHtml.SummaryLineOf | generate_dashboard_html.py:71-87 | a table line shows the name and `ShownValue` of 값 and 단위; its change is `SignedPercent` of a numeric change and "-" iff the change is missing or None; it has the positive class iff the change is a number ≥ 0 |
| DashboardHtml.SummaryTab | generate_dashboard_html.py:52-123 | empty data gives the no-data tab; otherwise the cards are those of the first six rows and the table has a line for every row; it fails iff a card or a line fails |
| DashboardHtml.SummaryCardsLeading | generate_dashboard_html.py:61-62 | at most six cards, the i-th being the card of the i-th row |
| DashboardHtml.LeadingCards | generate_dashboard_html.py:61-62 | the card loop yields the cards of the leading rows, or the first error |
| DashboardHtml.SummaryLines | generate_dashboard_html.py:71-87 | the table loop yields one line per row, or the first error |
| DashboardHtml.RowYearsMember | generate_dashboard_html.py:136-137 | a row contributes a year exactly for its string keys other than "항목" that contain "년" |
| DashboardHtml.YearKeysMember | generate_dashboard_html.py:134-139 | a label is a year iff some row contributes it |
| DashboardHtml.ExtractYears | generate_dashboard_html.py:134-140 | the year list holds exactly the year labels of all rows, strictly descending, so with no duplicates |
| DashboardHtml.YearsIgnoreRowOrder | generate_dashboard_html.py:134-140 | reordering the rows does not change the year list |
| DashboardHtml.PivotRow | generate_dashboard_html.py:149 | one value per year column, in year order, and 0 for a year the row lacks |
| DashboardHtml.IncomeLine | generate_dashboard_html.py:144-152 | a table line holds the row's name and one cell per year |
| DashboardHtml.PivotReproducesCells | generate_dashboard_html.py:148-149 | the pivot cell of a year is the row's own value for that year, and 0 when the row lacks that year |
| DashboardHtml.IncomeLineCells | generate_dashboard_html.py:143-152 | every table line has exactly one cell per year, in year order, each the currency text of that year's value |
| DashboardHtml.IncomeLineFails | generate_dashboard_html.py:148-150 | a line fails iff one of its year values is a string |
| DashboardHtml.IncomeTable | generate_dashboard_html.py:143-152 | the table loop yields one line per row, or the first error |
| DashboardHtml.IncomeFails | generate_dashboard_html.py:134-152 | the income table fails iff some row holds a string under a year column |
| DashboardHtml.IncomeTab | generate_dashboard_html.py:126-194 | empty data gives the no-data tab; otherwise the tab has the sorted distinct years and one table line per row; it fails iff some year cell is a string |
| DashboardHtml.AllDatasets | generate_dashboard_html.py:303-313 | one dataset per row, with the row's name, its pivot over the years and colour number i mod 7 |
| DashboardHtml.FirstNamed | generate_dashboard_html.py:321 | `next(...)` finds a position within the rows |
| DashboardHtml.FirstNamedMeaning | generate_dashboard_html.py:321 | the position found is the first row with that name, and none is found iff no row has it |
| DashboardHtml.Trend | generate_dashboard_html.py:317-329 | at most one dataset per main item, each titled with the main item its colour indexes |
| DashboardHtml.TrendEntries | generate_dashboard_html.py:317-329 | each trend dataset is a main item taken from the first row of that name, and the items keep the fixed order 매출액, 영업이익, 순이익 |
| DashboardHtml.TrendStep | generate_dashboard_html.py:320-329 | each main item adds one dataset iff some row names it |
| DashboardHtml.TrendCovers | generate_dashboard_html.py:317-329 | a main item has a trend dataset iff some row names it |
| DashboardHtml.TrendDatasets | generate_dashboard_html.py:317-329 | the trend loop yields the trend of all three main items |
| DashboardHtml.PairOf | generate_dashboard_html.py:335-338 | a row contributes its category ("기타" if missing) and amount; a non-numeric amount raises TypeError |
| DashboardHtml.CategoryTotals | generate_dashboard_html.py:333-338 | the totals loop fails on a non-numeric amount and otherwise yields the ordered category totals |
| DashboardHtml.AddToTotal | generate_dashboard_html.py:336-338 | one step of the loop adds the amount to its category, appending a new category at the end |
| DashboardHtml.TotalsFail | generate_dashboard_html.py:333-338 | the totals fail iff some row's amount is not a number |
| DashboardHtml.Categories | generate_dashboard_html.py:207 | the category of each row in order |
| DashboardHtml.PairKeys | generate_dashboard_html.py:335 | the categories of the pairs are those of the rows |
| DashboardHtml.CategoryTotalsMeaning | generate_dashboard_html.py:205-215 | each category appears once, in first-seen order; each total is the sum of its rows; all totals add up to the sum of all amounts |
| DashboardHtml.BalanceLineOf | generate_dashboard_html.py:219-223 | a detail line shows the name, the amount's currency text (`CurrencyCell`) and the category with default '' (not '기타'); it fails iff the amount is a string |
| DashboardHtml.BalanceLines | generate_dashboard_html.py:218-230 | the detail loop yields one line per row, or the first error |
| DashboardHtml.BalanceLinesFollow | generate_dashboard_html.py:205-230 | once the totals succeed, the detail table succeeds with one line per row |
| DashboardHtml.OverviewOf | generate_dashboard_html.py:213-215 | one overview entry per category total, with the total's currency text |
| DashboardHtml.BalanceTab | generate_dashboard_html.py:197-272 | empty data gives the no-data tab; otherwise it fails iff the totals fail, and shows the category totals and one detail line per row |
| DashboardHtml.SummaryChart | generate_dashboard_html.py:288-290 | one label, value and change per summary row: its 항목 (default ''), its 값 (default 0) and its 변동률 (default 0) |
| DashboardHtml.SummaryChartMatchesCards | generate_dashboard_html.py:288-290 | a chart label is its card's title, and a non-zero charted change has a change line on the card |
| DashboardHtml.IncomeCharts | generate_dashboard_html.py:293-330 | the page's year list, one dataset per row with its name, its pivot and colour i mod 7, and the trend datasets |
| DashboardHtml.GenerateHtml | generate_dashboard_html.py:275-341 | the page fails iff one of its tabs fails; otherwise it holds the summary, income and balance tabs as `SummaryTab`, `IncomeTab` and `BalanceTab` state them (the no-data tab exactly for an empty list), the summary chart lists of `SummaryChart`, the years of the income tab, one dataset per income row with its name, its pivot and colour i mod 7, the trend, and the category totals |
| ReportGenerator.Section | financial_report_generator.py:49 | `self.data.get(name, [])` gives the rows stored under the name, and no rows when the data has no such section |
| ReportGenerator.Create | financial_report_generator.py:21-26 | a given file path wins, with its load outcome; else a non-empty dict is used; else ValueError, also for an empty dict |
| ReportGenerator.StripStart | financial_report_generator.py:288 | `lstrip` leaves a suffix that does not start with whitespace |
| ReportGenerator.StripEnd | financial_report_generator.py:288 | `rstrip` leaves a prefix that does not end with whitespace |
| ReportGenerator.StripUnspaced | financial_report_generator.py:288 | text with no whitespace at either end is unchanged by `strip` |
| ReportGenerator.FormatNumber | financial_report_generator.py:284-299 | a number gets its band's figure and marker with no space or unit; a string is cleaned, and returned unchanged when it does not parse; None raises TypeError |
| ReportGenerator.FormatAmount | financial_report_generator.py:292-299 | the band tests give the band figure followed by its marker |
| ReportGenerator.FormatNumberMatchesConnector | financial_report_generator.py:292-299 | the report's text plus a space and the unit is exactly the connector's `format_currency` |
| ReportGenerator.FormatNumberReadsBack | financial_report_generator.py:292-299 | the report's text of x reads back to x within the rounding of its band |
| ReportGenerator.ParseRejectsTail | financial_report_generator.py:288 | `float()` rejects text that ends in anything but a digit or a point |
| ReportGenerator.CleanUnchanged | financial_report_generator.py:288 | cleaning leaves text without ',', '원' or outer whitespace unchanged |
| ReportGenerator.NumeralsPlain | financial_report_generator.py:288 | a printed number holds neither '원' nor whitespace |
| ReportGenerator.ScaledTextKept | financial_report_generator.py:288-290 | a scaled text such as "1.50억" survives cleaning but does not parse, so it comes back unchanged |
| ReportGenerator.FormatNumberIdempotent | financial_report_generator.py:284-299 | formatting a number's own text again changes nothing (plain-band values away from the rounding edges) |
| ReportGenerator.OnesReadBack | financial_report_generator.py:288-299 | a plain-band text cleans and parses to the rounded value |
| ReportGenerator.RoundedReprints | financial_report_generator.py:299 | the rounded value stays in the plain band and prints the same |
| ReportGenerator.OnesIdempotent | financial_report_generator.py:286-299 | the plain-band text formats to itself |
| ReportGenerator.OnesText | financial_report_generator.py:298-299 | the plain band prints `{x:,.0f}` |
| ReportGenerator.ParsedString | financial_report_generator.py:286-288 | a string that cleans and parses as y formats as y |
| ReportGenerator.IntTextMeaning | financial_report_generator.py:169 | `str(n)` is the digits of n, behind a minus sign when negative |
| ReportGenerator.YearOfKey | financial_report_generator.py:166-169 | a string key taken as a year is kept as written, and an int key is always a year |
| ReportGenerator.YearOfKeyMeaning | financial_report_generator.py:166-169 | a string key is a year iff it is non-empty digits once '년' and spaces are removed, and it is kept as written; an int key is kept as `str(key)` |
| ReportGenerator.DigitsKeepClean | financial_report_generator.py:166 | a digit-only key loses nothing when '년' and spaces are removed |
| ReportGenerator.RowYearWitness | financial_report_generator.py:165-169 | every year taken from a row comes from one of its keys |
| ReportGenerator.RowYearPresent | financial_report_generator.py:165-169 | every year key of a row is taken |
| ReportGenerator.AddRowYears | financial_report_generator.py:165-169 | the inner loop adds exactly the row's years to the set |
| ReportGenerator.CollectYears | financial_report_generator.py:163-169 | the nested loops collect exactly the years of all rows |
| ReportGenerator.ListOf | financial_report_generator.py:170 | `list(years)` holds each member of the set once |
| ReportGenerator.SortedSet | financial_report_generator.py:170 | the sorted list of the set is strictly descending and holds exactly the set |
| ReportGenerator.Leading | financial_report_generator.py:170 | the first n of a strictly descending list are the n largest |
| ReportGenerator.ExtractYears | financial_report_generator.py:161-170 | the result is strictly descending, holds min(5, number of years) years of the data, and every year left out is smaller than all those kept |
| ReportGenerator.YearWitness | financial_report_generator.py:163-169 | every collected year comes from some row's key |
| ReportGenerator.YearPresent | financial_report_generator.py:163-169 | every year key of every row is collected |
| ReportGenerator.KeysOf | financial_report_generator.py:178 | the headers are the first row's keys, in order |
| ReportGenerator.Cell | financial_report_generator.py:186-188 | a missing header gives '', and a cell never holds a raw number |
| ReportGenerator.CellMeaning | financial_report_generator.py:186-188 | a cell shows the row's value under that header (a number through `_format_number`), and '' when the row lacks it |
| ReportGenerator.TableCell | financial_report_generator.py:182-191 | every body row has one cell per header, cell (i, j) being row i's cell under header j |
| ReportGenerator.RowCellsAt | financial_report_generator.py:185-189 | the j-th cell of a row is its cell under the j-th header |
| ReportGenerator.BodyAt | financial_report_generator.py:183-190 | the i-th body row is the cells of the i-th data row |
| ReportGenerator.TableRow | financial_report_generator.py:185-189 | the inner loop yields the row's cells, one per header |
| ReportGenerator.GenerateTable | financial_report_generator.py:172-193 | empty data gives the no-data table; otherwise the headers are the first row's keys and the body is the cells of every row |
| ReportGenerator.ChartValue | financial_report_generator.py:206-211 | a string becomes a number, and any other value is kept |
| ReportGenerator.YearValue | financial_report_generator.py:205 | the row's value under the year, or 0 when the row lacks it: the fallback lookup adds nothing |
| ReportGenerator.Chart | financial_report_generator.py:200-212 | no more entries than rows, none iff there are no rows, and one value per year in every entry |
| ReportGenerator.ChartValueMeaning | financial_report_generator.py:205-211 | a charted string becomes its parsed number, or 0 when it does not parse, although `_format_number` would return it unchanged; other values are kept |
| ReportGenerator.ChartRowAt | financial_report_generator.py:204-212 | the k-th charted value of a row is the cleaned value of the k-th year |
| ReportGenerator.ChartRowReadsCell | financial_report_generator.py:205 | a row's value under a year label is what the chart shows for that year |
| ReportGenerator.IntYearUnread | financial_report_generator.py:205 | a year kept from an int key is looked up under its string, so that column charts as 0 |
| ReportGenerator.NameIndex | financial_report_generator.py:203 | where a name already sits in the chart dict, or its size when it is absent |
| ReportGenerator.PutFacts | financial_report_generator.py:203 | assigning a name in the dict replaces its entry in place or appends it at the end, and changes nothing else |
| ReportGenerator.PutReplace | financial_report_generator.py:203-212 | filling a name's list after assigning it equals assigning the filled list |
| ReportGenerator.LastNamed | financial_report_generator.py:201-203 | the last row of a name exists and no later row has that name |
| ReportGenerator.ChartNames | financial_report_generator.py:200-212 | the chart's names are names of the rows, each once |
| ReportGenerator.ChartCovers | financial_report_generator.py:200-212 | every row's name is in the chart |
| ReportGenerator.ChartValues | financial_report_generator.py:200-212 | a name's values are those of the last row with that name, so later rows overwrite earlier ones |
| ReportGenerator.RowValues | financial_report_generator.py:204-212 | the inner loop yields the row's charted values, one per year |
| ReportGenerator.PutRow | financial_report_generator.py:202-212 | one pass of the outer loop sets the row's name to its charted values |
| ReportGenerator.ChartOf | financial_report_generator.py:200-212 | the outer loop builds the chart dict of all rows |
| ReportGenerator.ComparisonChart | financial_report_generator.py:195-223 | no chart iff there are no years; otherwise one dataset per distinct name, in dict order, with colour number i mod 5 |
| ReportGenerator.Mentions | financial_report_generator.py:137-139 | a row mentions a word only when its name is a string at least as long as the word |
| ReportGenerator.Contains | financial_report_generator.py:137-139 | text containing a word is at least as long, and the empty word is in every text |
| ReportGenerator.Filter | financial_report_generator.py:137-139 | a filter keeps only rows whose name contains the word |
| ReportGenerator.Sum | financial_report_generator.py:263-265 | the sum of no rows is 0, and a failing sum raises TypeError |
| ReportGenerator.SumFails | financial_report_generator.py:263-265 | `sum` fails iff some value is not a number |
| ReportGenerator.SumSnoc | financial_report_generator.py:263-265 | the sum over one more row with a numeric value is the earlier sum plus that value |
| ReportGenerator.FilteredSum | financial_report_generator.py:137-139 | the total of a filter is the sum over the rows whose name contains the word |
| ReportGenerator.PartitionTotals | financial_report_generator.py:137-139 | when each name contains exactly one of the three words, the three totals add up to the sum of all values |
| ReportGenerator.CountedTwice | financial_report_generator.py:137-139 | the filters are independent: "부채와자본총계" counts as a liability and as equity |
| ReportGenerator.ContainsAt | financial_report_generator.py:137 | a word that starts at some position of the name is contained in it |
| ReportGenerator.MissingChar | financial_report_generator.py:137 | a word with a character the name lacks is not contained in it |
| ReportGenerator.BalanceChartOf | financial_report_generator.py:261-282 | the three totals in order, each through `_format_number`; it fails iff some value is not a number |
| ReportGenerator.BalanceTotalsMeaning | financial_report_generator.py:261-282 | each total shown is the sum over the rows whose name mentions its word |
| ReportGenerator.SummaryCard | financial_report_generator.py:56-73 | a card fails only with TypeError, and exactly when its change is not a number or its value is None |
| ReportGenerator.SummaryCardMeaning | financial_report_generator.py:56-73 | a card fails with TypeError iff its change is not a number or its value is None; otherwise it shows the resolved name, unit and formatted value, with the arrow up iff the change is ≥ 0 and the magnitude `abs(change)` to one place (`BadgeOf`) |
| ReportGenerator.MissingChangeIsUp | financial_report_generator.py:60-63 | a row without any change shows "↑" and 0.0 |
| ReportGenerator.SummaryCards | financial_report_generator.py:56-73 | the card loop takes the first six rows, or stops at the first error |
| ReportGenerator.GenerateSummaryTab | financial_report_generator.py:47-97 | empty data gives the no-data tab; otherwise the cards of the first six rows, and the table of all rows headed by the first row's keys |
| ReportGenerator.GenerateIncomeTab | financial_report_generator.py:99-127 | empty data gives the no-data tab; otherwise the five largest years of the rows, strictly descending; a chart iff there are years, one dataset per distinct name with colour i mod 5; and the table of all rows headed by the first row's keys |
| ReportGenerator.GenerateBalanceTab | financial_report_generator.py:129-159 | empty data gives the no-data tab; otherwise it fails iff a filtered value is not a number, and shows the three totals and the table of all rows headed by the first row's keys |
| Dashboard.CreateMetricCard | dashboard.py:404-421 | the change line (none iff None; arrow by sign; `abs` to one place; the label), then the value through `format_currency` iff the unit is "원"; a string change raises TypeError first |
| Dashboard.CardErrorOrder | dashboard.py:407-413 | a string change raises TypeError before the value, which alone would raise ValueError |
| Dashboard.TopCard | dashboard.py:569-582 | a row without '항목' or '값' raises KeyError; otherwise the card is `CreateMetricCard` of row['항목'], row['값'], row.get('단위', '') and the change, with the caption "전년 대비" exactly when there is a change |
| Dashboard.PlacedCard | dashboard.py:569-570 | the card of row i goes in column i mod 3 |
| Dashboard.Numbered | dashboard.py:569 | `iterrows()` numbers the rows from 0 |
| Dashboard.TopCards | dashboard.py:568-582 | no rows give no cards, and there are never more than six |
| Dashboard.TopCardsMeaning | dashboard.py:569-582 | the first six rows become cards, the i-th in column i mod 3 |
| Dashboard.TopCardsFail | dashboard.py:569-582 | the cards fail iff one of the first six rows fails |
| Dashboard.ColumnHoldsTwo | dashboard.py:568-570 | each column holds at most the cards at positions c and c + 3 |
| Dashboard.GroupBySum | dashboard.py:712 | one entry per distinct category, each holding that category's sum |
| Dashboard.GroupBySumMeaning | dashboard.py:712 | the group-by lists each category once in ascending order with its sum, and the sums add up to the total |
| Dashboard.GroupBySumPermutes | dashboard.py:712 | the group-by holds the same (category, total) entries as the static page's first-seen totals |
| Dashboard.GroupByOrderDiffers | dashboard.py:712 | the two orders differ: the rows 자산 then 부채 give 부채 first in the group-by |
| Dashboard.AmountsOf | dashboard.py:785-786 | the filtered amounts are empty iff no row has that item and year |
| Dashboard.AmountsFirst | dashboard.py:785-789 | `values[0]` is the amount of the first matching row |
| Dashboard.MetricOf | dashboard.py:791 | `{ratio:.2f}%` reads back as the ratio to two places |
| Dashboard.OperatingMargin | dashboard.py:784-791 | shown iff 2024 revenue and operating rows exist and revenue is positive; it is operating / revenue × 100 |
| Dashboard.Margin | dashboard.py:789 | the ratio times revenue is the part times 100 |
| Dashboard.MarginsAsWritten | dashboard.py:784-798 | the margins as written raise IndexError exactly when there is a 2024 net-income row but no 2024 revenue row |
| Dashboard.NetMarginIndexError | dashboard.py:794-795 | a net-income row alone makes the guard index an empty array |
| Dashboard.Margins2024 | dashboard.py:784-798 | corrected: the net margin is shown iff 2024 revenue and net-income rows exist and revenue is positive, and it is net / revenue × 100 |
| Dashboard.MarginsCorrectionAgrees | dashboard.py:784-798 | wherever the code as written does not raise, it agrees with the corrected margins |
| Dashboard.MarginsDivideByRevenue | dashboard.py:788-798 | no margin is shown without a positive 2024 revenue, so no division by zero |
| Dashboard.MarginsIgnoreOtherYears | dashboard.py:785-794 | with no 2024 rows, no margin is shown, whatever the other years hold |

## Left out

- Rendering is not modelled: HTML, CSS, Chart.js, Plotly and Streamlit, the `json.dumps` of the chart data, and the file writes of both HTML generators. Each model stops at the data a tab or card would print.
- Unmodelled I/O and services:
  - `_load_data`, whose outcome is a parameter of `ReportGenerator.Create`;
  - the report date (a clock);
  - the `SnowflakeConnector` class and its SQL loaders;
  - the MCP server;
  - the sidebar, the connection test and custom queries of `dashboard.py`.
- `FinancialReportGenerator.generate_html` only places the three tabs into a fixed template and writes the file. The three tabs are modelled.
- Numerals.RoundHalfUp: Python formats binary floats and rounds half to even. The model rounds exact reals half-up, so values that land exactly on a half may print one unit apart.
- Python's negative zero (`-0.0`) prints with a minus sign. The model works on exact reals, which have no negative zero.
- Numerals.ParseDecimal: `float()` is modelled on `[sign] digits [. digits]` only. Exponents, "inf", "nan" and underscores are not.
- JSON booleans, arrays and objects are left out: a field value is None, a number or a string. Python would add `True` as 1 in a sum or a total, and raise when formatting a list or a dict.
- Infinities are left out: `Amount` has no infinite case, although `json.load` accepts the tokens `Infinity` and `NaN`, and `format_currency(float('inf'))` prints "inf조 원".
- NaN can only reach the formatters (the `Amount` type), never a record field. The model takes records as JSON gives them, while pandas would turn a missing number into NaN. This matters for `dashboard.py`, where the change read from a DataFrame row can be NaN.
- ReportGenerator.IsSpace covers the ASCII whitespace of `str.strip()` (space, tab, line feed, carriage return, vertical tab, form feed, U+001C to U+001F). It leaves out non-ASCII whitespace such as U+0085, U+00A0 and U+3000. `str.isdigit` is modelled on the ASCII digits 0-9.
- DataFrame semantics are left out: index labels other than 0..n-1, dropping NaN categories, and mixed column types.
  - `Dashboard.GroupBySum` takes the (분류, 값) pairs of the rows.
  - The margin code takes rows of (항목, 연도, 금액).
- Float keys of `_extract_years` are left out. Int keys are modelled, as `str(key)`.
- The chart lists the HTML summary tab computes but never uses (lines 65-67) are left out. So is the trend dict of the income tab (line 162). The page-level lists that are used are modelled (`DashboardHtml.SummaryChart`, `DashboardHtml.IncomeCharts`).
- The `[:10]` chart lists of the report's summary tab (financial_report_generator.py:76-78) are left out; they are computed but never printed.
- DashboardHtml.BalanceLinesFollow: states only that the detail table then succeeds, with one line per row. The line contents are stated by `DashboardHtml.BalanceLineOf` (name, currency text, category).
- ReportGenerator.FormatNumberIdempotent: stated for plain-band values away from the rounding edges only. A scaled text such as "1.50억" does not parse, so it comes back unchanged (`ReportGenerator.ScaledTextKept`).

## Findings

| source | as written | input that shows it | evidently intended | confidence | as-written member | corrected member |
|---|---|---|---|---|---|---|
| dashboard.py:794-795 | the net-margin guard tests `len(net_2024) > 0 and revenue_2024[0] > 0` and never checks that a 2024 revenue row exists | income rows holding a 2024 순이익 row and no 2024 매출액 row: `revenue_2024[0]` raises IndexError | omit the net margin when 2024 revenue is missing, like the operating-margin guard at line 788 | not executed | Dashboard.MarginsAsWritten (Dashboard.NetMarginIndexError) | Dashboard.Margins2024 |
