/** The HTML report generator (financial_report_generator.py): how a
    FinancialReportGenerator chooses its data, its own number formatter
    `_format_number`, and the data shaping behind its three tabs — the
    summary cards, the year columns and comparison chart of the income
    statement, the generic table, and the asset, liability and equity totals
    of the balance sheet. The HTML and Chart.js text is not modelled. */
module ReportGenerator {
  import opened Common
  import opened Numerals
  import opened Ordering
  import opened KoreanUnits
  import opened Cards
  import SnowflakeConnector

  // ----- Data and construction -----

  /** The report's data: a dict from section name ('summary',
      'income_statement', 'balance_sheet', ...) to a list of rows, in
      insertion order. */
  type Document = seq<(string, seq<Record>)>

  /** `self.data.get(name, [])`: the rows stored under the first entry of
      that name, and no rows when there is none. */
  function Section(doc: Document, name: string): (rows: seq<Record>)
    ensures (exists i :: 0 <= i < |doc| && doc[i].0 == name) || rows == []
    ensures forall i :: 0 <= i < |doc| && doc[i].0 == name && (forall j :: 0 <= j < i ==> doc[j].0 != name) ==>
      rows == doc[i].1
  {
    if doc == [] then []
    else if doc[0].0 == name then doc[0].1
    else Section(doc[1..], name)
  }

  datatype Generator = Generator(data: Document)

  /** `FinancialReportGenerator(data_file, data_dict)`. `loaded` stands for
      what `_load_data(data_file)` returns or raises (file reading is not
      modelled). Python truthiness decides: a non-empty path wins, then a
      non-empty dict; an empty path or an empty dict counts as absent. */
  function Create(dataFile: Option<string>, dataDict: Option<Document>, loaded: Result<Document>): (r: Result<Generator>)
    ensures dataFile.Some? && dataFile.value != "" ==>
      (r.Ok? <==> loaded.Ok?) && (r.Ok? ==> r.value.data == loaded.value) && (r.Err? ==> r.error == loaded.error)
    ensures (dataFile.None? || dataFile.value == "") && dataDict.Some? && dataDict.value != [] ==>
      r == Ok(Generator(dataDict.value))
    ensures r == Err(ValueError) <==>
      if dataFile.Some? && dataFile.value != "" then loaded == Err(ValueError)
      else dataDict.None? || dataDict.value == []
  {
    if dataFile.Some? && dataFile.value != "" then
      match loaded
      case Err(e) => Err(e)
      case Ok(d) => Ok(Generator(d))
    else if dataDict.Some? && dataDict.value != [] then
      Ok(Generator(dataDict.value))
    else
      Err(ValueError)
  }

  // ----- `_format_number` -----

  /** The ASCII whitespace `str.strip()` removes: space, tab, line feed,
      carriage return, vertical tab, form feed, and the separators
      U+001C to U+001F. */
  predicate IsSpace(c: char) {
    c == ' ' || c == '\t' || c == '\n' || c == '\r' || c == '\U{B}' || c == '\U{C}' || '\U{1C}' <= c <= '\U{1F}'
  }

  function StripStart(s: string): (r: string)
    ensures r == [] || !IsSpace(r[0])
    ensures |r| <= |s| && r == s[|s| - |r|..]
  {
    if s != [] && IsSpace(s[0]) then StripStart(s[1..]) else s
  }

  function StripEnd(s: string): (r: string)
    ensures r == [] || !IsSpace(r[|r| - 1])
    ensures r <= s
  {
    if s != [] && IsSpace(s[|s| - 1]) then StripEnd(s[..|s| - 1]) else s
  }

  /** `s.strip()` */
  function Strip(s: string): string {
    StripEnd(StripStart(s))
  }

  /** A string that neither starts nor ends with whitespace is left as is. */
  lemma StripUnspaced(s: string)
    requires s == [] || (!IsSpace(s[0]) && !IsSpace(s[|s| - 1]))
    ensures Strip(s) == s
  {
  }

  /** `value.replace(',', '').replace('원', '').strip()` */
  function Clean(s: string): string {
    Strip(Without(Without(s, ','), '원'))
  }

  /** The text `_format_number` gives a number: the band's figure and
      marker, with no space and no unit. */
  function NumberText(x: real): string {
    Numeral(x) + Marker(BandOf(x))
  }

  /** `_format_number(value)`: a string is cleaned and parsed, and returned
      unchanged when it does not parse; None fails in `abs`. */
  function FormatNumber(value: Value): (r: Result<string>)
    ensures r.Err? <==> value.Null?
    ensures r.Err? ==> r.error == TypeError
    ensures value.Num? ==> r == Ok(NumberText(value.x))
    ensures value.Str? ==> r == Ok(match ParseDecimal(Clean(value.s))
                                   case Some(x) => NumberText(x)
                                   case None => value.s)
  {
    match value
    case Null => Err(TypeError)
    case Num(x) => Ok(FormatAmount(x))
    case Str(s) =>
      match ParseDecimal(Clean(s))
      case None => Ok(s)
      case Some(x) => Ok(FormatAmount(x))
  }

  /** The band tests of `_format_number` on a number. */
  function FormatAmount(x: real): (s: string)
    ensures s == NumberText(x)
  {
    var a := Abs(x);
    if a >= 1000000000000.0 then Fixed(x / 1000000000000.0, 2, false) + "조"
    else if a >= 100000000.0 then Fixed(x / 100000000.0, 2, false) + "억"
    else if a >= 10000.0 then Fixed(x / 10000.0, 2, false) + "만"
    else Fixed(x, 0, true)
  }

  /** The report's number text is the connector's currency text without
      the space and the unit. */
  lemma FormatNumberMatchesConnector(x: real, unit: string)
    ensures SnowflakeConnector.FormatCurrency(Finite(x), unit) == FormatNumber(Num(x)).value + " " + unit
  {
  }

  /** Reading a number text back recovers the number within half a unit of
      its last printed digit. */
  lemma FormatNumberReadsBack(x: real)
    ensures ParseKorean(FormatNumber(Num(x)).value, "").Some?
    ensures Abs(ParseKorean(FormatNumber(Num(x)).value, "").value - x) <= Tolerance(BandOf(x))
  {
    KoreanRoundTrip(x, "");
    assert Numeral(x) + Marker(BandOf(x)) + "" == NumberText(x);
  }

  /** A decimal literal whose last character is neither a digit nor a
      point does not parse. */
  lemma ParseRejectsTail(s: string)
    requires |s| >= 1 && !IsDigit(s[|s| - 1]) && s[|s| - 1] != '.'
    ensures ParseDecimal(s) == None
  {
    if s[0] == '-' || s[0] == '+' {
      UnsignedRejectsTail(s[1..]);
    } else {
      UnsignedRejectsTail(s);
    }
  }

  lemma UnsignedRejectsTail(t: string)
    requires t == [] || (!IsDigit(t[|t| - 1]) && t[|t| - 1] != '.')
    ensures ParseUnsigned(t) == None
  {
    if t != [] {
      var k := DotIndex(t);
      if k == |t| {
        assert t[..k][|t| - 1] == t[|t| - 1];
      } else {
        assert k < |t| - 1;
        assert t[k + 1..][|t| - k - 2] == t[|t| - 1];
      }
    }
  }

  /** Text with no comma, no 원 and no surrounding whitespace survives
      the cleaning unchanged. */
  lemma CleanUnchanged(s: string)
    requires ',' !in s && '원' !in s
    requires s == [] || (!IsSpace(s[0]) && !IsSpace(s[|s| - 1]))
    ensures Clean(s) == s
  {
    WithoutAbsent(s, ',');
    WithoutAbsent(s, '원');
    StripUnspaced(s);
  }

  /** Printed numeral characters are neither whitespace nor 원. */
  lemma NumeralsPlain(s: string)
    requires AllNumeralChars(s)
    ensures '원' !in s
    ensures forall i :: 0 <= i < |s| ==> !IsSpace(s[i])
  {
    assert forall i :: 0 <= i < |s| ==> NumeralChar(s[i]);
  }

  /** A scaled text: a two-decimal figure followed by a marker. */
  lemma ScaledTextKept(f: real, b: Band)
    requires b != Ones
    ensures Clean(Fixed(f, 2, false) + Marker(b)) == Fixed(f, 2, false) + Marker(b)
    ensures ParseDecimal(Fixed(f, 2, false) + Marker(b)) == None
  {
    var g := Fixed(f, 2, false);
    var s := g + Marker(b);
    FixedChars(f, 2, false);
    FixedNoCommas(f, 2);
    NumeralsPlain(g);
    assert s[0] == g[0];
    assert forall c :: c in s <==> c in g || c in Marker(b);
    CleanUnchanged(s);
    ParseRejectsTail(s);
  }

  /** Formatting is idempotent on its own output: a scaled text keeps its
      marker, fails to parse and is returned unchanged; a text below 10^4
      reads back as the rounded number, which prints the same, unless
      rounding carries it to 10^4 or turns a negative number into zero. */
  lemma FormatNumberIdempotent(x: real)
    requires BandOf(x) == Ones ==> Abs(x) < 9999.5 && (x >= 0.0 || x <= -0.5)
    ensures FormatNumber(Str(FormatNumber(Num(x)).value)) == FormatNumber(Num(x))
  {
    var b := BandOf(x);
    if b == Ones {
      OnesIdempotent(x);
    } else {
      ScaledTextKept(ToBand(x, b), b);
    }
  }

  /** Below 10^4 the text, commas removed, reads back as the rounded number. */
  lemma OnesReadBack(x: real)
    ensures ParseDecimal(Clean(Fixed(x, 0, true))) == Some(Rounded(x, 0))
  {
    var s := Fixed(x, 0, true);
    var t := Fixed(x, 0, false);
    FixedChars(x, 0, true);
    FixedChars(x, 0, false);
    NumeralsPlain(s);
    NumeralsPlain(t);
    WithoutAbsent(t, '원');
    FixedUngroups(x, 0);
    StripUnspaced(t);
    FixedParses(x, 0);
  }

  /** A whole number below 10^4 reprints as itself. */
  lemma RoundedReprints(x: real)
    requires Abs(x) < 9999.5 && (x >= 0.0 || x <= -0.5)
    ensures BandOf(Rounded(x, 0)) == Ones
    ensures Fixed(Rounded(x, 0), 0, true) == Fixed(x, 0, true)
  {
    var m := Units(x, 0);
    var y := Rounded(x, 0);
    assert Scaled(Abs(x), 0) == Abs(x);
    assert Unscaled(m, 0) == m as real;
    assert Abs(y) == m as real;
    assert Scaled(Abs(y), 0) == m as real;
    assert Units(y, 0) == m;
    assert (y < 0.0) == (x < 0.0);
  }

  lemma OnesIdempotent(x: real)
    requires BandOf(x) == Ones && Abs(x) < 9999.5 && (x >= 0.0 || x <= -0.5)
    ensures FormatNumber(Str(NumberText(x))) == Ok(NumberText(x))
  {
    OnesReadBack(x);
    RoundedReprints(x);
    OnesText(x);
    OnesText(Rounded(x, 0));
    ParsedString(NumberText(x), Rounded(x, 0));
  }

  lemma OnesText(x: real)
    requires BandOf(x) == Ones
    ensures NumberText(x) == Fixed(x, 0, true)
  {
    assert Marker(Ones) == "";
  }

  lemma ParsedString(s: string, y: real)
    requires ParseDecimal(Clean(s)) == Some(y)
    ensures FormatNumber(Str(s)) == Ok(NumberText(y))
  {
  }

  // ----- `_extract_years` -----

  /** Python's `str(n)` for an int. */
  function IntText(n: int): string {
    if n < 0 then "-" + NatText(-n) else NatText(n)
  }

  /** The text of a non-negative int is its digits, which read back as
      the int; a negative one is a minus sign before the digits of -n. */
  lemma IntTextMeaning(n: int)
    ensures n >= 0 ==> AllDigits(IntText(n)) && DigitsValue(IntText(n)) == n
    ensures n < 0 ==> |IntText(n)| >= 2 && IntText(n)[0] == '-' && IntText(n)[1..] == NatText(-n)
  {
    if n >= 0 {
      NatTextValue(n);
    } else {
      assert ("-" + NatText(-n))[1..] == NatText(-n);
    }
  }

  /** The year a column name stands for, if any: a string key that is
      all digits once '년' and spaces are removed is kept as written; an
      int key is kept as its decimal text. */
  function YearOfKey(k: Key): (r: Option<string>)
    ensures k.SKey? && r.Some? ==> r.value == k.name
    ensures k.IKey? ==> r.Some?
  {
    match k
    case SKey(s) =>
      var t := Without(Without(s, '년'), ' ');
      if |t| > 0 && AllDigits(t) then Some(s)
      else if |s| > 0 && AllDigits(s) then Some(s)
      else None
    case IKey(n) => Some(IntText(n))
  }

  /** A string key is a year exactly when it is non-empty digits once '년'
      and spaces are removed (the second `isdigit` test adds nothing), and
      it is kept as written; an int key always is, as its decimal text. */
  lemma YearOfKeyMeaning(k: Key)
    ensures k.SKey? ==> (YearOfKey(k).Some? <==> |Without(Without(k.name, '년'), ' ')| > 0 && AllDigits(Without(Without(k.name, '년'), ' ')))
    ensures k.SKey? && YearOfKey(k).Some? ==> YearOfKey(k).value == k.name
    ensures k.IKey? ==> YearOfKey(k) == Some(IntText(k.n))
  {
    if k.SKey? && AllDigits(k.name) {
      DigitsKeepClean(k.name);
    }
  }

  /** A key of digits only is unchanged by removing '년' and spaces. */
  lemma DigitsKeepClean(s: string)
    requires AllDigits(s)
    ensures Without(Without(s, '년'), ' ') == s
  {
    assert '년' !in s && ' ' !in s by {
      assert forall i :: 0 <= i < |s| ==> IsDigit(s[i]);
    }
    WithoutAbsent(s, '년');
    WithoutAbsent(s, ' ');
  }

  /** The year a key stands for, as a set of at most one. */
  function KeyYears(k: Key): set<string> {
    match YearOfKey(k)
    case Some(y) => {y}
    case None => {}
  }

  /** The years among the first n keys of a row. */
  function RowYearSet(item: Record, n: nat): set<string>
    requires n <= |item|
  {
    if n == 0 then {}
    else RowYearSet(item, n - 1) + KeyYears(item[n - 1].0)
  }

  /** The years of all rows. */
  function YearSet(rows: seq<Record>): set<string> {
    if rows == [] then {}
    else YearSet(rows[..|rows| - 1]) + RowYearSet(rows[|rows| - 1], |rows[|rows| - 1]|)
  }

  /** A year of the first n keys comes from one of them. */
  lemma {:induction false} RowYearWitness(item: Record, n: nat, y: string) returns (k: nat)
    requires n <= |item| && y in RowYearSet(item, n)
    ensures k < n && YearOfKey(item[k].0) == Some(y)
  {
    if y in RowYearSet(item, n - 1) {
      k := RowYearWitness(item, n - 1, y);
    } else {
      k := n - 1;
    }
  }

  /** Every year among the first n keys is in the set. */
  lemma {:induction false} RowYearPresent(item: Record, n: nat, k: nat)
    requires k < n <= |item| && YearOfKey(item[k].0).Some?
    ensures YearOfKey(item[k].0).value in RowYearSet(item, n)
  {
    if k < n - 1 {
      RowYearPresent(item, n - 1, k);
    }
  }

  /** `list(s)`: the elements of a set in some order, each once. */
  method ListOf(s: set<string>) returns (xs: seq<string>)
    ensures NoDuplicates(xs)
    ensures |xs| == |s|
    ensures forall y :: y in xs <==> y in s
  {
    xs := [];
    var rest := s;
    while rest != {}
      invariant rest <= s
      invariant NoDuplicates(xs)
      invariant forall y :: y in xs <==> y in s && y !in rest
      invariant |xs| + |rest| == |s|
      decreases |rest|
    {
      var y :| y in rest;
      xs := xs + [y];
      rest := rest - {y};
    }
  }

  /** The loop of `_extract_years` over the rows, adding each year key
      to the set. */
  method CollectYears(rows: seq<Record>) returns (found: set<string>)
    ensures found == YearSet(rows)
  {
    found := {};
    var i := 0;
    while i < |rows|
      invariant 0 <= i <= |rows|
      invariant found == YearSet(rows[..i])
    {
      assert rows[..i + 1][..i] == rows[..i];
      found := AddRowYears(found, rows[i]);
      i := i + 1;
    }
    assert rows[..i] == rows;
  }

  /** The inner loop over one row's keys. */
  method AddRowYears(found0: set<string>, item: Record) returns (found: set<string>)
    ensures found == found0 + RowYearSet(item, |item|)
  {
    found := found0;
    var j := 0;
    while j < |item|
      invariant 0 <= j <= |item|
      invariant found == found0 + RowYearSet(item, j)
    {
      var y := YearOfKey(item[j].0);
      assert RowYearSet(item, j + 1) == RowYearSet(item, j) + KeyYears(item[j].0);
      if y.Some? {
        found := found + {y.value};
      }
      j := j + 1;
    }
  }

  /** `_extract_years(data)`: the year columns collected in a set, sorted
      in descending string order, at most the first five. */
  method ExtractYears(rows: seq<Record>) returns (years: seq<string>)
    ensures StrictlyDescending(years)
    ensures |years| == Min(5, |YearSet(rows)|)
    ensures forall y :: y in years ==> y in YearSet(rows)
    ensures forall y :: y in YearSet(rows) && y !in years ==>
      forall j :: 0 <= j < |years| ==> Less(y, years[j])
  {
    var found := CollectYears(rows);
    var list := ListOf(found);
    SortedSet(list, found);
    var sorted := SortDescending(list);
    years := sorted[..Min(5, |sorted|)];
    Leading(sorted, Min(5, |sorted|));
  }

  /** Sorting the listed set gives its elements strictly descending. */
  lemma SortedSet(list: seq<string>, found: set<string>)
    requires NoDuplicates(list) && |list| == |found|
    requires forall y :: y in list <==> y in found
    ensures StrictlyDescending(SortDescending(list))
    ensures |SortDescending(list)| == |found|
    ensures forall y :: y in SortDescending(list) <==> y in found
  {
    var sorted := SortDescending(list);
    SortDistinct(list);
    assert |sorted| == |list| by {
      assert |multiset(sorted)| == |multiset(list)|;
    }
    forall y
      ensures y in sorted <==> y in found
    {
      calc {
        y in sorted;
        y in multiset(sorted);
        y in multiset(list);
        y in list;
      }
    }
  }

  lemma PrefixMember(s: seq<string>, n: nat, k: nat)
    requires n <= |s| && k < |s|
    ensures k < n ==> s[k] in s[..n]
  {
    if k < n {
      assert s[..n][k] == s[k];
    }
  }

  /** The first n of a strictly descending list are strictly descending
      and larger than every element left out. */
  lemma Leading(sorted: seq<string>, n: nat)
    requires StrictlyDescending(sorted) && n <= |sorted|
    ensures StrictlyDescending(sorted[..n])
    ensures forall y :: y in sorted && y !in sorted[..n] ==>
      forall j :: 0 <= j < n ==> Less(y, sorted[..n][j])
  {
    forall y | y in sorted && y !in sorted[..n]
      ensures forall j :: 0 <= j < n ==> Less(y, sorted[..n][j])
    {
      var k :| 0 <= k < |sorted| && sorted[k] == y;
      PrefixMember(sorted, n, k);
    }
  }

  /** A collected year comes from a key of some row. */
  lemma {:induction false} YearWitness(rows: seq<Record>, y: string) returns (i: nat, k: nat)
    requires y in YearSet(rows)
    ensures i < |rows| && k < |rows[i]| && YearOfKey(rows[i][k].0) == Some(y)
  {
    var init := rows[..|rows| - 1];
    if y in YearSet(init) {
      i, k := YearWitness(init, y);
      assert rows[i] == init[i];
    } else {
      i := |rows| - 1;
      k := RowYearWitness(rows[i], |rows[i]|, y);
    }
  }

  /** Every year of every row's keys is collected. */
  lemma {:induction false} YearPresent(rows: seq<Record>, i: nat, k: nat)
    requires i < |rows| && k < |rows[i]| && YearOfKey(rows[i][k].0).Some?
    ensures YearOfKey(rows[i][k].0).value in YearSet(rows)
  {
    var init := rows[..|rows| - 1];
    if i < |rows| - 1 {
      assert rows[i] == init[i];
      YearPresent(init, i, k);
    } else {
      RowYearPresent(rows[i], |rows[i]|, k);
    }
  }

  // ----- `_generate_table` -----

  /** The keys of a row, in order. */
  function KeysOf(item: Record): (ks: seq<Key>)
    ensures |ks| == |item|
    ensures forall j :: 0 <= j < |item| ==> ks[j] == item[j].0
  {
    seq(|item|, j requires 0 <= j < |item| => item[j].0)
  }

  /** One table cell: `row.get(header, '')`, numbers through
      `_format_number`, anything else shown as it is. */
  function Cell(row: Record, header: Key): (r: Value)
    ensures !HasKey(row, header) ==> r == Str("")
    ensures !r.Num?
  {
    match GetOr(row, header, Str(""))
    case Num(x) => Str(NumberText(x))
    case v => v
  }

  /** A cell shows the row's own value under that header (a number as
      its report text), and an empty string where the row lacks it. */
  lemma CellMeaning(row: Record, header: Key, v: Value)
    requires DistinctKeys(row)
    ensures (header, v) in row ==> Cell(row, header) == (if v.Num? then Str(NumberText(v.x)) else v)
    ensures !HasKey(row, header) ==> Cell(row, header) == Str("")
  {
    if (header, v) in row {
      GetStored(row, header, v);
    }
  }

  datatype Table = NoData | Table(headers: seq<Key>, cells: seq<seq<Value>>)

  /** The cells of one row, one per header. */
  function RowCells(row: Record, headers: seq<Key>): (cs: seq<Value>)
    ensures |cs| == |headers|
  {
    if headers == [] then []
    else RowCells(row, headers[..|headers| - 1]) + [Cell(row, headers[|headers| - 1])]
  }

  /** The body: every row's cells, in row order. */
  function Body(data: seq<Record>, headers: seq<Key>): (b: seq<seq<Value>>)
    ensures |b| == |data|
  {
    if data == [] then []
    else Body(data[..|data| - 1], headers) + [RowCells(data[|data| - 1], headers)]
  }

  lemma {:induction false} RowCellsAt(row: Record, headers: seq<Key>, j: nat)
    requires j < |headers|
    ensures RowCells(row, headers)[j] == Cell(row, headers[j])
  {
    if j < |headers| - 1 {
      RowCellsAt(row, headers[..|headers| - 1], j);
    }
  }

  lemma {:induction false} BodyAt(data: seq<Record>, headers: seq<Key>, i: nat)
    requires i < |data|
    ensures Body(data, headers)[i] == RowCells(data[i], headers)
  {
    if i < |data| - 1 {
      BodyAt(data[..|data| - 1], headers, i);
    }
  }

  /** Every row of the table has one cell per header, holding that row's
      cell for that header. */
  lemma TableCell(data: seq<Record>, headers: seq<Key>, i: nat, j: nat)
    requires i < |data| && j < |headers|
    ensures |Body(data, headers)[i]| == |headers|
    ensures Body(data, headers)[i][j] == Cell(data[i], headers[j])
  {
    BodyAt(data, headers, i);
    RowCellsAt(data[i], headers, j);
  }

  /** The inner loop of `_generate_table`: one cell per header. */
  method TableRow(row: Record, headers: seq<Key>) returns (cells: seq<Value>)
    ensures cells == RowCells(row, headers)
  {
    cells := [];
    var j := 0;
    while j < |headers|
      invariant 0 <= j <= |headers|
      invariant cells == RowCells(row, headers[..j])
    {
      assert headers[..j + 1][..j] == headers[..j];
      cells := cells + [Cell(row, headers[j])];
      j := j + 1;
    }
    assert headers[..j] == headers;
  }

  /** `_generate_table(data)`: nothing without rows; otherwise the keys of
      the first row as headers and, for every row, one cell per header. */
  method GenerateTable(data: seq<Record>) returns (t: Table)
    ensures data == [] <==> t == NoData
    ensures t.Table? ==> t.headers == KeysOf(data[0]) && t.cells == Body(data, t.headers)
  {
    if data == [] {
      return NoData;
    }
    var headers := KeysOf(data[0]);
    var body: seq<seq<Value>> := [];
    var i := 0;
    while i < |data|
      invariant 0 <= i <= |data|
      invariant body == Body(data[..i], headers)
    {
      assert data[..i + 1][..i] == data[..i];
      var cells := TableRow(data[i], headers);
      body := body + [cells];
      i := i + 1;
    }
    assert data[..i] == data;
    return Table(headers, body);
  }


  // ----- `_generate_comparison_chart` -----

  /** `item.get('항목', item.get('name', ''))` */
  function NameOf(item: Record): Value {
    Resolve(item, "항목", "name", Str(""))
  }

  /** A charted value: a string is cleaned and parsed, 0 when it does not
      parse; numbers and None are kept. */
  function ChartValue(v: Value): (r: Value)
    ensures !v.Str? ==> r == v
    ensures v.Str? ==> r.Num?
  {
    match v
    case Str(s) =>
      (match ParseDecimal(Clean(s))
       case Some(x) => Num(x)
       case None => Num(0.0))
    case _ => v
  }

  /** Unlike `_format_number`, which returns a string it cannot parse
      unchanged, the chart turns it into 0: every charted string becomes a
      number. */
  lemma ChartValueMeaning(v: Value)
    ensures !v.Str? ==> ChartValue(v) == v
    ensures v.Str? ==> ChartValue(v).Num?
    ensures v.Str? && ParseDecimal(Clean(v.s)).None? ==> ChartValue(v) == Num(0.0) && FormatNumber(v) == Ok(v.s)
    ensures v.Str? && ParseDecimal(Clean(v.s)).Some? ==>
      ChartValue(v) == Num(ParseDecimal(Clean(v.s)).value) && FormatNumber(v) == Ok(NumberText(ParseDecimal(Clean(v.s)).value))
  {
  }

  /** `item.get(year, item.get(str(year), 0))` for a year: the years are
      strings already, so the fallback looks up the same key again. */
  function YearValue(item: Record, year: string): (r: Value)
    ensures !HasKey(item, SKey(year)) ==> r == Num(0.0)
    ensures HasKey(item, SKey(year)) ==> Get(item, SKey(year)) == Some(r)
  {
    GetOr(item, SKey(year), GetOr(item, SKey(year), Num(0.0)))
  }

  /** One item's charted values, year by year. */
  function ChartRow(item: Record, years: seq<string>): (vs: seq<Value>)
    ensures |vs| == |years|
  {
    if years == [] then []
    else ChartRow(item, years[..|years| - 1]) + [ChartValue(YearValue(item, years[|years| - 1]))]
  }

  /** The k-th charted value is the row's value for the k-th year. */
  lemma {:induction false} ChartRowAt(item: Record, years: seq<string>, k: nat)
    requires k < |years|
    ensures ChartRow(item, years)[k] == ChartValue(YearValue(item, years[k]))
  {
    var init := years[..|years| - 1];
    var last := ChartValue(YearValue(item, years[|years| - 1]));
    assert ChartRow(item, years) == ChartRow(item, init) + [last];
    if k < |init| {
      ChartRowAt(item, init, k);
      assert init[k] == years[k];
    }
  }

  /** A year taken from an int column is never read back: the lookup is
      by the year's text, which no string key of the row carries, so the
      chart shows 0 whatever the int column holds. */
  lemma IntYearUnread(item: Record, years: seq<string>, k: nat, n: int, v: Value)
    requires k < |years| && years[k] == IntText(n) && (IKey(n), v) in item
    requires !HasKey(item, SKey(years[k]))
    ensures ChartRow(item, years)[k] == Num(0.0)
  {
    ChartRowAt(item, years, k);
  }

  /** A cell the row holds is charted as itself, or parsed when a string. */
  lemma ChartRowReadsCell(item: Record, years: seq<string>, k: nat, v: Value)
    requires DistinctKeys(item) && k < |years| && (SKey(years[k]), v) in item
    ensures ChartRow(item, years)[k] == ChartValue(v)
  {
    ChartRowAt(item, years, k);
    GetStored(item, SKey(years[k]), v);
  }

  /** The position of `name` among the chart's entries, or |chart|. */
  function NameIndex(chart: seq<(Value, seq<Value>)>, name: Value): (j: nat)
    ensures j <= |chart|
    ensures j < |chart| ==> chart[j].0 == name
    ensures forall i :: 0 <= i < j ==> chart[i].0 != name
  {
    if chart == [] then 0
    else if chart[0].0 == name then 0
    else 1 + NameIndex(chart[1..], name)
  }

  /** `chart_data[name] = values`: a new name goes last, a known name
      keeps its place and loses its old values. */
  function Put(chart: seq<(Value, seq<Value>)>, name: Value, values: seq<Value>): seq<(Value, seq<Value>)> {
    var j := NameIndex(chart, name);
    if j == |chart| then chart + [(name, values)] else chart[j := (name, values)]
  }

  /** The chart dict after all rows. */
  function Chart(data: seq<Record>, years: seq<string>): (c: seq<(Value, seq<Value>)>)
    ensures |c| <= |data|
    ensures data == [] <==> c == []
    ensures forall i :: 0 <= i < |c| ==> |c[i].1| == |years|
  {
    if data == [] then []
    else
      var last := data[|data| - 1];
      Put(Chart(data[..|data| - 1], years), NameOf(last), ChartRow(last, years))
  }

  /** The names of the rows, in order. */
  function Names(data: seq<Record>): (ns: seq<Value>)
    ensures |ns| == |data|
  {
    if data == [] then [] else Names(data[..|data| - 1]) + [NameOf(data[|data| - 1])]
  }

  /** The i-th name is the i-th row's name. */
  lemma {:induction false} NamesAt(data: seq<Record>, i: nat)
    requires i < |data|
    ensures Names(data)[i] == NameOf(data[i])
  {
    if i < |data| - 1 {
      NamesAt(data[..|data| - 1], i);
    }
  }

  /** The index of the last row carrying a name. */
  function LastNamed(data: seq<Record>, name: Value): (i: nat)
    requires name in Names(data)
    ensures i < |data| && NameOf(data[i]) == name
    ensures forall j :: i < j < |data| ==> NameOf(data[j]) != name
  {
    if NameOf(data[|data| - 1]) == name then |data| - 1
    else
      assert Names(data) == Names(data[..|data| - 1]) + [NameOf(data[|data| - 1])];
      LastNamed(data[..|data| - 1], name)
  }

  /** Put changes only the entry of `name`, appending it when new. */
  lemma PutFacts(chart: seq<(Value, seq<Value>)>, name: Value, values: seq<Value>)
    requires forall i, j :: 0 <= i < j < |chart| ==> chart[i].0 != chart[j].0
    ensures var r := Put(chart, name, values);
      && |chart| <= |r| <= |chart| + 1
      && NameIndex(chart, name) < |r| && r[NameIndex(chart, name)] == (name, values)
      && (forall m :: 0 <= m < |chart| ==> r[m].0 == chart[m].0)
      && (forall m :: 0 <= m < |r| && r[m].0 != name ==> m < |chart| && r[m] == chart[m])
      && (forall m :: 0 <= m < |r| && r[m].0 == name ==> r[m].1 == values)
      && (|r| == |chart| + 1 ==> r[|chart|].0 == name && forall m :: 0 <= m < |chart| ==> chart[m].0 != name)
  {
  }

  /** The chart lists every name once, in order of first appearance: a
      later row with the same name keeps the earlier one's place. */
  lemma {:induction false} ChartNames(data: seq<Record>, years: seq<string>)
    ensures forall j :: 0 <= j < |Chart(data, years)| ==> Chart(data, years)[j].0 in Names(data)
    ensures forall i, j :: 0 <= i < j < |Chart(data, years)| ==> Chart(data, years)[i].0 != Chart(data, years)[j].0
  {
    if data != [] {
      var init := data[..|data| - 1];
      var last := data[|data| - 1];
      ChartNames(init, years);
      PutFacts(Chart(init, years), NameOf(last), ChartRow(last, years));
    }
  }

  /** The chart has an entry named n. */
  predicate Listed(chart: seq<(Value, seq<Value>)>, n: Value) {
    exists j :: 0 <= j < |chart| && chart[j].0 == n
  }

  /** Every row's name has an entry in the chart. */
  lemma {:induction false} ChartCovers(data: seq<Record>, years: seq<string>)
    ensures forall n :: n in Names(data) ==> Listed(Chart(data, years), n)
  {
    if data != [] {
      var init := data[..|data| - 1];
      var last := data[|data| - 1];
      ChartNames(init, years);
      ChartCovers(init, years);
      var before := Chart(init, years);
      var name := NameOf(last);
      PutFacts(before, name, ChartRow(last, years));
      var c := Chart(data, years);
      assert Names(data) == Names(init) + [name];
      forall n | n in Names(data)
        ensures Listed(c, n)
      {
        if n == name {
          assert c[NameIndex(before, name)].0 == n;
        } else {
          assert Listed(before, n);
          var m :| 0 <= m < |before| && before[m].0 == n;
          assert c[m].0 == n;
        }
      }
    }
  }

  /** Every chart entry holds the values of the last row of its name. */
  lemma {:induction false} ChartValues(data: seq<Record>, years: seq<string>, m: nat)
    requires m < |Chart(data, years)|
    ensures Chart(data, years)[m].0 in Names(data)
    ensures Chart(data, years)[m].1 == ChartRow(data[LastNamed(data, Chart(data, years)[m].0)], years)
  {
    ChartNames(data, years);
    var init := data[..|data| - 1];
    var last := data[|data| - 1];
    ChartNames(init, years);
    var before := Chart(init, years);
    var name := NameOf(last);
    PutFacts(before, name, ChartRow(last, years));
    var c := Chart(data, years);
    if c[m].0 != name {
      assert m < |before| && c[m] == before[m];
      ChartValues(init, years, m);
      var n := c[m].0;
      assert LastNamed(data, n) == LastNamed(init, n);
      assert data[LastNamed(init, n)] == init[LastNamed(init, n)];
    }
  }

  /** Replacing the values of `name` after putting it is putting the new ones. */
  lemma PutReplace(chart: seq<(Value, seq<Value>)>, name: Value, values: seq<Value>, values': seq<Value>)
    ensures var j := NameIndex(chart, name);
      && j < |Put(chart, name, values)|
      && Put(chart, name, values)[j := (name, values')] == Put(chart, name, values')
  {
  }

  /** A Chart.js dataset of the report: name, values and palette index
      among five colours. */
  datatype ChartDataset = ChartDataset(name: Value, values: seq<Value>, color: nat)

  /** `_generate_comparison_chart(data, years, title)`: no chart without
      years; otherwise one dataset per distinct name. */
  method ComparisonChart(data: seq<Record>, years: seq<string>) returns (r: Option<seq<ChartDataset>>)
    ensures years == [] <==> r.None?
    ensures r.Some? ==> |r.value| == |Chart(data, years)|
    ensures r.Some? ==> forall i :: 0 <= i < |r.value| ==>
      r.value[i] == ChartDataset(Chart(data, years)[i].0, Chart(data, years)[i].1, i % 5)
  {
    if years == [] {
      return None;
    }
    var chart := ChartOf(data, years);
    var datasets: seq<ChartDataset> := [];
    var i := 0;
    while i < |chart|
      invariant 0 <= i <= |chart|
      invariant |datasets| == i
      invariant forall k :: 0 <= k < i ==> datasets[k] == ChartDataset(chart[k].0, chart[k].1, k % 5)
    {
      datasets := datasets + [ChartDataset(chart[i].0, chart[i].1, i % 5)];
      i := i + 1;
    }
    return Some(datasets);
  }

  /** The nested loop filling `chart_data`. */
  method ChartOf(data: seq<Record>, years: seq<string>) returns (chart: seq<(Value, seq<Value>)>)
    ensures chart == Chart(data, years)
  {
    chart := [];
    var i := 0;
    while i < |data|
      invariant 0 <= i <= |data|
      invariant chart == Chart(data[..i], years)
    {
      assert data[..i + 1][..i] == data[..i];
      chart := PutRow(chart, data[i], years);
      i := i + 1;
    }
    assert data[..i] == data;
  }

  /** One iteration over `data`: `chart_data[name] = []`, then the row's
      value for each year appended to that entry. */
  method PutRow(chart0: seq<(Value, seq<Value>)>, item: Record, years: seq<string>) returns (chart: seq<(Value, seq<Value>)>)
    ensures chart == Put(chart0, NameOf(item), ChartRow(item, years))
  {
    var name := NameOf(item);
    var j := NameIndex(chart0, name);
    chart := Put(chart0, name, []);
    var values := RowValues(item, years);
    PutReplace(chart0, name, [], values);
    chart := chart[j := (name, values)];
  }

  /** The appends of the inner loop, year by year. */
  method RowValues(item: Record, years: seq<string>) returns (values: seq<Value>)
    ensures values == ChartRow(item, years)
  {
    values := [];
    var k := 0;
    while k < |years|
      invariant 0 <= k <= |years|
      invariant values == ChartRow(item, years[..k])
    {
      var value := ChartValue(YearValue(item, years[k]));
      assert years[..k + 1][..k] == years[..k];
      values := values + [value];
      k := k + 1;
    }
    assert years[..k] == years;
  }


  // ----- Balance sheet classification and totals -----

  /** `w in s` on strings: w occurs in s as a contiguous piece. */
  predicate Contains(s: string, w: string)
    ensures Contains(s, w) ==> |w| <= |s|
    ensures w == [] ==> Contains(s, w)
  {
    if w <= s then true
    else if s == [] then false
    else Contains(s[1..], w)
  }

  /** `w in str(name)`: a name that is not a string prints as "None" or
      as digits, which contain none of the Korean words searched for. */
  predicate Mentions(item: Record, w: string)
    ensures Mentions(item, w) ==> NameOf(item).Str? && |w| <= |NameOf(item).s|
  {
    NameOf(item).Str? && Contains(NameOf(item).s, w)
  }

  /** `[item for item in rows if w in str(name)]` */
  function Filter(rows: seq<Record>, w: string): (f: seq<Record>)
    ensures |f| <= |rows|
    ensures forall item :: item in f ==> item in rows && Mentions(item, w)
  {
    if rows == [] then []
    else
      var last := rows[|rows| - 1];
      Filter(rows[..|rows| - 1], w) + (if Mentions(last, w) then [last] else [])
  }

  /** `item.get('값', item.get('value', 0))` */
  function ItemValue(item: Record): Value {
    Resolve(item, "값", "value", Num(0.0))
  }

  /** `sum([...values])`: adding a string or None raises TypeError. */
  function Sum(rows: seq<Record>): (r: Result<real>)
    ensures r.Err? ==> r.error == TypeError
    ensures rows == [] ==> r == Ok(0.0)
  {
    if rows == [] then Ok(0.0)
    else
      match Sum(rows[..|rows| - 1])
      case Err(e) => Err(e)
      case Ok(t) =>
        match ItemValue(rows[|rows| - 1])
        case Num(x) => Ok(t + x)
        case _ => Err(TypeError)
  }

  predicate AllValued(rows: seq<Record>) {
    forall i :: 0 <= i < |rows| ==> ItemValue(rows[i]).Num?
  }

  /** A sum fails exactly when some value is not a number. */
  lemma {:induction false} SumFails(rows: seq<Record>)
    ensures Sum(rows).Ok? <==> AllValued(rows)
  {
    if rows != [] {
      var init := rows[..|rows| - 1];
      SumFails(init);
      assert forall i :: 0 <= i < |init| ==> init[i] == rows[i];
    }
  }

  lemma SumSnoc(rows: seq<Record>, item: Record)
    requires Sum(rows).Ok? && ItemValue(item).Num?
    ensures Sum(rows + [item]) == Ok(Sum(rows).value + ItemValue(item).x)
  {
    assert (rows + [item])[..|rows|] == rows;
  }

  /** The sum of the values of the rows mentioning w. */
  function SumIf(rows: seq<Record>, w: string): real
    requires AllValued(rows)
  {
    if rows == [] then 0.0
    else
      var last := rows[|rows| - 1];
      SumIf(rows[..|rows| - 1], w) + (if Mentions(last, w) then ItemValue(last).x else 0.0)
  }

  /** A filtered sum adds up exactly the values of the rows that mention
      the word. */
  lemma {:induction false} FilteredSum(rows: seq<Record>, w: string)
    requires AllValued(rows)
    ensures Sum(Filter(rows, w)) == Ok(SumIf(rows, w))
  {
    if rows != [] {
      var init := rows[..|rows| - 1];
      var last := rows[|rows| - 1];
      assert AllValued(init) by {
        assert forall i :: 0 <= i < |init| ==> init[i] == rows[i];
      }
      FilteredSum(init, w);
      var f := Filter(init, w);
      var x := ItemValue(last).x;
      assert SumIf(rows, w) == SumIf(init, w) + (if Mentions(last, w) then x else 0.0);
      if Mentions(last, w) {
        assert Filter(rows, w) == f + [last];
        SumSnoc(f, last);
      } else {
        assert Filter(rows, w) == f;
      }
    }
  }

  /** When every name mentions exactly one of 자산, 부채 and 자본, the three
      totals split the sum of all values. */
  lemma {:induction false} PartitionTotals(rows: seq<Record>)
    requires AllValued(rows)
    requires forall i :: 0 <= i < |rows| ==>
      (if Mentions(rows[i], "자산") then 1 else 0) + (if Mentions(rows[i], "부채") then 1 else 0)
        + (if Mentions(rows[i], "자본") then 1 else 0) == 1
    ensures Sum(rows).Ok? && SumIf(rows, "자산") + SumIf(rows, "부채") + SumIf(rows, "자본") == Sum(rows).value
  {
    SumFails(rows);
    if rows != [] {
      var init := rows[..|rows| - 1];
      assert forall i :: 0 <= i < |init| ==> init[i] == rows[i];
      PartitionTotals(init);
    }
  }

  /** A word found at some offset is contained. */
  lemma {:induction false} ContainsAt(s: string, w: string, n: nat)
    requires n <= |s| && w <= s[n..]
    ensures Contains(s, w)
  {
    if n > 0 && !(w <= s) {
      assert s[1..][n - 1..] == s[n..];
      ContainsAt(s[1..], w, n - 1);
    }
  }

  /** A word with a character the string lacks is not contained. */
  lemma {:induction false} MissingChar(s: string, w: string, k: nat)
    requires k < |w| && w[k] !in s
    ensures !Contains(s, w)
  {
    PrefixChar(w, s, k);
    if s != [] {
      MissingChar(s[1..], w, k);
    }
  }

  lemma PrefixChar(w: string, s: string, k: nat)
    requires k < |w|
    ensures w <= s ==> w[k] in s
  {
  }

  /** The filters are independent: a row named 부채와자본총계 counts in
      both the liabilities and the equity total. */
  lemma CountedTwice()
    ensures var item := [(SKey("항목"), Str("부채와자본총계")), (SKey("값"), Num(100.0))];
      Mentions(item, "부채") && Mentions(item, "자본") && !Mentions(item, "자산")
  {
    var item := [(SKey("항목"), Str("부채와자본총계")), (SKey("값"), Num(100.0))];
    var s := "부채와자본총계";
    assert NameOf(item) == Str(s);
    assert "부채" <= s;
    ContainsAt(s, "자본", 3);
    assert "자산"[1] !in s;
    MissingChar(s, "자산", 1);
  }

  /** The three formatted totals of `_generate_balance_chart`. */
  datatype BalanceChart = BalanceChart(assets: string, liabilities: string, equity: string)

  /** `_generate_balance_chart(assets, liabilities, equity)`: the three sums
      in that order, each through `_format_number`. */
  function BalanceChartOf(assets: seq<Record>, liabilities: seq<Record>, equity: seq<Record>): (r: Result<BalanceChart>)
    ensures r.Ok? <==> AllValued(assets) && AllValued(liabilities) && AllValued(equity)
    ensures r.Ok? ==>
      && Sum(assets).Ok? && Sum(liabilities).Ok? && Sum(equity).Ok?
      && r.value == BalanceChart(NumberText(Sum(assets).value), NumberText(Sum(liabilities).value), NumberText(Sum(equity).value))
  {
    SumFails(assets);
    SumFails(liabilities);
    SumFails(equity);
    match Sum(assets)
    case Err(e) => Err(e)
    case Ok(a) =>
      match Sum(liabilities)
      case Err(e) => Err(e)
      case Ok(l) =>
        match Sum(equity)
        case Err(e) => Err(e)
        case Ok(q) => Ok(BalanceChart(NumberText(a), NumberText(l), NumberText(q)))
  }

  // ----- The tabs -----

  /** A summary card of the report: name, value text, unit, and the arrow
      and magnitude of the change (with no caption). */
  datatype ReportCard = ReportCard(name: Value, value: string, unit: Value, change: Badge)

  /** One card of `_generate_summary_tab`: every field resolved Korean key
      first, then English, then the default; `change >= 0` is evaluated
      before the value is formatted. */
  function SummaryCard(item: Record): (r: Result<ReportCard>)
    ensures r.Err? ==> r.error == TypeError
    ensures r.Ok? <==> Resolve(item, "변동률", "change", Num(0.0)).Num? && !Resolve(item, "값", "value", Num(0.0)).Null?
  {
    var name := Resolve(item, "항목", "name", Str(""));
    var value := Resolve(item, "값", "value", Num(0.0));
    var unit := Resolve(item, "단위", "unit", Str(""));
    var change := Resolve(item, "변동률", "change", Num(0.0));
    if !change.Num? then Err(TypeError)
    else
      match FormatNumber(value)
      case Err(e) => Err(e)
      case Ok(text) => Ok(ReportCard(name, text, unit, BadgeOf(change.x, "")))
  }

  /** A card fails with TypeError exactly when its change is not a number
      or its value is None; otherwise it shows the resolved fields, the
      value through `_format_number`, and the arrow and the magnitude
      `{abs(change):.1f}` of the change. */
  lemma SummaryCardMeaning(item: Record)
    ensures var r := SummaryCard(item);
      && (r.Ok? <==> Resolve(item, "변동률", "change", Num(0.0)).Num? && !Resolve(item, "값", "value", Num(0.0)).Null?)
      && (r.Err? ==> r.error == TypeError)
      && (r.Ok? ==>
        && r.value.name == Resolve(item, "항목", "name", Str(""))
        && r.value.unit == Resolve(item, "단위", "unit", Str(""))
        && Ok(r.value.value) == FormatNumber(Resolve(item, "값", "value", Num(0.0)))
        && (r.value.change.up <==> Resolve(item, "변동률", "change", Num(0.0)).x >= 0.0)
        && r.value.change == BadgeOf(Resolve(item, "변동률", "change", Num(0.0)).x, ""))
  {
  }

  /** Without a change field the card shows an upward arrow and 0.0. */
  lemma MissingChangeIsUp(item: Record)
    requires !HasKey(item, SKey("변동률")) && !HasKey(item, SKey("change"))
    requires SummaryCard(item).Ok?
    ensures SummaryCard(item).value.change.up
    ensures ParseDecimal(SummaryCard(item).value.change.magnitude) == Some(0.0)
  {
    assert Rounded(Abs(0.0), 1) == 0.0 by {
      assert Units(0.0, 1) == 0;
    }
  }

  /** The cards of the first six rows. */
  method SummaryCards(rows: seq<Record>) returns (r: Result<seq<ReportCard>>)
    ensures r == Traverse(SummaryCard, rows[..Min(6, |rows|)])
  {
    var n := Min(6, |rows|);
    var cards: seq<ReportCard> := [];
    var i := 0;
    while i < n
      invariant 0 <= i <= n
      invariant Traverse(SummaryCard, rows[..i]) == Ok(cards)
    {
      var card := SummaryCard(rows[i]);
      TraverseNext(SummaryCard, rows, i);
      if card.Err? {
        TraverseStops(SummaryCard, rows[..i + 1], rows[..n]);
        return Err(card.error);
      }
      cards := cards + [card.value];
      i := i + 1;
    }
    return Ok(cards);
  }

  datatype SummaryTab = NoSummary | Summary(cards: seq<ReportCard>, table: Table)

  /** `_generate_summary_tab()`: the cards of the first six rows and the
      table of all rows. */
  method GenerateSummaryTab(g: Generator) returns (r: Result<SummaryTab>)
    ensures var rows := Section(g.data, "summary");
      && (rows == [] <==> r == Ok(NoSummary))
      && (rows != [] ==> (r.Err? <==> Traverse(SummaryCard, rows[..Min(6, |rows|)]).Err?))
      && (r.Ok? && rows != [] ==>
            && Ok(r.value.cards) == Traverse(SummaryCard, rows[..Min(6, |rows|)])
            && r.value.table.Table? && |r.value.table.cells| == |rows|
            && r.value.table == Table(KeysOf(rows[0]), Body(rows, KeysOf(rows[0]))))
  {
    var rows := Section(g.data, "summary");
    if rows == [] {
      return Ok(NoSummary);
    }
    var cards := SummaryCards(rows);
    if cards.Err? {
      return Err(cards.error);
    }
    var table := GenerateTable(rows);
    return Ok(Summary(cards.value, table));
  }

  datatype IncomeTab = NoIncome | Income(years: seq<string>, chart: Option<seq<ChartDataset>>, table: Table)

  /** `_generate_income_statement_tab()`: years, comparison chart and
      table; nothing in it can raise. */
  method GenerateIncomeTab(g: Generator) returns (t: IncomeTab)
    ensures var rows := Section(g.data, "income_statement");
      && (rows == [] <==> t == NoIncome)
      && (t.Income? ==>
            && StrictlyDescending(t.years) && |t.years| == Min(5, |YearSet(rows)|)
            && (forall y :: y in t.years ==> y in YearSet(rows))
            && (forall y :: y in YearSet(rows) && y !in t.years ==>
                  forall j :: 0 <= j < |t.years| ==> Less(y, t.years[j]))
            && (t.chart.None? <==> t.years == [])
            && (t.chart.Some? ==>
                  && |t.chart.value| == |Chart(rows, t.years)|
                  && forall i :: 0 <= i < |t.chart.value| ==>
                       t.chart.value[i] == ChartDataset(Chart(rows, t.years)[i].0, Chart(rows, t.years)[i].1, i % 5))
            && t.table.Table? && |t.table.cells| == |rows|
            && t.table == Table(KeysOf(rows[0]), Body(rows, KeysOf(rows[0]))))
  {
    var rows := Section(g.data, "income_statement");
    if rows == [] {
      return NoIncome;
    }
    var years := ExtractYears(rows);
    var chart := ComparisonChart(rows, years);
    var table := GenerateTable(rows);
    return Income(years, chart, table);
  }

  datatype BalanceTab = NoBalance | Balance(chart: BalanceChart, table: Table)

  /** `_generate_balance_sheet_tab()`: three independent substring filters
      on the name, their totals, and the table. */
  method GenerateBalanceTab(g: Generator) returns (r: Result<BalanceTab>)
    ensures var rows := Section(g.data, "balance_sheet");
      && (rows == [] <==> r == Ok(NoBalance))
      && (rows != [] ==> (r.Err? <==>
            !AllValued(Filter(rows, "자산")) || !AllValued(Filter(rows, "부채")) || !AllValued(Filter(rows, "자본"))))
      && (r.Ok? && rows != [] ==>
            && r.value.chart == BalanceChartOf(Filter(rows, "자산"), Filter(rows, "부채"), Filter(rows, "자본")).value
            && r.value.table == Table(KeysOf(rows[0]), Body(rows, KeysOf(rows[0]))))
  {
    var rows := Section(g.data, "balance_sheet");
    if rows == [] {
      return Ok(NoBalance);
    }
    var chart := BalanceChartOf(Filter(rows, "자산"), Filter(rows, "부채"), Filter(rows, "자본"));
    if chart.Err? {
      return Err(chart.error);
    }
    var table := GenerateTable(rows);
    return Ok(Balance(chart.value, table));
  }

  /** A row mentioning none of the three words is in no total; with all
      values numbers, each total is the sum over the rows naming its word. */
  lemma BalanceTotalsMeaning(rows: seq<Record>)
    requires AllValued(rows)
    ensures BalanceChartOf(Filter(rows, "자산"), Filter(rows, "부채"), Filter(rows, "자본")) ==
      Ok(BalanceChart(NumberText(SumIf(rows, "자산")), NumberText(SumIf(rows, "부채")), NumberText(SumIf(rows, "자본"))))
  {
    FilteredSum(rows, "자산");
    FilteredSum(rows, "부채");
    FilteredSum(rows, "자본");
    SumFails(Filter(rows, "자산"));
    SumFails(Filter(rows, "부채"));
    SumFails(Filter(rows, "자본"));
  }
}
