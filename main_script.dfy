/**
 * The page script's data loading: the tile grid is keyed by state, every
 * race-data row has its numeric fields coerced and its grid cell joined in,
 * the national row is split off, and the chart is built from the rest.
 */
module MainScript {
  import opened Records
  import opened Wrangle
  import opened Bubble

  // ---------------------------------------------------------------------
  // Grouping the tile grid by state
  // ---------------------------------------------------------------------

  /** The key a tile-grid row is filed under: its `state` field as a property name. */
  function StateKey(g: CsvRow): string {
    PropertyKey(GetText(g, "state"))
  }

  /**
   * The tile grid nested by state (vis/js/main.js:19-22): one entry per
   * distinct key, holding the first row filed under it.
   */
  function GroupByState(rows: seq<CsvRow>): map<string, CsvRow> {
    if rows == [] then map[] else GroupByState(rows[1..])[StateKey(rows[0]) := rows[0]]
  }

  /** The grid has an entry exactly for the keys of its rows. */
  lemma {:induction false} GroupByStateKeys(rows: seq<CsvRow>, k: string)
    ensures k in GroupByState(rows) <==> exists i :: 0 <= i < |rows| && StateKey(rows[i]) == k
  {
    if rows != [] {
      GroupByStateKeys(rows[1..], k);
      if k in GroupByState(rows[1..]) {
        var i :| 0 <= i < |rows[1..]| && StateKey(rows[1..][i]) == k;
        assert StateKey(rows[i + 1]) == k;
      }
      if exists i :: 0 <= i < |rows| && StateKey(rows[i]) == k {
        var i :| 0 <= i < |rows| && StateKey(rows[i]) == k;
        if i > 0 {
          assert StateKey(rows[1..][i - 1]) == k;
        }
      }
    }
  }

  /** The first row filed under a key is the one the grid keeps for it. */
  lemma {:induction false} GroupByStateFirstWins(rows: seq<CsvRow>, i: nat)
    requires i < |rows|
    requires forall j :: 0 <= j < i ==> StateKey(rows[j]) != StateKey(rows[i])
    ensures StateKey(rows[i]) in GroupByState(rows)
    ensures GroupByState(rows)[StateKey(rows[i])] == rows[i]
  {
    if i > 0 {
      forall j | 0 <= j < i - 1
        ensures StateKey(rows[1..][j]) != StateKey(rows[1..][i - 1])
      {
        assert StateKey(rows[j + 1]) != StateKey(rows[i]);
      }
      GroupByStateFirstWins(rows[1..], i - 1);
      assert StateKey(rows[0]) != StateKey(rows[i]);
    }
  }

  // ---------------------------------------------------------------------
  // Numeric coercion of the race-data fields
  // ---------------------------------------------------------------------

  /** The text with every comma removed, as `replace(/,/g, '')` leaves it (vis/js/main.js:26). */
  function StripCommas(s: string): string {
    if s == [] then [] else (if s[0] == ',' then [] else [s[0]]) + StripCommas(s[1..])
  }

  /** Removing the commas takes out every comma and nothing else: a text
      without commas is unchanged, and each other character keeps its count. */
  lemma {:induction false} StripCommasRemovesOnlyCommas(s: string)
    ensures ',' !in StripCommas(s)
    ensures ',' !in s ==> StripCommas(s) == s
    ensures multiset(StripCommas(s)) == multiset(s)[',' := 0]
  {
    if s != [] {
      StripCommasRemovesOnlyCommas(s[1..]);
      var head := if s[0] == ',' then [] else [s[0]];
      assert StripCommas(s) == head + StripCommas(s[1..]);
      assert s == [s[0]] + s[1..];
      assert multiset(s) == multiset{s[0]} + multiset(s[1..]);
      assert multiset(StripCommas(s)) == multiset(head) + multiset(StripCommas(s[1..]));
    }
  }

  /** A comma is dropped and any other character is kept. */
  lemma StripCommasChar(c: char)
    ensures StripCommas([c]) == if c == ',' then [] else [c]
  {
  }

  /** Stripping works piece by piece, so the kept characters stay in order:
      with `StripCommasChar` this determines the result for every text. */
  lemma {:induction false} StripCommasAppend(a: string, b: string)
    ensures StripCommas(a + b) == StripCommas(a) + StripCommas(b)
  {
    if a == [] {
      assert a + b == b;
    } else {
      var head := if a[0] == ',' then [] else [a[0]];
      assert (a + b)[0] == a[0];
      assert (a + b)[1..] == a[1..] + b;
      StripCommasAppend(a[1..], b);
      calc {
        StripCommas(a + b);
        head + StripCommas(a[1..] + b);
        head + (StripCommas(a[1..]) + StripCommas(b));
        (head + StripCommas(a[1..])) + StripCommas(b);
      }
    }
  }

  /** A thousands separator anywhere in a field does not change what the
      field loads as when it is a number, nor whether it is one. */
  lemma CoerceFieldSeparator(a: string, b: string)
    ensures StripCommas(a + [','] + b) == StripCommas(a + b)
    ensures CoerceField(Str(a + [','] + b)).Num? <==> CoerceField(Str(a + b)).Num?
    ensures CoerceField(Str(a + b)).Num? ==> CoerceField(Str(a + [','] + b)) == CoerceField(Str(a + b))
  {
    assert a + [','] + b == a + ([','] + b);
    StripCommasAppend(a, [','] + b);
    StripCommasAppend(a, b);
    assert ([','] + b)[1..] == b;
  }

  /** Every character is a decimal digit or a thousands separator. */
  predicate DigitsAndCommas(s: string) {
    forall i :: 0 <= i < |s| ==> IsDigit(s[i]) || s[i] == ','
  }

  lemma {:induction false} StripCommasAllDigits(s: string)
    ensures AllDigits(StripCommas(s)) <==> DigitsAndCommas(s)
  {
    if s != [] {
      StripCommasAllDigits(s[1..]);
      var head := if s[0] == ',' then [] else [s[0]];
      var r := StripCommas(s);
      assert r == head + StripCommas(s[1..]);
      assert DigitsAndCommas(s) <==> (IsDigit(s[0]) || s[0] == ',') && DigitsAndCommas(s[1..]) by {
        if (IsDigit(s[0]) || s[0] == ',') && DigitsAndCommas(s[1..]) {
          forall i | 0 <= i < |s|
            ensures IsDigit(s[i]) || s[i] == ','
          {
            if i > 0 {
              assert s[i] == s[1..][i - 1];
            }
          }
        }
      }
      if AllDigits(StripCommas(s[1..])) && (IsDigit(s[0]) || s[0] == ',') {
        forall i | 0 <= i < |r|
          ensures IsDigit(r[i])
        {
          if i >= |head| {
            assert r[i] == StripCommas(s[1..])[i - |head|];
          }
        }
      }
      if AllDigits(r) {
        forall i | 0 <= i < |StripCommas(s[1..])|
          ensures IsDigit(StripCommas(s[1..])[i])
        {
          assert StripCommas(s[1..])[i] == r[i + |head|];
        }
        if s[0] != ',' {
          assert r[0] == s[0];
        }
      }
    }
  }

  /**
   * One field after coercion (vis/js/main.js:26-29): the number its
   * comma-stripped text denotes when that text is a number, the field
   * unchanged otherwise.
   */
  function CoerceField(v: Value): Value
    requires v.Str?
  {
    var tmp := ToNumber(Str(StripCommas(v.s)));
    if tmp.NaN? then v else tmp
  }

  /** A field becomes a number exactly when its text is digits and commas only;
      otherwise it keeps its original string. */
  lemma CoerceFieldNumeric(s: string)
    ensures CoerceField(Str(s)).Num? <==> DigitsAndCommas(s)
    ensures !DigitsAndCommas(s) ==> CoerceField(Str(s)) == Str(s)
  {
    StripCommasAllDigits(s);
  }

  /** Thousands separators are ignored: "1,234" loads as 1234. */
  lemma CoerceFieldThousands()
    ensures CoerceField(Str("1,234")) == Num(1234)
  {
    StripThousands();
    ParseThousands();
  }

  lemma StripThousands()
    ensures StripCommas("1,234") == "1234"
  {
    assert "1,234" == "1" + [','] + "234" && "1234" == "1" + "234";
    CoerceFieldSeparator("1", "234");
    StripCommasRemovesOnlyCommas("1234");
  }

  lemma ParseThousands()
    ensures ParseNumber("1234") == Some(1234)
  {
    assert ParseNumber("1") == Some(1) by { assert "1"[..0] == ""; }
    assert ParseNumber("12") == Some(12) by { assert "12"[..1] == "1"; }
    assert ParseNumber("123") == Some(123) by { assert "123"[..2] == "12"; }
    assert "1234"[..3] == "123";
  }

  /** A field that is empty or holds only commas loads as the number 0. */
  lemma CoerceFieldBlank(s: string)
    requires forall i :: 0 <= i < |s| ==> s[i] == ','
    ensures CoerceField(Str(s)) == Num(0)
  {
    StripCommasRemovesOnlyCommas(s);
    assert multiset(s)[',' := 0] == multiset{};
    assert StripCommas(s) == [];
  }

  /** A number printed in decimal loads back as the same number. */
  lemma CoerceFieldDecimal(n: nat)
    ensures CoerceField(Str(DecimalString(n))) == Num(n)
  {
    var s := DecimalString(n);
    assert ',' !in s;
    StripCommasRemovesOnlyCommas(s);
    ParseDecimalString(n);
  }

  /** A raw CSV row: every field still holds the text it was read as. */
  predicate AllText(row: Row) {
    forall k :: k in row ==> row[k].Str?
  }

  /** The row after its properties have been coerced (vis/js/main.js:25-30). */
  function CoerceRow(row: Row): (r: Row)
    requires AllText(row)
  {
    map k | k in row :: CoerceField(row[k])
  }

  /** Coercion touches no key and coerces every field by itself. */
  lemma CoerceRowFields(row: Row, k: string)
    requires AllText(row)
    ensures CoerceRow(row).Keys == row.Keys
    ensures k in row ==> (CoerceRow(row)[k].Num? <==> DigitsAndCommas(row[k].s))
    ensures k in row && !DigitsAndCommas(row[k].s) ==> CoerceRow(row)[k] == row[k]
  {
    if k in row {
      CoerceFieldNumeric(row[k].s);
    }
  }

  // ---------------------------------------------------------------------
  // Joining the grid cell
  // ---------------------------------------------------------------------

  /** The row is the national total: its `GEOID` is the string "US" (vis/js/main.js:31). */
  predicate IsNational(row: Row) {
    Get(row, "GEOID") == Str("US")
  }

  /** The grid key a row's `GEOID` denotes as a property name (vis/js/main.js:32-33). */
  function GridKey(row: Row): string {
    PropertyKey(Get(row, "GEOID"))
  }

  /** A state row finds its grid cell; the lookup of a missing key throws. */
  predicate JoinDefined(row: Row, grid: map<string, CsvRow>) {
    !IsNational(row) ==> GridKey(row) in grid
  }

  /** Every row but the national one takes its grid cell's row and column,
      converted to numbers (vis/js/main.js:31-34). */
  function Join(row: Row, grid: map<string, CsvRow>): Row
    requires JoinDefined(row, grid)
  {
    if IsNational(row) then row
    else
      var cell := grid[GridKey(row)];
      row["row" := ToNumber(GetText(cell, "row"))]["col" := ToNumber(GetText(cell, "col"))]
  }

  /** The national row is left as it is; a state row gains its cell's row and
      column as numbers and keeps every other field. */
  lemma JoinFields(row: Row, grid: map<string, CsvRow>, k: string)
    requires JoinDefined(row, grid)
    ensures IsNational(row) ==> Join(row, grid) == row
    ensures !IsNational(row) ==> Join(row, grid).Keys == row.Keys + {"row", "col"}
    ensures !IsNational(row) ==>
              && Join(row, grid)["row"] == ToNumber(GetText(grid[GridKey(row)], "row"))
              && Join(row, grid)["col"] == ToNumber(GetText(grid[GridKey(row)], "col"))
    ensures k in row && k != "row" && k != "col" ==> Join(row, grid)[k] == row[k]
  {
  }

  /** One race-data row as the `forEach` callback leaves it. */
  function LoadRow(raw: Row, grid: map<string, CsvRow>): Row
    requires AllText(raw) && JoinDefined(CoerceRow(raw), grid)
  {
    Join(CoerceRow(raw), grid)
  }

  /** Every row after the first, in order (vis/js/main.js:38). */
  function StateRows(rows: seq<Row>): (rest: seq<Row>)
    ensures |rest| == if rows == [] then 0 else |rows| - 1
    ensures forall i :: 0 <= i < |rest| ==> rest[i] == rows[i + 1]
  {
    if rows == [] then [] else rows[1..]
  }

  /** Whether the loader can run on these inputs and hand the chart rows it can draw. */
  predicate Loadable(gridRows: seq<CsvRow>, raw: seq<Row>) {
    && (forall i :: 0 <= i < |raw| ==> AllText(raw[i]))
    && (forall i :: 0 <= i < |raw| ==> JoinDefined(CoerceRow(raw[i]), GroupByState(gridRows)))
    && (forall i :: 1 <= i < |raw| ==> WellFormed(LoadRow(raw[i], GroupByState(gridRows))))
  }

  /** Coerces the fields of one row in place, one property at a time. */
  method CoerceFields(raceData: array<Row>, i: nat)
    requires i < raceData.Length && AllText(raceData[i])
    modifies raceData
    ensures raceData[..] == old(raceData[..])[i := CoerceRow(old(raceData[i]))]
  {
    ghost var original := raceData[i];
    var props := raceData[i].Keys;
    while props != {}
      invariant raceData[..] == old(raceData[..])[i := raceData[i]]
      invariant props <= original.Keys && raceData[i].Keys == original.Keys
      invariant forall k :: k in original ==>
                  raceData[i][k] == if k in props then original[k] else CoerceField(original[k])
      decreases props
    {
      var prop :| prop in props;
      var tmp := ToNumber(Str(StripCommas(raceData[i][prop].s)));
      if !tmp.NaN? {
        raceData[i] := raceData[i][prop := tmp];
      }
      props := props - {prop};
    }
    assert raceData[i] == CoerceRow(original);
  }

  /**
   * `loadData`: groups the grid, coerces and joins every race-data row in
   * place, then splits off the first row and builds the chart from the rest.
   */
  method LoadData(gridRows: seq<CsvRow>, raceData: array<Row>) returns (usData: Option<Row>, vis: BubbleVis)
    requires Loadable(gridRows, raceData[..])
    modifies raceData
    ensures forall i :: 0 <= i < raceData.Length ==>
              raceData[i] == LoadRow(old(raceData[i]), GroupByState(gridRows))
    ensures usData == if raceData.Length == 0 then None else Some(raceData[0])
    ensures fresh(vis)
    ensures vis.data == DeriveAll(StateRows(raceData[..])) && vis.Stats() == Accumulate(vis.data)
    ensures vis.radiusDomain == [0.0, vis.highestRate]
    ensures vis.colDomain == BandDomain(ColumnOf(vis.data)) && vis.rowDomain == BandDomain(RowOf(vis.data))
    ensures vis.incarceratedDomain == DefaultDomain && vis.totalPopDomain == DefaultDomain
    ensures vis.selectedRace == Latino && !vis.rosling && vis.toggleCount == 0 && vis.Valid()
  {
    var usTileGrid := GroupByState(gridRows);
    var i := 0;
    while i < raceData.Length
      invariant 0 <= i <= raceData.Length
      invariant forall j :: 0 <= j < i ==> raceData[j] == LoadRow(old(raceData[j]), usTileGrid)
      invariant forall j :: i <= j < raceData.Length ==> raceData[j] == old(raceData[j])
    {
      CoerceFields(raceData, i);
      var d := raceData[i];
      if Get(d, "GEOID") != Str("US") {
        var cell := usTileGrid[PropertyKey(Get(d, "GEOID"))];
        d := d["row" := ToNumber(GetText(cell, "row"))];
        d := d["col" := ToNumber(GetText(cell, "col"))];
      }
      raceData[i] := d;
      i := i + 1;
    }
    usData := if raceData.Length == 0 then None else Some(raceData[0]);
    var states := StateRows(raceData[..]);
    vis := new BubbleVis(states);
  }
}
