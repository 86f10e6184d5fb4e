/**
 * The data side of the bubble chart: turning each loaded state row into a
 * derived record with per-race counts and incarceration rates, the running
 * extrema that size the scales, and the cartogram's band domains.
 */
module Wrangle {
  import opened Records

  datatype Race = Asian | Black | Latino | White | Other

  /** The races in the order the chart lists them. */
  const Races: seq<Race> := [Asian, Black, Latino, White, Other]

  function Name(r: Race): string {
    match r
    case Asian => "Asian"
    case Black => "Black"
    case Latino => "Latino"
    case White => "White"
    case Other => "Other"
  }

  /** Column of the loaded row holding a race's total population. */
  function PopField(r: Race): string {
    Name(r) + "Total"
  }

  /** Column of the loaded row holding a race's incarcerated population. */
  function PrisonField(r: Race): string {
    Name(r) + "TotalPrison"
  }

  /** One race's figures in a derived record: `<race>Pop`, `<race>Prison`, `<race>Rate`. */
  datatype Counts = Counts(pop: nat, prison: nat, rate: real)

  /** The derived per-state record. */
  datatype Entry = Entry(name: Value, geoId: Value, row: nat, col: nat,
                         asian: Counts, black: Counts, latino: Counts, white: Counts, other: Counts)
  {
    function Of(r: Race): Counts {
      match r
      case Asian => asian
      case Black => black
      case Latino => latino
      case White => white
      case Other => other
    }
  }

  /** The row carries numeric counts for race `r`, with a positive population. */
  predicate HasCounts(row: Row, r: Race) {
    && Get(row, PopField(r)).Num?
    && Get(row, PopField(r)).n > 0
    && Get(row, PrisonField(r)).Num?
  }

  /** What the chart needs of a loaded state row: numeric grid cell and counts. */
  predicate WellFormed(row: Row) {
    && Get(row, "row").Num?
    && Get(row, "col").Num?
    && forall r :: HasCounts(row, r)
  }

  function RaceCounts(row: Row, r: Race): Counts
    requires HasCounts(row, r)
  {
    var pop := Get(row, PopField(r)).n;
    var prison := Get(row, PrisonField(r)).n;
    Counts(pop, prison, prison as real / pop as real)
  }

  /** The record built for one state. */
  function Derive(row: Row): Entry
    requires WellFormed(row)
  {
    Entry(Get(row, "Geography"), Get(row, "GEOID"), Get(row, "row").n, Get(row, "col").n,
          RaceCounts(row, Asian), RaceCounts(row, Black), RaceCounts(row, Latino),
          RaceCounts(row, White), RaceCounts(row, Other))
  }

  /**
   * The derived record copies the state's name, id and grid cell, and keeps
   * each race's population and incarcerated count unchanged.
   */
  lemma DeriveCopiesFields(row: Row, r: Race)
    requires WellFormed(row)
    ensures Derive(row).name == Get(row, "Geography") && Derive(row).geoId == Get(row, "GEOID")
    ensures Num(Derive(row).row) == Get(row, "row") && Num(Derive(row).col) == Get(row, "col")
    ensures Num(Derive(row).Of(r).pop) == Get(row, PopField(r))
    ensures Num(Derive(row).Of(r).prison) == Get(row, PrisonField(r))
    ensures Derive(row).Of(r) == RaceCounts(row, r)
  {
    assert HasCounts(row, r);
    assert Derive(row).Of(r) == RaceCounts(row, r);
  }

  /** Deriving one more row extends the derived records by that row's record. */
  lemma DeriveAllSnoc(rows: seq<Row>, i: nat)
    requires forall j :: 0 <= j < |rows| ==> WellFormed(rows[j])
    requires i < |rows|
    ensures DeriveAll(rows[..i + 1]) == DeriveAll(rows[..i]) + [Derive(rows[i])]
  {
    assert rows[..i + 1][..i] == rows[..i];
  }

  /** A race's derived rate is its incarcerated count over its positive population. */
  lemma RaceCountsRate(row: Row, r: Race)
    requires HasCounts(row, r)
    ensures RaceCounts(row, r).pop > 0
    ensures RaceCounts(row, r).rate * (RaceCounts(row, r).pop as real) == RaceCounts(row, r).prison as real
  {
    RateTimesPop(RaceCounts(row, r));
  }

  lemma RateTimesPop(c: Counts)
    requires c.pop > 0 && c.rate == c.prison as real / c.pop as real
    ensures c.rate * (c.pop as real) == c.prison as real
  {
  }

  /** The derived records of all states. */
  function DeriveAll(rows: seq<Row>): (es: seq<Entry>)
    requires forall i :: 0 <= i < |rows| ==> WellFormed(rows[i])
    ensures |es| == |rows|
    ensures forall i :: 0 <= i < |rows| ==> es[i] == Derive(rows[i])
  {
    if rows == [] then [] else DeriveAll(rows[..|rows| - 1]) + [Derive(rows[|rows| - 1])]
  }

  /** A derived rate is between 0 and 1 exactly when the incarcerated count
      does not exceed the population. */
  lemma RateBounds(c: Counts)
    requires c.pop > 0 && c.rate * (c.pop as real) == c.prison as real
    ensures 0.0 <= c.rate
    ensures c.rate <= 1.0 <==> c.prison <= c.pop
  {
    assert c.rate == (c.prison as real) / (c.pop as real);
  }

  // d3.max and d3.min over non-empty lists of counts.

  function MaxNat(xs: seq<nat>): (m: nat)
    requires |xs| > 0
    ensures forall i :: 0 <= i < |xs| ==> xs[i] <= m
    ensures exists i :: 0 <= i < |xs| && xs[i] == m
  {
    if |xs| == 1 then xs[0]
    else
      var rest := MaxNat(xs[1..]);
      assert forall i :: 1 <= i < |xs| ==> xs[i] == xs[1..][i - 1];
      if xs[0] < rest then rest else xs[0]
  }

  function MinNat(xs: seq<nat>): (m: nat)
    requires |xs| > 0
    ensures forall i :: 0 <= i < |xs| ==> m <= xs[i]
    ensures exists i :: 0 <= i < |xs| && xs[i] == m
  {
    if |xs| == 1 then xs[0]
    else
      var rest := MinNat(xs[1..]);
      assert forall i :: 1 <= i < |xs| ==> xs[i] == xs[1..][i - 1];
      if xs[0] > rest then rest else xs[0]
  }

  /** `x` is one of the state's five rates (populations, incarcerated counts). */
  ghost predicate IsRate(e: Entry, x: real) {
    exists r :: e.Of(r).rate == x
  }

  ghost predicate IsPop(e: Entry, x: nat) {
    exists r :: e.Of(r).pop == x
  }

  ghost predicate IsPrison(e: Entry, x: nat) {
    exists r :: e.Of(r).prison == x
  }

  function Max(x: real, y: real): real { if x < y then y else x }
  function Min(x: real, y: real): real { if x > y then y else x }
  function MaxN(x: nat, y: nat): nat { if x < y then y else x }

  /** The largest of the state's five rates (vis/js/bubbleVis.js:44, 49). */
  function MaxRate(e: Entry): (m: real)
    ensures forall r :: e.Of(r).rate <= m
    ensures IsRate(e, m)
  {
    var m := Max(Max(Max(Max(e.asian.rate, e.black.rate), e.latino.rate), e.white.rate), e.other.rate);
    assert m == e.Of(Asian).rate || m == e.Of(Black).rate || m == e.Of(Latino).rate || m == e.Of(White).rate || m == e.Of(Other).rate;
    m
  }

  /** The smallest of the state's five rates (vis/js/bubbleVis.js:44, 50). */
  function MinRate(e: Entry): (m: real)
    ensures forall r :: m <= e.Of(r).rate
    ensures IsRate(e, m)
  {
    var m := Min(Min(Min(Min(e.asian.rate, e.black.rate), e.latino.rate), e.white.rate), e.other.rate);
    assert m == e.Of(Asian).rate || m == e.Of(Black).rate || m == e.Of(Latino).rate || m == e.Of(White).rate || m == e.Of(Other).rate;
    m
  }

  /** The largest of the state's five populations (vis/js/bubbleVis.js:45, 51). */
  function MaxPop(e: Entry): (m: nat)
    ensures forall r :: e.Of(r).pop <= m
    ensures IsPop(e, m)
  {
    var m := MaxN(MaxN(MaxN(MaxN(e.asian.pop, e.black.pop), e.latino.pop), e.white.pop), e.other.pop);
    assert m == e.Of(Asian).pop || m == e.Of(Black).pop || m == e.Of(Latino).pop || m == e.Of(White).pop || m == e.Of(Other).pop;
    m
  }

  /** The largest of the state's five incarcerated counts (vis/js/bubbleVis.js:46, 52). */
  function MaxPrison(e: Entry): (m: nat)
    ensures forall r :: e.Of(r).prison <= m
    ensures IsPrison(e, m)
  {
    var m := MaxN(MaxN(MaxN(MaxN(e.asian.prison, e.black.prison), e.latino.prison), e.white.prison), e.other.prison);
    assert m == e.Of(Asian).prison || m == e.Of(Black).prison || m == e.Of(Latino).prison || m == e.Of(White).prison || m == e.Of(Other).prison;
    m
  }

  /** The four running extrema kept on the chart object. */
  datatype Extrema = Extrema(highestRate: real, lowestRate: real, highestPop: nat, highestPrison: nat)

  /** Their values before the first state is seen. */
  const Initial: Extrema := Extrema(0.0, 1.0, 0, 0)

  /**
   * One state's contribution: each extremum moves to the state's own
   * maximum (or minimum) over the races, and only on a strict improvement.
   */
  function Step(acc: Extrema, e: Entry): (next: Extrema)
    ensures acc.highestRate <= next.highestRate && forall r :: e.Of(r).rate <= next.highestRate
    ensures next.highestRate == acc.highestRate || (next.highestRate > acc.highestRate && IsRate(e, next.highestRate))
    ensures next.lowestRate <= acc.lowestRate && forall r :: next.lowestRate <= e.Of(r).rate
    ensures next.lowestRate == acc.lowestRate || (next.lowestRate < acc.lowestRate && IsRate(e, next.lowestRate))
    ensures acc.highestPop <= next.highestPop && forall r :: e.Of(r).pop <= next.highestPop
    ensures next.highestPop == acc.highestPop || (next.highestPop > acc.highestPop && IsPop(e, next.highestPop))
    ensures acc.highestPrison <= next.highestPrison && forall r :: e.Of(r).prison <= next.highestPrison
    ensures next.highestPrison == acc.highestPrison || (next.highestPrison > acc.highestPrison && IsPrison(e, next.highestPrison))
  {
    var maxRate := MaxRate(e);
    var minRate := MinRate(e);
    var maxPop := MaxPop(e);
    var maxPrison := MaxPrison(e);
    Extrema(
      if acc.highestRate < maxRate then maxRate else acc.highestRate,
      if acc.lowestRate > minRate then minRate else acc.lowestRate,
      if acc.highestPop < maxPop then maxPop else acc.highestPop,
      if acc.highestPrison < maxPrison then maxPrison else acc.highestPrison)
  }

  /** The extrema after the states of `es` have been seen in order. */
  function Accumulate(es: seq<Entry>): Extrema {
    if es == [] then Initial else Step(Accumulate(es[..|es| - 1]), es[|es| - 1])
  }

  lemma AccumulateAppend(es: seq<Entry>, e: Entry)
    ensures Accumulate(es + [e]) == Step(Accumulate(es), e)
  {
    assert (es + [e])[..|es|] == es;
  }

  /** `highestPop` bounds every population and is 0 or one of them. */
  lemma {:induction false} HighestPopIsMaximum(es: seq<Entry>)
    ensures forall i, r :: 0 <= i < |es| ==> es[i].Of(r).pop <= Accumulate(es).highestPop
    ensures Accumulate(es).highestPop == 0
            || exists i, r :: 0 <= i < |es| && es[i].Of(r).pop == Accumulate(es).highestPop
  {
    if es != [] {
      var init, last := es[..|es| - 1], es[|es| - 1];
      HighestPopIsMaximum(init);
      var before := Accumulate(init);
      var after := Step(before, last);
      assert Accumulate(es) == after;
      forall i, r | 0 <= i < |es|
        ensures es[i].Of(r).pop <= after.highestPop
      {
        if i < |init| {
          assert es[i] == init[i];
        } else {
          assert es[i] == last;
        }
      }
      if after.highestPop != 0 {
        if after.highestPop == before.highestPop {
          var i, r :| 0 <= i < |init| && init[i].Of(r).pop == before.highestPop;
          assert es[i] == init[i];
        } else {
          assert IsPop(last, after.highestPop);
          var r :| last.Of(r).pop == after.highestPop;
          assert es[|es| - 1].Of(r).pop == after.highestPop;
        }
      }
    }
  }

  /** `highestPrison` bounds every incarcerated count and is 0 or one of them. */
  lemma {:induction false} HighestPrisonIsMaximum(es: seq<Entry>)
    ensures forall i, r :: 0 <= i < |es| ==> es[i].Of(r).prison <= Accumulate(es).highestPrison
    ensures Accumulate(es).highestPrison == 0
            || exists i, r :: 0 <= i < |es| && es[i].Of(r).prison == Accumulate(es).highestPrison
  {
    if es != [] {
      var init, last := es[..|es| - 1], es[|es| - 1];
      HighestPrisonIsMaximum(init);
      var before := Accumulate(init);
      var after := Step(before, last);
      assert Accumulate(es) == after;
      forall i, r | 0 <= i < |es|
        ensures es[i].Of(r).prison <= after.highestPrison
      {
        if i < |init| {
          assert es[i] == init[i];
        } else {
          assert es[i] == last;
        }
      }
      if after.highestPrison != 0 {
        if after.highestPrison == before.highestPrison {
          var i, r :| 0 <= i < |init| && init[i].Of(r).prison == before.highestPrison;
          assert es[i] == init[i];
        } else {
          assert IsPrison(last, after.highestPrison);
          var r :| last.Of(r).prison == after.highestPrison;
          assert es[|es| - 1].Of(r).prison == after.highestPrison;
        }
      }
    }
  }

  /** `highestRate` is at least 0 and every rate, and is 0 or one of the rates. */
  lemma {:induction false} HighestRateIsMaximum(es: seq<Entry>)
    ensures 0.0 <= Accumulate(es).highestRate
    ensures forall i, r :: 0 <= i < |es| ==> es[i].Of(r).rate <= Accumulate(es).highestRate
    ensures Accumulate(es).highestRate == 0.0
            || exists i, r :: 0 <= i < |es| && es[i].Of(r).rate == Accumulate(es).highestRate
  {
    if es != [] {
      var init, last := es[..|es| - 1], es[|es| - 1];
      HighestRateIsMaximum(init);
      var before := Accumulate(init);
      var after := Step(before, last);
      assert Accumulate(es) == after;
      forall i, r | 0 <= i < |es|
        ensures es[i].Of(r).rate <= after.highestRate
      {
        if i < |init| {
          assert es[i] == init[i];
        } else {
          assert es[i] == last;
        }
      }
      if after.highestRate != 0.0 {
        if after.highestRate == before.highestRate {
          var i, r :| 0 <= i < |init| && init[i].Of(r).rate == before.highestRate;
          assert es[i] == init[i];
        } else {
          assert IsRate(last, after.highestRate);
          var r :| last.Of(r).rate == after.highestRate;
          assert es[|es| - 1].Of(r).rate == after.highestRate;
        }
      }
    }
  }

  /** `lowestRate` is at most 1 and every rate, and is 1 or one of the rates. */
  lemma {:induction false} LowestRateIsMinimum(es: seq<Entry>)
    ensures Accumulate(es).lowestRate <= 1.0
    ensures forall i, r :: 0 <= i < |es| ==> Accumulate(es).lowestRate <= es[i].Of(r).rate
    ensures Accumulate(es).lowestRate == 1.0
            || exists i, r :: 0 <= i < |es| && es[i].Of(r).rate == Accumulate(es).lowestRate
  {
    if es != [] {
      var init, last := es[..|es| - 1], es[|es| - 1];
      LowestRateIsMinimum(init);
      var before := Accumulate(init);
      var after := Step(before, last);
      assert Accumulate(es) == after;
      forall i, r | 0 <= i < |es|
        ensures after.lowestRate <= es[i].Of(r).rate
      {
        if i < |init| {
          assert es[i] == init[i];
        } else {
          assert es[i] == last;
        }
      }
      if after.lowestRate != 1.0 {
        if after.lowestRate == before.lowestRate {
          var i, r :| 0 <= i < |init| && init[i].Of(r).rate == before.lowestRate;
          assert es[i] == init[i];
        } else {
          assert IsRate(last, after.lowestRate);
          var r :| last.Of(r).rate == after.lowestRate;
          assert es[|es| - 1].Of(r).rate == after.lowestRate;
        }
      }
    }
  }

  /** `d3.range(lo, hi)`: the integers from `lo` up to but excluding `hi`. */
  function IntRange(lo: int, hi: int): (r: seq<int>)
    ensures |r| == if lo < hi then hi - lo else 0
    ensures forall i :: 0 <= i < |r| ==> r[i] == lo + i
    decreases hi - lo
  {
    if hi <= lo then [] else [lo] + IntRange(lo + 1, hi)
  }

  lemma IntRangeMembers(lo: int, hi: int)
    ensures forall v :: v in IntRange(lo, hi) <==> lo <= v < hi
  {
    var r := IntRange(lo, hi);
    forall v | lo <= v < hi
      ensures v in r
    {
      assert r[v - lo] == v;
    }
  }

  function ColumnOf(es: seq<Entry>): seq<nat>
  {
    seq(|es|, i requires 0 <= i < |es| => es[i].col)
  }

  function RowOf(es: seq<Entry>): seq<nat>
  {
    seq(|es|, i requires 0 <= i < |es| => es[i].row)
  }

  /**
   * The band scale's domain for the cartogram: `d3.range(min, max + 1)` over
   * the observed cell indices. With no states both ends are undefined and
   * the range is empty.
   */
  function BandDomain(xs: seq<nat>): seq<int> {
    if xs == [] then [] else IntRange(MinNat(xs), MaxNat(xs) + 1)
  }

  /** The band domain lists every index from the smallest observed one to
      the largest, in order; with no states it is empty. */
  lemma BandDomainIsSpan(xs: seq<nat>)
    ensures xs == [] ==> BandDomain(xs) == []
    ensures xs != [] ==> |BandDomain(xs)| == MaxNat(xs) - MinNat(xs) + 1
                         && forall i :: 0 <= i < |BandDomain(xs)| ==> BandDomain(xs)[i] == MinNat(xs) + i
  {
  }

  /** An index is in the band domain exactly when it lies between the
      smallest and the largest observed index, so every state has a band. */
  lemma BandDomainMembers(xs: seq<nat>)
    ensures forall v :: v in BandDomain(xs) <==> xs != [] && MinNat(xs) <= v <= MaxNat(xs)
    ensures forall i :: 0 <= i < |xs| ==> xs[i] in BandDomain(xs)
  {
    if xs != [] {
      IntRangeMembers(MinNat(xs), MaxNat(xs) + 1);
    }
  }

  /** `d3.max` over one count per state: undefined when there are no states. */
  function AxisMax(xs: seq<nat>): Option<nat> {
    if xs == [] then None else Some(MaxNat(xs))
  }

  /** The race's population in each state, in order. */
  function PopColumn(es: seq<Entry>, r: Race): seq<nat>
  {
    seq(|es|, i requires 0 <= i < |es| => es[i].Of(r).pop)
  }

  /** The race's incarcerated count in each state, in order. */
  function PrisonColumn(es: seq<Entry>, r: Race): seq<nat>
  {
    seq(|es|, i requires 0 <= i < |es| => es[i].Of(r).prison)
  }
}
