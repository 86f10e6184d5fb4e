/**
 * The chart object: the derived records and extrema it holds, the scale
 * domains it keeps, and the view state that the race buttons and the
 * "Change View" button drive.
 */
module Bubble {
  import opened Records
  import opened Wrangle

  /** A linear scale's input domain `[lo, hi]`; `hi` is undefined when it
      was taken as the maximum of no values at all. */
  datatype AxisDomain = AxisDomain(lo: nat, hi: Option<nat>)

  /** The domain a fresh linear scale starts with. */
  const DefaultDomain: AxisDomain := AxisDomain(0, Some(1))

  /** From 0 to the largest incarcerated count of the race over the states
      (vis/js/bubbleVis.js:183, 273). */
  function IncarceratedDomain(es: seq<Entry>, r: Race): AxisDomain {
    AxisDomain(0, AxisMax(PrisonColumn(es, r)))
  }

  /** From 0 to the largest population of the race over the states
      (vis/js/bubbleVis.js:185, 280). */
  function TotalPopDomain(es: seq<Entry>, r: Race): AxisDomain {
    AxisDomain(0, AxisMax(PopColumn(es, r)))
  }

  /** The incarcerated axis runs from 0 to the largest incarcerated count of
      the race over all states, undefined only when there are no states. */
  lemma IncarceratedDomainIsMaximum(es: seq<Entry>, r: Race)
    ensures IncarceratedDomain(es, r).lo == 0
    ensures IncarceratedDomain(es, r).hi.None? <==> es == []
    ensures IncarceratedDomain(es, r).hi.Some? ==>
              (forall i :: 0 <= i < |es| ==> es[i].Of(r).prison <= IncarceratedDomain(es, r).hi.value)
              && exists i :: 0 <= i < |es| && es[i].Of(r).prison == IncarceratedDomain(es, r).hi.value
  {
    var column := PrisonColumn(es, r);
    if es != [] {
      assert forall i :: 0 <= i < |es| ==> column[i] == es[i].Of(r).prison;
    }
  }

  /** The population axis runs from 0 to the largest population of the race
      over all states, undefined only when there are no states. */
  lemma TotalPopDomainIsMaximum(es: seq<Entry>, r: Race)
    ensures TotalPopDomain(es, r).lo == 0
    ensures TotalPopDomain(es, r).hi.None? <==> es == []
    ensures TotalPopDomain(es, r).hi.Some? ==>
              (forall i :: 0 <= i < |es| ==> es[i].Of(r).pop <= TotalPopDomain(es, r).hi.value)
              && exists i :: 0 <= i < |es| && es[i].Of(r).pop == TotalPopDomain(es, r).hi.value
  {
    var column := PopColumn(es, r);
    if es != [] {
      assert forall i :: 0 <= i < |es| ==> column[i] == es[i].Of(r).pop;
    }
  }

  class BubbleVis {
    var data: seq<Entry>

    var highestRate: real
    var lowestRate: real
    var highestPop: nat
    var highestPrison: nat

    /** The radius scale's domain `[0, highestRate]`. */
    var radiusDomain: seq<real>
    /** The cartogram's column and row band domains. */
    var colDomain: seq<int>
    var rowDomain: seq<int>
    /** The axis view's horizontal (incarcerated) and vertical (population) domains. */
    var incarceratedDomain: AxisDomain
    var totalPopDomain: AxisDomain

    var selectedRace: Race
    var rosling: bool
    var justToggled: bool
    var toggleCount: nat

    function Stats(): Extrema
      reads this
    {
      Extrema(highestRate, lowestRate, highestPop, highestPrison)
    }

    /** The axis domains are those of the selected race's counts. */
    predicate AxesMatch()
      reads this
    {
      && incarceratedDomain == IncarceratedDomain(data, selectedRace)
      && totalPopDomain == TotalPopDomain(data, selectedRace)
    }

    /** Between events no toggle is pending, and the axis view shows the
        selected race's counts. */
    predicate Valid()
      reads this
    {
      !justToggled && (rosling ==> AxesMatch())
    }

    constructor (rows: seq<Row>)
      requires forall i :: 0 <= i < |rows| ==> WellFormed(rows[i])
      ensures data == DeriveAll(rows) && Stats() == Accumulate(data)
      ensures radiusDomain == [0.0, highestRate]
      ensures colDomain == BandDomain(ColumnOf(data)) && rowDomain == BandDomain(RowOf(data))
      ensures incarceratedDomain == DefaultDomain && totalPopDomain == DefaultDomain
      ensures selectedRace == Latino && !rosling && toggleCount == 0
      ensures Valid()
    {
      // justToggled is never set before the first update; undefined is falsy.
      justToggled := false;
      new;
      WrangleData(rows);
      InitVis();
    }

    /** Builds the derived records and the running extrema in one pass. */
    method WrangleData(rows: seq<Row>)
      requires forall i :: 0 <= i < |rows| ==> WellFormed(rows[i])
      modifies this`data, this`highestRate, this`lowestRate, this`highestPop, this`highestPrison
      ensures data == DeriveAll(rows)
      ensures Stats() == Accumulate(data)
    {
      highestRate := 0.0;
      lowestRate := 1.0;
      highestPop := 0;
      highestPrison := 0;
      var derived: seq<Entry> := [];
      var i := 0;
      while i < |rows|
        invariant 0 <= i <= |rows|
        invariant derived == DeriveAll(rows[..i])
        invariant Stats() == Accumulate(derived)
      {
        var newEntry := Derive(rows[i]);
        UpdateExtrema(newEntry);
        AccumulateAppend(derived, newEntry);
        DeriveAllSnoc(rows, i);
        derived := derived + [newEntry];
        i := i + 1;
      }
      assert rows[..i] == rows;
      data := derived;
    }

    /** Folds one state's records into the running extrema: each moves only
        when the state's own maximum (minimum) improves on it. */
    method UpdateExtrema(newEntry: Entry)
      modifies this`highestRate, this`lowestRate, this`highestPop, this`highestPrison
      ensures Stats() == Step(old(Stats()), newEntry)
    {
      var maxRate := MaxRate(newEntry);
      var minRate := MinRate(newEntry);
      var maxPop := MaxPop(newEntry);
      var maxPrison := MaxPrison(newEntry);
      if highestRate < maxRate { highestRate := maxRate; }
      if lowestRate > minRate { lowestRate := minRate; }
      if highestPop < maxPop { highestPop := maxPop; }
      if highestPrison < maxPrison { highestPrison := maxPrison; }
    }

    /** Sets up the scale domains and the initial view. */
    method InitVis()
      requires !justToggled
      modifies this`radiusDomain, this`colDomain, this`rowDomain, this`incarceratedDomain,
               this`totalPopDomain, this`selectedRace, this`rosling, this`toggleCount, this`justToggled
      ensures radiusDomain == [0.0, highestRate]
      ensures colDomain == BandDomain(ColumnOf(data)) && rowDomain == BandDomain(RowOf(data))
      ensures incarceratedDomain == DefaultDomain && totalPopDomain == DefaultDomain
      ensures selectedRace == Latino && !rosling && toggleCount == 0
      ensures Valid()
    {
      InitScales();
      selectedRace := Latino;
      rosling := false;
      toggleCount := 0;
      UpdateVis();
    }

    /** The radius, band and axis scales' initial domains. */
    method InitScales()
      modifies this`radiusDomain, this`colDomain, this`rowDomain, this`incarceratedDomain, this`totalPopDomain
      ensures radiusDomain == [0.0, highestRate]
      ensures colDomain == BandDomain(ColumnOf(data)) && rowDomain == BandDomain(RowOf(data))
      ensures incarceratedDomain == DefaultDomain && totalPopDomain == DefaultDomain
    {
      radiusDomain := [0.0, highestRate];
      colDomain := BandDomain(ColumnOf(data));
      rowDomain := BandDomain(RowOf(data));
      incarceratedDomain := DefaultDomain;
      totalPopDomain := DefaultDomain;
    }

    /** Consumes a pending toggle, or else refreshes the axis domains when
        the axis view is on. */
    method UpdateVis()
      modifies this`justToggled, this`incarceratedDomain, this`totalPopDomain
      ensures !justToggled
      ensures !old(justToggled) && rosling ==> AxesMatch()
      ensures old(justToggled) || !rosling ==>
                incarceratedDomain == old(incarceratedDomain) && totalPopDomain == old(totalPopDomain)
    {
      if justToggled {
        justToggled := false;
      } else if rosling {
        incarceratedDomain := IncarceratedDomain(data, selectedRace);
        totalPopDomain := TotalPopDomain(data, selectedRace);
      }
    }

    /** A click on a race label. */
    method ClickRace(race: Race)
      requires Valid()
      modifies this`selectedRace, this`justToggled, this`incarceratedDomain, this`totalPopDomain
      ensures Valid()
      ensures selectedRace == race
      ensures !rosling ==> incarceratedDomain == old(incarceratedDomain) && totalPopDomain == old(totalPopDomain)
    {
      selectedRace := race;
      UpdateVis();
    }

    /** A click on "Change View". */
    method ToggleView()
      requires Valid()
      modifies this`rosling, this`justToggled, this`incarceratedDomain, this`totalPopDomain
      ensures Valid()
      ensures rosling == !old(rosling)
      ensures !rosling ==> incarceratedDomain == old(incarceratedDomain) && totalPopDomain == old(totalPopDomain)
    {
      rosling := !rosling;
      if rosling {
        justToggled := true;
        incarceratedDomain := IncarceratedDomain(data, selectedRace);
        totalPopDomain := TotalPopDomain(data, selectedRace);
      }
      UpdateVis();
    }
  }
}
