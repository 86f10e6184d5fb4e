# Incarceration-by-race bubble chart: data loading, wrangling and view state

This project models the non-presentation core of a D3 page that shows, per US
state and per race (Asian, Black, Latino, White, Other), the population and the
incarcerated population. It covers three parts:

- **Loading** (`main.js`, module `MainScript`). The tile-grid CSV is grouped by
  its `state` column, and the first row for each key is kept. Every field of
  every race-data row whose comma-stripped text is a number is overwritten with
  that number. Every row except the `"US"` row gets its grid `row` and `col`
  from the grid entry keyed by its `GEOID`. The first row (the national total)
  is split off, and the chart is built from the remaining rows, in order. The
  loop over rows and the loop over a row's properties are modelled as loops
  over an `array` of records that update them in place.
- **Wrangling** (`bubbleVis.js`, modules `Wrangle` and `Bubble`). The chart
  object derives one record per state. The record copies the identity fields,
  keeps each race's population and incarcerated count, and adds
  `Rate = Prison / Pop`. In the same pass the object keeps four running extrema
  in its fields: `highestRate`, `lowestRate`, `highestPop` and `highestPrison`.
  The cartogram's band domains are the contiguous index ranges from the
  smallest to the largest observed `col` and `row`.
- **View state** (class `Bubble.BubbleVis`). The race buttons, the
  "Change View" button and `updateVis` drive three flags (`selectedRace`,
  `rosling`, `justToggled`) and the two axis-scale domains. The class
  invariant `Valid` states that after every handler no toggle is pending, and
  that in the axis view ("rosling" view) the axis domains are
  `[0, max over states]` of the selected race's incarcerated and population
  counts.

How JavaScript values are modelled (module `Records`):

- A record field holds a string, a number, `NaN` or nothing (`undefined`).
- A missing property reads as `undefined`.
- A value used as a property name becomes its string; a number becomes its
  decimal text.
- The unary `+` is modelled for digit strings: the empty string gives 0,
  leading zeros are ignored, and any other string gives `NaN`. So an empty
  CSV cell, or one holding only commas, loads as 0.
- The maximum of no values (`d3.max` of an empty list) is an absent upper
  bound (`None`).
- A fresh linear scale's domain is `[0, 1]`.

## Model

| member | source | states |
|---|---|---|
| Records.ParseNumber | vis/js/main.js:26 | `+s` yields a number exactly when every character of `s` is a decimal digit (the empty string included) |
| Records.ParseDecimalString | vis/js/main.js:26 | reading back the decimal text of a number gives the number |
| Records.ParseNumberEmpty | vis/js/main.js:26 | `+""` is 0 |
| Records.ParseNumberLeadingZero | vis/js/main.js:26 | a leading zero does not change the number a digit string converts to; with `ParseDecimalString` this fixes the value of every digit string |
| Records.ToNumber | vis/js/main.js:32-33 | `+v` is always a number or NaN; numbers are unchanged; a string converts to a number exactly when it is all digits |
| MainScript.GroupByState | vis/js/main.js:19-22 | no ensures of its own; `GroupByStateKeys` and `GroupByStateFirstWins` state its contract |
| MainScript.GroupByStateKeys | vis/js/main.js:19-22 | the grouped grid has an entry for a key exactly when some grid row's `state` is that key |
| MainScript.GroupByStateFirstWins | vis/js/main.js:19-22 | the row kept under a key is the first grid row with that `state` |
| MainScript.StripCommas | vis/js/main.js:26 | no ensures of its own; `StripCommasRemovesOnlyCommas`, `StripCommasChar` and `StripCommasAppend` state its contract |
| MainScript.StripCommasRemovesOnlyCommas | vis/js/main.js:26 | `replace(/,/g, '')` leaves no comma, keeps the count of every other character, and leaves comma-free text unchanged |
| MainScript.StripCommasChar | vis/js/main.js:26 | a comma is dropped and any other single character is kept |
| MainScript.StripCommasAppend | vis/js/main.js:26 | stripping a concatenation strips each part and joins them, so the kept characters stay in order |
| MainScript.CoerceField | vis/js/main.js:26-29 | no ensures of its own; `CoerceFieldNumeric`, `CoerceFieldSeparator`, `CoerceFieldBlank`, `CoerceFieldThousands` and `CoerceFieldDecimal` state its contract |
| MainScript.CoerceFieldSeparator | vis/js/main.js:26-29 | a comma inserted anywhere in a field changes neither whether it loads as a number nor which number |
| MainScript.CoerceFieldNumeric | vis/js/main.js:26-29 | a field becomes a number exactly when its text is digits and commas only; otherwise it keeps its original string |
| MainScript.CoerceFieldThousands | vis/js/main.js:26 | the field "1,234" is loaded as the number 1234 |
| MainScript.CoerceFieldBlank | vis/js/main.js:26-28 | a field that is empty or holds only commas loads as the number 0 |
| MainScript.CoerceFieldDecimal | vis/js/main.js:26-29 | the decimal text of any number loads as that number |
| MainScript.CoerceRow | vis/js/main.js:25-30 | no ensures of its own; `CoerceRowFields` states its contract |
| MainScript.CoerceRowFields | vis/js/main.js:25-30 | coercing a row keeps its set of properties; each field becomes a number iff its text is digits and commas, and a non-numeric field keeps its text |
| MainScript.CoerceFields | vis/js/main.js:25-30 | the `for…in` loop leaves the row equal to its coerced form and leaves every other array slot unchanged |
| MainScript.Join | vis/js/main.js:31-34 | no ensures of its own; `JoinFields` states its contract |
| MainScript.JoinFields | vis/js/main.js:31-34 | the `"US"` row is unchanged; any other row gains `row` and `col`, equal to `+` of its grid cell's `row` and `col`, and keeps every other field |
| MainScript.LoadRow | vis/js/main.js:24-35 | no ensures of its own: one row coerced and then joined; `CoerceRowFields` and `JoinFields` state its parts |
| MainScript.StateRows | vis/js/main.js:38 | `slice(1, length)` holds every row after the first, in order (none when there are no rows) |
| MainScript.LoadData | vis/js/main.js:18-42 | every array slot ends up coerced and joined against the grid grouped by state; the national data is the first row (absent when there is none); the chart is built from the remaining rows, with its derived data and extrema, radius domain `[0, highestRate]`, band domains spanning the observed columns and rows, default axis domains `[0, 1]`, Latino selected, the cartogram view shown and no toggles |
| Wrangle.Derive | vis/js/bubbleVis.js:22-42 | no ensures of its own; `DeriveCopiesFields` and `RaceCountsRate` state its contract |
| Wrangle.RaceCounts | vis/js/bubbleVis.js:27-41 | no ensures of its own; `DeriveCopiesFields`, `RaceCountsRate` and `RateBounds` state its contract |
| Wrangle.DeriveCopiesFields | vis/js/bubbleVis.js:22-42 | the derived record copies `Geography`, `GEOID`, `row`, `col` and each race's `<race>Total` and `<race>TotalPrison` unchanged |
| Wrangle.RaceCountsRate | vis/js/bubbleVis.js:28-41 | each race's rate times its (positive) population is its incarcerated count |
| Wrangle.RateBounds | vis/js/bubbleVis.js:28-41 | a derived rate is non-negative, and at most 1 exactly when the incarcerated count does not exceed the population |
| Wrangle.DeriveAll | vis/js/bubbleVis.js:21-60 | one derived record per state, in the input order |
| Wrangle.MaxRate | vis/js/bubbleVis.js:44-49 | the state's largest rate bounds each of its five rates and is one of them |
| Wrangle.MinRate | vis/js/bubbleVis.js:44-50 | the state's smallest rate is below each of its five rates and is one of them |
| Wrangle.MaxPop | vis/js/bubbleVis.js:45-51 | the state's largest population bounds each race's and is one of them |
| Wrangle.MaxPrison | vis/js/bubbleVis.js:46-52 | the state's largest incarcerated count bounds each race's and is one of them |
| Wrangle.Step | vis/js/bubbleVis.js:54-57 | each running extremum moves only monotonically, comes to bound the state's five values, and changes only to one of those values on a strict improvement |
| Wrangle.Accumulate | vis/js/bubbleVis.js:14-57 | no ensures of its own: the extrema from 0, 1, 0, 0 folded by `Step` over the states in order; `Step` and the four lemmas below state its contract |
| Wrangle.HighestPopIsMaximum | vis/js/bubbleVis.js:17-56 | after all states, `highestPop` bounds every race population of every state and is 0 or one of them |
| Wrangle.HighestPrisonIsMaximum | vis/js/bubbleVis.js:18-57 | after all states, `highestPrison` bounds every incarcerated count and is 0 or one of them |
| Wrangle.HighestRateIsMaximum | vis/js/bubbleVis.js:15-54 | after all states, `highestRate` is at least 0 and every rate, and is 0 or one of the rates |
| Wrangle.LowestRateIsMinimum | vis/js/bubbleVis.js:16-55 | after all states, `lowestRate` is at most 1 and every rate, and is 1 or one of the rates |
| Wrangle.IntRange | vis/js/bubbleVis.js:95-98 | `d3.range(lo, hi)` lists `lo, lo+1, …, hi-1`, and is empty when `hi <= lo` |
| Wrangle.BandDomain | vis/js/bubbleVis.js:93-107 | no ensures of its own; `BandDomainIsSpan` and `BandDomainMembers` state its contract |
| Wrangle.BandDomainIsSpan | vis/js/bubbleVis.js:93-107 | the band domain is the consecutive indices from the smallest to the largest observed index, and is empty with no states |
| Wrangle.BandDomainMembers | vis/js/bubbleVis.js:93-107 | an index is in the band domain iff it lies between the smallest and largest observed index, so every state's index has a band |
| Bubble.IncarceratedDomain | vis/js/bubbleVis.js:273 | no ensures of its own; `IncarceratedDomainIsMaximum` states its contract |
| Bubble.IncarceratedDomainIsMaximum | vis/js/bubbleVis.js:273 | the incarcerated axis is `[0, m]` where `m` bounds the selected race's count in every state and is one of them; `m` is undefined only without states |
| Bubble.TotalPopDomain | vis/js/bubbleVis.js:280 | no ensures of its own; `TotalPopDomainIsMaximum` states its contract |
| Bubble.TotalPopDomainIsMaximum | vis/js/bubbleVis.js:280 | the population axis is `[0, m]` where `m` bounds the selected race's population in every state and is one of them; `m` is undefined only without states |
| Bubble.BubbleVis.constructor | vis/js/bubbleVis.js:6-11 | the new chart holds the derived records of its rows and the accumulated extrema, the initial scale domains, Latino selected, the cartogram view, and satisfies `Valid` |
| Bubble.BubbleVis.WrangleData | vis/js/bubbleVis.js:13-62 | the `map` pass leaves `data` equal to the derived records and the four extrema equal to their accumulation over the states in order |
| Bubble.BubbleVis.UpdateExtrema | vis/js/bubbleVis.js:44-57 | the four `if` updates advance the extrema by exactly one `Step` |
| Bubble.BubbleVis.InitScales | vis/js/bubbleVis.js:83-114 | the radius domain is `[0, highestRate]`, the band domains span the observed columns and rows, and both axis scales start with the default domain `[0, 1]` |
| Bubble.BubbleVis.InitVis | vis/js/bubbleVis.js:255-260 | after the scales are set up, Latino is selected, the cartogram view is shown, the toggle count is 0 and `Valid` holds |
| Bubble.BubbleVis.UpdateVis | vis/js/bubbleVis.js:263-286 | a pending toggle is consumed and the domains are left alone; otherwise in the axis view both domains are recomputed for the selected race; afterwards no toggle is pending |
| Bubble.BubbleVis.ClickRace | vis/js/bubbleVis.js:146-153 | a race click selects the race, keeps the view, keeps `Valid` (so the axis view shows the new race's maxima) and leaves the domains alone in the cartogram view |
| Bubble.BubbleVis.ToggleView | vis/js/bubbleVis.js:174-231 | the toggle flips the view and keeps `Valid`: entering the axis view sets both domains for the selected race; leaving it leaves the domains alone |

## Left out

- Drawing is not modelled: SVG and DOM construction, transitions, axis rendering, the legend, the tooltip and the hover handlers are presentation code with no state of their own.
- Scale internals are not modelled: band padding, the sqrt and linear pixel mappings, the ordinal colour scale and the element width. Only scale domains are kept.
- Fetching the four CSV files is not modelled. `loadData` receives the grid rows and the race-data rows as parameters.
- The unused `stateData`, `stateAbbrevs`, `eventHandler` and `colors` are not modelled. The `error` and `stateJson` parameters of `loadData` are dropped, and `USData` is only returned.
- Floating point is not modelled. Rates are exact reals, so the rounding of `Prison / Pop` and the tooltip's rounded and formatted figures are out of scope.
- Records.ParseDecimalString: numbers are exact naturals. JavaScript numbers are doubles, so digit text above 2^53 is rounded when converted, and `String(n)` writes numbers from 10^21 up in exponent form; neither is captured.
- Records.ParseNumber: models JavaScript's string-to-number conversion only for strings of decimal digits. Signs, decimal points, exponents, hexadecimal and surrounding whitespace are treated as non-numeric.
- Records.ToNumber: inherits the digit-only string grammar of `ParseNumber`.
- MainScript.CoerceFieldNumeric: states the numeric case for text of digits and commas only, because of the digit-only grammar.
- Bubble.BubbleVis.constructor: requires every row to be well formed, meaning numeric `row` and `col` and, for every race, a numeric incarcerated count and a positive population. A zero population would give NaN or Infinity rates, which the exact-real model cannot represent.
- Bubble.BubbleVis.WrangleData: takes the loaded rows as a parameter, whereas the source reads them from `vis.data` and replaces `vis.data` with the derived records.
- MainScript.LoadData: requires that every race-data field is text (as the CSV parser produces) and that every row other than the `"US"` row finds its grid entry. The source throws on a missing entry.
- MainScript.LoadData: requires that every row after the first loads into a well-formed row, the precondition of the chart constructor.
- A raised exception part-way through the row loop is not modelled, since the precondition above rules it out.
- Rows are values in an `array`: the aliasing of a row object between the array and other references is not captured.
- `toggleCount` is set to 0 and never used elsewhere, and it is kept only as a field.
- The race-button marker animation, the tooltip setup in `updateVis` (vis/js/bubbleVis.js:289 on) and the `console.log` call are not modelled.
