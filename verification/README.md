# COVID-19 line chart: month extraction, in Dafny

This project models the data side of the dashboard's line chart (`src/LineChart.jsx`).
The chart fetches a time-series document keyed by region code. Under each region
sit `dates`, then ISO dates `YYYY-MM-DD`, then the `delta` and `delta7` series, then
four counters: confirmed, deceased, recovered and tested. For a month `YYYY-MM`
chosen in a twelve-entry selector, `extractDataForMonth` builds exactly 31 daily
records. Each record has a `DD-MM` label and eight counters read from region `AN`.
A counter is 0 when any level of its lookup path is missing. The vertical axis
runs from 0 up to the largest daily or 7-day confirmed count among the records.

Files:
- `optional.dfy` — `Option`, the result of every lookup that can miss.
- `digits.dfy` — the string pieces the extraction uses: `toString()` on a day
  number, `padStart(2, '0')` and `slice(-2)`, with a digit-string parser that
  `NatToString` is proved to invert, in both directions.
- `timeseries.dfy` — the document as nested maps and `Option` leaves. `Lookup`
  is the reference reading of one counter along its path.
- `line_chart.dfy` — the month table, the extraction and the vertical upper bound.
- `line_chart_lemmas.dfy` — properties that relate records, keys and documents.

Modelling choices:
- JavaScript numbers become unbounded integers.
- `x || 0` is `OrZero`: the value when present and truthy, else 0. `OrZeroIsGetOr`
  proves this equals "absent is 0, present is its value" on integers.
- `jsonData["AN"]?.dates || {}` becomes "no dates" when the region or its `dates`
  is absent.
- `slice(-2)` on a month string shorter than two characters returns the whole
  string. The extraction accepts any month string: the source does not check the
  month against the table. Strings are sequences of Unicode scalar values, not of
  UTF-16 code units as in JavaScript; the two agree on the selector's months,
  which are ASCII.
- `d3.max` over no records is undefined, so `YUpper` returns `None` for an empty
  sequence. The chart's state starts out empty.
- The domain's lower end is the constant 0 and needs no model of its own.

## Model

| member | source | states |
|---|---|---|
| Digits.NatToString | src/LineChart.jsx:45 | `date.toString()` gives a non-empty string of decimal digits with no superfluous leading zero, which parses back to the number; one digit below 10, two from 10 to 99 |
| Digits.NatToStringInvertsParse | src/LineChart.jsx:45 | on a digit string without a superfluous leading zero, rendering the parsed number gives the string back (the other half of the round trip) |
| Digits.PadStart | src/LineChart.jsx:45 | `padStart(width, fill)` leaves a string of at least `width` characters unchanged, otherwise makes it exactly `width` long with the original as suffix and only `fill` before it |
| Digits.Pad2 | src/LineChart.jsx:45-46 | below 100 the padded number is exactly two digits that parse back to the number |
| Digits.Pad2IsPaddedString | src/LineChart.jsx:45-46 | the two-digit form equals `PadStart(NatToString(n), 2, '0')` for every natural number, which is `n.toString().padStart(2, '0')` for every number below 10^21 and so for every day and month number |
| Digits.Pad2Injective | src/LineChart.jsx:45-46 | two numbers below 100 have the same padded form exactly when they are equal |
| Digits.Last2 | src/LineChart.jsx:45 | `slice(-2)` is the last two characters (Unicode scalar values, see "## Left out"), or the whole string when it is shorter |
| LineChart.Months | src/LineChart.jsx:5-18 | the selector has twelve options with pairwise distinct names; option `i` has the value "2020-" followed by the two digits of month `i + 1` |
| LineChart.MonthValuesArePadded | src/LineChart.jsx:5-18 | every month value is "2020-" followed by the padded month number |
| LineChart.MonthValuesDistinct | src/LineChart.jsx:5-18 | the twelve month values are pairwise distinct |
| LineChart.MonthData | src/LineChart.jsx:41 | the dates read through `?.dates \|\| {}` hold a key exactly when the document's region `AN` has a dates entry for it, with the same entry |
| LineChart.ReadCounterIsLookup | src/LineChart.jsx:46-53 | the chained `?.` reads with `\|\| 0` give the value at the counter's full path, or 0 when any level is missing |
| LineChart.OrZero | src/LineChart.jsx:46-53 | `x \|\| 0` with JavaScript truthiness: the counter when present and nonzero, 0 otherwise; no contract of its own, see `OrZeroIsGetOr` |
| LineChart.OrZeroIsGetOr | src/LineChart.jsx:46-53 | on an optional integer, `x \|\| 0` equals "the value if present, else 0", because the only falsy integer is 0 |
| LineChart.ReadCounter | src/LineChart.jsx:46-53 | `monthData[key]?.<series>?.<field> \|\| 0`; no contract of its own, its meaning is stated by `ReadCounterIsLookup` |
| LineChart.Label | src/LineChart.jsx:45 | the `xpoint` template; no contract of its own, its shape is stated by `LabelShape` |
| LineChart.DateKey | src/LineChart.jsx:46-53 | the date-key template; no contract of its own, its shape is stated by `DateKeyShape` and `DateKeyInjective` |
| LineChart.RecordFor | src/LineChart.jsx:44-54 | the `map` callback building one record; no contract of its own, what it carries is stated by `ExtractDataForMonth` |
| LineChart.Peak | src/LineChart.jsx:73 | `Math.max(d.deltaConfirmed, d.delta7Confirmed)`; no contract of its own, used by `YUpper` and `ExtractionHasUpperBound` |
| LineChart.LabelShape | src/LineChart.jsx:45 | a label is two digits spelling the day, a dash, then the month's last two characters |
| LineChart.DateKeyShape | src/LineChart.jsx:46-53 | a date key is the month, a dash, then two digits spelling the day |
| LineChart.DateKeyInjective | src/LineChart.jsx:46-53 | two days of one month have the same key exactly when they are the same day |
| LineChart.ExtractDataForMonth | src/LineChart.jsx:40-55 | exactly 31 records; record `i` carries the label of day `i + 1`; each of its eight counters is the value at that counter's path under the key of day `i + 1` in region `AN`, or 0 when any level is missing |
| LineChart.YUpper | src/LineChart.jsx:73 | undefined exactly for no records; otherwise at least every record's daily and 7-day confirmed counts, and equal to one of them |
| LineChartLemmas.LabelIsPaddedDay | src/LineChart.jsx:42-45 | record `i` is labelled with the padded day `i + 1`, a dash and the month's last two characters |
| LineChartLemmas.LabelsAscendingAndDistinct | src/LineChart.jsx:42-45 | the records' days strictly increase, so all 31 labels are pairwise distinct |
| LineChartLemmas.DayPartInRange | src/LineChart.jsx:42-45 | every label's day part is two digits between "01" and "31" |
| LineChartLemmas.CounterDefaults | src/LineChart.jsx:46-53 | each counter is 0 when the region, the date entry, the series or the field is missing, and the stored value otherwise; each counter defaults on its own |
| LineChartLemmas.PresentCounterPassesThrough | src/LineChart.jsx:46-53 | a counter present at the record's path is carried through unchanged |
| LineChartLemmas.AbsentRegionAllZero | src/LineChart.jsx:41 | with region `AN` or its dates absent, every counter of every record is 0 |
| LineChartLemmas.RecordReadsOnlyItsKey | src/LineChart.jsx:44-54 | two documents that agree on the entry under a record's date key give that record identically |
| LineChartLemmas.AgreeingDocumentsSameRecords | src/LineChart.jsx:40-55 | two documents that agree on the month's 31 date keys give the same records |
| LineChartLemmas.OtherRegionsIrrelevant | src/LineChart.jsx:41 | changing any region other than `AN` leaves the result unchanged |
| LineChartLemmas.UnreadKeyIrrelevant | src/LineChart.jsx:46-53 | storing an entry under a key that is none of the month's 31 date keys leaves the result unchanged |
| LineChartLemmas.OtherMonthsIrrelevant | src/LineChart.jsx:46-53 | storing an entry under a date that does not start with the month and a dash leaves the result unchanged |
| LineChartLemmas.SelectableMonthLabels | src/LineChart.jsx:5-18 | for the selector's month `m`, every label reads padded day, a dash, padded month number |
| LineChartLemmas.InitialMonthSelectable | src/LineChart.jsx:21 | the initially selected month "2020-03" is one of the selector's options |
| LineChartLemmas.ExtractionHasUpperBound | src/LineChart.jsx:73 | over an extraction the upper bound always exists and is at least every record's larger confirmed count |
| LineChartLemmas.MarchFifthExample | src/LineChart.jsx:40-55 | for March, with only a daily confirmed count of 12 on the 5th, record "05-03" carries 12 and every other counter of every record is 0 |

## Left out

- The network fetch, JSON parsing and error logging (src/LineChart.jsx:23-38) are asynchronous I/O. The document is a parameter instead.
- React state, effects, the month-change handler and the JSX markup (src/LineChart.jsx:19-21, 214-242) are UI framework plumbing. The month is a parameter; the selector's table and starting month are modelled.
- The d3 drawing (src/LineChart.jsx:57-212) is left out: band and linear scales, line paths, markers, axes, teardown and redraw, and tooltips. It is foreign library code with floating-point geometry. Only the domain's upper end at line 73 is modelled.
- JavaScript's falsy semantics of `|| 0` on leaves that are not integers (NaN, strings, booleans, fractional numbers) is not modelled. Counters are optional integers.
- Digits.NatToString: writes plain decimal for every natural number, where JavaScript's `toString()` uses exponent notation from 10^21 up; the chart only renders the day numbers 1 to 31.
- Digits.Last2: counts Unicode scalar values where `slice(-2)` counts UTF-16 code units, so a month ending in a character outside the Basic Multilingual Plane gives a different label (the selector's months are ASCII, where the two agree).
- A null document is not modelled: only `null` makes `jsonData["AN"]` throw a TypeError at line 41, which the caller catches and logs (src/LineChart.jsx:32-33). Any other non-object document (a number, string or boolean) reads `"AN"` as undefined and behaves like an empty map, which the model covers. `Document` is always a map.
- A region, its `dates`, a date entry or a `delta`/`delta7` object that is `null` or a primitive is not expressible: `Region` and `DateEntry` cannot hold such values. Read through `?.` (lines 41 and 46-53) such a level counts as missing, which the model covers by an absent key or `None`.
- src/App.jsx only composes components and holds no logic.
- LineChartSlope is imported by src/App.jsx but is not part of this model.
