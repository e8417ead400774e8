/**
 The remote COVID-19 time-series document, as the chart reads it: region code ->
 `dates` -> ISO date `YYYY-MM-DD` -> `delta` / `delta7` -> four counters.
 Every level may be missing, so each is an `Option` or a map that may lack the key.
 */
module Timeseries {
  import opened Optional

  /** The four counters of one series on one day; each may be absent. */
  datatype Counters = Counters(
    confirmed: Option<int>,
    deceased: Option<int>,
    recovered: Option<int>,
    tested: Option<int>)

  /** One date's entry: the daily change and the 7-day rolling figures. */
  datatype DateEntry = DateEntry(delta: Option<Counters>, delta7: Option<Counters>)

  /** One region's entry; its `dates` object may be absent. */
  datatype Region = Region(dates: Option<map<string, DateEntry>>)

  /** The whole document, keyed by region code. */
  type Document = map<string, Region>

  /** The one region the chart reads. */
  const RegionKey: string := "AN"

  /** Which of the two series of a date entry. */
  datatype Series = Delta | Delta7

  /** Which of the four counters of a series. */
  datatype Field = Confirmed | Deceased | Recovered | Tested

  function SeriesOf(e: DateEntry, s: Series): Option<Counters> {
    match s
    case Delta => e.delta
    case Delta7 => e.delta7
  }

  function FieldOf(c: Counters, f: Field): Option<int> {
    match f
    case Confirmed => c.confirmed
    case Deceased => c.deceased
    case Recovered => c.recovered
    case Tested => c.tested
  }

  /** The entry stored under `key` in the dates of the chart's region, if every level exists. */
  function EntryAt(doc: Document, key: string): Option<DateEntry> {
    if RegionKey in doc && doc[RegionKey].dates.Some? && key in doc[RegionKey].dates.value
    then Some(doc[RegionKey].dates.value[key])
    else None
  }

  /**
   Reference reading of one counter: the value at path
   `AN.dates[key].<series>.<field>`, or `None` when any level of the path is missing.
   */
  function Lookup(doc: Document, key: string, s: Series, f: Field): Option<int> {
    match EntryAt(doc, key)
    case None => None
    case Some(e) =>
      match SeriesOf(e, s)
      case None => None
      case Some(c) => FieldOf(c, f)
  }

  /** The document with `e` stored under `key` in the chart region's dates, creating levels as needed. */
  function WithEntry(doc: Document, key: string, e: DateEntry): (d: Document)
    ensures EntryAt(d, key) == Some(e)
    ensures forall k :: k != key ==> EntryAt(d, k) == EntryAt(doc, k)
    ensures forall n :: n != RegionKey && n in doc ==> n in d && d[n] == doc[n]
  {
    var dates := if RegionKey in doc && doc[RegionKey].dates.Some? then doc[RegionKey].dates.value else map[];
    doc[RegionKey := Region(Some(dates[key := e]))]
  }
}
