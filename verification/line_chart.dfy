/**
 The data side of the line chart: the month selector's table, the extraction of
 31 per-day records for a selected month, and the upper end of the vertical domain.
 */
module LineChart {
  import opened Optional
  import opened Digits
  import opened Timeseries

  /** The number of records built for every month, whatever its real length. */
  const DaysShown: nat := 31

  /** A day number the extraction pads: 1 through 31. */
  type Day = d: int | 1 <= d <= 31 witness 1

  /** One point of the chart: a `DD-MM` label and eight counters. */
  datatype DailyRecord = DailyRecord(
    xpoint: string,
    deltaConfirmed: int,
    deltaDeceased: int,
    deltaRecovered: int,
    deltaTested: int,
    delta7Confirmed: int,
    delta7Deceased: int,
    delta7Recovered: int,
    delta7Tested: int)

  /** The counter of `r` for one series and field. */
  function Counter(r: DailyRecord, s: Series, f: Field): int {
    match s
    case Delta =>
      (match f
       case Confirmed => r.deltaConfirmed
       case Deceased => r.deltaDeceased
       case Recovered => r.deltaRecovered
       case Tested => r.deltaTested)
    case Delta7 =>
      (match f
       case Confirmed => r.delta7Confirmed
       case Deceased => r.delta7Deceased
       case Recovered => r.delta7Recovered
       case Tested => r.delta7Tested)
  }

  /** Two records with the same label and the same eight counters are the same record. */
  lemma RecordExtensionality(a: DailyRecord, b: DailyRecord)
    requires a.xpoint == b.xpoint
    requires forall s, f :: Counter(a, s, f) == Counter(b, s, f)
    ensures a == b
  {
    assert Counter(a, Delta, Confirmed) == Counter(b, Delta, Confirmed);
    assert Counter(a, Delta, Deceased) == Counter(b, Delta, Deceased);
    assert Counter(a, Delta, Recovered) == Counter(b, Delta, Recovered);
    assert Counter(a, Delta, Tested) == Counter(b, Delta, Tested);
    assert Counter(a, Delta7, Confirmed) == Counter(b, Delta7, Confirmed);
    assert Counter(a, Delta7, Deceased) == Counter(b, Delta7, Deceased);
    assert Counter(a, Delta7, Recovered) == Counter(b, Delta7, Recovered);
    assert Counter(a, Delta7, Tested) == Counter(b, Delta7, Tested);
  }

  // ---------------------------------------------------------------------------
  // The month selector's table
  // ---------------------------------------------------------------------------

  /**
   The selector's options in display order: a short month name and its `YYYY-MM`
   value, "2020-" followed by the tens and units digits of the month number.
   */
  function Months(): (t: seq<(string, string)>)
    ensures |t| == 12
    ensures forall i :: 0 <= i < |t| ==>
              t[i].1 == "2020-" + [DigitChar((i + 1) / 10), DigitChar((i + 1) % 10)]
    ensures forall i, j :: 0 <= i < j < |t| ==> t[i].0 != t[j].0
  {
    [("Jan", "2020-01"), ("Feb", "2020-02"), ("Mar", "2020-03"), ("Apr", "2020-04"),
     ("May", "2020-05"), ("Jun", "2020-06"), ("Jul", "2020-07"), ("Aug", "2020-08"),
     ("Sep", "2020-09"), ("Oct", "2020-10"), ("Nov", "2020-11"), ("Dec", "2020-12")]
  }

  /** Every month value is "2020-" followed by the padded month number. */
  lemma MonthValuesArePadded()
    ensures forall i :: 0 <= i < |Months()| ==> Months()[i].1 == "2020-" + Pad2(i + 1)
  {
  }

  /** The twelve month values are pairwise distinct. */
  lemma MonthValuesDistinct()
    ensures forall i, j :: 0 <= i < j < |Months()| ==> Months()[i].1 != Months()[j].1
  {
    forall i, j | 0 <= i < j < |Months()|
      ensures Months()[i].1 != Months()[j].1
    {
      var a, b := Months()[i].1, Months()[j].1;
      assert a[5] == DigitChar((i + 1) / 10) && b[5] == DigitChar((j + 1) / 10);
      assert a[6] == DigitChar((i + 1) % 10) && b[6] == DigitChar((j + 1) % 10);
    }
  }

  /** The month the selector starts on. */
  const InitialMonth: string := "2020-03"

  /** A month the selector can produce. */
  predicate Selectable(month: string) {
    exists i :: 0 <= i < |Months()| && Months()[i].1 == month
  }

  // ---------------------------------------------------------------------------
  // Extraction
  // ---------------------------------------------------------------------------

  /** `jsonData["AN"]?.dates || {}`: the dates of the chart's region, or no dates. */
  function MonthData(doc: Document): (md: map<string, DateEntry>)
    ensures forall key :: EntryAt(doc, key) == (if key in md then Some(md[key]) else None)
  {
    if RegionKey in doc then doc[RegionKey].dates.GetOr(map[]) else map[]
  }

  /** `x || 0` on a counter that may be absent: `x` when it is present and truthy, else 0. */
  function OrZero(x: Option<int>): int {
    if x.Some? && x.value != 0 then x.value else 0
  }

  /** On integers, falling back on falsiness is the same as falling back on absence. */
  lemma OrZeroIsGetOr(x: Option<int>)
    ensures OrZero(x) == x.GetOr(0)
  {
  }

  /** `monthData[key]?.<series>?.<field> || 0`. */
  function ReadCounter(md: map<string, DateEntry>, key: string, s: Series, f: Field): int {
    if key !in md then OrZero(None)
    else
      match SeriesOf(md[key], s)
      case None => OrZero(None)
      case Some(c) => OrZero(FieldOf(c, f))
  }

  /** Reading through the region's dates with `|| {}` and `|| 0` agrees with the path lookup. */
  lemma ReadCounterIsLookup(doc: Document, key: string, s: Series, f: Field)
    ensures ReadCounter(MonthData(doc), key, s, f) == Lookup(doc, key, s, f).GetOr(0)
  {
    OrZeroIsGetOr(Lookup(doc, key, s, f));
  }

  /** The label a record carries: `DD-MM` from the day and the last two characters of the month. */
  function Label(month: string, d: Day): string {
    Pad2(d) + "-" + Last2(month)
  }

  /** A label is two digits spelling the day, a dash, and the last two characters of the month. */
  lemma LabelShape(month: string, d: Day)
    ensures var l := Label(month, d);
      && |l| == 3 + |Last2(month)|
      && AllDigits(l[..2]) && ParseNat(l[..2]) == d
      && l[2..] == "-" + Last2(month)
  {
    var l := Label(month, d);
    assert l[..2] == Pad2(d);
    assert l[2..] == "-" + Last2(month);
  }

  /** The key a record's counters are read from: `YYYY-MM-DD`. */
  function DateKey(month: string, d: Day): string {
    month + "-" + Pad2(d)
  }

  /** A date key is the month, a dash, and two digits spelling the day. */
  lemma DateKeyShape(month: string, d: Day)
    ensures var k := DateKey(month, d);
      && |k| == |month| + 3
      && k[..|month| + 1] == month + "-"
      && AllDigits(k[|month| + 1..]) && ParseNat(k[|month| + 1..]) == d
  {
    var k := DateKey(month, d);
    assert k[..|month| + 1] == month + "-";
    assert k[|month| + 1..] == Pad2(d);
  }

  /** Different days of one month are read from different keys. */
  lemma DateKeyInjective(month: string, a: Day, b: Day)
    ensures DateKey(month, a) == DateKey(month, b) <==> a == b
  {
    DateKeyShape(month, a);
    DateKeyShape(month, b);
  }

  /** The record for day `d`, its eight counters read from the date key of `d`. */
  function RecordFor(md: map<string, DateEntry>, month: string, d: Day): DailyRecord {
    var key := DateKey(month, d);
    var xpoint := Label(month, d);
    DailyRecord(
      xpoint,
      ReadCounter(md, key, Delta, Confirmed),
      ReadCounter(md, key, Delta, Deceased),
      ReadCounter(md, key, Delta, Recovered),
      ReadCounter(md, key, Delta, Tested),
      ReadCounter(md, key, Delta7, Confirmed),
      ReadCounter(md, key, Delta7, Deceased),
      ReadCounter(md, key, Delta7, Recovered),
      ReadCounter(md, key, Delta7, Tested))
  }

  /** Proof step of `ExtractDataForMonth`: a built record holds the counters read under its key. */
  lemma RecordForReadsItsKey(md: map<string, DateEntry>, month: string, d: Day, s: Series, f: Field)
    ensures Counter(RecordFor(md, month, d), s, f) == ReadCounter(md, DateKey(month, d), s, f)
  {
  }

  /**
   `extractDataForMonth(jsonData, selectedMonth)`: exactly 31 records, record `i`
   carrying the label of day `i + 1` (see `LabelShape`), and each of its counters
   the value found at the matching path for the key of day `i + 1`, or 0.
   */
  function ExtractDataForMonth(doc: Document, month: string): (r: seq<DailyRecord>)
    ensures |r| == DaysShown
    ensures forall i :: 0 <= i < |r| ==> r[i].xpoint == Label(month, i + 1)
    ensures forall i, s, f :: 0 <= i < |r| ==>
              Counter(r[i], s, f) == Lookup(doc, DateKey(month, i + 1), s, f).GetOr(0)
  {
    var md := MonthData(doc);
    var r := seq(DaysShown, i requires 0 <= i < DaysShown => RecordFor(md, month, i + 1));
    forall i, s, f | 0 <= i < |r|
      ensures Counter(r[i], s, f) == Lookup(doc, DateKey(month, i + 1), s, f).GetOr(0)
    {
      RecordForReadsItsKey(md, month, i + 1, s, f);
      ReadCounterIsLookup(doc, DateKey(month, i + 1), s, f);
    }
    r
  }

  // ---------------------------------------------------------------------------
  // Vertical domain
  // ---------------------------------------------------------------------------

  /** `Math.max(d.deltaConfirmed, d.delta7Confirmed)`. */
  function Peak(r: DailyRecord): int {
    if r.deltaConfirmed >= r.delta7Confirmed then r.deltaConfirmed else r.delta7Confirmed
  }

  /**
   `d3.max(data, d => Math.max(d.deltaConfirmed, d.delta7Confirmed))`: undefined for no
   records, otherwise a bound on both confirmed series that one of the records attains.
   */
  function YUpper(data: seq<DailyRecord>): (hi: Option<int>)
    ensures hi.None? <==> |data| == 0
    ensures hi.Some? ==> forall i :: 0 <= i < |data| ==>
              data[i].deltaConfirmed <= hi.value && data[i].delta7Confirmed <= hi.value
    ensures hi.Some? ==>
              exists i :: 0 <= i < |data| && (data[i].deltaConfirmed == hi.value || data[i].delta7Confirmed == hi.value)
  {
    if |data| == 0 then None
    else
      var last := Peak(data[|data| - 1]);
      match YUpper(data[..|data| - 1])
      case None => Some(last)
      case Some(m) => if last > m then Some(last) else Some(m)
  }
}
