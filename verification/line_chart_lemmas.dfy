/**
 Properties of the month extraction that relate several calls or several records:
 label shape and order, where each counter comes from, the zero defaults, and
 which parts of the document cannot influence the result.
 */
module LineChartLemmas {
  import opened Optional
  import opened Digits
  import opened Timeseries
  import opened LineChart

  /** Record `i` is labelled with the padded day `i + 1`, a dash, and the month's last two characters. */
  lemma LabelIsPaddedDay(doc: Document, month: string, i: nat)
    requires i < DaysShown
    ensures ExtractDataForMonth(doc, month)[i].xpoint == Pad2(i + 1) + "-" + Last2(month)
  {
  }

  /** The records run in strictly ascending day order, so no two of them share a label. */
  lemma LabelsAscendingAndDistinct(doc: Document, month: string)
    ensures var r := ExtractDataForMonth(doc, month);
      forall i, j :: 0 <= i < j < |r| ==>
        ParseNat(r[i].xpoint[..2]) < ParseNat(r[j].xpoint[..2]) && r[i].xpoint != r[j].xpoint
  {
    var r := ExtractDataForMonth(doc, month);
    forall i | 0 <= i < |r|
      ensures |r[i].xpoint| >= 2 && ParseNat(r[i].xpoint[..2]) == i + 1
    {
      LabelShape(month, i + 1);
    }
  }

  /** Every day part is one of "01" through "31". */
  lemma DayPartInRange(doc: Document, month: string)
    ensures var r := ExtractDataForMonth(doc, month);
      forall i :: 0 <= i < |r| ==>
        AllDigits(r[i].xpoint[..2]) && 1 <= ParseNat(r[i].xpoint[..2]) <= 31
  {
    var r := ExtractDataForMonth(doc, month);
    forall i | 0 <= i < |r|
      ensures |r[i].xpoint| >= 2 && AllDigits(r[i].xpoint[..2]) && ParseNat(r[i].xpoint[..2]) == i + 1
    {
      LabelShape(month, i + 1);
    }
  }

  /**
   Each counter defaults on its own: to 0 when the region, its dates, the date entry,
   the series or the field is missing, and to the stored value otherwise.
   */
  lemma CounterDefaults(doc: Document, month: string, i: nat, s: Series, f: Field)
    requires i < DaysShown
    ensures var c := Counter(ExtractDataForMonth(doc, month)[i], s, f);
      var key := DateKey(month, i + 1);
      && (RegionKey !in doc ==> c == 0)
      && (EntryAt(doc, key).None? ==> c == 0)
      && (EntryAt(doc, key).Some? && SeriesOf(EntryAt(doc, key).value, s).None? ==> c == 0)
      && (EntryAt(doc, key).Some? && SeriesOf(EntryAt(doc, key).value, s).Some? ==>
            c == FieldOf(SeriesOf(EntryAt(doc, key).value, s).value, f).GetOr(0))
  {
    var key := DateKey(month, i + 1);
    var c := Counter(ExtractDataForMonth(doc, month)[i], s, f);
    assert c == Lookup(doc, key, s, f).GetOr(0);
  }

  /** A counter present at the record's path is carried through unchanged. */
  lemma PresentCounterPassesThrough(doc: Document, month: string, i: nat, s: Series, f: Field, v: int)
    requires i < DaysShown
    requires Lookup(doc, DateKey(month, i + 1), s, f) == Some(v)
    ensures Counter(ExtractDataForMonth(doc, month)[i], s, f) == v
  {
  }

  /** Without the chart's region, or without its dates, every counter of every record is 0. */
  lemma AbsentRegionAllZero(doc: Document, month: string)
    requires RegionKey !in doc || doc[RegionKey].dates.None?
    ensures var r := ExtractDataForMonth(doc, month);
      forall i, s, f :: 0 <= i < |r| ==> Counter(r[i], s, f) == 0
  {
  }

  /** Record `i` depends on the document only through the entry under its own date key. */
  lemma RecordReadsOnlyItsKey(doc1: Document, doc2: Document, month: string, i: nat)
    requires i < DaysShown
    requires EntryAt(doc1, DateKey(month, i + 1)) == EntryAt(doc2, DateKey(month, i + 1))
    ensures ExtractDataForMonth(doc1, month)[i] == ExtractDataForMonth(doc2, month)[i]
  {
    var a, b := ExtractDataForMonth(doc1, month)[i], ExtractDataForMonth(doc2, month)[i];
    RecordExtensionality(a, b);
  }

  /** Two documents that agree on the 31 date keys of a month give the same records. */
  lemma AgreeingDocumentsSameRecords(doc1: Document, doc2: Document, month: string)
    requires forall d: Day :: EntryAt(doc1, DateKey(month, d)) == EntryAt(doc2, DateKey(month, d))
    ensures ExtractDataForMonth(doc1, month) == ExtractDataForMonth(doc2, month)
  {
    var r1, r2 := ExtractDataForMonth(doc1, month), ExtractDataForMonth(doc2, month);
    forall i | 0 <= i < DaysShown
      ensures r1[i] == r2[i]
    {
      RecordReadsOnlyItsKey(doc1, doc2, month, i);
    }
  }

  /** Other regions never affect the result. */
  lemma OtherRegionsIrrelevant(doc: Document, month: string, name: string, reg: Region)
    requires name != RegionKey
    ensures ExtractDataForMonth(doc[name := reg], month) == ExtractDataForMonth(doc, month)
  {
    AgreeingDocumentsSameRecords(doc[name := reg], doc, month);
  }

  /** Storing an entry under a key that is not one of the month's 31 date keys changes nothing. */
  lemma UnreadKeyIrrelevant(doc: Document, month: string, key: string, e: DateEntry)
    requires forall d: Day :: key != DateKey(month, d)
    ensures ExtractDataForMonth(WithEntry(doc, key, e), month) == ExtractDataForMonth(doc, month)
  {
    AgreeingDocumentsSameRecords(WithEntry(doc, key, e), doc, month);
  }

  /** Entries of dates that do not start with the selected month and a dash change nothing. */
  lemma OtherMonthsIrrelevant(doc: Document, month: string, key: string, e: DateEntry)
    requires |key| < |month| + 1 || key[..|month| + 1] != month + "-"
    ensures ExtractDataForMonth(WithEntry(doc, key, e), month) == ExtractDataForMonth(doc, month)
  {
    forall d: Day
      ensures key != DateKey(month, d)
    {
      DateKeyShape(month, d);
    }
    UnreadKeyIrrelevant(doc, month, key, e);
  }

  /** For the `m`-th month of the selector, every label reads `DD-MM` with `MM` its padded number. */
  lemma SelectableMonthLabels(doc: Document, m: nat)
    requires m < |Months()|
    ensures var r := ExtractDataForMonth(doc, Months()[m].1);
      forall i :: 0 <= i < |r| ==> r[i].xpoint == Pad2(i + 1) + "-" + Pad2(m + 1)
  {
    MonthValuesArePadded();
    var month := Months()[m].1;
    assert Last2(month) == Pad2(m + 1);
    forall i | 0 <= i < DaysShown
      ensures ExtractDataForMonth(doc, month)[i].xpoint == Pad2(i + 1) + "-" + Pad2(m + 1)
    {
      LabelIsPaddedDay(doc, month, i);
    }
  }

  /** The selector's starting month is one of its options. */
  lemma InitialMonthSelectable()
    ensures Selectable(InitialMonth)
  {
    assert Months()[2].1 == InitialMonth;
  }

  /** Over an extraction the vertical upper bound always exists and dominates both confirmed series. */
  lemma ExtractionHasUpperBound(doc: Document, month: string)
    ensures var r := ExtractDataForMonth(doc, month);
      && YUpper(r).Some?
      && forall i :: 0 <= i < |r| ==> Peak(r[i]) <= YUpper(r).value
  {
  }

  /**
   A concrete case: in March, a document whose only datum is a daily confirmed
   count of 12 on the 5th yields "05-03" carrying 12 and every other counter 0.
   */
  lemma MarchFifthExample()
    ensures var doc := map[RegionKey := Region(Some(map["2020-03-05" :=
                DateEntry(Some(Counters(Some(12), None, None, None)), None)]))];
      var r := ExtractDataForMonth(doc, "2020-03");
      && r[4].xpoint == "05-03"
      && r[4].deltaConfirmed == 12
      && forall i, s, f :: 0 <= i < |r| && (i, s, f) != (4, Delta, Confirmed) ==> Counter(r[i], s, f) == 0
  {
    var doc := map[RegionKey := Region(Some(map["2020-03-05" :=
                 DateEntry(Some(Counters(Some(12), None, None, None)), None)]))];
    var r := ExtractDataForMonth(doc, "2020-03");
    assert DateKey("2020-03", 5) == "2020-03-05";
    LabelIsPaddedDay(doc, "2020-03", 4);
    forall i, s, f | 0 <= i < |r| && (i, s, f) != (4, Delta, Confirmed)
      ensures Counter(r[i], s, f) == 0
    {
      if i != 4 {
        DateKeyInjective("2020-03", i + 1, 5);
      }
    }
  }
}
