/** Selection of samples from the timeline table: the rows strictly inside a
    date window, at one location and, optionally, sequenced with one protocol,
    projected to their sample name and date. */
module SampleSelection {
  import opened Results
  import Ordering

  /** One row of the timeline table, columns `sample`, `proto`, `date` and
      `location`; dates are day numbers, and a missing cell is `None`. */
  datatype TimelineRow = TimelineRow(sample: string, proto: Option<string>, date: Option<int>, location: string)

  /** One row of the result, columns `sample` and `date`. */
  datatype SampleDate = SampleDate(sample: string, date: int)

  /** Days since 1970-01-01 of a proleptic Gregorian date. */
  function Day(y: int, m: int, d: int): int
    requires 1 <= m <= 12
  {
    var y1 := if m <= 2 then y - 1 else y;
    var era := y1 / 400;
    var yoe := y1 - era * 400;
    var mp := (m + 9) % 12;
    var doy := (153 * mp + 2) / 5 + d - 1;
    var doe := yoe * 365 + yoe / 4 - yoe / 100 + doy;
    era * 146097 + doe - 719468
  }

  /** The default window and location: 2024-01-01, 2024-07-03 and "Zürich (ZH)". */
  const DefaultStart: int := Day(2024, 1, 1)
  const DefaultEnd: int := Day(2024, 7, 3)
  const DefaultLocation: string := "Zürich (ZH)"

  /** The default window holds the 183 days from 2024-01-02 to 2024-07-02. */
  lemma DefaultWindow()
    ensures DefaultStart == 19723 && DefaultEnd == 19907
    ensures DefaultEnd - DefaultStart - 1 == 183
  {
  }

  /** The row mask: a date strictly between the two bounds, the location, and
      the protocol only when one is given. A missing date or protocol never
      compares equal or in range. */
  function Keeps(startdate: int, enddate: int, location: string, protocol: Option<string>): TimelineRow -> bool {
    (t: TimelineRow) =>
      t.date.Some? && startdate < t.date.value < enddate && t.location == location
      && (protocol.None? || (t.proto.Some? && t.proto == protocol))
  }

  /** `selected_rows[["sample", "date"]]` of a kept row. */
  function Project(t: TimelineRow): SampleDate
    requires t.date.Some?
  {
    SampleDate(t.sample, t.date.value)
  }

  /** `extract_sample_ID`: the kept rows in table order, duplicates included,
      projected to sample and date. */
  function ExtractSampleIds(rows: seq<TimelineRow>, startdate: int, enddate: int, location: string,
                            protocol: Option<string>): (r: seq<SampleDate>)
    ensures |r| <= |rows|
  {
    var kept := Ordering.Filter(rows, Keeps(startdate, enddate, location, protocol));
    Ordering.FilterAccepted(rows, Keeps(startdate, enddate, location, protocol));
    seq(|kept|, k requires 0 <= k < |kept| => Project(kept[k]))
  }

  /** The selection is the table's rows at increasing positions `idx`, projected;
      a row is selected exactly when its date lies strictly inside the window,
      its location matches, and, when a protocol is given, its protocol does. */
  lemma ExtractSampleIdsIsStableFilter(rows: seq<TimelineRow>, startdate: int, enddate: int, location: string,
                                       protocol: Option<string>) returns (idx: seq<nat>)
    ensures Ordering.Picks(idx, |rows|)
    ensures var r := ExtractSampleIds(rows, startdate, enddate, location, protocol);
            |r| == |idx|
            && forall k :: 0 <= k < |idx| ==>
                 rows[idx[k]].date.Some? && r[k] == SampleDate(rows[idx[k]].sample, rows[idx[k]].date.value)
    ensures forall i :: 0 <= i < |rows| ==>
              (i in idx <==>
                 rows[i].date.Some? && startdate < rows[i].date.value < enddate
                 && rows[i].location == location
                 && (protocol.Some? ==> rows[i].proto == protocol))
  {
    idx := Ordering.FilterIsStable(rows, Keeps(startdate, enddate, location, protocol));
  }

  /** Every selected sample has a date strictly inside the window and comes from
      a row at the location with that sample and that date. */
  lemma SelectedInWindow(rows: seq<TimelineRow>, startdate: int, enddate: int, location: string,
                         protocol: Option<string>, k: nat)
    requires k < |ExtractSampleIds(rows, startdate, enddate, location, protocol)|
    ensures var x := ExtractSampleIds(rows, startdate, enddate, location, protocol)[k];
            startdate < x.date < enddate
            && exists i :: 0 <= i < |rows| && rows[i].sample == x.sample && rows[i].location == location
                           && rows[i].date == Some(x.date)
  {
    var idx := ExtractSampleIdsIsStableFilter(rows, startdate, enddate, location, protocol);
    assert rows[idx[k]].location == location;
  }

  /** Asking for a protocol only removes samples: the result with a protocol is
      contained in the result without one. */
  lemma ProtocolNarrows(rows: seq<TimelineRow>, startdate: int, enddate: int, location: string, protocol: string)
    ensures forall x :: x in ExtractSampleIds(rows, startdate, enddate, location, Some(protocol))
                        ==> x in ExtractSampleIds(rows, startdate, enddate, location, None)
  {
    var narrow := ExtractSampleIds(rows, startdate, enddate, location, Some(protocol));
    var wide := ExtractSampleIds(rows, startdate, enddate, location, None);
    var idxN := ExtractSampleIdsIsStableFilter(rows, startdate, enddate, location, Some(protocol));
    var idxW := ExtractSampleIdsIsStableFilter(rows, startdate, enddate, location, None);
    forall x | x in narrow ensures x in wide {
      var k :| 0 <= k < |narrow| && narrow[k] == x;
      var i := idxN[k];
      assert i in idxW;
      var j :| 0 <= j < |idxW| && idxW[j] == i;
      assert wide[j] == x;
    }
  }

  /** The copy with the window, location and protocol written into it
      (2024-01-01, 2024-07-03, "Zürich (ZH)", no protocol): every entry has a
      date strictly inside that window and comes from a Zürich row with that
      sample and that date. */
  function ZurichSampleIds(rows: seq<TimelineRow>): (r: seq<SampleDate>)
    ensures forall k :: 0 <= k < |r| ==> DefaultStart < r[k].date < DefaultEnd
    ensures forall k :: 0 <= k < |r| ==>
              exists i :: 0 <= i < |rows| && rows[i].location == DefaultLocation
                          && rows[i].sample == r[k].sample && rows[i].date == Some(r[k].date)
  {
    var r := ExtractSampleIds(rows, DefaultStart, DefaultEnd, DefaultLocation, None);
    assert forall k :: 0 <= k < |r| ==>
             DefaultStart < r[k].date < DefaultEnd
             && exists i :: 0 <= i < |rows| && rows[i].location == DefaultLocation
                            && rows[i].sample == r[k].sample && rows[i].date == Some(r[k].date) by {
      forall k | 0 <= k < |r|
        ensures DefaultStart < r[k].date < DefaultEnd
        ensures exists i :: 0 <= i < |rows| && rows[i].location == DefaultLocation
                            && rows[i].sample == r[k].sample && rows[i].date == Some(r[k].date)
      {
        SelectedInWindow(rows, DefaultStart, DefaultEnd, DefaultLocation, None, k);
      }
    }
    r
  }
}
