/** Assembly of the mutation-by-date coverage matrix: every coverage file whose
    sample (the fourth path component from the end) is selected contributes one
    column, stored under that sample's date; the columns are then sorted by date
    and the rows relabelled with the mutation labels as written. */
module MatrixAssembly {
  import opened Results
  import Ordering
  import SampleSelection
  import MutationLabels
  import CoverageLookup
  import AmpliconCoverage

  /** A file the glob found, with its decompressed, tab-split content. */
  datatype CoverageFile = CoverageFile(path: string, lines: seq<seq<string>>)

  /** The `columns` frame as the file loop leaves it: the dates in the order
      their columns were created, and the values stored under each date. */
  datatype Columns = Columns(order: seq<int>, data: map<int, seq<Option<string>>>)

  /** The output: row labels, dates in ascending order, and one column per date. */
  datatype Matrix = Matrix(index: seq<string>, dates: seq<int>, columns: seq<seq<Option<string>>>)

  /** The message pandas gives when the number of dates in the key differs from
      the number of columns assigned: several dates receiving one column, or one
      date receiving the column-less frame built from no requests. */
  const KeyLengthMessage: string := "Columns must be same length as key"

  /** `sample_IDs.loc[sample_IDs["sample"] == sample, "date"]`: the dates of
      every selected entry for the sample, in table order. */
  function DatesOf(selected: seq<SampleSelection.SampleDate>, sample: string): (ds: seq<int>)
    ensures |ds| > 0 <==> exists k :: 0 <= k < |selected| && selected[k].sample == sample
  {
    if |selected| == 0 then []
    else
      var rest := DatesOf(selected[1..], sample);
      assert forall k :: 1 <= k < |selected| ==> selected[1..][k - 1] == selected[k];
      if selected[0].sample == sample then [selected[0].date] + rest else rest
  }

  /** `columns[date] = df`: a new date adds a column at the end, a known date
      has its column overwritten in place. */
  function Assign(c: Columns, d: int, col: seq<Option<string>>): Columns {
    Columns(if d in c.data then c.order else c.order + [d], c.data[d := col])
  }

  /** What one pass of the file loop does with one file. */
  datatype Outcome = Raises(error: Error) | Skipped | Stored(date: int, column: seq<Option<string>>)

  /** One pass of the file loop. A path with fewer than four components raises
      `IndexError`; an unselected sample is skipped; a selected one is loaded,
      and its column stored under its date. The key must be a single date and
      the loaded frame must have its one column, which it lacks when there is
      nothing to request. */
  function Visit(f: CoverageFile, selected: seq<SampleSelection.SampleDate>,
                 layout: CoverageLookup.Layout, qs: seq<CoverageLookup.Request>): Outcome
  {
    match AmpliconCoverage.PathLabel(f.path)
    case None => Raises(IndexError)
    case Some(sample) =>
      var ds := DatesOf(selected, sample);
      if |ds| == 0 then Skipped
      else
        match CoverageLookup.LookupAll(f.lines, layout, qs)
        case Err(e) => Raises(e)
        case Ok(col) =>
          if |ds| != 1 || |qs| == 0 then Raises(ValueError(KeyLengthMessage)) else Stored(ds[0], col)
  }

  /** The outcome of every file, in glob order. */
  function Visits(files: seq<CoverageFile>, selected: seq<SampleSelection.SampleDate>,
                  layout: CoverageLookup.Layout, qs: seq<CoverageLookup.Request>): (os: seq<Outcome>)
    ensures |os| == |files|
    ensures forall i :: 0 <= i < |files| ==> os[i] == Visit(files[i], selected, layout, qs)
  {
    seq(|files|, i requires 0 <= i < |files| => Visit(files[i], selected, layout, qs))
  }

  function Apply(st: Result<Columns>, o: Outcome): Result<Columns> {
    match st
    case Err(e) => Err(e)
    case Ok(c) =>
      match o
      case Raises(e) => Err(e)
      case Skipped => Ok(c)
      case Stored(d, col) => Ok(Assign(c, d, col))
  }

  /** The `columns` frame after the file loop, or the first exception it raises. */
  function Collect(os: seq<Outcome>): Result<Columns>
    decreases |os|
  {
    if |os| == 0 then Ok(Columns([], map[]))
    else Apply(Collect(os[..|os| - 1]), os[|os| - 1])
  }

  /** The dates the loop records and the dates it has columns for are the same. */
  lemma {:induction false} CollectKeys(os: seq<Outcome>)
    ensures var r := Collect(os);
            r.Ok? ==> forall d :: d in r.value.order <==> d in r.value.data
    decreases |os|
  {
    if |os| > 0 {
      CollectKeys(os[..|os| - 1]);
    }
  }

  /** The end of `run_*`: `sort_index(axis=1)` orders the columns by date, and
      `set_index(ind["mut"])` needs one label per row. The frame has no rows
      until its first column is stored. */
  function Finish(c: Columns, labels: seq<string>, qs: seq<CoverageLookup.Request>): Result<Matrix>
    requires forall d :: d in c.order ==> d in c.data
  {
    var rows := if |c.order| == 0 then 0 else |qs|;
    if |labels| != rows then Err(LengthMismatch)
    else
      var dates := Ordering.SortedUnique(c.order);
      Ok(Matrix(labels, dates, seq(|dates|, k requires 0 <= k < |dates| => c.data[dates[k]])))
  }

  /** The file loop followed by the sort and the relabelling. */
  function Assemble(files: seq<CoverageFile>, selected: seq<SampleSelection.SampleDate>, labels: seq<string>,
                    layout: CoverageLookup.Layout, qs: seq<CoverageLookup.Request>): Result<Matrix>
  {
    var os := Visits(files, selected, layout, qs);
    CollectKeys(os);
    match Collect(os)
    case Err(e) => Err(e)
    case Ok(c) => Finish(c, labels, qs)
  }

  /** The file loop and the final sort and relabelling, with the per-file
      loader run on every selected file. */
  method AssembleMatrix(files: seq<CoverageFile>, selected: seq<SampleSelection.SampleDate>, labels: seq<string>,
                        layout: CoverageLookup.Layout, qs: seq<CoverageLookup.Request>) returns (r: Result<Matrix>)
    ensures r == Assemble(files, selected, labels, layout, qs)
  {
    var collected := CollectFiles(files, selected, layout, qs);
    if collected.Err? {
      return Err(collected.error);
    }
    CollectKeys(Visits(files, selected, layout, qs));
    r := Relabel(collected.value, labels, qs);
  }

  /** `sort_index(axis=1)` and then `set_index(ind["mut"])`. */
  method Relabel(columns: Columns, labels: seq<string>, qs: seq<CoverageLookup.Request>) returns (r: Result<Matrix>)
    requires forall d :: d in columns.order ==> d in columns.data
    ensures r == Finish(columns, labels, qs)
  {
    var rows := if |columns.order| == 0 then 0 else |qs|;
    if |labels| != rows {
      return Err(LengthMismatch);
    }
    var dates := Ordering.SortedUnique(columns.order);
    assert forall k :: 0 <= k < |dates| ==> dates[k] in columns.order;
    r := Ok(Matrix(labels, dates, seq(|dates|, k requires 0 <= k < |dates| => columns.data[dates[k]])));
  }

  /** The file loop: the `columns` frame it builds, or the first exception. */
  method CollectFiles(files: seq<CoverageFile>, selected: seq<SampleSelection.SampleDate>,
                      layout: CoverageLookup.Layout, qs: seq<CoverageLookup.Request>) returns (r: Result<Columns>)
    ensures r == Collect(Visits(files, selected, layout, qs))
  {
    ghost var os := Visits(files, selected, layout, qs);
    var columns := Columns([], map[]);
    var i := 0;
    while i < |files|
      invariant 0 <= i <= |files|
      invariant Collect(os[..i]) == Ok(columns)
    {
      CollectStep(os, i);
      var next := VisitFile(files[i], selected, layout, qs, columns);
      assert Collect(os[..i + 1]) == next;
      if next.Err? {
        CollectStaysFailed(os, i + 1, next.error);
        return Err(next.error);
      }
      columns := next.value;
      i := i + 1;
    }
    assert os[..|files|] == os;
    r := Ok(columns);
  }

  /** The body of the file loop: the sample name from the path, and for a
      selected sample its table loaded and its column stored under its date. */
  method VisitFile(f: CoverageFile, selected: seq<SampleSelection.SampleDate>, layout: CoverageLookup.Layout,
                   qs: seq<CoverageLookup.Request>, columns: Columns) returns (r: Result<Columns>)
    ensures r == Apply(Ok(columns), Visit(f, selected, layout, qs))
  {
    var sample := AmpliconCoverage.PathLabel(f.path);
    if sample.None? {
      return Err(IndexError);
    }
    var ds := DatesOf(selected, sample.value);
    if |ds| == 0 {
      return Ok(columns);
    }
    var df := CoverageLookup.LoadConvert(f.lines, layout, qs);
    if df.Err? {
      return Err(df.error);
    }
    if |ds| != 1 || |qs| == 0 {
      return Err(ValueError(KeyLengthMessage));
    }
    r := Ok(Assign(columns, ds[0], df.value));
  }

  /** One more file through the loop. */
  lemma CollectStep(os: seq<Outcome>, i: nat)
    requires i < |os|
    ensures Collect(os[..i + 1]) == Apply(Collect(os[..i]), os[i])
  {
    assert os[..i + 1][..i] == os[..i];
  }

  /** Once the loop has raised, later files change nothing. */
  lemma {:induction false} CollectStaysFailed(os: seq<Outcome>, i: nat, e: Error)
    requires 0 < i <= |os| && Collect(os[..i]) == Err(e)
    ensures Collect(os) == Err(e)
    decreases |os| - i
  {
    if i < |os| {
      assert os[..i + 1][..i] == os[..i];
      CollectStaysFailed(os, i + 1, e);
    } else {
      assert os[..i] == os;
    }
  }

  // ---------------------------------------------------------------- what the loop keeps

  /** Outcome `i` is the last one storing a column under `d`. */
  predicate LastStored(os: seq<Outcome>, d: int, i: int) {
    0 <= i < |os| && os[i].Stored? && os[i].date == d
    && forall j :: i < j < |os| ==> !(os[j].Stored? && os[j].date == d)
  }

  /** The loop succeeds exactly when no file raises. */
  lemma {:induction false} CollectSucceeds(os: seq<Outcome>)
    ensures Collect(os).Ok? <==> forall i :: 0 <= i < |os| ==> !os[i].Raises?
    decreases |os|
  {
    if |os| > 0 {
      var n := |os| - 1;
      CollectSucceeds(os[..n]);
      assert forall i :: 0 <= i < n ==> os[..n][i] == os[i];
    }
  }

  /** After the loop, a date has a column exactly when some file stored one
      under it, and the column holds what the last such file stored: a later
      sample with the same date overwrites an earlier one. */
  lemma {:induction false} CollectContents(os: seq<Outcome>)
    requires Collect(os).Ok?
    ensures var c := Collect(os).value;
            forall d :: d in c.data <==> exists i :: 0 <= i < |os| && os[i].Stored? && os[i].date == d
    ensures var c := Collect(os).value;
            forall d :: d in c.data ==> exists i :: LastStored(os, d, i) && os[i].column == c.data[d]
    decreases |os|
  {
    if |os| > 0 {
      var n := |os| - 1;
      var init := os[..n];
      assert forall j :: 0 <= j < n ==> init[j] == os[j];
      CollectContents(init);
      var prev := Collect(init).value;
      var c := Collect(os).value;
      forall d | d in c.data ensures exists i :: LastStored(os, d, i) && os[i].column == c.data[d] {
        if os[n].Stored? && os[n].date == d {
          assert LastStored(os, d, n);
        } else {
          var i :| LastStored(init, d, i) && init[i].column == prev.data[d];
          assert LastStored(os, d, i);
        }
      }
      forall d ensures d in c.data <==> exists i :: 0 <= i < |os| && os[i].Stored? && os[i].date == d {
        if exists i :: 0 <= i < |os| && os[i].Stored? && os[i].date == d {
          var i :| 0 <= i < |os| && os[i].Stored? && os[i].date == d;
          if i < n {
            assert init[i].Stored? && init[i].date == d;
          }
        }
      }
    }
  }

  // ---------------------------------------------------------------- in terms of the files

  /** File `f` gives a column for date `d`: its sample is selected and has the single date `d`. */
  predicate Contributes(f: CoverageFile, selected: seq<SampleSelection.SampleDate>, d: int) {
    var sample := AmpliconCoverage.PathLabel(f.path);
    sample.Some? && DatesOf(selected, sample.value) == [d]
  }

  /** File `i` is the last file giving a column for `d`. */
  predicate LastFor(files: seq<CoverageFile>, selected: seq<SampleSelection.SampleDate>, d: int, i: int) {
    0 <= i < |files| && Contributes(files[i], selected, d)
    && forall j :: i < j < |files| ==> !Contributes(files[j], selected, d)
  }

  /** A file that does not raise stores a column exactly when it contributes
      one, and what it stores is what its loader returned. */
  lemma VisitStores(f: CoverageFile, selected: seq<SampleSelection.SampleDate>,
                    layout: CoverageLookup.Layout, qs: seq<CoverageLookup.Request>, d: int)
    requires !Visit(f, selected, layout, qs).Raises?
    ensures var o := Visit(f, selected, layout, qs);
            (o.Stored? && o.date == d) <==> Contributes(f, selected, d)
    ensures var o := Visit(f, selected, layout, qs);
            o.Stored? ==> CoverageLookup.LookupAll(f.lines, layout, qs) == Ok(o.column) && |o.column| == |qs|
  {
    var o := Visit(f, selected, layout, qs);
    if o.Stored? {
      CoverageLookup.LookupAllContents(f.lines, layout, qs);
    }
  }

  /** A run fails exactly when some file raises: a path too short to name a
      sample, or a selected sample whose table lacks a requested cell, which
      has several selected dates, or for which nothing is requested. */
  lemma CollectFails(files: seq<CoverageFile>, selected: seq<SampleSelection.SampleDate>,
                     layout: CoverageLookup.Layout, qs: seq<CoverageLookup.Request>)
    ensures Collect(Visits(files, selected, layout, qs)).Err? <==>
              exists i :: 0 <= i < |files| &&
                var sample := AmpliconCoverage.PathLabel(files[i].path);
                sample.None?
                || (|DatesOf(selected, sample.value)| > 0
                    && (CoverageLookup.LookupAll(files[i].lines, layout, qs).Err?
                        || |DatesOf(selected, sample.value)| > 1 || |qs| == 0))
  {
    var os := Visits(files, selected, layout, qs);
    CollectSucceeds(os);
  }

  /** The matrix keeps the mutation labels verbatim as its rows, lists its dates
      in strictly ascending order with one column of one value per label for each,
      and has a date exactly when some selected file gives a column for it; that
      column holds the values loaded from the last such file. */
  lemma AssembleContents(files: seq<CoverageFile>, selected: seq<SampleSelection.SampleDate>, labels: seq<string>,
                         layout: CoverageLookup.Layout, qs: seq<CoverageLookup.Request>)
    requires Assemble(files, selected, labels, layout, qs).Ok?
    ensures var m := Assemble(files, selected, labels, layout, qs).value;
            m.index == labels && Ordering.StrictlyIncreasing(m.dates) && |m.columns| == |m.dates|
            && (forall k :: 0 <= k < |m.columns| ==> |m.columns[k]| == |labels|)
    ensures var m := Assemble(files, selected, labels, layout, qs).value;
            forall d :: d in m.dates <==> exists i :: 0 <= i < |files| && Contributes(files[i], selected, d)
    ensures var m := Assemble(files, selected, labels, layout, qs).value;
            forall k :: 0 <= k < |m.dates| ==>
              exists i :: LastFor(files, selected, m.dates[k], i)
                          && CoverageLookup.LookupAll(files[i].lines, layout, qs) == Ok(m.columns[k])
  {
    var m := Assemble(files, selected, labels, layout, qs).value;
    var c := AssembleOfCollect(files, selected, labels, layout, qs);
    AssembleDates(files, selected, labels, layout, qs, c);
    AssembleColumns(files, selected, labels, layout, qs, c);
  }

  /** The matrix in terms of the loop's final frame: the sorted dates, and each
      date's stored column. */
  lemma AssembleOfCollect(files: seq<CoverageFile>, selected: seq<SampleSelection.SampleDate>, labels: seq<string>,
                     layout: CoverageLookup.Layout, qs: seq<CoverageLookup.Request>) returns (c: Columns)
    requires Assemble(files, selected, labels, layout, qs).Ok?
    ensures Collect(Visits(files, selected, layout, qs)) == Ok(c)
    ensures forall d :: d in c.order <==> d in c.data
    ensures var m := Assemble(files, selected, labels, layout, qs).value;
            m.index == labels && m.dates == Ordering.SortedUnique(c.order) && |m.columns| == |m.dates|
            && (|m.dates| > 0 ==> |labels| == |qs|)
            && forall k :: 0 <= k < |m.dates| ==> m.dates[k] in c.data && m.columns[k] == c.data[m.dates[k]]
  {
    var os := Visits(files, selected, layout, qs);
    CollectKeys(os);
    c := Collect(os).value;
    var m := Assemble(files, selected, labels, layout, qs).value;
    assert |m.dates| > 0 ==> m.dates[0] in c.order;
  }

  /** The matrix has a date exactly when some file contributes a column for it. */
  lemma AssembleDates(files: seq<CoverageFile>, selected: seq<SampleSelection.SampleDate>, labels: seq<string>,
                     layout: CoverageLookup.Layout, qs: seq<CoverageLookup.Request>, c: Columns)
    requires Assemble(files, selected, labels, layout, qs).Ok?
    requires Collect(Visits(files, selected, layout, qs)) == Ok(c)
    requires forall d :: d in c.order <==> d in c.data
    requires Assemble(files, selected, labels, layout, qs).value.dates == Ordering.SortedUnique(c.order)
    ensures var m := Assemble(files, selected, labels, layout, qs).value;
            forall d :: d in m.dates <==> exists i :: 0 <= i < |files| && Contributes(files[i], selected, d)
  {
    var os := Visits(files, selected, layout, qs);
    CollectContents(os);
    FilesAsOutcomes(files, selected, layout, qs);
  }

  /** Each column of the matrix is what the last file contributing to its date loaded. */
  lemma AssembleColumns(files: seq<CoverageFile>, selected: seq<SampleSelection.SampleDate>, labels: seq<string>,
                     layout: CoverageLookup.Layout, qs: seq<CoverageLookup.Request>, c: Columns)
    requires Assemble(files, selected, labels, layout, qs).Ok?
    requires Collect(Visits(files, selected, layout, qs)) == Ok(c)
    requires var m := Assemble(files, selected, labels, layout, qs).value;
             |m.columns| == |m.dates| && (|m.dates| > 0 ==> |labels| == |qs|)
             && forall k :: 0 <= k < |m.dates| ==> m.dates[k] in c.data && m.columns[k] == c.data[m.dates[k]]
    ensures var m := Assemble(files, selected, labels, layout, qs).value;
            forall k :: 0 <= k < |m.dates| ==>
              |m.columns[k]| == |labels|
              && exists i :: LastFor(files, selected, m.dates[k], i)
                             && CoverageLookup.LookupAll(files[i].lines, layout, qs) == Ok(m.columns[k])
  {
    var os := Visits(files, selected, layout, qs);
    CollectContents(os);
    FilesAsOutcomes(files, selected, layout, qs);
    var m := Assemble(files, selected, labels, layout, qs).value;
    forall k | 0 <= k < |m.dates|
      ensures |m.columns[k]| == |labels|
      ensures exists i :: LastFor(files, selected, m.dates[k], i)
                          && CoverageLookup.LookupAll(files[i].lines, layout, qs) == Ok(m.columns[k])
    {
      var d := m.dates[k];
      var i :| LastStored(os, d, i) && os[i].column == c.data[d];
      assert LastFor(files, selected, d, i);
    }
  }

  /** When the loop succeeds, file `i` stores a column under `d` exactly when
      it contributes one, and what it stores is what its loader returned. */
  lemma FilesAsOutcomes(files: seq<CoverageFile>, selected: seq<SampleSelection.SampleDate>,
                        layout: CoverageLookup.Layout, qs: seq<CoverageLookup.Request>)
    requires Collect(Visits(files, selected, layout, qs)).Ok?
    ensures var os := Visits(files, selected, layout, qs);
            forall i, d :: 0 <= i < |files| ==>
              ((os[i].Stored? && os[i].date == d) <==> Contributes(files[i], selected, d))
    ensures var os := Visits(files, selected, layout, qs);
            forall i :: 0 <= i < |files| && os[i].Stored? ==>
              CoverageLookup.LookupAll(files[i].lines, layout, qs) == Ok(os[i].column) && |os[i].column| == |qs|
  {
    var os := Visits(files, selected, layout, qs);
    CollectSucceeds(os);
    forall i, d | 0 <= i < |files|
      ensures (os[i].Stored? && os[i].date == d) <==> Contributes(files[i], selected, d)
    {
      VisitStores(files[i], selected, layout, qs, d);
    }
    forall i | 0 <= i < |files| && os[i].Stored?
      ensures CoverageLookup.LookupAll(files[i].lines, layout, qs) == Ok(os[i].column) && |os[i].column| == |qs|
    {
      VisitStores(files[i], selected, layout, qs, 0);
    }
  }

  /** A selected file fails the run when its sample has several selected dates. */
  lemma RepeatedSampleFails(files: seq<CoverageFile>, selected: seq<SampleSelection.SampleDate>, labels: seq<string>,
                            layout: CoverageLookup.Layout, qs: seq<CoverageLookup.Request>, i: nat)
    requires i < |files| && AmpliconCoverage.PathLabel(files[i].path).Some?
    requires |DatesOf(selected, AmpliconCoverage.PathLabel(files[i].path).value)| > 1
    ensures Assemble(files, selected, labels, layout, qs).Err?
  {
    CollectFails(files, selected, layout, qs);
  }

  /** A selected file fails the run when nothing is requested of it: the frame
      loaded from no requests has no column to store under its date. */
  lemma EmptyRequestsFail(files: seq<CoverageFile>, selected: seq<SampleSelection.SampleDate>, labels: seq<string>,
                          layout: CoverageLookup.Layout, qs: seq<CoverageLookup.Request>, i: nat)
    requires i < |files| && AmpliconCoverage.PathLabel(files[i].path).Some?
    requires |DatesOf(selected, AmpliconCoverage.PathLabel(files[i].path).value)| > 0
    requires |qs| == 0
    ensures Assemble(files, selected, labels, layout, qs).Err?
  {
    CollectFails(files, selected, layout, qs);
  }

  /** With no file giving a column there is no column and no row, so a
      non-empty label list makes `set_index` fail. */
  lemma NothingSelectedFails(files: seq<CoverageFile>, selected: seq<SampleSelection.SampleDate>, labels: seq<string>,
                             layout: CoverageLookup.Layout, qs: seq<CoverageLookup.Request>)
    requires forall i, d :: 0 <= i < |files| ==> !Contributes(files[i], selected, d)
    requires |labels| > 0
    ensures Assemble(files, selected, labels, layout, qs).Err?
  {
    var os := Visits(files, selected, layout, qs);
    if Collect(os).Ok? {
      CollectKeys(os);
      CollectSucceeds(os);
      CollectContents(os);
      var c := Collect(os).value;
      if |c.order| > 0 {
        var d := c.order[0];
        assert d in c.data;
        var i :| 0 <= i < |os| && os[i].Stored? && os[i].date == d;
        VisitStores(files[i], selected, layout, qs, d);
      }
    }
  }

  // ---------------------------------------------------------------- the three pipelines

  /** `run_basecnt_coverage` of the package: samples selected by window and
      location, labels parsed with the `ValueError` check, base counts read. */
  function BasecntMatrix(files: seq<CoverageFile>, timeline: seq<SampleSelection.TimelineRow>, labels: seq<string>,
                         startdate: int, enddate: int, location: string): Result<Matrix>
  {
    var selected := SampleSelection.ExtractSampleIds(timeline, startdate, enddate, location, None);
    match MutationLabels.ParseAll(labels)
    case Err(e) => Err(e)
    case Ok(pm) => Assemble(files, selected, labels, CoverageLookup.BasecntLayout, CoverageLookup.BasecntRequests(pm))
  }

  method RunBasecntCoverage(files: seq<CoverageFile>, timeline: seq<SampleSelection.TimelineRow>, labels: seq<string>,
                            startdate: int, enddate: int, location: string) returns (r: Result<Matrix>)
    ensures r == BasecntMatrix(files, timeline, labels, startdate, enddate, location)
  {
    var selected := SampleSelection.ExtractSampleIds(timeline, startdate, enddate, location, None);
    var pm := MutationLabels.ExtractMutationPositionAndNt(labels);
    if pm.Err? {
      return Err(pm.error);
    }
    r := AssembleMatrix(files, selected, labels, CoverageLookup.BasecntLayout, CoverageLookup.BasecntRequests(pm.value));
  }

  /** The older `run_basecnt_coverage`, `main` of the base-count script: the
      fixed Zürich window, and the comprehension parser. */
  function LegacyBasecntMatrix(files: seq<CoverageFile>, timeline: seq<SampleSelection.TimelineRow>,
                               labels: seq<string>): Result<Matrix>
  {
    var selected := SampleSelection.ZurichSampleIds(timeline);
    match MutationLabels.ParseAllLegacy(labels)
    case Err(e) => Err(e)
    case Ok(pm) => Assemble(files, selected, labels, CoverageLookup.BasecntLayout, CoverageLookup.BasecntRequests(pm))
  }

  /** `run_total_coverage_depth`, `main` of the total-depth script: the fixed
      Zürich window, and the first number of every label as its position. */
  function TotalDepthMatrix(files: seq<CoverageFile>, timeline: seq<SampleSelection.TimelineRow>,
                            labels: seq<string>): Result<Matrix>
  {
    var selected := SampleSelection.ZurichSampleIds(timeline);
    match MutationLabels.ExtractMutationPosition(labels)
    case Err(e) => Err(e)
    case Ok(pos) => Assemble(files, selected, labels, CoverageLookup.TotalLayout, CoverageLookup.TotalRequests(pos))
  }

  /** The package pipeline with the default window and location selects what the
      fixed Zürich copies select, so with labels that parse both ways the two
      base-count pipelines build the same matrix. */
  lemma DefaultsMatchLegacy(files: seq<CoverageFile>, timeline: seq<SampleSelection.TimelineRow>, labels: seq<string>)
    requires MutationLabels.ParseAll(labels).Ok?
    ensures BasecntMatrix(files, timeline, labels, SampleSelection.DefaultStart, SampleSelection.DefaultEnd,
                          SampleSelection.DefaultLocation)
            == LegacyBasecntMatrix(files, timeline, labels)
  {
  }

  /** A label without a match stops the package pipeline with its `ValueError`
      and the older copies with `AttributeError`, before any file is read. */
  lemma UnparsableLabelFails(files: seq<CoverageFile>, timeline: seq<SampleSelection.TimelineRow>, labels: seq<string>,
                             startdate: int, enddate: int, location: string, k: nat)
    requires k < |labels| && MutationLabels.MatchPosNt(labels[k]).None?
    ensures BasecntMatrix(files, timeline, labels, startdate, enddate, location).Err?
    ensures BasecntMatrix(files, timeline, labels, startdate, enddate, location).error.ValueError?
    ensures LegacyBasecntMatrix(files, timeline, labels) == Err(AttributeError)
  {
  }

  /** The loop of `run_total_coverage_depth` and of the total-depth script's `main`. */
  method RunTotalCoverageDepth(files: seq<CoverageFile>, timeline: seq<SampleSelection.TimelineRow>, labels: seq<string>)
    returns (r: Result<Matrix>)
    ensures r == TotalDepthMatrix(files, timeline, labels)
  {
    var selected := SampleSelection.ZurichSampleIds(timeline);
    var pos := MutationLabels.ExtractMutationPosition(labels);
    if pos.Err? {
      return Err(pos.error);
    }
    r := AssembleMatrix(files, selected, labels, CoverageLookup.TotalLayout, CoverageLookup.TotalRequests(pos.value));
  }

  /** A label without digits stops the total-depth pipeline before any file is read. */
  lemma DigitlessLabelFails(files: seq<CoverageFile>, timeline: seq<SampleSelection.TimelineRow>, labels: seq<string>, k: nat)
    requires k < |labels| && MutationLabels.FirstNumber(labels[k]).None?
    ensures TotalDepthMatrix(files, timeline, labels) == Err(AttributeError)
  {
  }

  /** Every date `DatesOf` gives is the date of a selected entry for the sample. */
  lemma {:induction false} DatesOfSelected(selected: seq<SampleSelection.SampleDate>, sample: string, d: int)
    requires d in DatesOf(selected, sample)
    ensures exists j :: 0 <= j < |selected| && selected[j].sample == sample && selected[j].date == d
  {
    if selected[0].sample == sample && selected[0].date == d {
    } else {
      DatesOfSelected(selected[1..], sample, d);
      var j :| 0 <= j < |selected[1..]| && selected[1..][j].sample == sample && selected[1..][j].date == d;
      assert selected[j + 1] == selected[1..][j];
    }
  }

  /** Every column of an assembled matrix carries the date of a selected sample. */
  lemma AssembledDatesSelected(files: seq<CoverageFile>, selected: seq<SampleSelection.SampleDate>, labels: seq<string>,
                               layout: CoverageLookup.Layout, qs: seq<CoverageLookup.Request>)
    requires Assemble(files, selected, labels, layout, qs).Ok?
    ensures var m := Assemble(files, selected, labels, layout, qs).value;
            forall k :: 0 <= k < |m.dates| ==> exists j :: 0 <= j < |selected| && selected[j].date == m.dates[k]
  {
    var m := Assemble(files, selected, labels, layout, qs).value;
    AssembleContents(files, selected, labels, layout, qs);
    forall k | 0 <= k < |m.dates| ensures exists j :: 0 <= j < |selected| && selected[j].date == m.dates[k] {
      var d := m.dates[k];
      assert d in m.dates;
      var i :| 0 <= i < |files| && Contributes(files[i], selected, d);
      var sample := AmpliconCoverage.PathLabel(files[i].path).value;
      assert d in DatesOf(selected, sample);
      DatesOfSelected(selected, sample, d);
    }
  }

  /** The total-depth matrix has the labels as rows and, as columns, dates in
      ascending order, each strictly between 2024-01-01 and 2024-07-03. */
  lemma TotalDepthDatesInWindow(files: seq<CoverageFile>, timeline: seq<SampleSelection.TimelineRow>, labels: seq<string>)
    requires TotalDepthMatrix(files, timeline, labels).Ok?
    ensures var m := TotalDepthMatrix(files, timeline, labels).value;
            m.index == labels && Ordering.StrictlyIncreasing(m.dates)
            && forall k :: 0 <= k < |m.dates| ==> SampleSelection.DefaultStart < m.dates[k] < SampleSelection.DefaultEnd
  {
    var selected := SampleSelection.ZurichSampleIds(timeline);
    var pos := MutationLabels.ExtractMutationPosition(labels).value;
    var layout, qs := CoverageLookup.TotalLayout, CoverageLookup.TotalRequests(pos);
    AssembleContents(files, selected, labels, layout, qs);
    AssembledDatesSelected(files, selected, labels, layout, qs);
  }
}
