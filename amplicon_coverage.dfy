/** Per-amplicon coverage of a batch of samples: the coverage-file path of each
    sample, the median depth over the two edge bands of each amplicon's query
    window, and the batch table with its row-normalised companion. */
module AmpliconCoverage {
  import opened Results
  import opened Text
  import Statistics
  import Ordering
  import opened Amplicons

  // ---------------------------------------------------------------- sample paths

  const AlignmentsDir: string := "alignments"
  const CoverageFile: string := "coverage.tsv.gz"

  /** The tab-separated fields of one line of the samples list. */
  function Fields(line: string): (r: seq<string>)
    ensures |r| >= 1
  {
    Split(RStrip(line, '\n'), '\t')
  }

  /** Where the coverage file of sample `sample`, batch `batch` lives below `base`. */
  function SamplePath(base: string, sample: string, batch: string): string {
    base + "/" + sample + "/" + batch + "/" + AlignmentsDir + "/" + CoverageFile
  }

  /** `get_samples_paths`: one path per line, in line order, built from the
      line's first two fields; a line with fewer than two fields makes `tmp[1]`
      raise `IndexError`. */
  method GetSamplesPaths(base: string, lines: seq<string>) returns (r: Result<seq<string>>)
    ensures r.Ok? <==> forall k :: 0 <= k < |lines| ==> |Fields(lines[k])| >= 2
    ensures r.Err? ==> r.error == IndexError
    ensures r.Ok? ==> |r.value| == |lines|
                      && forall k :: 0 <= k < |lines| ==>
                           r.value[k] == SamplePath(base, Fields(lines[k])[0], Fields(lines[k])[1])
  {
    var paths: seq<string> := [];
    for i := 0 to |lines|
      invariant |paths| == i
      invariant forall k :: 0 <= k < i ==> |Fields(lines[k])| >= 2
      invariant forall k :: 0 <= k < i ==> paths[k] == SamplePath(base, Fields(lines[k])[0], Fields(lines[k])[1])
    {
      var tmp := Fields(lines[i]);
      if |tmp| < 2 {
        return Err(IndexError);
      }
      paths := paths + [SamplePath(base, tmp[0], tmp[1])];
    }
    r := Ok(paths);
  }

  /** The row label `main` gives a coverage file: `sam.split("/")[-4]`. */
  function PathLabel(path: string): Option<string> {
    FromEnd(Split(path, '/'), 4)
  }

  /** The label of a sample's coverage path is its sample name, whatever the
      base directory, as long as sample and batch contain no "/". */
  lemma PathLabelRoundTrip(base: string, sample: string, batch: string)
    requires '/' !in sample && '/' !in batch
    ensures PathLabel(SamplePath(base, sample, batch)) == Some(sample)
  {
    var rest := SampleDirs(sample, batch);
    assert SamplePath(base, sample, batch) == base + ['/'] + rest;
    SampleDirsSplit(sample, batch);
    SplitConcat(base, rest, '/');
    FromEndConcat(Split(base, '/'), [sample, batch, AlignmentsDir, CoverageFile], 4);
  }

  /** The part of a sample's coverage path after the base directory. */
  function SampleDirs(sample: string, batch: string): string {
    sample + ['/'] + (batch + ['/'] + (AlignmentsDir + ['/'] + CoverageFile))
  }

  /** The directories below the base split into sample, batch and the fixed names. */
  lemma SampleDirsSplit(sample: string, batch: string)
    requires '/' !in sample && '/' !in batch
    ensures Split(SampleDirs(sample, batch), '/') == [sample, batch, AlignmentsDir, CoverageFile]
  {
    var rest2 := AlignmentsDir + ['/'] + CoverageFile;
    var rest1 := batch + ['/'] + rest2;
    assert Split(rest2, '/') == [AlignmentsDir, CoverageFile] by {
      assert '/' !in CoverageFile;
      assert '/' !in AlignmentsDir;
      SplitFree(CoverageFile, '/');
      SplitFree(AlignmentsDir, '/');
      SplitConcat(AlignmentsDir, CoverageFile, '/');
    }
    assert Split(rest1, '/') == [batch, AlignmentsDir, CoverageFile] by {
      SplitFree(batch, '/');
      SplitConcat(batch, rest2, '/');
    }
    SplitFree(sample, '/');
    SplitConcat(sample, rest1, '/');
  }

  // ---------------------------------------------------------------- edge bands

  /** Rows read at each end of a query window. */
  const BandLength: int := 20

  /** `np.r_[a:b]`: the integers from `a` up to, but not including, `b`. */
  function Range(a: int, b: int): (r: seq<int>)
    ensures |r| == if a < b then b - a else 0
    ensures forall k :: 0 <= k < |r| ==> r[k] == a + k
  {
    seq(if a < b then b - a else 0, k requires 0 <= k => a + k)
  }

  /** The rows `get_amplicon_cov` reads, as written: `np.r_[start:length, (stop - length):stop]`. */
  function BandRows(start: int, stop: int): seq<int> {
    Range(start, BandLength) + Range(stop - BandLength, stop)
  }

  /** The position `iloc` reads for index `i` of a column of `n` values:
      negative indices count from the end. */
  function Wrap(i: int, n: nat): int {
    if i < 0 then n + i else i
  }

  /** `column.iloc[idx]`: one value per index, or `IndexError` when any index is
      outside `[-n, n)`. */
  function ILoc(xs: seq<real>, idx: seq<int>): (r: Result<seq<real>>)
    ensures r.Ok? <==> forall k :: 0 <= k < |idx| ==> -|xs| <= idx[k] < |xs|
    ensures r.Err? ==> r.error == IndexError
    ensures r.Ok? ==> |r.value| == |idx|
                      && forall k :: 0 <= k < |idx| ==> r.value[k] == xs[Wrap(idx[k], |xs|)]
  {
    if |idx| == 0 then Ok([])
    else if !(-|xs| <= idx[0] < |xs|) then Err(IndexError)
    else
      match ILoc(xs, idx[1..])
      case Err(e) => Err(e)
      case Ok(rest) =>
        assert forall k :: 1 <= k < |idx| ==> idx[1..][k - 1] == idx[k];
        Ok([xs[Wrap(idx[0], |xs|)]] + rest)
  }

  /** Which rows `get_amplicon_cov` reads: the bands as written, or the bands
      evidently intended (see `IntendedBandRows`). */
  datatype Bands = AsWritten | Intended

  function ChosenRows(bands: Bands, start: int, stop: int): (r: seq<int>)
    ensures |r| >= BandLength
  {
    if bands.AsWritten? then BandRows(start, stop) else IntendedBandRows(start, stop)
  }

  /** `get_amplicon_cov`: the median depth (column 2 of the coverage file,
      given here as `depths`) over the band rows. */
  function GetAmpliconCov(depths: seq<real>, start: int, stop: int, bands: Bands): (r: Result<real>)
    ensures r.Ok? <==> forall k :: 0 <= k < |ChosenRows(bands, start, stop)| ==>
                          -|depths| <= ChosenRows(bands, start, stop)[k] < |depths|
    ensures r.Err? ==> r.error == IndexError
  {
    match ILoc(depths, ChosenRows(bands, start, stop))
    case Err(e) => Err(e)
    case Ok(vs) => Ok(Statistics.Median(vs).value)
  }

  /** The median lies within any bounds that hold for every depth of the file. */
  lemma AmpliconCovWithinBounds(depths: seq<real>, start: int, stop: int, bands: Bands, lo: real, hi: real)
    requires GetAmpliconCov(depths, start, stop, bands).Ok?
    requires forall k :: 0 <= k < |depths| ==> lo <= depths[k] <= hi
    ensures lo <= GetAmpliconCov(depths, start, stop, bands).value <= hi
  {
    var idx := ChosenRows(bands, start, stop);
    var vs := ILoc(depths, idx).value;
    forall k | 0 <= k < |vs| ensures lo <= vs[k] <= hi {
      assert vs[k] == depths[Wrap(idx[k], |depths|)];
    }
    Statistics.MedianWithinBounds(vs, lo, hi);
  }

  /** As written, the first band is empty once `start` reaches the band length:
      only the last `BandLength` rows before `stop` are read. For the window
      100..500, the rows read are 480..499, and row 100 is not among them. */
  lemma FirstBandEmpty(start: int, stop: int)
    requires start >= BandLength
    ensures BandRows(start, stop) == Range(stop - BandLength, stop)
    ensures forall k :: 0 <= k < |BandRows(start, stop)| ==> stop - BandLength <= BandRows(start, stop)[k] < stop
  {
  }

  /** The concrete window that shows the first band missing. */
  lemma FirstBandEmptyExample()
    ensures BandRows(100, 500) == Range(480, 500)
    ensures 100 !in BandRows(100, 500)
  {
    FirstBandEmpty(100, 500);
    assert forall k :: 0 <= k < |Range(480, 500)| ==> Range(480, 500)[k] >= 480;
  }

  /** The evidently intended bands: `BandLength` rows from `start` and
      `BandLength` rows up to `stop`. */
  function IntendedBandRows(start: int, stop: int): seq<int> {
    Range(start, start + BandLength) + Range(stop - BandLength, stop)
  }

  /** The intended bands read the first and the last `BandLength` rows of the
      window, all inside it, so a window at least two bands long gives one
      value per band row, none shared. */
  lemma IntendedBandRowsCoverEdges(start: int, stop: int)
    requires stop - start >= 2 * BandLength
    ensures |IntendedBandRows(start, stop)| == 2 * BandLength
    ensures forall k :: 0 <= k < |IntendedBandRows(start, stop)| ==> start <= IntendedBandRows(start, stop)[k] < stop
    ensures forall i :: start <= i < start + BandLength ==> i in IntendedBandRows(start, stop)
    ensures forall i :: stop - BandLength <= i < stop ==> i in IntendedBandRows(start, stop)
    ensures Ordering.StrictlyIncreasing(IntendedBandRows(start, stop))
  {
    var r := IntendedBandRows(start, stop);
    var a, b := Range(start, start + BandLength), Range(stop - BandLength, stop);
    forall i | start <= i < start + BandLength ensures i in r {
      assert a[i - start] == i;
      assert r[i - start] == i;
    }
    forall i | stop - BandLength <= i < stop ensures i in r {
      assert b[i - (stop - BandLength)] == i;
      assert r[BandLength + i - (stop - BandLength)] == i;
    }
  }

  /** With the intended bands, a window at least two bands long that lies inside
      the coverage file is always readable. */
  lemma IntendedCovReadable(depths: seq<real>, start: int, stop: int)
    requires 0 <= start && stop <= |depths| && stop - start >= 2 * BandLength
    ensures GetAmpliconCov(depths, start, stop, Intended).Ok?
  {
    IntendedBandRowsCoverEdges(start, stop);
  }

  /** `get_count_reads`: `apply` of `get_amplicon_cov` over the amplicon
      windows, giving one coverage per window in window order; the first window
      whose bands leave the file raises. */
  function GetCountReads(depths: seq<real>, ws: seq<AmpliconWindow>, bands: Bands): (r: Result<seq<real>>)
    ensures r.Ok? <==> forall k :: 0 <= k < |ws| ==> GetAmpliconCov(depths, ws[k].queryStart, ws[k].queryEnd, bands).Ok?
    ensures r.Ok? ==> |r.value| == |ws|
                      && forall k :: 0 <= k < |ws| ==>
                           r.value[k] == GetAmpliconCov(depths, ws[k].queryStart, ws[k].queryEnd, bands).value
  {
    MapAll((w: AmpliconWindow) => GetAmpliconCov(depths, w.queryStart, w.queryEnd, bands), ws)
  }

  // ---------------------------------------------------------------- the batch

  /** The two output tables of `main`: a label per row, the raw coverages, and
      each row divided by its own sum. */
  datatype CoverageTables = CoverageTables(samples: seq<string>, raw: seq<seq<real>>,
                                           normalised: seq<seq<Option<real>>>)

  /** The rows and labels gathered by the loop over coverage files. */
  datatype Gathered = Gathered(labels: seq<string>, rows: seq<seq<real>>)

  /** One row divided by its sum (`all_covs.div(all_covs.sum(axis=1), axis=0)`);
      a zero sum leaves every cell missing. */
  function Normalise(row: seq<real>): (r: seq<Option<real>>)
    ensures |r| == |row|
    ensures Statistics.Sum(row) == 0.0 ==> forall k :: 0 <= k < |r| ==> r[k].None?
    ensures Statistics.Sum(row) != 0.0 ==> forall k :: 0 <= k < |r| ==> r[k] == Some(row[k] / Statistics.Sum(row))
  {
    var s := Statistics.Sum(row);
    seq(|row|, k requires 0 <= k < |row| => if s == 0.0 then None else Some(row[k] / s))
  }

  /** The values of a row with no missing cell. */
  function PresentValues(r: seq<Option<real>>): seq<real>
    requires forall k :: 0 <= k < |r| ==> r[k].Some?
  {
    seq(|r|, k requires 0 <= k < |r| => r[k].value)
  }

  /** Dividing every value by `d` divides the sum by `d`. */
  lemma {:induction false} SumScaled(row: seq<real>, d: real)
    requires d != 0.0
    ensures Statistics.Sum(seq(|row|, k requires 0 <= k < |row| => row[k] / d)) == Statistics.Sum(row) / d
  {
    var scaled := seq(|row|, k requires 0 <= k < |row| => row[k] / d);
    if |row| > 0 {
      var tail := row[1..];
      SumScaled(tail, d);
      assert scaled[1..] == seq(|tail|, k requires 0 <= k < |tail| => tail[k] / d);
      DivAdd(row[0], Statistics.Sum(tail), d);
    }
  }

  lemma DivAdd(a: real, b: real, d: real)
    requires d != 0.0
    ensures a / d + b / d == (a + b) / d
  {
  }

  /** A normalised row with a non-zero sum sums to one. */
  lemma NormalisedSumsToOne(row: seq<real>)
    requires Statistics.Sum(row) != 0.0
    ensures forall k :: 0 <= k < |Normalise(row)| ==> Normalise(row)[k].Some?
    ensures Statistics.Sum(PresentValues(Normalise(row))) == 1.0
  {
    var s := Statistics.Sum(row);
    SumScaled(row, s);
    var scaled := seq(|row|, k requires 0 <= k < |row| => row[k] / s);
    assert forall k :: 0 <= k < |row| ==> PresentValues(Normalise(row))[k] == scaled[k];
    assert PresentValues(Normalise(row)) == scaled;
    assert s / s == 1.0;
  }

  /** One pass of the loop of `main`: a missing file is skipped (`None`); for a
      file that is read, its coverages are computed and then its label taken,
      and an error in either escapes. */
  function Visit(path: string, files: map<string, seq<real>>, ws: seq<AmpliconWindow>, bands: Bands): Result<Option<(string, seq<real>)>> {
    if path !in files then Ok(None)
    else
      match GetCountReads(files[path], ws, bands)
      case Err(e) => Err(e)
      case Ok(row) =>
        match PathLabel(path)
        case None => Err(IndexError)
        case Some(name) => Ok(Some((name, row)))
  }

  /** One visited file in front of what the rest of the loop gathers; the label
      and the row are appended together. */
  function Prepend(v: Result<Option<(string, seq<real>)>>, rest: Result<Gathered>): Result<Gathered> {
    match v
    case Err(e) => Err(e)
    case Ok(None) => rest
    case Ok(Some(entry)) =>
      match rest
      case Err(e) => Err(e)
      case Ok(g) => Ok(Gathered([entry.0] + g.labels, [entry.1] + g.rows))
  }

  /** The loop of `main` over the coverage paths, stopping at the first error. */
  function Gather(paths: seq<string>, files: map<string, seq<real>>, ws: seq<AmpliconWindow>, bands: Bands): (r: Result<Gathered>)
    ensures r.Ok? ==> |r.value.labels| == |r.value.rows|
  {
    if |paths| == 0 then Ok(Gathered([], []))
    else Prepend(Visit(paths[0], files, ws, bands), Gather(paths[1..], files, ws, bands))
  }

  /** What has been gathered so far, followed by what the rest of the loop gathers. */
  function Then(acc: Gathered, rest: Result<Gathered>): Result<Gathered> {
    match rest
    case Err(e) => Err(e)
    case Ok(g) => Ok(Gathered(acc.labels + g.labels, acc.rows + g.rows))
  }

  /** Nothing gathered yet leaves the rest unchanged. */
  lemma ThenNothing(rest: Result<Gathered>)
    ensures Then(Gathered([], []), rest) == rest
  {
    if rest.Ok? {
      assert [] + rest.value.labels == rest.value.labels;
      assert [] + rest.value.rows == rest.value.rows;
    }
  }

  /** Moving one visited file from the rest of the loop into what is gathered. */
  lemma ThenPrepend(acc: Gathered, v: Result<Option<(string, seq<real>)>>, rest: Result<Gathered>)
    requires v.Ok?
    ensures v.value.None? ==> Then(acc, Prepend(v, rest)) == Then(acc, rest)
    ensures v.value.Some? ==>
              Then(acc, Prepend(v, rest))
              == Then(Gathered(acc.labels + [v.value.value.0], acc.rows + [v.value.value.1]), rest)
  {
    if v.value.Some? && rest.Ok? {
      var e, g := v.value.value, rest.value;
      assert acc.labels + ([e.0] + g.labels) == acc.labels + [e.0] + g.labels;
      assert acc.rows + ([e.1] + g.rows) == acc.rows + [e.1] + g.rows;
    }
  }

  /** The two tables `main` writes, or the error that stops it. With no coverage
      file read, `pd.concat([])` raises. */
  function CoverageBatch(paths: seq<string>, files: map<string, seq<real>>, ws: seq<AmpliconWindow>, bands: Bands): Result<CoverageTables> {
    match Gather(paths, files, ws, bands)
    case Err(e) => Err(e)
    case Ok(g) =>
      if |g.rows| == 0 then Err(NoObjectsToConcatenate)
      else Ok(CoverageTables(g.labels, g.rows, seq(|g.rows|, k requires 0 <= k < |g.rows| => Normalise(g.rows[k]))))
  }

  /** The read/skip/normalise loop of `main` (lines 296-324), on decompressed
      files given as a map from path to depth column. */
  method RunBatch(paths: seq<string>, files: map<string, seq<real>>, ws: seq<AmpliconWindow>, bands: Bands)
    returns (r: Result<CoverageTables>)
    ensures r == CoverageBatch(paths, files, ws, bands)
  {
    var labels: seq<string> := [];
    var rows: seq<seq<real>> := [];
    assert paths[0..] == paths;
    ThenNothing(Gather(paths, files, ws, bands));
    for i := 0 to |paths|
      invariant Gather(paths, files, ws, bands) == Then(Gathered(labels, rows), Gather(paths[i..], files, ws, bands))
    {
      assert paths[i..][1..] == paths[i + 1..];
      var sam := paths[i];
      var rest := Gather(paths[i + 1..], files, ws, bands);
      assert Gather(paths[i..], files, ws, bands) == Prepend(Visit(sam, files, ws, bands), rest);
      if sam in files {
        var cov := GetCountReads(files[sam], ws, bands);
        if cov.Err? {
          assert Visit(sam, files, ws, bands) == Err(cov.error);
          assert Gather(paths, files, ws, bands) == Err(cov.error);
          return Err(cov.error);
        }
        var name := PathLabel(sam);
        if name.None? {
          assert Visit(sam, files, ws, bands) == Err(IndexError);
          assert Gather(paths, files, ws, bands) == Err(IndexError);
          return Err(IndexError);
        }
        ThenPrepend(Gathered(labels, rows), Visit(sam, files, ws, bands), rest);
        labels := labels + [name.value];
        rows := rows + [cov.value];
      } else {
        ThenPrepend(Gathered(labels, rows), Visit(sam, files, ws, bands), rest);
      }
    }
    assert paths[|paths|..] == [];
    assert labels + [] == labels && rows + [] == rows;
    assert Gather(paths, files, ws, bands) == Ok(Gathered(labels, rows));
    if |rows| == 0 {
      return Err(NoObjectsToConcatenate);
    }
    var normalised := seq(|rows|, k requires 0 <= k < |rows| => Normalise(rows[k]));
    var expected := CoverageBatch(paths, files, ws, bands).value;
    assert forall k :: 0 <= k < |rows| ==> normalised[k] == expected.normalised[k];
    assert normalised == expected.normalised;
    r := Ok(CoverageTables(labels, rows, normalised));
  }

  /** The coverage files that exist. */
  function Present(files: map<string, seq<real>>): string -> bool {
    (p: string) => p in files
  }

  /** The batch keeps exactly the coverage files that exist, in path order:
      row `k` holds the coverages of the `k`-th existing file and carries that
      file's label. */
  lemma {:induction false} GatherKeepsPresentFiles(paths: seq<string>, files: map<string, seq<real>>, ws: seq<AmpliconWindow>, bands: Bands)
    requires Gather(paths, files, ws, bands).Ok?
    ensures var g := Gather(paths, files, ws, bands).value;
            var kept := Ordering.Filter(paths, Present(files));
            |g.rows| == |kept|
            && forall k :: 0 <= k < |kept| ==> Visit(kept[k], files, ws, bands) == Ok(Some((g.labels[k], g.rows[k])))
  {
    if |paths| > 0 {
      GatherKeepsPresentFiles(paths[1..], files, ws, bands);
      if paths[0] in files {
        GatherKeepsHead(paths, files, ws, bands);
      } else {
        assert Ordering.Filter(paths, Present(files)) == Ordering.Filter(paths[1..], Present(files));
        assert Gather(paths, files, ws, bands) == Gather(paths[1..], files, ws, bands);
      }
    }
  }

  /** The step of `GatherKeepsPresentFiles` for an existing first file: it comes
      first among the kept files and gives the first row. */
  lemma GatherKeepsHead(paths: seq<string>, files: map<string, seq<real>>, ws: seq<AmpliconWindow>, bands: Bands)
    requires |paths| > 0 && paths[0] in files && Gather(paths, files, ws, bands).Ok?
    requires Gather(paths[1..], files, ws, bands).Ok?
    requires var g := Gather(paths[1..], files, ws, bands).value;
             var kept := Ordering.Filter(paths[1..], Present(files));
             |g.rows| == |kept|
             && forall k :: 0 <= k < |kept| ==> Visit(kept[k], files, ws, bands) == Ok(Some((g.labels[k], g.rows[k])))
    ensures var g := Gather(paths, files, ws, bands).value;
            var kept := Ordering.Filter(paths, Present(files));
            |g.rows| == |kept|
            && forall k :: 0 <= k < |kept| ==> Visit(kept[k], files, ws, bands) == Ok(Some((g.labels[k], g.rows[k])))
  {
    var kept := Ordering.Filter(paths, Present(files));
    var rest := Ordering.Filter(paths[1..], Present(files));
    var v := Visit(paths[0], files, ws, bands);
    var g1 := Gather(paths[1..], files, ws, bands).value;
    var g := Gather(paths, files, ws, bands).value;
    assert kept == [paths[0]] + rest;
    GatherHead(paths, files, ws, bands);
    forall k | 0 <= k < |kept| ensures Visit(kept[k], files, ws, bands) == Ok(Some((g.labels[k], g.rows[k]))) {
      if k > 0 {
        assert kept[k] == rest[k - 1] && g.labels[k] == g1.labels[k - 1] && g.rows[k] == g1.rows[k - 1];
      }
    }
  }

  /** An existing first file gives the first label and the first row. */
  lemma GatherHead(paths: seq<string>, files: map<string, seq<real>>, ws: seq<AmpliconWindow>, bands: Bands)
    requires |paths| > 0 && paths[0] in files && Gather(paths, files, ws, bands).Ok?
    ensures Gather(paths[1..], files, ws, bands).Ok?
    ensures var v := Visit(paths[0], files, ws, bands);
            var g1 := Gather(paths[1..], files, ws, bands).value;
            v.Ok? && v.value.Some?
            && Gather(paths, files, ws, bands).value == Gathered([v.value.value.0] + g1.labels, [v.value.value.1] + g1.rows)
  {
  }

  /** What a kept file contributes: its coverages under its path's label. */
  lemma VisitPresent(path: string, files: map<string, seq<real>>, ws: seq<AmpliconWindow>, bands: Bands, name: string, row: seq<real>)
    requires Visit(path, files, ws, bands) == Ok(Some((name, row)))
    ensures path in files
    ensures GetCountReads(files[path], ws, bands) == Ok(row)
    ensures PathLabel(path) == Some(name)
  {
  }

  /** Every table `main` writes has one label per row, and every normalised row
      with a non-zero raw sum sums to one. */
  lemma CoverageBatchAligned(paths: seq<string>, files: map<string, seq<real>>, ws: seq<AmpliconWindow>, bands: Bands, k: nat)
    requires CoverageBatch(paths, files, ws, bands).Ok?
    requires k < |CoverageBatch(paths, files, ws, bands).value.raw|
    requires Statistics.Sum(CoverageBatch(paths, files, ws, bands).value.raw[k]) != 0.0
    ensures var t := CoverageBatch(paths, files, ws, bands).value;
            |t.samples| == |t.raw| == |t.normalised|
            && (forall j :: 0 <= j < |t.normalised[k]| ==> t.normalised[k][j].Some?)
            && Statistics.Sum(PresentValues(t.normalised[k])) == 1.0
  {
    var t := CoverageBatch(paths, files, ws, bands).value;
    NormalisedSumsToOne(t.raw[k]);
  }
}
