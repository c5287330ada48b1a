/** Mutation frequencies and their recent statistics: total depths below 20
    reads are struck out in place, every base count is divided by its total
    depth, and for trailing windows of 2, 6, 12 and 24 weeks before the most
    recent date each mutation gets its median, interquartile range and
    quartiles, written as a long table of 16 rows per mutation. Rows are
    mutations, columns are dates (day numbers), and `None` is a missing value. */
module FrequencyStats {
  import opened Results
  import Statistics

  /** Depths below this are too shallow to estimate a frequency. */
  const MinDepth: real := 20.0

  // ---------------------------------------------------------------- masking

  /** `totalcnt[totalcnt < 20] = None` for one cell. */
  function Masked(v: Option<real>): (r: Option<real>)
    ensures r.Some? <==> v.Some? && v.value >= MinDepth
    ensures r.Some? ==> r == v
  {
    if v.Some? && v.value < MinDepth then None else v
  }

  /** Masking twice is masking once. */
  lemma MaskedIdempotent(v: Option<real>)
    ensures Masked(Masked(v)) == Masked(v)
  {
  }

  /** `totalcnt[totalcnt < 20] = None`, in place: every cell below 20 becomes
      missing, and every other cell is left as it was. */
  method MaskLowDepth(t: array2<Option<real>>)
    modifies t
    ensures forall i, j :: 0 <= i < t.Length0 && 0 <= j < t.Length1 ==> t[i, j] == Masked(old(t[i, j]))
  {
    for i := 0 to t.Length0
      invariant forall a, b :: 0 <= a < i && 0 <= b < t.Length1 ==> t[a, b] == Masked(old(t[a, b]))
      invariant forall a, b :: i <= a < t.Length0 && 0 <= b < t.Length1 ==> t[a, b] == old(t[a, b])
    {
      for j := 0 to t.Length1
        invariant forall a, b :: 0 <= a < i && 0 <= b < t.Length1 ==> t[a, b] == Masked(old(t[a, b]))
        invariant forall b :: 0 <= b < j ==> t[i, b] == Masked(old(t[i, b]))
        invariant forall a, b :: i <= a < t.Length0 && 0 <= b < t.Length1 && (a > i || b >= j) ==> t[a, b] == old(t[a, b])
      {
        if t[i, j].Some? && t[i, j].value < MinDepth {
          t[i, j] := None;
        }
      }
    }
  }

  // ---------------------------------------------------------------- frequencies

  /** `basecnt / totalcnt` for one cell: missing where either count is missing. */
  function Ratio(b: Option<real>, t: Option<real>): (r: Option<real>)
    ensures r.Some? <==> b.Some? && t.Some? && t.value != 0.0
    ensures r.Some? ==> r.value * t.value == b.value
  {
    if b.Some? && t.Some? && t.value != 0.0 then Some(b.value / t.value) else None
  }

  /** A frequency survives only where the total depth was at least 20, and then
      it is the base count divided by that depth. */
  lemma SurvivingDenominator(b: Option<real>, t: Option<real>)
    ensures Ratio(b, Masked(t)).Some? <==> b.Some? && t.Some? && t.value >= MinDepth
    ensures Ratio(b, Masked(t)).Some? ==> Ratio(b, Masked(t)).value == b.value / t.value
  {
  }

  /** The frequency data matrix: the total depths masked in place, then each
      base count divided by its masked depth, in a new matrix of the same shape. */
  method FrequencyDataMatrix(basecnt: array2<Option<real>>, totalcnt: array2<Option<real>>)
    returns (f: array2<Option<real>>)
    requires basecnt != totalcnt
    requires basecnt.Length0 == totalcnt.Length0 && basecnt.Length1 == totalcnt.Length1
    modifies totalcnt
    ensures fresh(f) && f.Length0 == basecnt.Length0 && f.Length1 == basecnt.Length1
    ensures forall i, j :: 0 <= i < totalcnt.Length0 && 0 <= j < totalcnt.Length1 ==>
              totalcnt[i, j] == Masked(old(totalcnt[i, j]))
    ensures forall i, j :: 0 <= i < f.Length0 && 0 <= j < f.Length1 ==>
              f[i, j] == Ratio(basecnt[i, j], Masked(old(totalcnt[i, j])))
  {
    MaskLowDepth(totalcnt);
    f := new Option<real>[basecnt.Length0, basecnt.Length1];
    for i := 0 to f.Length0
      modifies f
      invariant forall a, b :: 0 <= a < i && 0 <= b < f.Length1 ==> f[a, b] == Ratio(basecnt[a, b], totalcnt[a, b])
    {
      for j := 0 to f.Length1
        modifies f
        invariant forall a, b :: 0 <= a < i && 0 <= b < f.Length1 ==> f[a, b] == Ratio(basecnt[a, b], totalcnt[a, b])
        invariant forall b :: 0 <= b < j ==> f[i, b] == Ratio(basecnt[i, b], totalcnt[i, b])
      {
        f[i, j] := Ratio(basecnt[i, j], totalcnt[i, j]);
      }
    }
  }

  // ---------------------------------------------------------------- trailing windows

  const WindowWeeks: seq<nat> := [2, 6, 12, 24]
  const WindowNames: seq<string> := ["2weeks", "6weeks", "12weeks", "24weeks"]
  const StatisticNames: seq<string> := ["Median", "IQR", "Q1", "Q3"]

  /** `columns.max()`: the most recent date. */
  function MaxDate(dates: seq<int>): (m: int)
    requires |dates| > 0
    ensures m in dates
    ensures forall j :: 0 <= j < |dates| ==> dates[j] <= m
  {
    if |dates| == 1 then dates[0]
    else
      var rest := MaxDate(dates[1..]);
      assert forall j :: 1 <= j < |dates| ==> dates[j] == dates[1..][j - 1];
      if dates[0] >= rest then dates[0] else rest
  }

  /** The first day of the window of `weeks` weeks: `most_recent - timedelta(weeks=weeks)`. */
  function Cutoff(dates: seq<int>, weeks: nat): int
    requires |dates| > 0
  {
    MaxDate(dates) - 7 * weeks
  }

  /** `columns >= cutoff`: column `j` lies in the window, bound included. */
  predicate InWindow(dates: seq<int>, weeks: nat, j: nat)
    requires j < |dates|
  {
    dates[j] >= Cutoff(dates, weeks)
  }

  /** The present values of a row in the columns dated `cutoff` or later, in
      column order: what `median` and `quantile` see, missing values skipped. */
  function ValuesSince(row: seq<Option<real>>, dates: seq<int>, cutoff: int): (vs: seq<real>)
    requires |row| == |dates|
    ensures |vs| <= |row|
  {
    if |row| == 0 then []
    else
      var rest := ValuesSince(row[1..], dates[1..], cutoff);
      if row[0].Some? && dates[0] >= cutoff then [row[0].value] + rest else rest
  }

  /** The values of one row inside the window of `weeks` weeks. */
  function WindowValues(row: seq<Option<real>>, dates: seq<int>, weeks: nat): seq<real>
    requires |row| == |dates|
  {
    if |dates| == 0 then [] else ValuesSince(row, dates, Cutoff(dates, weeks))
  }

  /** Every value present in a column dated `cutoff` or later is in the window. */
  lemma {:induction false} ValuesSinceMembers(row: seq<Option<real>>, dates: seq<int>, cutoff: int, j: nat)
    requires |row| == |dates| && j < |row| && row[j].Some? && dates[j] >= cutoff
    ensures row[j].value in ValuesSince(row, dates, cutoff)
  {
    if j > 0 {
      ValuesSinceMembers(row[1..], dates[1..], cutoff, j - 1);
    }
  }

  /** The window holds nothing else: each of its values is present in some
      column dated `cutoff` or later. */
  lemma {:induction false} ValuesSinceSound(row: seq<Option<real>>, dates: seq<int>, cutoff: int, v: real)
    requires |row| == |dates| && v in ValuesSince(row, dates, cutoff)
    ensures exists j :: 0 <= j < |row| && row[j] == Some(v) && dates[j] >= cutoff
  {
    if row[0].Some? && dates[0] >= cutoff && v == row[0].value {
      assert row[0] == Some(v);
    } else {
      ValuesSinceSound(row[1..], dates[1..], cutoff, v);
      var j :| 0 <= j < |row[1..]| && row[1..][j] == Some(v) && dates[1..][j] >= cutoff;
      assert row[j + 1] == Some(v) && dates[j + 1] >= cutoff;
    }
  }

  /** An earlier cutoff keeps every value a later one keeps, and possibly more. */
  lemma {:induction false} ValuesSinceNested(row: seq<Option<real>>, dates: seq<int>, late: int, early: int)
    requires |row| == |dates| && early <= late
    ensures multiset(ValuesSince(row, dates, late)) <= multiset(ValuesSince(row, dates, early))
  {
    if |row| > 0 {
      ValuesSinceNested(row[1..], dates[1..], late, early);
    }
  }

  /** The most recent column lies in every window. */
  lemma MostRecentInEveryWindow(dates: seq<int>, weeks: nat, j: nat)
    requires j < |dates| && dates[j] == MaxDate(dates)
    ensures InWindow(dates, weeks, j)
  {
  }

  /** The windows are nested: a longer window keeps every column a shorter one
      keeps, and every value too; in particular 2 within 6 within 12 within 24 weeks. */
  lemma WindowsNested(row: seq<Option<real>>, dates: seq<int>, short: nat, long: nat)
    requires |row| == |dates| && short <= long
    ensures forall j :: 0 <= j < |dates| && InWindow(dates, short, j) ==> InWindow(dates, long, j)
    ensures multiset(WindowValues(row, dates, short)) <= multiset(WindowValues(row, dates, long))
  {
    if |dates| > 0 {
      ValuesSinceNested(row, dates, Cutoff(dates, short), Cutoff(dates, long));
    }
  }

  /** A mutation with a value on the most recent date has values in every window,
      so none of its statistics is missing. */
  lemma RecentValueFillsWindows(row: seq<Option<real>>, dates: seq<int>, weeks: nat, j: nat)
    requires |row| == |dates| && j < |dates| && dates[j] == MaxDate(dates) && row[j].Some?
    ensures |WindowValues(row, dates, weeks)| > 0
    ensures Summarise(WindowValues(row, dates, weeks)).median.Some?
  {
    ValuesSinceMembers(row, dates, Cutoff(dates, weeks), j);
  }

  // ---------------------------------------------------------------- statistics

  /** The four statistics of one row in one window: `median`, `q3 - q1`,
      `quantile(0.25)` and `quantile(0.75)`; all missing for an empty window. */
  datatype Summary = Summary(median: Option<real>, iqr: Option<real>, q1: Option<real>, q3: Option<real>)

  function Summarise(vs: seq<real>): (s: Summary)
    ensures s.median.None? <==> |vs| == 0
    ensures s.iqr.None? <==> |vs| == 0
    ensures |vs| > 0 ==> s.q1.Some? && s.q3.Some? && s.iqr.value == s.q3.value - s.q1.value
    ensures |vs| > 0 ==> s.q1.value <= s.median.value <= s.q3.value && s.iqr.value >= 0.0
  {
    if |vs| == 0 then Summary(None, None, None, None)
    else
      var q1 := Statistics.Quantile(vs, 1);
      var q3 := Statistics.Quantile(vs, 3);
      Statistics.QuartilesOrdered(vs);
      Summary(Statistics.Median(vs), Some(q3.value - q1.value), q1, q3)
  }

  /** Statistic `k` (in the order Median, IQR, Q1, Q3) of a summary. */
  function StatisticOf(s: Summary, k: nat): Option<real>
    requires k < 4
  {
    if k == 0 then s.median else if k == 1 then s.iqr else if k == 2 then s.q1 else s.q3
  }

  /** Statistic `k` of a row over window `w` (in the order 2, 6, 12, 24 weeks). */
  function RowStatistic(row: seq<Option<real>>, dates: seq<int>, w: nat, k: nat): Option<real>
    requires |row| == |dates| && w < 4 && k < 4
  {
    StatisticOf(Summarise(WindowValues(row, dates, WindowWeeks[w])), k)
  }

  // ---------------------------------------------------------------- the long table

  /** One row of the output: columns mutation, time, statistic and value. */
  datatype StatRow = StatRow(mutation: string, time: string, statistic: string, value: Option<real>)

  /** Row `i` of a matrix. */
  function Row(f: array2<Option<real>>, i: nat): (r: seq<Option<real>>)
    requires i < f.Length0
    reads f
    ensures |r| == f.Length1 && forall j :: 0 <= j < f.Length1 ==> r[j] == f[i, j]
  {
    seq(f.Length1, j requires 0 <= j < f.Length1 reads f => f[i, j])
  }

  /** `results_2weeks` to `results_24weeks`: for every window in turn, the
      summary of every mutation's row, in row order. */
  function WindowResults(f: array2<Option<real>>, dates: seq<int>): (results: seq<seq<Summary>>)
    requires f.Length1 == |dates|
    reads f
    ensures |results| == 4 && forall w :: 0 <= w < 4 ==> |results[w]| == f.Length0
  {
    seq(4, w requires 0 <= w < 4 reads f =>
      seq(f.Length0, i requires 0 <= i < f.Length0 reads f =>
        Summarise(WindowValues(Row(f, i), dates, WindowWeeks[w]))))
  }

  /** Output row `k` of window `w` of mutation `i`: its `dict_mut` key, the
      window's name, the statistic's name and its value. */
  function Entry(labels: seq<string>, results: seq<seq<Summary>>, i: nat, w: nat, k: nat): StatRow
    requires |results| == 4 && w < 4 && k < 4 && i < |labels| && i < |results[w]|
  {
    StatRow("df_mut_" + labels[i], WindowNames[w], StatisticNames[k], StatisticOf(results[w][i], k))
  }

  /** The loop filling `dict_mut` and the concatenation after it: for every
      mutation in row order, 16 rows, which hold the windows of 2, 6, 12 and
      24 weeks in turn and, within each window, Median, IQR, Q1 and Q3. With no
      mutation `dict_mut` stays empty and `pd.concat` has nothing to concatenate. */
  method StatisticsTable(labels: seq<string>, results: seq<seq<Summary>>) returns (r: Result<seq<StatRow>>)
    requires |results| == 4 && forall w :: 0 <= w < 4 ==> |results[w]| == |labels|
    ensures r.Ok? <==> |labels| > 0
    ensures r.Err? ==> r.error == NoObjectsToConcatenate
    ensures r.Ok? ==> |r.value| == 16 * |labels|
    ensures r.Ok? ==> forall i, w, k :: 0 <= i < |labels| && 0 <= w < 4 && 0 <= k < 4 ==>
                        r.value[16 * i + 4 * w + k] == Entry(labels, results, i, w, k)
  {
    var table := [];
    for i := 0 to |labels|
      invariant |table| == 16 * i
      invariant forall a, w, k :: 0 <= a < i && 0 <= w < 4 && 0 <= k < 4 ==>
                  table[16 * a + 4 * w + k] == Entry(labels, results, a, w, k)
    {
      for w := 0 to 4
        invariant |table| == 16 * i + 4 * w
        invariant forall a, w', k :: 0 <= a < i && 0 <= w' < 4 && 0 <= k < 4 ==>
                    table[16 * a + 4 * w' + k] == Entry(labels, results, a, w', k)
        invariant forall w', k :: 0 <= w' < w && 0 <= k < 4 ==>
                    table[16 * i + 4 * w' + k] == Entry(labels, results, i, w', k)
      {
        for k := 0 to 4
          invariant |table| == 16 * i + 4 * w + k
          invariant forall a, w', k' :: 0 <= a < i && 0 <= w' < 4 && 0 <= k' < 4 ==>
                      table[16 * a + 4 * w' + k'] == Entry(labels, results, a, w', k')
          invariant forall w', k' :: 0 <= w' < w && 0 <= k' < 4 ==>
                      table[16 * i + 4 * w' + k'] == Entry(labels, results, i, w', k')
          invariant forall k' :: 0 <= k' < k ==> table[16 * i + 4 * w + k'] == Entry(labels, results, i, w, k')
        {
          table := table + [Entry(labels, results, i, w, k)];
        }
      }
    }
    if |table| == 0 {
      return Err(NoObjectsToConcatenate);
    }
    r := Ok(table);
  }

  /** Over a window with values, the IQR is the third quartile minus the first
      and is never negative, and the median lies between the quartiles. */
  lemma RowQuartiles(row: seq<Option<real>>, dates: seq<int>, w: nat)
    requires |row| == |dates| && w < 4
    requires RowStatistic(row, dates, w, 0).Some?
    ensures RowStatistic(row, dates, w, 1).Some? && RowStatistic(row, dates, w, 2).Some? && RowStatistic(row, dates, w, 3).Some?
    ensures RowStatistic(row, dates, w, 1).value == RowStatistic(row, dates, w, 3).value - RowStatistic(row, dates, w, 2).value
    ensures RowStatistic(row, dates, w, 1).value >= 0.0
    ensures RowStatistic(row, dates, w, 2).value <= RowStatistic(row, dates, w, 0).value <= RowStatistic(row, dates, w, 3).value
  {
  }

  /** In the long table built from the window results, wherever a window's
      median is present, the IQR row is the Q3 row minus the Q1 row, and the
      median row lies between them. */
  lemma TableQuartiles(labels: seq<string>, f: array2<Option<real>>, dates: seq<int>, i: nat, w: nat)
    requires f.Length0 == |labels| && f.Length1 == |dates| && i < |labels| && w < 4
    requires Entry(labels, WindowResults(f, dates), i, w, 0).value.Some?
    ensures Entry(labels, WindowResults(f, dates), i, w, 1).value.Some?
            && Entry(labels, WindowResults(f, dates), i, w, 2).value.Some?
            && Entry(labels, WindowResults(f, dates), i, w, 3).value.Some?
    ensures Entry(labels, WindowResults(f, dates), i, w, 1).value.value
            == Entry(labels, WindowResults(f, dates), i, w, 3).value.value
               - Entry(labels, WindowResults(f, dates), i, w, 2).value.value
    ensures Entry(labels, WindowResults(f, dates), i, w, 2).value.value
            <= Entry(labels, WindowResults(f, dates), i, w, 0).value.value
            <= Entry(labels, WindowResults(f, dates), i, w, 3).value.value
  {
    RowQuartiles(Row(f, i), dates, w);
  }

  /** The whole computation: mask the total depths in place, divide, summarise
      every window and lay the results out as the long table, which fails when
      there is no mutation. */
  method MutationStatistics(labels: seq<string>, basecnt: array2<Option<real>>, totalcnt: array2<Option<real>>,
                            dates: seq<int>) returns (f: array2<Option<real>>, table: Result<seq<StatRow>>)
    requires basecnt != totalcnt
    requires basecnt.Length0 == totalcnt.Length0 == |labels| && basecnt.Length1 == totalcnt.Length1 == |dates|
    modifies totalcnt
    ensures forall i, j :: 0 <= i < totalcnt.Length0 && 0 <= j < totalcnt.Length1 ==>
              totalcnt[i, j] == Masked(old(totalcnt[i, j]))
    ensures fresh(f) && f.Length0 == |labels| && f.Length1 == |dates|
    ensures forall i, j :: 0 <= i < f.Length0 && 0 <= j < f.Length1 ==>
              f[i, j] == Ratio(basecnt[i, j], Masked(old(totalcnt[i, j])))
    ensures table.Ok? <==> |labels| > 0
    ensures table.Err? ==> table.error == NoObjectsToConcatenate
    ensures table.Ok? ==> |table.value| == 16 * |labels|
    ensures table.Ok? ==> forall i, w, k :: 0 <= i < |labels| && 0 <= w < 4 && 0 <= k < 4 ==>
                            table.value[16 * i + 4 * w + k] == Entry(labels, WindowResults(f, dates), i, w, k)
  {
    f := FrequencyDataMatrix(basecnt, totalcnt);
    table := StatisticsTable(labels, WindowResults(f, dates));
  }
}
