/** The amplicon table `make_amplicons_df` builds from the tagged primer rows:
    one amplicon per primer number in ascending order, and for each a query
    window that reaches from just past the previous amplicon's primer to just
    before the next one's. */
module Amplicons {
  import opened Results
  import opened PrimerTable
  import Ordering

  /** Bases kept clear of a neighbouring amplicon's primer. */
  const Margin: int := 5

  /** One row of the amplicon table before the query columns are added. */
  datatype Amplicon = Amplicon(pool: Option<nat>, primerNum: int, primerStart: int,
                               seqStart: int, seqEnd: int, primerEnd: int)

  /** One row of the finished table: the amplicon and its `query_start`/`query_end`. */
  datatype AmpliconWindow = AmpliconWindow(amplicon: Amplicon, queryStart: int, queryEnd: int)

  /** The mask `bedfile["primer_num"] == n`, refined by `bedfile["sense"] == sense`
      when a sense is given. */
  function Having(n: int, sense: Option<Sense>): PrimerRow -> bool {
    (p: PrimerRow) => p.primerNum.Some? && p.primerNum.value == n && (sense.None? || p.sense == sense)
  }

  /** Every row has a primer number (`np.unique` yields no NaN). */
  predicate Numbered(rows: seq<PrimerRow>) {
    forall k :: 0 <= k < |rows| ==> rows[k].primerNum.Some?
  }

  /** The `primer_num` column. */
  function Nums(rows: seq<PrimerRow>): seq<int>
    requires Numbered(rows)
  {
    seq(|rows|, k requires 0 <= k < |rows| => rows[k].primerNum.value as int)
  }

  /** One pass of the loop body: the amplicon of primer number `n`. */
  function AmpliconFor(rows: seq<PrimerRow>, n: int): (r: Result<Amplicon>)
    ensures r.Err? ==> r.error == IndexError
    ensures r.Ok? ==> r.value.primerNum == n
  {
    AmpliconOf(n, Ordering.Filter(rows, Having(n, Some(Left))),
               Ordering.Filter(rows, Having(n, Some(Right))), Ordering.Filter(rows, Having(n, None)))
  }

  /** The amplicon of number `n` from its LEFT rows, its RIGHT rows and all its
      rows. Every `.values[0]` or `.values[1]` on too short a selection is an
      `IndexError`. */
  function AmpliconOf(n: int, lefts: seq<PrimerRow>, rights: seq<PrimerRow>, same: seq<PrimerRow>): (r: Result<Amplicon>)
    ensures r.Err? ==> r.error == IndexError
    ensures r.Ok? ==> r.value.primerNum == n
  {
    if |lefts| == 0 || |rights| == 0 || |same| < 2 then Err(IndexError)
    else Ok(Amplicon(same[1].pool, n, lefts[0].bed.start, lefts[0].bed.end,
                     rights[0].bed.start, rights[0].bed.end))
  }

  /** The loop over the given primer numbers, stopping at the first failure. */
  function AmpliconsFor(rows: seq<PrimerRow>, nums: seq<int>): (r: Result<seq<Amplicon>>)
    ensures r.Err? ==> r.error == IndexError
  {
    if |nums| == 0 then Ok([])
    else
      match AmpliconFor(rows, nums[0])
      case Err(e) => Err(e)
      case Ok(a) =>
        match AmpliconsFor(rows, nums[1..])
        case Err(e) => Err(e)
        case Ok(rest) => Ok([a] + rest)
  }

  /** The amplicon columns of `make_amplicons_df`. A row without a primer number
      puts NaN among the unique numbers, and NaN selects no row: `IndexError`.
      An empty primer table gives `np.array([])`, which the six-column
      `pd.DataFrame` constructor rejects. */
  function AmpliconTable(rows: seq<PrimerRow>): Result<seq<Amplicon>> {
    if !Numbered(rows) then Err(IndexError)
    else
      var nums := Ordering.SortedUnique(Nums(rows));
      if |nums| == 0 then Err(ShapeMismatch) else AmpliconsFor(rows, nums)
  }

  /** The query columns: the first window starts at the first primer, the last
      ends at the last amplicon's `seq_end`, and every other bound sits
      `Margin` bases clear of the neighbouring amplicon's primer. */
  predicate Chained(ws: seq<AmpliconWindow>) {
    (|ws| > 0 ==> ws[0].queryStart == ws[0].amplicon.primerStart
                  && ws[|ws| - 1].queryEnd == ws[|ws| - 1].amplicon.seqEnd)
    && (forall i :: 0 < i < |ws| ==> ws[i].queryStart == ws[i - 1].amplicon.primerEnd + Margin)
    && (forall i :: 0 <= i < |ws| - 1 ==> ws[i].queryEnd == ws[i + 1].amplicon.primerStart - Margin)
  }

  /** The loop over numbers behaves as the function that stops at the first
      failure: it succeeds exactly when every number succeeds, with one amplicon
      per number, in order. */
  lemma {:induction false} AmpliconsForOk(rows: seq<PrimerRow>, nums: seq<int>)
    ensures AmpliconsFor(rows, nums).Ok? <==> forall k :: 0 <= k < |nums| ==> AmpliconFor(rows, nums[k]).Ok?
    ensures AmpliconsFor(rows, nums).Ok? ==>
              |AmpliconsFor(rows, nums).value| == |nums|
              && forall k :: 0 <= k < |nums| ==> AmpliconsFor(rows, nums).value[k] == AmpliconFor(rows, nums[k]).value
  {
    if |nums| > 0 {
      AmpliconsForOk(rows, nums[1..]);
      assert forall k :: 1 <= k < |nums| ==> nums[1..][k - 1] == nums[k];
    }
  }

  /** The first loop of `make_amplicons_df`, over the given primer numbers. */
  method AmpliconLoop(rows: seq<PrimerRow>, nums: seq<int>) returns (r: Result<seq<Amplicon>>)
    ensures r == AmpliconsFor(rows, nums)
  {
    AmpliconsForOk(rows, nums);
    var amps: seq<Amplicon> := [];
    for i := 0 to |nums|
      invariant |amps| == i
      invariant forall k :: 0 <= k < i ==> AmpliconFor(rows, nums[k]) == Ok(amps[k])
    {
      var a := AmpliconFor(rows, nums[i]);
      if a.Err? {
        return Err(IndexError);
      }
      amps := amps + [a.value];
    }
    assert AmpliconsFor(rows, nums).value == amps;
    r := Ok(amps);
  }

  /** The first loop of `make_amplicons_df` over the distinct primer numbers,
      and the table constructor. */
  method BuildAmplicons(rows: seq<PrimerRow>) returns (r: Result<seq<Amplicon>>)
    ensures r == AmpliconTable(rows)
  {
    if !Numbered(rows) {
      return Err(IndexError);
    }
    var nums := Ordering.SortedUnique(Nums(rows));
    r := AmpliconLoop(rows, nums);
    if r.Ok? && |r.value| == 0 {
      r := Err(ShapeMismatch);
    }
  }

  /** The second loop of `make_amplicons_df`: the `query_start` and `query_end` columns. */
  method QueryWindows(amps: seq<Amplicon>) returns (ws: seq<AmpliconWindow>)
    ensures |ws| == |amps| && (forall k :: 0 <= k < |ws| ==> ws[k].amplicon == amps[k])
    ensures Chained(ws)
  {
    ws := [];
    for i := 0 to |amps|
      invariant |ws| == i
      invariant forall k :: 0 <= k < i ==> ws[k].amplicon == amps[k]
      invariant i > 0 ==> ws[0].queryStart == amps[0].primerStart
      invariant forall k :: 0 < k < i ==> ws[k].queryStart == amps[k - 1].primerEnd + Margin
      invariant forall k :: 0 <= k < i && k < |amps| - 1 ==> ws[k].queryEnd == amps[k + 1].primerStart - Margin
      invariant i == |amps| && i > 0 ==> ws[i - 1].queryEnd == amps[i - 1].seqEnd
    {
      var queryStart := if i > 0 then amps[i - 1].primerEnd + Margin else amps[i].primerStart;
      var queryEnd := if i < |amps| - 1 then amps[i + 1].primerStart - Margin else amps[i].seqEnd;
      ws := ws + [AmpliconWindow(amps[i], queryStart, queryEnd)];
    }
  }

  /** `make_amplicons_df`: the amplicon rows, then the query windows. */
  method MakeAmplicons(rows: seq<PrimerRow>) returns (r: Result<seq<AmpliconWindow>>)
    ensures r.Err? <==> AmpliconTable(rows).Err?
    ensures r.Err? ==> r.error == AmpliconTable(rows).error
    ensures r.Ok? ==> |r.value| == |AmpliconTable(rows).value|
                      && (forall i :: 0 <= i < |r.value| ==> r.value[i].amplicon == AmpliconTable(rows).value[i])
                      && Chained(r.value)
  {
    var amps := BuildAmplicons(rows);
    if amps.Err? {
      return Err(amps.error);
    }
    var ws := QueryWindows(amps.value);
    r := Ok(ws);
  }

  /** Primer number `n` has a LEFT and a RIGHT row. */
  predicate Complete(rows: seq<PrimerRow>, n: int) {
    (exists j :: 0 <= j < |rows| && Having(n, Some(Left))(rows[j]))
    && (exists j :: 0 <= j < |rows| && Having(n, Some(Right))(rows[j]))
  }

  /** One number's amplicon is built exactly when the number has a LEFT and a
      RIGHT row (the two are distinct rows, so a second row exists as well). */
  lemma AmpliconForOk(rows: seq<PrimerRow>, n: int)
    ensures AmpliconFor(rows, n).Ok? <==> Complete(rows, n)
  {
    Ordering.FilterNonEmpty(rows, Having(n, Some(Left)));
    Ordering.FilterNonEmpty(rows, Having(n, Some(Right)));
    Ordering.FilterNonEmpty(rows, Having(n, None));
    if Complete(rows, n) {
      var i :| 0 <= i < |rows| && Having(n, Some(Left))(rows[i]);
      var j :| 0 <= j < |rows| && Having(n, Some(Right))(rows[j]);
      assert Having(n, None)(rows[i]) && Having(n, None)(rows[j]);
      if i < j {
        assert 0 <= i < j < |rows| && Having(n, None)(rows[i]) && Having(n, None)(rows[j]);
      } else {
        assert 0 <= j < i < |rows| && Having(n, None)(rows[j]) && Having(n, None)(rows[i]);
      }
    }
  }

  /** Every primer number that occurs has a LEFT and a RIGHT row. */
  predicate EveryNumberComplete(rows: seq<PrimerRow>)
    requires Numbered(rows)
  {
    forall k :: 0 <= k < |rows| ==> Complete(rows, rows[k].primerNum.value)
  }

  /** A primer number is taken from some row. */
  lemma NumIndex(rows: seq<PrimerRow>, n: int) returns (k: nat)
    requires Numbered(rows) && n in Ordering.SortedUnique(Nums(rows))
    ensures k < |rows| && rows[k].primerNum == Some(n as nat)
  {
    assert n in Nums(rows);
    k :| 0 <= k < |rows| && Nums(rows)[k] == n;
  }

  /** A built table means every number that occurs was complete. */
  lemma BuiltIsComplete(rows: seq<PrimerRow>, k: nat)
    requires Numbered(rows) && k < |rows|
    requires AmpliconsFor(rows, Ordering.SortedUnique(Nums(rows))).Ok?
    ensures Complete(rows, rows[k].primerNum.value)
  {
    var nums := Ordering.SortedUnique(Nums(rows));
    var n := Nums(rows)[k];
    assert n in nums;
    var i :| 0 <= i < |nums| && nums[i] == n;
    AmpliconsForOk(rows, nums);
    assert AmpliconFor(rows, nums[i]).Ok?;
    AmpliconForOk(rows, n);
  }

  /** Every number that occurs being complete means each distinct number is built. */
  lemma CompleteIsBuilt(rows: seq<PrimerRow>, i: nat)
    requires Numbered(rows) && EveryNumberComplete(rows)
    requires i < |Ordering.SortedUnique(Nums(rows))|
    ensures AmpliconFor(rows, Ordering.SortedUnique(Nums(rows))[i]).Ok?
  {
    var n := Ordering.SortedUnique(Nums(rows))[i];
    var k := NumIndex(rows, n);
    assert Complete(rows, rows[k].primerNum.value);
    AmpliconForOk(rows, n);
  }

  /** The loop over the distinct numbers succeeds exactly when every number is complete. */
  lemma AmpliconsForComplete(rows: seq<PrimerRow>)
    requires Numbered(rows)
    ensures AmpliconsFor(rows, Ordering.SortedUnique(Nums(rows))).Ok? <==> EveryNumberComplete(rows)
  {
    var nums := Ordering.SortedUnique(Nums(rows));
    AmpliconsForOk(rows, nums);
    if AmpliconsFor(rows, nums).Ok? {
      forall k | 0 <= k < |rows| ensures Complete(rows, rows[k].primerNum.value) {
        BuiltIsComplete(rows, k);
      }
    }
    if EveryNumberComplete(rows) {
      forall i | 0 <= i < |nums| ensures AmpliconFor(rows, nums[i]).Ok? {
        CompleteIsBuilt(rows, i);
      }
    }
  }

  /** The table is built exactly when the primer table is non-empty, every row
      has a primer number, and every number has a LEFT and a RIGHT row; any other
      failure on a non-empty table is an `IndexError`. */
  lemma AmpliconTableSucceeds(rows: seq<PrimerRow>)
    ensures AmpliconTable(rows).Ok? <==> |rows| > 0 && Numbered(rows) && EveryNumberComplete(rows)
    ensures AmpliconTable(rows).Err? && |rows| > 0 ==> AmpliconTable(rows).error == IndexError
  {
    if Numbered(rows) {
      AmpliconsForComplete(rows);
      if |rows| > 0 {
        assert Nums(rows)[0] in Ordering.SortedUnique(Nums(rows));
      }
    }
  }

  /** The constructor's shape error arises exactly on an empty primer table. */
  lemma AmpliconTableEmpty(rows: seq<PrimerRow>)
    ensures AmpliconTable(rows) == Err(ShapeMismatch) <==> |rows| == 0
  {
    if Numbered(rows) && |rows| > 0 {
      assert Nums(rows)[0] in Ordering.SortedUnique(Nums(rows));
    }
  }

  /** The primer number of each amplicon. */
  function PrimerNumbers(amps: seq<Amplicon>): seq<int> {
    seq(|amps|, i requires 0 <= i < |amps| => amps[i].primerNum as int)
  }

  /** Exactly one amplicon per distinct primer number, in ascending order. */
  lemma AmpliconTableNumbers(rows: seq<PrimerRow>)
    requires AmpliconTable(rows).Ok?
    ensures Ordering.StrictlyIncreasing(PrimerNumbers(AmpliconTable(rows).value))
    ensures forall n: nat :: (exists k :: 0 <= k < |rows| && rows[k].primerNum == Some(n))
                           <==> n in PrimerNumbers(AmpliconTable(rows).value)
  {
    var nums := Ordering.SortedUnique(Nums(rows));
    AmpliconsForOk(rows, nums);
    var amps := AmpliconTable(rows).value;
    assert PrimerNumbers(amps) == nums;
    forall n: nat ensures (exists k :: 0 <= k < |rows| && rows[k].primerNum == Some(n)) <==> n in nums {
      if exists k :: 0 <= k < |rows| && rows[k].primerNum == Some(n) {
        var k :| 0 <= k < |rows| && rows[k].primerNum == Some(n);
        assert Nums(rows)[k] == n;
      }
      if n in nums {
        assert n in Nums(rows);
        var k :| 0 <= k < |rows| && Nums(rows)[k] == n;
        assert rows[k].primerNum == Some(n);
      }
    }
  }

  /** Where each amplicon's columns come from: `primer_start` and `seq_start` are
      columns 1 and 2 of the first LEFT row with its number, `seq_end` and
      `primer_end` columns 1 and 2 of the first RIGHT row, and `pool` is the pool
      of the second row with its number. */
  lemma AmpliconTableFields(rows: seq<PrimerRow>, i: nat)
    requires AmpliconTable(rows).Ok? && i < |AmpliconTable(rows).value|
    ensures var a := AmpliconTable(rows).value[i];
            exists j: nat :: Ordering.FirstAccepted(rows, Having(a.primerNum, Some(Left)), j)
                             && a.primerStart == rows[j].bed.start && a.seqStart == rows[j].bed.end
    ensures var a := AmpliconTable(rows).value[i];
            exists j: nat :: Ordering.FirstAccepted(rows, Having(a.primerNum, Some(Right)), j)
                             && a.seqEnd == rows[j].bed.start && a.primerEnd == rows[j].bed.end
    ensures var a := AmpliconTable(rows).value[i];
            exists j: nat :: Ordering.SecondAccepted(rows, Having(a.primerNum, None), j)
                             && a.pool == rows[j].pool
  {
    var nums := Ordering.SortedUnique(Nums(rows));
    AmpliconsForOk(rows, nums);
    var a := AmpliconTable(rows).value[i];
    assert AmpliconFor(rows, nums[i]) == Ok(a);
    var n := a.primerNum;
    var jl := Ordering.FilterFirst(rows, Having(n, Some(Left)));
    var jr := Ordering.FilterFirst(rows, Having(n, Some(Right)));
    var js := Ordering.FilterSecond(rows, Having(n, None));
  }
}
