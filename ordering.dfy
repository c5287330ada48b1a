/** Ascending, duplicate-free orderings of integer keys (what `np.unique` returns
    for primer numbers and what `sort_index(axis=1)` does to date columns), and
    the order-preserving selection a boolean mask performs on a table's rows. */
module Ordering {

  predicate StrictlyIncreasing(xs: seq<int>) {
    forall i, j :: 0 <= i < j < |xs| ==> xs[i] < xs[j]
  }

  /** Inserts `x` into an ascending duplicate-free sequence, unless it is already there. */
  function InsertUnique(x: int, xs: seq<int>): (r: seq<int>)
    requires StrictlyIncreasing(xs)
    ensures StrictlyIncreasing(r)
    ensures forall y :: y in r <==> y == x || y in xs
  {
    if |xs| == 0 then [x]
    else if x < xs[0] then [x] + xs
    else if x == xs[0] then xs
    else
      var rest := InsertUnique(x, xs[1..]);
      assert xs == [xs[0]] + xs[1..];
      forall y | y in rest ensures xs[0] < y {
        if y != x {
          var k :| 0 <= k < |xs[1..]| && xs[1..][k] == y;
          assert xs[k + 1] == y;
        }
      }
      ConsIncreasing(xs[0], rest);
      [xs[0]] + rest
  }

  /** A key below every element of an ascending sequence can be put in front. */
  lemma ConsIncreasing(a: int, xs: seq<int>)
    requires StrictlyIncreasing(xs) && forall y :: y in xs ==> a < y
    ensures StrictlyIncreasing([a] + xs)
  {
    var r := [a] + xs;
    forall i, j | 0 <= i < j < |r| ensures r[i] < r[j] {
      assert r[j] == xs[j - 1];
      if i > 0 {
        assert r[i] == xs[i - 1];
      } else {
        assert xs[j - 1] in xs;
      }
    }
  }

  /** The distinct values of `xs`, in ascending order. */
  function SortedUnique(xs: seq<int>): (r: seq<int>)
    ensures StrictlyIncreasing(r)
    ensures forall y :: y in r <==> y in xs
  {
    if |xs| == 0 then []
    else
      var init := xs[..|xs| - 1];
      var r := InsertUnique(xs[|xs| - 1], SortedUnique(init));
      assert forall y :: y in xs <==> y == xs[|xs| - 1] || y in init by {
        assert xs == init + [xs[|xs| - 1]];
      }
      r
  }

  /** `idx` lists, in increasing order, positions below `n`. */
  predicate Picks(idx: seq<nat>, n: nat) {
    StrictlyIncreasing(idx) && forall k :: 0 <= k < |idx| ==> idx[k] < n
  }

  /** The elements of `xs` that `keep` accepts, in their original order:
      `df[mask]` for a row-wise mask. */
  function Filter<T>(xs: seq<T>, keep: T -> bool): (r: seq<T>)
    ensures |r| <= |xs|
  {
    if |xs| == 0 then []
    else if keep(xs[0]) then [xs[0]] + Filter(xs[1..], keep)
    else Filter(xs[1..], keep)
  }

  /** Every position of `tail` moved up by one, leaving room for position 0. */
  lemma ShiftPicks(tail: seq<nat>, n: nat) returns (shifted: seq<nat>)
    requires Picks(tail, n)
    ensures Picks(shifted, n + 1) && |shifted| == |tail| && 0 !in shifted
    ensures forall k :: 0 <= k < |tail| ==> shifted[k] == tail[k] + 1
    ensures forall i :: 1 <= i <= n ==> (i in shifted <==> i - 1 in tail)
  {
    shifted := seq(|tail|, k requires 0 <= k < |tail| => tail[k] + 1);
    forall i | 1 <= i <= n ensures i in shifted <==> i - 1 in tail {
      if i - 1 in tail {
        var k :| 0 <= k < |tail| && tail[k] == i - 1;
        assert shifted[k] == i;
      }
    }
  }

  /** `Filter` keeps exactly the accepted elements, in their original order: the
      result is `xs` at the increasing positions `idx`, and a position is listed
      in `idx` exactly when its element is accepted. */
  lemma {:induction false} FilterIsStable<T>(xs: seq<T>, keep: T -> bool) returns (idx: seq<nat>)
    ensures Picks(idx, |xs|) && |idx| == |Filter(xs, keep)|
    ensures forall k :: 0 <= k < |idx| ==> Filter(xs, keep)[k] == xs[idx[k]]
    ensures forall i :: 0 <= i < |xs| ==> (keep(xs[i]) <==> i in idx)
  {
    if |xs| == 0 {
      idx := [];
    } else {
      var rest := xs[1..];
      var tail := FilterIsStable(rest, keep);
      var shifted := ShiftPicks(tail, |rest|);
      forall k | 0 <= k < |shifted| ensures Filter(rest, keep)[k] == xs[shifted[k]] {
        assert rest[tail[k]] == xs[tail[k] + 1];
      }
      forall i | 1 <= i < |xs| ensures keep(xs[i]) <==> i in shifted {
        assert xs[i] == rest[i - 1];
      }
      if keep(xs[0]) {
        idx := StableKeepHead(xs, keep, shifted);
      } else {
        idx := StableDropHead(xs, keep, shifted);
      }
    }
  }

  /** The step of `FilterIsStable` when the head is kept: position 0 goes in front
      of the positions kept in `xs[1..]`, moved up by one. */
  lemma StableKeepHead<T>(xs: seq<T>, keep: T -> bool, shifted: seq<nat>) returns (idx: seq<nat>)
    requires |xs| > 0
    requires Picks(shifted, |xs|) && 0 !in shifted && |shifted| == |Filter(xs[1..], keep)|
    requires forall k :: 0 <= k < |shifted| ==> Filter(xs[1..], keep)[k] == xs[shifted[k]]
    requires forall i :: 1 <= i < |xs| ==> (keep(xs[i]) <==> i in shifted)
    requires keep(xs[0])
    ensures Picks(idx, |xs|) && |idx| == |Filter(xs, keep)|
    ensures forall k :: 0 <= k < |idx| ==> Filter(xs, keep)[k] == xs[idx[k]]
    ensures forall i :: 0 <= i < |xs| ==> (keep(xs[i]) <==> i in idx)
  {
    idx := [0] + shifted;
    assert Filter(xs, keep) == [xs[0]] + Filter(xs[1..], keep);
    forall k | 1 <= k < |idx| ensures Filter(xs, keep)[k] == xs[idx[k]] {
      assert idx[k] == shifted[k - 1];
    }
    forall a, b | 0 <= a < b < |idx| ensures idx[a] < idx[b] {
      assert idx[b] == shifted[b - 1];
      if a > 0 {
        assert idx[a] == shifted[a - 1];
      }
    }
    forall i | 1 <= i < |xs| ensures i in idx <==> i in shifted {
      assert i != 0;
    }
  }

  /** The step of `FilterIsStable` when the head is dropped: the positions kept
      in `xs[1..]`, moved up by one. */
  lemma StableDropHead<T>(xs: seq<T>, keep: T -> bool, shifted: seq<nat>) returns (idx: seq<nat>)
    requires |xs| > 0
    requires Picks(shifted, |xs|) && 0 !in shifted && |shifted| == |Filter(xs[1..], keep)|
    requires forall k :: 0 <= k < |shifted| ==> Filter(xs[1..], keep)[k] == xs[shifted[k]]
    requires forall i :: 1 <= i < |xs| ==> (keep(xs[i]) <==> i in shifted)
    requires !keep(xs[0])
    ensures Picks(idx, |xs|) && |idx| == |Filter(xs, keep)|
    ensures forall k :: 0 <= k < |idx| ==> Filter(xs, keep)[k] == xs[idx[k]]
    ensures forall i :: 0 <= i < |xs| ==> (keep(xs[i]) <==> i in idx)
  {
    idx := shifted;
    assert Filter(xs, keep) == Filter(xs[1..], keep);
  }

  /** Everything `Filter` keeps is accepted. */
  lemma FilterAccepted<T>(xs: seq<T>, keep: T -> bool)
    ensures forall k :: 0 <= k < |Filter(xs, keep)| ==> keep(Filter(xs, keep)[k])
  {
    var idx := FilterIsStable(xs, keep);
  }

  /** `xs[j]` is the first element of `xs` that `keep` accepts. */
  predicate FirstAccepted<T>(xs: seq<T>, keep: T -> bool, j: nat) {
    j < |xs| && keep(xs[j]) && forall i :: 0 <= i < j ==> !keep(xs[i])
  }

  /** `xs[j]` is the second element of `xs` that `keep` accepts. */
  predicate SecondAccepted<T>(xs: seq<T>, keep: T -> bool, j: nat) {
    j < |xs| && keep(xs[j]) &&
    exists i0 :: 0 <= i0 < j && keep(xs[i0]) && forall i :: 0 <= i < j && i != i0 ==> !keep(xs[i])
  }

  /** The first element `Filter` keeps is the first accepted element of `xs`. */
  lemma FilterFirst<T>(xs: seq<T>, keep: T -> bool) returns (j: nat)
    requires |Filter(xs, keep)| > 0
    ensures FirstAccepted(xs, keep, j) && Filter(xs, keep)[0] == xs[j]
  {
    var idx := FilterIsStable(xs, keep);
    j := idx[0];
  }

  /** The second element `Filter` keeps is the second accepted element of `xs`. */
  lemma FilterSecond<T>(xs: seq<T>, keep: T -> bool) returns (j: nat)
    requires |Filter(xs, keep)| > 1
    ensures SecondAccepted(xs, keep, j) && Filter(xs, keep)[1] == xs[j]
  {
    var idx := FilterIsStable(xs, keep);
    j := idx[1];
    var i0 := idx[0];
    forall i | 0 <= i < j && i != i0 ensures !keep(xs[i]) {
      assert i !in idx;
    }
  }

  /** `Filter` keeps something exactly when some element is accepted, and keeps
      two elements whenever two positions are accepted. */
  lemma FilterNonEmpty<T>(xs: seq<T>, keep: T -> bool)
    ensures |Filter(xs, keep)| > 0 <==> exists i :: 0 <= i < |xs| && keep(xs[i])
    ensures (exists i, j :: 0 <= i < j < |xs| && keep(xs[i]) && keep(xs[j])) ==> |Filter(xs, keep)| > 1
  {
    var idx := FilterIsStable(xs, keep);
    if exists i, j :: 0 <= i < j < |xs| && keep(xs[i]) && keep(xs[j]) {
      var i, j :| 0 <= i < j < |xs| && keep(xs[i]) && keep(xs[j]);
      assert i in idx && j in idx;
    }
    if exists i :: 0 <= i < |xs| && keep(xs[i]) {
      var i :| 0 <= i < |xs| && keep(xs[i]);
      assert i in idx;
    }
  }
}
