/** Python string operations used by the pipeline: `str.split`, `str.rstrip`,
    negative list indexing, substring tests, and the leftmost search that
    `re.search` performs. */
module Text {
  import opened Results

  predicate IsDigit(c: char) { '0' <= c <= '9' }

  predicate IsUpper(c: char) { 'A' <= c <= 'Z' }

  /** `w` occurs in `s` starting at index `i`. */
  predicate OccursAt(s: string, i: nat, w: string) {
    i + |w| <= |s| && s[i..i + |w|] == w
  }

  /** Python's `w in s` for strings. */
  predicate Contains(s: string, w: string) {
    exists i: nat | i <= |s| :: OccursAt(s, i, w)
  }

  /** The leftmost position at or after `from` where `matchAt` holds: the
      scan `re.search` does, trying one start position after another. */
  function Search(s: string, matchAt: (string, nat) -> bool, from: nat): (r: Option<nat>)
    ensures r.Some? ==> from <= r.value <= |s| && matchAt(s, r.value)
    ensures r.Some? ==> forall j: nat :: from <= j < r.value ==> !matchAt(s, j)
    ensures r.None? ==> forall j: nat :: from <= j <= |s| ==> !matchAt(s, j)
    decreases |s| + 1 - from
  {
    if from > |s| then None
    else if matchAt(s, from) then Some(from)
    else Search(s, matchAt, from + 1)
  }

  /** The leftmost position where `matchAt` holds is what `Search` finds. */
  lemma SearchFinds(s: string, matchAt: (string, nat) -> bool, i: nat)
    requires i <= |s| && matchAt(s, i)
    requires forall j: nat :: j < i ==> !matchAt(s, j)
    ensures Search(s, matchAt, 0) == Some(i)
  {
  }

  /** End of the longest run of digits that starts at `i`. */
  function DigitRunEnd(s: string, i: nat): (j: nat)
    requires i <= |s|
    ensures i <= j <= |s|
    ensures forall k :: i <= k < j ==> IsDigit(s[k])
    ensures j == |s| || !IsDigit(s[j])
    decreases |s| - i
  {
    if i < |s| && IsDigit(s[i]) then DigitRunEnd(s, i + 1) else i
  }

  /** Numeric value of a string of decimal digits (`float("0042")` is 42). */
  function DigitsValue(ds: string): nat
    requires forall k :: 0 <= k < |ds| ==> IsDigit(ds[k])
  {
    if |ds| == 0 then 0
    else
      var last := ds[|ds| - 1];
      assert IsDigit(last);
      10 * DigitsValue(ds[..|ds| - 1]) + (last as int - '0' as int)
  }

  /** Python's `s.split(sep)` for a one-character separator. */
  function Split(s: string, sep: char): (parts: seq<string>)
    ensures |parts| >= 1
  {
    if |s| == 0 then [""]
    else
      var rest := Split(s[1..], sep);
      if s[0] == sep then [""] + rest
      else [[s[0]] + rest[0]] + rest[1..]
  }

  /** Python's `sep.join(parts)`. */
  function Join(parts: seq<string>, sep: char): string
    requires |parts| >= 1
  {
    if |parts| == 1 then parts[0] else parts[0] + [sep] + Join(parts[1..], sep)
  }

  /** Splitting and joining again gives back the string. */
  lemma {:induction false} JoinSplit(s: string, sep: char)
    ensures Join(Split(s, sep), sep) == s
  {
    if |s| > 0 {
      JoinSplit(s[1..], sep);
      var rest := Split(s[1..], sep);
      if s[0] == sep {
        assert Split(s, sep)[1..] == rest;
      } else {
        var parts := Split(s, sep);
        if |rest| == 1 {
          assert parts == [[s[0]] + rest[0]];
        } else {
          assert parts[1..] == rest[1..];
          assert Join(rest, sep) == rest[0] + [sep] + Join(rest[1..], sep);
        }
      }
    }
  }

  /** No part produced by `Split` contains the separator. */
  lemma {:induction false} SplitPartsFree(s: string, sep: char)
    ensures forall p :: p in Split(s, sep) ==> sep !in p
  {
    if |s| > 0 {
      SplitPartsFree(s[1..], sep);
      var rest := Split(s[1..], sep);
      assert rest == [rest[0]] + rest[1..];
    }
  }

  /** A string without the separator splits into itself alone. */
  lemma {:induction false} SplitFree(w: string, sep: char)
    requires sep !in w
    ensures Split(w, sep) == [w]
  {
    if |w| > 0 {
      assert sep !in w[1..] by {
        forall k | 0 <= k < |w| - 1 ensures w[1..][k] != sep { assert w[1..][k] == w[k + 1]; }
      }
      SplitFree(w[1..], sep);
      assert [w[0]] + w[1..] == w;
    }
  }

  /** How `Split` treats the first character of a non-empty string. */
  lemma {:induction false} SplitCons(c: char, t: string, sep: char)
    ensures c == sep ==> Split([c] + t, sep) == [""] + Split(t, sep)
    ensures c != sep ==> Split([c] + t, sep) == [[c] + Split(t, sep)[0]] + Split(t, sep)[1..]
  {
    assert ([c] + t)[1..] == t;
  }

  /** The inductive step of `SplitConcat`: one more leading character. */
  lemma {:induction false} SplitConcatStep(c: char, t: string, b: string, sep: char)
    requires Split(t + [sep] + b, sep) == Split(t, sep) + Split(b, sep)
    ensures Split([c] + t + [sep] + b, sep) == Split([c] + t, sep) + Split(b, sep)
  {
    assert [c] + t + [sep] + b == [c] + (t + [sep] + b);
    if c == sep {
      SplitConcatSepStep(c, t, b, sep);
    } else {
      SplitConcatCharStep(c, t, b, sep);
    }
  }

  /** `SplitConcatStep` when the new character is the separator: it opens a new empty part. */
  lemma {:induction false} SplitConcatSepStep(c: char, t: string, b: string, sep: char)
    requires c == sep
    requires Split(t + [sep] + b, sep) == Split(t, sep) + Split(b, sep)
    ensures Split([c] + (t + [sep] + b), sep) == Split([c] + t, sep) + Split(b, sep)
  {
    var x := t + [sep] + b;
    var ra, rb := Split(t, sep), Split(b, sep);
    SplitCons(c, x, sep);
    SplitCons(c, t, sep);
    assert [""] + (ra + rb) == ([""] + ra) + rb;
  }

  /** `SplitConcatStep` when the new character is not the separator: it joins the first part. */
  lemma {:induction false} SplitConcatCharStep(c: char, t: string, b: string, sep: char)
    requires c != sep
    requires Split(t + [sep] + b, sep) == Split(t, sep) + Split(b, sep)
    ensures Split([c] + (t + [sep] + b), sep) == Split([c] + t, sep) + Split(b, sep)
  {
    SplitCons(c, t + [sep] + b, sep);
    SplitCons(c, t, sep);
    JoinFirstPart([c], Split(t, sep), Split(b, sep));
  }

  /** Extending the first part of `ra + rb` extends the first part of `ra`. */
  lemma JoinFirstPart<T>(c: seq<T>, ra: seq<seq<T>>, rb: seq<seq<T>>)
    requires |ra| >= 1
    ensures [c + (ra + rb)[0]] + (ra + rb)[1..] == ([c + ra[0]] + ra[1..]) + rb
  {
    assert (ra + rb)[0] == ra[0];
    assert (ra + rb)[1..] == ra[1..] + rb;
  }

  /** Splitting `a + sep + b` splits `a` and `b` apart. */
  lemma {:induction false} SplitConcat(a: string, b: string, sep: char)
    ensures Split(a + [sep] + b, sep) == Split(a, sep) + Split(b, sep)
  {
    if |a| == 0 {
      assert a + [sep] + b == [sep] + b;
      SplitCons(sep, b, sep);
    } else {
      SplitConcat(a[1..], b, sep);
      SplitConcatStep(a[0], a[1..], b, sep);
      assert [a[0]] + a[1..] == a;
    }
  }

  /** Python's `xs[-k]` for `k >= 1`: `IndexError` when the list is shorter than `k`. */
  function FromEnd<T>(xs: seq<T>, k: nat): (r: Option<T>)
    requires k >= 1
    ensures r.Some? <==> k <= |xs|
    ensures r.Some? ==> r.value == xs[|xs| - k]
  {
    if k <= |xs| then Some(xs[|xs| - k]) else None
  }

  /** Counting from the end of a concatenation: the last `|ys|` positions are
      those of `ys`, and the ones before continue into `xs`. */
  lemma FromEndConcat<T>(xs: seq<T>, ys: seq<T>, k: nat)
    requires k >= 1
    ensures k <= |ys| ==> FromEnd(xs + ys, k) == FromEnd(ys, k)
    ensures k > |ys| ==> FromEnd(xs + ys, k) == FromEnd(xs, k - |ys|)
  {
  }

  /** Python's `s.rstrip(c)`: every trailing `c` removed. */
  function RStrip(s: string, c: char): (r: string)
    ensures r <= s
    ensures |r| == 0 || r[|r| - 1] != c
    ensures forall k :: |r| <= k < |s| ==> s[k] == c
  {
    if |s| > 0 && s[|s| - 1] == c then RStrip(s[..|s| - 1], c) else s
  }
}
