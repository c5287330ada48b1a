/** Parsing of mutation labels such as "C23039G": the leftmost `(\d+)([A-Z])`
    gives the genome position and the new nucleotide, and the leftmost `\d+`
    gives the position alone. Both stay text, because the coverage tables are
    searched by the text of their position column. */
module MutationLabels {
  import opened Results
  import opened Text

  /** Group 1 and group 2 of a `(\d+)([A-Z])` match. */
  datatype PosNt = PosNt(pos: string, nt: string)

  /** `(\d+)([A-Z])` matches at `i`. The greedy digit run can only give back
      digits, and a digit is not an upper-case letter, so a match exists exactly
      when the whole run starting at `i` is followed by one. */
  predicate PosNtAt(s: string, i: nat) {
    i < |s| && IsDigit(s[i]) &&
    var j := DigitRunEnd(s, i);
    j < |s| && IsUpper(s[j])
  }

  /** The groups of `re.search(r"(\d+)([A-Z])", mutation)`, or `None` when it fails. */
  function MatchPosNt(mutation: string): (r: Option<PosNt>)
    ensures r.None? <==> forall i: nat :: i <= |mutation| ==> !PosNtAt(mutation, i)
    ensures r.Some? ==> |r.value.pos| > 0 && (forall k :: 0 <= k < |r.value.pos| ==> IsDigit(r.value.pos[k]))
                        && |r.value.nt| == 1 && IsUpper(r.value.nt[0])
    ensures r.Some? ==> exists i: nat :: PosNtAt(mutation, i) && (forall j: nat :: j < i ==> !PosNtAt(mutation, j))
                          && OccursAt(mutation, i, r.value.pos + r.value.nt)
  {
    match Search(mutation, PosNtAt, 0)
    case None => None
    case Some(i) =>
      var j := DigitRunEnd(mutation, i);
      var m := PosNt(mutation[i..j], [mutation[j]]);
      assert mutation[i..j + 1] == m.pos + m.nt;
      Some(m)
  }

  /** The leftmost match never starts inside a number: the character before it,
      if any, is not a digit, so the position is the whole digit run. */
  lemma MatchIsWholeNumber(mutation: string, i: nat)
    requires PosNtAt(mutation, i) && forall j: nat :: j < i ==> !PosNtAt(mutation, j)
    ensures i == 0 || !IsDigit(mutation[i - 1])
  {
    if i > 0 {
      assert !PosNtAt(mutation, i - 1);
      assert IsDigit(mutation[i - 1]) ==> DigitRunEnd(mutation, i - 1) == DigitRunEnd(mutation, i);
    }
  }

  /** A mutation written as a reference base, a position and a new base: the match
      is the position and the new base. "C23039G" gives ("23039", "G"). */
  lemma MatchOfPointMutation(ref: char, digits: string, alt: char)
    requires !IsDigit(ref) && IsUpper(alt)
    requires |digits| > 0 && forall k :: 0 <= k < |digits| ==> IsDigit(digits[k])
    ensures MatchPosNt([ref] + digits + [alt]) == Some(PosNt(digits, [alt]))
    ensures FirstNumber([ref] + digits + [alt]) == Some(digits)
  {
    var s := [ref] + digits + [alt];
    var e := DigitRunEnd(s, 1);
    assert forall k :: 1 <= k < 1 + |digits| ==> s[k] == digits[k - 1];
    assert s[1 + |digits|] == alt && !IsDigit(alt);
    assert e == 1 + |digits|;
    assert PosNtAt(s, 1);
    assert !PosNtAt(s, 0);
    assert s[1..e] == digits;
    assert DigitsAt(s, 1);
    assert !DigitsAt(s, 0);
  }

  /** The message of the `ValueError` raised for a mutation without a match. */
  function NoMatch(mutation: string): Error {
    ValueError("No match found for mutation: " + mutation)
  }

  /** The position of the first mutation without a match, or the number of
      mutations when every one matches. */
  function FirstUnmatched(labels: seq<string>): (i: nat)
    ensures i <= |labels|
    ensures forall k :: 0 <= k < i ==> MatchPosNt(labels[k]).Some?
    ensures i < |labels| ==> MatchPosNt(labels[i]).None?
  {
    if |labels| == 0 || MatchPosNt(labels[0]).None? then 0
    else
      var i := FirstUnmatched(labels[1..]);
      assert forall k :: 1 <= k < |labels| ==> labels[1..][k - 1] == labels[k];
      i + 1
  }

  /** `extract_mutation_position_and_nt`: one (position, nucleotide) pair per
      mutation, in order, or the `ValueError` naming the first mutation without a match. */
  function ParseAll(labels: seq<string>): (r: Result<seq<PosNt>>)
    ensures r.Ok? <==> forall k :: 0 <= k < |labels| ==> MatchPosNt(labels[k]).Some?
    ensures r.Ok? ==> |r.value| == |labels|
                      && forall k :: 0 <= k < |labels| ==> r.value[k] == MatchPosNt(labels[k]).value
    ensures r.Err? ==> FirstUnmatched(labels) < |labels| && r.error == NoMatch(labels[FirstUnmatched(labels)])
  {
    if |labels| == 0 then Ok([])
    else
      match MatchPosNt(labels[0])
      case None => Err(NoMatch(labels[0]))
      case Some(m) =>
        var rest := ParseAll(labels[1..]);
        assert forall k :: 1 <= k < |labels| ==> labels[1..][k - 1] == labels[k];
        match rest
        case Err(e) => Err(e)
        case Ok(tail) =>
          PrependSome(MatchPosNt, labels, m, tail);
          Ok([m] + tail)
  }

  /** The loop of `extract_mutation_position_and_nt`, which raises at the first
      mutation without a match and so never returns a partial list. */
  method ExtractMutationPositionAndNt(labels: seq<string>) returns (r: Result<seq<PosNt>>)
    ensures r == ParseAll(labels)
    ensures r.Ok? ==> |r.value| == |labels|
                      && forall k :: 0 <= k < |labels| ==> r.value[k] == MatchPosNt(labels[k]).value
    ensures r.Err? ==> exists k :: 0 <= k < |labels| && MatchPosNt(labels[k]).None? && r.error == NoMatch(labels[k])
  {
    var extracted: seq<PosNt> := [];
    var i := 0;
    while i < |labels|
      invariant 0 <= i <= |labels|
      invariant |extracted| == i
      invariant forall k :: 0 <= k < i ==> MatchPosNt(labels[k]).Some? && extracted[k] == MatchPosNt(labels[k]).value
    {
      var m := MatchPosNt(labels[i]);
      if m.None? {
        FirstFailure(labels, i);
        return Err(NoMatch(labels[i]));
      }
      extracted := extracted + [m.value];
      i := i + 1;
    }
    r := Ok(extracted);
    assert ParseAll(labels).Ok?;
    assert ParseAll(labels).value == extracted;
  }

  /** When mutation `i` is the first without a match, the parse fails with its message. */
  lemma FirstFailure(labels: seq<string>, i: nat)
    requires i < |labels| && MatchPosNt(labels[i]).None?
    requires forall k :: 0 <= k < i ==> MatchPosNt(labels[k]).Some?
    ensures ParseAll(labels) == Err(NoMatch(labels[i]))
  {
    var j := FirstUnmatched(labels);
    assert j == i;
  }

  /** The older comprehension `[(re.search(p, m).group(1), re.search(p, m).group(2)) for m in ...]`:
      the same pairs, but a mutation without a match raises `AttributeError`. */
  function ParseAllLegacy(labels: seq<string>): (r: Result<seq<PosNt>>)
    ensures r.Ok? <==> forall k :: 0 <= k < |labels| ==> MatchPosNt(labels[k]).Some?
    ensures r.Ok? ==> |r.value| == |labels|
                      && forall k :: 0 <= k < |labels| ==> r.value[k] == MatchPosNt(labels[k]).value
    ensures r.Err? ==> r.error == AttributeError
  {
    match ParseAll(labels)
    case Ok(v) => Ok(v)
    case Err(_) => Err(AttributeError)
  }

  // ---------------------------------------------------------------- \d+

  /** `\d+` matches at `i`. */
  predicate DigitsAt(s: string, i: nat) {
    i < |s| && IsDigit(s[i])
  }

  /** `re.search(r"\d+", mutation).group()`: the leftmost digit run, whole. */
  function FirstNumber(mutation: string): (r: Option<string>)
    ensures r.None? <==> forall k :: 0 <= k < |mutation| ==> !IsDigit(mutation[k])
    ensures r.Some? ==> |r.value| > 0 && (forall k :: 0 <= k < |r.value| ==> IsDigit(r.value[k]))
    ensures r.Some? ==> exists i: nat :: OccursAt(mutation, i, r.value)
                          && (forall k :: 0 <= k < i ==> !IsDigit(mutation[k]))
                          && (i + |r.value| == |mutation| || !IsDigit(mutation[i + |r.value|]))
  {
    match Search(mutation, DigitsAt, 0)
    case None =>
      forall k | 0 <= k < |mutation| ensures !IsDigit(mutation[k]) {
        assert !DigitsAt(mutation, k);
      }
      None
    case Some(i) =>
      var j := DigitRunEnd(mutation, i);
      var g := mutation[i..j];
      assert OccursAt(mutation, i, g);
      forall k | 0 <= k < i ensures !IsDigit(mutation[k]) {
        assert !DigitsAt(mutation, k);
      }
      assert i + |g| == j;
      Some(g)
  }

  /** `extract_mutation_position`: the first number of every mutation, in mutation
      order; a mutation without digits makes `.group()` fail on `None`. */
  function ExtractMutationPosition(labels: seq<string>): (r: Result<seq<string>>)
    ensures r.Ok? <==> forall k :: 0 <= k < |labels| ==> FirstNumber(labels[k]).Some?
    ensures r.Ok? ==> |r.value| == |labels|
                      && forall k :: 0 <= k < |labels| ==> r.value[k] == FirstNumber(labels[k]).value
    ensures r.Err? ==> r.error == AttributeError
  {
    if |labels| == 0 then Ok([])
    else
      match FirstNumber(labels[0])
      case None => Err(AttributeError)
      case Some(p) =>
        assert forall k :: 1 <= k < |labels| ==> labels[1..][k - 1] == labels[k];
        match ExtractMutationPosition(labels[1..])
        case Err(e) => Err(e)
        case Ok(tail) => Ok([p] + tail)
  }

  /** Where the first number is followed by an upper-case letter, the two
      parsers agree on the position: the total depth and the base count of a
      mutation are looked up at the same place. */
  lemma PositionsAgree(mutation: string)
    requires var i := Search(mutation, DigitsAt, 0);
             i.Some? && DigitRunEnd(mutation, i.value) < |mutation| && IsUpper(mutation[DigitRunEnd(mutation, i.value)])
    ensures MatchPosNt(mutation).Some?
    ensures FirstNumber(mutation) == Some(MatchPosNt(mutation).value.pos)
  {
    var i := Search(mutation, DigitsAt, 0).value;
    assert PosNtAt(mutation, i);
    forall j: nat | j < i ensures !PosNtAt(mutation, j) {
      assert !DigitsAt(mutation, j);
    }
    SearchFinds(mutation, PosNtAt, i);
  }
}
