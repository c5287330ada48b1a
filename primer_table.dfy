/** Parsing of the primer scheme (a UCSC BED table such as the ARTIC nCoV-2019 V3
    scheme): each row is tagged with its sense, primer number and pool by three
    regular-expression searches, and alternative primers are dropped. */
module PrimerTable {
  import opened Results
  import opened Text
  import Ordering

  /** One row of the BED table as read: columns 0 to 3, and column 4 as text. */
  datatype BedRow = BedRow(chrom: string, start: int, end: int, name: string, poolField: string)

  datatype Sense = Left | Right

  /** A BED row with the three derived columns `sense`, `primer_num` and `pool`;
      `None` is the NaN a failed search leaves. */
  datatype PrimerRow = PrimerRow(bed: BedRow, sense: Option<Sense>, primerNum: Option<nat>, pool: Option<nat>)

  // ---------------------------------------------------------------- (LEFT|RIGHT)

  predicate SenseAt(s: string, i: nat) {
    OccursAt(s, i, "LEFT") || OccursAt(s, i, "RIGHT")
  }

  /** `re.search("(LEFT|RIGHT)", name)`: the leftmost occurrence of either word. */
  function ParseSense(name: string): (r: Option<Sense>)
    ensures r.None? <==> forall i: nat :: i <= |name| ==> !SenseAt(name, i)
    ensures r.Some? ==> exists i: nat :: i <= |name| && SenseAt(name, i)
                          && (forall j: nat :: j < i ==> !SenseAt(name, j))
                          && (r.value == Left <==> OccursAt(name, i, "LEFT"))
  {
    match Search(name, SenseAt, 0)
    case None => None
    case Some(i) => Some(if OccursAt(name, i, "LEFT") then Left else Right)
  }

  // ---------------------------------------------------------------- _([0-9]+)_

  /** `_([0-9]+)_` matches at `i`. Greedy digits can only be followed by `_` at
      the end of the whole digit run, so the match is decided by that run. */
  predicate PrimerNumAt(s: string, i: nat) {
    i < |s| && s[i] == '_' &&
    var j := DigitRunEnd(s, i + 1);
    i + 1 < j < |s| && s[j] == '_'
  }

  /** The text of group 1 of `re.search("_([0-9]+)_", name)`. */
  function PrimerNumDigits(name: string): (r: Option<string>)
    ensures r.None? <==> forall i: nat :: i <= |name| ==> !PrimerNumAt(name, i)
    ensures r.Some? ==> |r.value| > 0 && forall k :: 0 <= k < |r.value| ==> IsDigit(r.value[k])
    ensures r.Some? ==> exists i: nat :: OccursAt(name, i, "_" + r.value + "_")
                          && (forall j: nat :: j < i ==> !PrimerNumAt(name, j))
  {
    match Search(name, PrimerNumAt, 0)
    case None => None
    case Some(i) =>
      var j := DigitRunEnd(name, i + 1);
      var g := name[i + 1..j];
      assert forall k :: 0 <= k < |g| ==> g[k] == name[i + 1 + k];
      assert i + |"_" + g + "_"| == j + 1;
      assert name[i..j + 1] == "_" + g + "_";
      assert OccursAt(name, i, "_" + g + "_");
      Some(g)
  }

  /** The `primer_num` column: that group converted to a number. */
  function ParsePrimerNum(name: string): Option<nat> {
    match PrimerNumDigits(name)
    case None => None
    case Some(g) => Some(DigitsValue(g))
  }

  // ---------------------------------------------------------------- ([1-2])$

  predicate IsPoolDigit(c: char) { c == '1' || c == '2' }

  /** `([1-2])$` matches at `i`; `$` matches at the very end or before a final newline. */
  predicate PoolAt(s: string, i: nat) {
    i < |s| && IsPoolDigit(s[i]) && (i + 1 == |s| || (i + 2 == |s| && s[i + 1] == '\n'))
  }

  function PoolValue(c: char): nat { if c == '1' then 1 else 2 }

  /** `re.search("([1-2])$", str(field))` converted to a number: the pool is the
      final character when it is 1 or 2 (possibly followed by one newline). */
  function ParsePool(field: string): (r: Option<nat>)
    ensures r.Some? <==>
              ((|field| >= 1 && IsPoolDigit(field[|field| - 1]))
               || (|field| >= 2 && field[|field| - 1] == '\n' && IsPoolDigit(field[|field| - 2])))
    ensures r.Some? && IsPoolDigit(field[|field| - 1]) ==> r.value == PoolValue(field[|field| - 1])
    ensures r.Some? && field[|field| - 1] == '\n' ==> r.value == PoolValue(field[|field| - 2])
    ensures r.Some? ==> r.value == 1 || r.value == 2
  {
    match Search(field, PoolAt, 0)
    case None =>
      assert |field| >= 1 ==> !PoolAt(field, |field| - 1);
      assert |field| >= 2 ==> !PoolAt(field, |field| - 2);
      None
    case Some(i) => Some(PoolValue(field[i]))
  }

  // ---------------------------------------------------------------- load_bedfile

  /** The three derived columns of one row. */
  function Tag(b: BedRow): PrimerRow {
    PrimerRow(b, ParseSense(b.name), ParsePrimerNum(b.name), ParsePool(b.poolField))
  }

  predicate IsAlt(b: BedRow) { Contains(b.name, "alt") }

  /** `load_bedfile`: every row tagged, then the rows whose name contains "alt"
      dropped. It never fails: a search that finds nothing leaves a missing value. */
  function LoadBedfile(rows: seq<BedRow>): (r: seq<PrimerRow>)
    ensures |r| <= |rows|
  {
    var kept := Ordering.Filter(rows, (b: BedRow) => !IsAlt(b));
    seq(|kept|, k requires 0 <= k < |kept| => Tag(kept[k]))
  }

  /** `load_bedfile` tags exactly the rows without "alt", in file order. */
  lemma LoadBedfileIsStableFilter(rows: seq<BedRow>) returns (idx: seq<nat>)
    ensures Ordering.Picks(idx, |rows|) && |idx| == |LoadBedfile(rows)|
    ensures forall k :: 0 <= k < |idx| ==> LoadBedfile(rows)[k] == Tag(rows[idx[k]])
    ensures forall i :: 0 <= i < |rows| ==> (!IsAlt(rows[i]) <==> i in idx)
  {
    idx := Ordering.FilterIsStable(rows, (b: BedRow) => !IsAlt(b));
  }
}
