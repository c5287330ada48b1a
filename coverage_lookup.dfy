/** Per-sample coverage lookups: a decompressed coverage table read without a
    header, its leading header rows dropped, and for every requested position
    the value of the first row at that position. The total-depth table keeps
    file columns 1 and 2 as `pos` and `coverage` after one header row; the
    base-count table keeps file columns 1 to 5 as `pos`, `A`, `C`, `G`, `T`
    after three header rows, so the `-` column is never read. */
module CoverageLookup {
  import opened Results
  import MutationLabels

  /** Names given to the kept file columns, and the number of leading rows dropped. */
  datatype Layout = Layout(names: seq<string>, headerRows: nat)

  const TotalLayout: Layout := Layout(["pos", "coverage"], 1)
  const BasecntLayout: Layout := Layout(["pos", "A", "C", "G", "T"], 3)

  /** One request: a position (as text) and the column to read there. */
  datatype Request = Request(pos: string, column: string)

  /** Field `c` of a tab-separated line as `read_csv` gives it: `None` (NaN)
      when the field is empty or the line is shorter. Frame column `k` of a
      layout is file field `k + 1`. */
  function Cell(line: seq<string>, c: nat): Option<string> {
    if c < |line| && line[c] != "" then Some(line[c]) else None
  }

  /** `df["pos"] == position` holds for this line. */
  predicate AtPos(line: seq<string>, pos: string) {
    Cell(line, 1) == Some(pos)
  }

  /** The first row at or after `from` whose `pos` is `pos`. */
  function FirstRow(lines: seq<seq<string>>, from: nat, pos: string): (r: Option<nat>)
    ensures r.Some? ==> from <= r.value < |lines| && AtPos(lines[r.value], pos)
                        && forall j :: from <= j < r.value ==> !AtPos(lines[j], pos)
    ensures r.None? ==> forall j :: from <= j < |lines| ==> !AtPos(lines[j], pos)
    decreases |lines| - from
  {
    if from >= |lines| then None
    else if AtPos(lines[from], pos) then Some(from)
    else FirstRow(lines, from + 1, pos)
  }

  /** The frame column named `column`, if the layout has one. */
  function ColumnOf(names: seq<string>, column: string): (r: Option<nat>)
    ensures r.None? <==> column !in names
    ensures r.Some? ==> r.value < |names| && names[r.value] == column
                        && forall j :: 0 <= j < r.value ==> names[j] != column
  {
    if |names| == 0 then None
    else if names[0] == column then Some(0)
    else
      match ColumnOf(names[1..], column)
      case None => None
      case Some(c) => Some(c + 1)
  }

  /** `df.loc[df["pos"] == pos, column].iloc[0]`: a column the frame lacks raises
      `KeyError`, an empty selection raises `IndexError`, and otherwise the value
      comes from the first data row at the position. */
  function Lookup(lines: seq<seq<string>>, layout: Layout, q: Request): (r: Result<Option<string>>)
    ensures r.Err? && r.error == KeyError <==> q.column !in layout.names
    ensures r.Ok? <==> q.column in layout.names
                       && exists k :: layout.headerRows <= k < |lines| && AtPos(lines[k], q.pos)
    ensures r.Err? ==> r.error == KeyError || r.error == IndexError
    ensures r.Ok? ==> exists k, c :: layout.headerRows <= k < |lines| && AtPos(lines[k], q.pos)
                       && (forall j :: layout.headerRows <= j < k ==> !AtPos(lines[j], q.pos))
                       && 0 <= c < |layout.names| && layout.names[c] == q.column
                       && r.value == Cell(lines[k], c + 1)
  {
    match ColumnOf(layout.names, q.column)
    case None => Err(KeyError)
    case Some(c) =>
      assert q.column in layout.names;
      match FirstRow(lines, layout.headerRows, q.pos)
      case None =>
        assert !exists k :: layout.headerRows <= k < |lines| && AtPos(lines[k], q.pos);
        Err(IndexError)
      case Some(k) =>
        assert layout.headerRows <= k < |lines| && AtPos(lines[k], q.pos);
        Ok(Cell(lines[k], c + 1))
  }

  /** The position of the first request that fails, or the number of requests. */
  function FirstFailing(lines: seq<seq<string>>, layout: Layout, qs: seq<Request>): (i: nat)
    ensures i <= |qs|
    ensures forall k :: 0 <= k < i ==> Lookup(lines, layout, qs[k]).Ok?
    ensures i < |qs| ==> Lookup(lines, layout, qs[i]).Err?
  {
    if |qs| == 0 || Lookup(lines, layout, qs[0]).Err? then 0
    else
      assert forall k :: 1 <= k < |qs| ==> qs[1..][k - 1] == qs[k];
      FirstFailing(lines, layout, qs[1..]) + 1
  }

  /** The per-request loop: one value per request, in request order, or the
      error of the first request that fails. */
  function LookupAll(lines: seq<seq<string>>, layout: Layout, qs: seq<Request>): Result<seq<Option<string>>> {
    if |qs| == 0 then Ok([])
    else
      match Lookup(lines, layout, qs[0])
      case Err(e) => Err(e)
      case Ok(v) =>
        match LookupAll(lines, layout, qs[1..])
        case Err(e) => Err(e)
        case Ok(rest) => Ok([v] + rest)
  }

  /** The lookups succeed exactly when every request does; then there is one
      value per request, in request order, and otherwise the error is that of
      the first request that fails. */
  lemma {:induction false} LookupAllContents(lines: seq<seq<string>>, layout: Layout, qs: seq<Request>)
    ensures var r := LookupAll(lines, layout, qs);
            r.Ok? <==> forall k :: 0 <= k < |qs| ==> Lookup(lines, layout, qs[k]).Ok?
    ensures var r := LookupAll(lines, layout, qs);
            r.Ok? ==> |r.value| == |qs|
                      && forall k :: 0 <= k < |qs| ==> r.value[k] == Lookup(lines, layout, qs[k]).value
    ensures var r := LookupAll(lines, layout, qs);
            r.Err? ==> FirstFailing(lines, layout, qs) < |qs|
                       && r == Err(Lookup(lines, layout, qs[FirstFailing(lines, layout, qs)]).error)
  {
    LookupAllValues(lines, layout, qs);
    LookupAllError(lines, layout, qs);
  }

  /** The lookups succeed exactly when every request does, with the values in request order. */
  lemma {:induction false} LookupAllValues(lines: seq<seq<string>>, layout: Layout, qs: seq<Request>)
    ensures var r := LookupAll(lines, layout, qs);
            r.Ok? <==> forall k :: 0 <= k < |qs| ==> Lookup(lines, layout, qs[k]).Ok?
    ensures var r := LookupAll(lines, layout, qs);
            r.Ok? ==> |r.value| == |qs|
                      && forall k :: 0 <= k < |qs| ==> r.value[k] == Lookup(lines, layout, qs[k]).value
  {
    if |qs| > 0 {
      LookupAllValues(lines, layout, qs[1..]);
      assert forall k :: 1 <= k < |qs| ==> qs[1..][k - 1] == qs[k];
      var r := LookupAll(lines, layout, qs);
      if r.Ok? {
        var rest := LookupAll(lines, layout, qs[1..]).value;
        assert r.value == [Lookup(lines, layout, qs[0]).value] + rest;
      }
    }
  }

  /** A failing lookup fails with the error of the first failing request. */
  lemma {:induction false} LookupAllError(lines: seq<seq<string>>, layout: Layout, qs: seq<Request>)
    ensures var r := LookupAll(lines, layout, qs);
            r.Err? ==> FirstFailing(lines, layout, qs) < |qs|
                       && r == Err(Lookup(lines, layout, qs[FirstFailing(lines, layout, qs)]).error)
  {
    if |qs| > 0 {
      LookupAllError(lines, layout, qs[1..]);
      assert forall k :: 1 <= k < |qs| ==> qs[1..][k - 1] == qs[k];
    }
  }

  /** When request `i` is the first that fails, the whole lookup fails with its error. */
  lemma FirstFailure(lines: seq<seq<string>>, layout: Layout, qs: seq<Request>, i: nat)
    requires i < |qs| && Lookup(lines, layout, qs[i]).Err?
    requires forall k :: 0 <= k < i ==> Lookup(lines, layout, qs[k]).Ok?
    ensures LookupAll(lines, layout, qs) == Err(Lookup(lines, layout, qs[i]).error)
  {
    LookupAllContents(lines, layout, qs);
    assert FirstFailing(lines, layout, qs) == i;
  }

  /** The loop shared by `load_convert_total` and `load_convert_bnc`: the table
      is only read, and values are appended in request order. */
  method LoadConvert(lines: seq<seq<string>>, layout: Layout, qs: seq<Request>) returns (r: Result<seq<Option<string>>>)
    ensures r == LookupAll(lines, layout, qs)
    ensures r.Ok? ==> |r.value| == |qs|
                      && forall k :: 0 <= k < |qs| ==>
                           Lookup(lines, layout, qs[k]).Ok? && r.value[k] == Lookup(lines, layout, qs[k]).value
  {
    var column: seq<Option<string>> := [];
    var i := 0;
    while i < |qs|
      invariant 0 <= i <= |qs|
      invariant |column| == i
      invariant forall k :: 0 <= k < i ==> Lookup(lines, layout, qs[k]).Ok? && column[k] == Lookup(lines, layout, qs[k]).value
    {
      var coverage := Lookup(lines, layout, qs[i]);
      if coverage.Err? {
        FirstFailure(lines, layout, qs, i);
        return Err(coverage.error);
      }
      column := column + [coverage.value];
      i := i + 1;
    }
    LookupAllOfValues(lines, layout, qs, column);
    r := Ok(column);
  }

  /** When every request succeeds, the lookups give exactly their values. */
  lemma LookupAllOfValues(lines: seq<seq<string>>, layout: Layout, qs: seq<Request>, column: seq<Option<string>>)
    requires |column| == |qs|
    requires forall k :: 0 <= k < |qs| ==> Lookup(lines, layout, qs[k]).Ok? && column[k] == Lookup(lines, layout, qs[k]).value
    ensures LookupAll(lines, layout, qs) == Ok(column)
  {
    LookupAllValues(lines, layout, qs);
    assert LookupAll(lines, layout, qs).value == column;
  }

  /** The requests of `load_convert_total`: column `coverage` at every position. */
  function TotalRequests(pos: seq<string>): (qs: seq<Request>)
    ensures |qs| == |pos|
    ensures forall k :: 0 <= k < |pos| ==> qs[k] == Request(pos[k], "coverage")
  {
    seq(|pos|, k requires 0 <= k < |pos| => Request(pos[k], "coverage"))
  }

  /** The requests of `load_convert_bnc`: the new nucleotide's column at its position. */
  function BasecntRequests(posMut: seq<MutationLabels.PosNt>): (qs: seq<Request>)
    ensures |qs| == |posMut|
    ensures forall k :: 0 <= k < |posMut| ==> qs[k] == Request(posMut[k].pos, posMut[k].nt)
  {
    seq(|posMut|, k requires 0 <= k < |posMut| => Request(posMut[k].pos, posMut[k].nt))
  }

  /** `load_convert_total`: the coverage of every position, after one header row. */
  method LoadConvertTotal(lines: seq<seq<string>>, pos: seq<string>) returns (r: Result<seq<Option<string>>>)
    ensures r == LookupAll(lines, TotalLayout, TotalRequests(pos))
    ensures r.Ok? ==> |r.value| == |pos|
                      && forall k :: 0 <= k < |pos| ==>
                           Lookup(lines, TotalLayout, Request(pos[k], "coverage")).Ok?
                           && r.value[k] == Lookup(lines, TotalLayout, Request(pos[k], "coverage")).value
    ensures r.Err? ==> r.error == IndexError
  {
    r := LoadConvert(lines, TotalLayout, TotalRequests(pos));
    if r.Err? {
      TotalNeverKeyError(lines, pos);
    }
  }

  /** Column `coverage` always exists, so the total-depth lookup can only fail
      on a missing position. */
  lemma TotalNeverKeyError(lines: seq<seq<string>>, pos: seq<string>)
    ensures LookupAll(lines, TotalLayout, TotalRequests(pos)).Err? ==>
              LookupAll(lines, TotalLayout, TotalRequests(pos)).error == IndexError
  {
    var qs := TotalRequests(pos);
    LookupAllContents(lines, TotalLayout, qs);
    if LookupAll(lines, TotalLayout, qs).Err? {
      var i := FirstFailing(lines, TotalLayout, qs);
      assert qs[i].column in TotalLayout.names;
    }
  }

  /** `load_convert_bnc` (and the older `load_convert`): the count of every
      (position, nucleotide) pair, after three header rows. */
  method LoadConvertBnc(lines: seq<seq<string>>, posMut: seq<MutationLabels.PosNt>) returns (r: Result<seq<Option<string>>>)
    ensures r == LookupAll(lines, BasecntLayout, BasecntRequests(posMut))
    ensures r.Ok? ==> |r.value| == |posMut|
                      && forall k :: 0 <= k < |posMut| ==>
                           Lookup(lines, BasecntLayout, Request(posMut[k].pos, posMut[k].nt)).Ok?
                           && r.value[k] == Lookup(lines, BasecntLayout, Request(posMut[k].pos, posMut[k].nt)).value
  {
    r := LoadConvert(lines, BasecntLayout, BasecntRequests(posMut));
  }

  /** A new nucleotide outside A, C, G and T has no column in the base-count
      table, and its lookup raises `KeyError`. */
  lemma BasecntColumns(pos: string, nt: string, lines: seq<seq<string>>)
    requires |nt| == 1
    ensures (Lookup(lines, BasecntLayout, Request(pos, nt)) == Err(KeyError))
              <==> (nt != "A" && nt != "C" && nt != "G" && nt != "T")
  {
    assert nt != "pos";
  }

  /** Requests for the same position and column give the same value. */
  lemma SameRequestSameValue(lines: seq<seq<string>>, layout: Layout, qs: seq<Request>, i: nat, j: nat)
    requires i < |qs| && j < |qs| && qs[i] == qs[j]
    ensures var r := LookupAll(lines, layout, qs);
            r.Ok? ==> |r.value| == |qs| && r.value[i] == r.value[j]
  {
    LookupAllContents(lines, layout, qs);
  }

  /** Only the data rows matter: the header rows, whatever they hold, never
      change a lookup. */
  lemma {:induction false} HeaderIgnored(h1: seq<seq<string>>, h2: seq<seq<string>>, body: seq<seq<string>>,
                                         layout: Layout, qs: seq<Request>)
    requires |h1| == layout.headerRows && |h2| == layout.headerRows
    ensures LookupAll(h1 + body, layout, qs) == LookupAll(h2 + body, layout, qs)
  {
    if |qs| > 0 {
      LookupIgnoresHeader(h1, h2, body, layout, qs[0]);
      HeaderIgnored(h1, h2, body, layout, qs[1..]);
    }
  }

  /** One lookup does not read the header rows. */
  lemma LookupIgnoresHeader(h1: seq<seq<string>>, h2: seq<seq<string>>, body: seq<seq<string>>,
                            layout: Layout, q: Request)
    requires |h1| == layout.headerRows && |h2| == layout.headerRows
    ensures Lookup(h1 + body, layout, q) == Lookup(h2 + body, layout, q)
  {
    var n := layout.headerRows;
    forall k | n <= k < n + |body| ensures (h1 + body)[k] == body[k - n] == (h2 + body)[k] {}
    FirstRowShift(h1 + body, h2 + body, n, q.pos);
  }

  /** Two tables that agree from row `from` on give the same first row. */
  lemma FirstRowShift(a: seq<seq<string>>, b: seq<seq<string>>, from: nat, pos: string)
    requires |a| == |b| && forall k :: from <= k < |a| ==> a[k] == b[k]
    ensures FirstRow(a, from, pos) == FirstRow(b, from, pos)
    decreases |a| - from
  {
    if from < |a| {
      FirstRowShift(a, b, from + 1, pos);
    }
  }
}
