/** Option and Result values, and the exceptions the pipeline can raise. */
module Results {

  datatype Option<+T> = None | Some(value: T)

  /** The Python exceptions that the modelled code lets escape. */
  datatype Error =
    | IndexError             // positional access past the end (`iloc`, `values[k]`, `list[-k]`)
    | KeyError               // a column label that the frame does not have
    | ValueError(msg: string) // an explicit `raise ValueError(...)`
    | AttributeError         // `.group()` called on the `None` of a failed `re.search`
    | LengthMismatch         // `set_index` with a label list of the wrong length
    | ShapeMismatch          // `pd.DataFrame(np.array([]), columns=[...six names...])`
    | NoObjectsToConcatenate // `pd.concat([])`

  datatype Result<+T> = Ok(value: T) | Err(error: Error)

  /** A value of `f` on the first element followed by the values on the rest
      are the values on all. */
  lemma PrependSome<A, B>(f: A -> Option<B>, xs: seq<A>, y: B, ys: seq<B>)
    requires |xs| > 0 && f(xs[0]) == Some(y)
    requires |ys| == |xs| - 1
    requires forall k :: 0 <= k < |ys| ==> f(xs[1..][k]).Some? && ys[k] == f(xs[1..][k]).value
    ensures forall k :: 0 <= k < |xs| ==> f(xs[k]).Some? && ([y] + ys)[k] == f(xs[k]).value
  {
    forall k | 1 <= k < |xs| ensures f(xs[k]).Some? && ([y] + ys)[k] == f(xs[k]).value {
      assert xs[1..][k - 1] == xs[k];
    }
  }

  /** `f` applied to every element, in order, or the error of the first element
      it fails on. */
  function MapAll<A, B>(f: A -> Result<B>, xs: seq<A>): (r: Result<seq<B>>)
    ensures r.Ok? <==> forall k :: 0 <= k < |xs| ==> f(xs[k]).Ok?
    ensures r.Ok? ==> |r.value| == |xs| && forall k :: 0 <= k < |xs| ==> r.value[k] == f(xs[k]).value
  {
    if |xs| == 0 then Ok([])
    else
      assert forall k :: 1 <= k < |xs| ==> xs[1..][k - 1] == xs[k];
      match f(xs[0])
      case Err(e) => Err(e)
      case Ok(y) =>
        match MapAll(f, xs[1..])
        case Err(e) => Err(e)
        case Ok(ys) => Ok([y] + ys)
  }
}
