/** Optional values and results, and the Python exception kinds the model surfaces. */
module Wrappers {

  datatype Option<+T> = None | Some(value: T)

  /** The exception kinds the modelled code raises or catches. */
  datatype Error =
    | IndexError      // a list or string index out of range
    | KeyError        // a missing dictionary key
    | ValueError      // int() or strptime() rejecting its input
    | AttributeError  // an attribute looked up on the wrong object
    | TypeError       // a call with the wrong number of arguments

  datatype Result<+T> = Ok(value: T) | Err(error: Error)

  /** The values of a run of steps, in order, or the error of the first step that fails. */
  function Collect<T>(rs: seq<Result<T>>): (r: Result<seq<T>>)
    ensures r.Ok? <==> forall i :: 0 <= i < |rs| ==> rs[i].Ok?
    ensures r.Ok? ==> |r.value| == |rs| && forall i :: 0 <= i < |rs| ==> r.value[i] == rs[i].value
  {
    if |rs| == 0 then Ok([])
    else
      match Collect(rs[..|rs| - 1])
      case Err(e) => Err(e)
      case Ok(vs) =>
        match rs[|rs| - 1]
        case Err(e) => Err(e)
        case Ok(v) => Ok(vs + [v])
  }

  /** The prefix of a sequence up to its length is the whole sequence. */
  lemma PrefixWhole<T>(s: seq<T>)
    ensures s[..|s|] == s
  {
  }

  /** The prefix one longer is the prefix and the next element. */
  lemma PrefixNext<T>(s: seq<T>, i: nat)
    requires i < |s|
    ensures s[..i + 1] == s[..i] + [s[i]]
  {
  }

  /** A non-empty sequence is all but its last element, then that element. */
  lemma SplitLast<T>(s: seq<T>)
    requires |s| > 0
    ensures s == s[..|s| - 1] + [s[|s| - 1]]
  {
  }

  /** Appending a non-empty sequence is appending all but its last element, then that element. */
  lemma AppendSnoc<T>(a: seq<T>, b: seq<T>)
    requires |b| > 0
    ensures a + b == (a + b[..|b| - 1]) + [b[|b| - 1]]
  {
    assert b == b[..|b| - 1] + [b[|b| - 1]];
  }

  /** When every step up to the `i`-th succeeds, the `i`-th value follows the values before it. */
  lemma CollectNext<T>(rs: seq<Result<T>>, i: nat, vs: seq<T>)
    requires i < |rs| && rs[i].Ok? && Collect(rs[..i]) == Ok(vs)
    ensures Collect(rs[..i + 1]) == Ok(vs + [rs[i].value])
  {
    assert rs[..i + 1][..i] == rs[..i];
  }

  /** When every step before the `i`-th succeeds and the `i`-th fails, its error is the result. */
  lemma {:induction false} CollectFirstError<T>(rs: seq<Result<T>>, i: nat)
    requires i < |rs| && rs[i].Err?
    requires Collect(rs[..i]).Ok?
    ensures Collect(rs) == Err(rs[i].error)
  {
    var n := |rs| - 1;
    if i < n {
      assert rs[..n][..i] == rs[..i];
      CollectFirstError(rs[..n], i);
    } else {
      assert rs[..n] == rs[..i];
    }
  }
}
