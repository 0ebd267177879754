/** Option and Result, shared by every module of the model. */
module Wrappers {

  /** A value that may be absent: a field that is `undefined`, or a built-in that gives NaN. */
  datatype Option<+T> = None | Some(value: T) {
    function GetOr(default: T): T {
      match this
      case Some(v) => v
      case None => default
    }
  }

  /** The outcome of JavaScript code that can throw: its value, or the error it throws. */
  datatype Result<+T> = Ok(value: T) | Err(error: string)

  /** The message every modelled throw carries: each one is a TypeError in JavaScript. */
  const TypeError: string := "TypeError"
}

/** Order-preserving subsequences, used to state what the filters keep. */
module Seqs {

  /** `a` can be obtained from `b` by deleting elements, without reordering the rest. */
  predicate IsSubsequence<T(==)>(a: seq<T>, b: seq<T>)
    decreases |b|
  {
    if a == [] then true
    else if b == [] then false
    else
      || (a[|a| - 1] == b[|b| - 1] && IsSubsequence(a[..|a| - 1], b[..|b| - 1]))
      || IsSubsequence(a, b[..|b| - 1])
  }

  /** Keeping the next element of `b`. */
  lemma SubsequenceKeep<T>(a: seq<T>, b: seq<T>, x: T)
    requires IsSubsequence(a, b)
    ensures IsSubsequence(a + [x], b + [x])
  {
    assert (a + [x])[..|a|] == a;
    assert (b + [x])[..|b|] == b;
  }

  /** Dropping the next element of `b`. */
  lemma SubsequenceDrop<T>(a: seq<T>, b: seq<T>, x: T)
    requires IsSubsequence(a, b)
    ensures IsSubsequence(a, b + [x])
  {
    assert (b + [x])[..|b|] == b;
  }
}
