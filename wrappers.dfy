/** Nullable values, results of calls that may throw, and the .NET exceptions that
    the modelled code lets escape. */
module Wrappers {

  /** A nullable value: `None` plays the part of C#'s `null`. */
  datatype Option<+T> = None | Some(value: T) {

    /** The value, or `default` when null (C#'s `??`). */
    function GetOr(default: T): T {
      match this
      case Some(v) => v
      case None => default
    }
  }

  /** The exceptions thrown by the modelled code or by the library calls it makes. */
  datatype Exception =
    | ArgumentNullException
    | ArgumentException(message: string)
    | ArgumentOutOfRangeException
    | FormatException
    | CryptographicException
    | SecurityTokenMalformedException
    | DbUpdateException

  /** The outcome of a call that may throw: `Failure` carries the exception that escapes. */
  datatype Result<+T> = Success(value: T) | Failure(error: Exception) {

    predicate IsFailure() {
      Failure?
    }

    function PropagateFailure<U>(): Result<U>
      requires Failure?
    {
      Failure(error)
    }

    function Extract(): T
      requires Success?
    {
      value
    }
  }
}

/** Searching the rows of a table in table order. */
module Seqs {
  import opened Wrappers

  /** The index of the first element satisfying `p` (LINQ's `FirstOrDefault`), or `None`. */
  function FirstIndex<T>(s: seq<T>, p: T -> bool): (r: Option<nat>)
    ensures r.Some? ==> r.value < |s| && p(s[r.value])
    ensures r.Some? ==> forall j :: 0 <= j < r.value ==> !p(s[j])
    ensures r.None? <==> forall j :: 0 <= j < |s| ==> !p(s[j])
  {
    if |s| == 0 then None
    else if p(s[0]) then Some(0)
    else match FirstIndex(s[1..], p)
      case None => None
      case Some(k) => Some(k + 1)
  }

  /** An element satisfying `p` at the head is the first one found. */
  lemma HeadFound<T>(s: seq<T>, p: T -> bool)
    requires |s| > 0 && p(s[0])
    ensures FirstIndex(s, p) == Some(0)
  {
  }

  /** When at most one element satisfies `p`, the first one is the only one. */
  lemma FirstIndexOfUnique<T>(s: seq<T>, p: T -> bool, i: nat)
    requires i < |s| && p(s[i])
    requires forall j :: 0 <= j < |s| && j != i ==> !p(s[j])
    ensures FirstIndex(s, p) == Some(i)
  {
  }
}
