/** Failure-compatible Option and Result types used throughout the model. */
module Wrappers {

  datatype Option<+T> = None | Some(value: T) {
    predicate IsFailure() {
      None?
    }

    function PropagateFailure<U>(): Option<U>
      requires None?
    {
      None
    }

    function Extract(): T
      requires Some?
    {
      value
    }
  }

  /** A thrown `Error` of the source becomes `Err`; a normal return becomes `Ok`. */
  datatype Result<+T, +E> = Ok(value: T) | Err(error: E) {
    predicate IsFailure() {
      Err?
    }

    function PropagateFailure<U>(): Result<U, E>
      requires Err?
    {
      Err(error)
    }

    function Extract(): T
      requires Ok?
    {
      value
    }
  }

  /**
   * `xs.map(f)` where `f` may throw: the results in order, or the failure of the
   * first element on which `f` fails (the later elements are never visited).
   */
  function MapResult<A, B, E>(f: A -> Result<B, E>, xs: seq<A>): (r: Result<seq<B>, E>)
    ensures r.Ok? <==> forall i :: 0 <= i < |xs| ==> f(xs[i]).Ok?
    ensures r.Ok? ==> |r.value| == |xs| && forall i :: 0 <= i < |xs| ==> r.value[i] == f(xs[i]).value
    ensures r.Err? ==> exists i :: 0 <= i < |xs| && f(xs[i]).Err? && r.error == f(xs[i]).error
                                   && (forall j :: 0 <= j < i ==> f(xs[j]).Ok?)
  {
    if |xs| == 0 then Ok([])
    else
      var head := f(xs[0]);
      if head.Err? then Err(head.error)
      else
        var rest := MapResult(f, xs[1..]);
        if rest.Err? then
          assert forall k :: 0 <= k < |xs| - 1 ==> xs[1..][k] == xs[k + 1];
          Err(rest.error)
        else Ok([head.value] + rest.value)
  }

  /**
   * `xs.find((x) => key(x) === id)` read as a position: the index of the first
   * element whose key is `id`, or nothing when no element has it.
   */
  function FindIndex<T>(xs: seq<T>, key: T -> string, id: string): (r: Option<nat>)
    ensures r.Some? ==> r.value < |xs| && key(xs[r.value]) == id
    ensures r.Some? ==> forall j :: 0 <= j < r.value ==> key(xs[j]) != id
    ensures r.None? <==> forall j :: 0 <= j < |xs| ==> key(xs[j]) != id
  {
    if |xs| == 0 then None
    else if key(xs[0]) == id then Some(0)
    else
      var rest := FindIndex(xs[1..], key, id);
      if rest.Some? then Some(rest.value + 1) else None
  }

  /** The position `FindIndex` reports is the only one before which no element has the key. */
  lemma FindIndexIsFirst<T>(xs: seq<T>, key: T -> string, id: string)
    ensures forall k :: 0 <= k < |xs| && key(xs[k]) == id && (forall j :: 0 <= j < k ==> key(xs[j]) != id) ==>
              FindIndex(xs, key, id) == Some(k)
  {
  }
}
