/*******************************************************************************
 *  Outcomes of operations that the schema engines may abort with an exception.
 *******************************************************************************/

module Outcomes {

  datatype Option<+T> = None | Some(value: T)

  /** Why an operation produced no value. */
  datatype Failure =
    | Thrown(message: string)    // the program throws an Error or TypeError carrying this message
    | StackExhausted             // the recursion budget ran out (the engine's stack overflow)
    | Unmodelled(what: string)   // the computation leaves the fragment of JavaScript this model covers

  datatype Result<+T> = Ok(value: T) | Fail(failure: Failure)
  {
    predicate IsFailure() {
      Fail?
    }

    function PropagateFailure<U>(): Result<U>
      requires Fail?
    {
      Fail(failure)
    }

    function Extract(): T
      requires Ok?
    {
      value
    }
  }

  /** Concatenation regroups freely; stated once so that proofs about long lists need not re-derive it. */
  lemma ConcatAssociates<T>(x: seq<T>, y: seq<T>, z: seq<T>)
    ensures (x + y) + z == x + (y + z)
  {
  }

  /** A list that starts with `acc + [x]` starts with `acc`, and holds `x` right after it. */
  lemma PrefixOfLonger<T>(acc: seq<T>, x: T, ts: seq<T>)
    requires |acc| < |ts| && ts[..|acc| + 1] == acc + [x]
    ensures ts[..|acc|] == acc && ts[|acc|] == x
  {
    assert ts[..|acc|] == ts[..|acc| + 1][..|acc|];
    assert ts[|acc|] == ts[..|acc| + 1][|acc|];
  }
}
