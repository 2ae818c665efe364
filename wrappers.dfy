/**
 * Option and Result values shared by the whole model. A Java method that
 * throws is modelled as a function or method returning a `Result`, whose
 * `Err` names the exception class the source raises.
 */
module Wrappers {

  datatype Option<T> = None | Some(value: T)

  /** The exception classes the modelled code raises. */
  datatype Error =
    | IllegalArgument       // IllegalArgumentException (commons-lang Validate)
    | IllegalState          // IllegalStateException
    | UnsupportedOperation  // UnsupportedOperationException
    | IndexOutOfBounds      // IndexOutOfBoundsException / StringIndexOutOfBoundsException
    | TaskCanceled          // TaskCanceledException raised by a progress monitor
    | ClassCast             // ClassCastException
    | NullPointer           // NullPointerException
    | Runtime               // a plain RuntimeException
    | CorruptDocument       // StoryIOException of type CORRUPT_DOCUMENT
    | IncludesRevisionData  // StoryIOException of type INCLUDES_REVISION_DATA
    | UnknownIoError        // StoryIOException of type UNKNOWN_ERROR

  datatype Result<T> = Ok(value: T) | Err(error: Error)
  {
    predicate IsFailure() { Err? }

    function PropagateFailure<U>(): Result<U>
      requires Err?
    {
      Err(error)
    }

    function Extract(): T
      requires Ok?
    {
      value
    }
  }

  /**
   * A `ProgressMonitor` seen from one call: `cancels(k)` says whether the
   * k-th progress report the call makes (counted from 0) raises
   * TaskCanceledException because the user cancelled.
   */
  predicate Uncanceled(cancels: nat -> bool, n: nat)
  {
    forall k: nat :: k < n ==> !cancels(k)
  }

  /** Concatenation regrouped; called where the surrounding proof context makes the solver slow to find it. */
  lemma Associative<T>(a: seq<T>, b: seq<T>, c: seq<T>)
    ensures (a + b) + c == a + (b + c)
  {
  }
}
