/** Shared value types of the Naive Bayes model. */
module Common {

  /** Outcome of an operation that the Python code of `bayes-modify.py` aborts with an exception. */
  datatype Result<+T, +E> = Success(value: T) | Failure(error: E)

  /** No element of `s` occurs twice. */
  predicate NoDuplicates<T(==)>(s: seq<T>)
  {
    forall i, j :: 0 <= i < j < |s| ==> s[i] != s[j]
  }
}
