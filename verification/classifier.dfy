/**
 * The decision rule of `classifyNB`. The log-probability vectors and the
 * two log-priors (`log(pClass1)` and `log(1 - pClass1)`) are taken as
 * given real numbers; the logarithm itself is not modelled.
 */
module Classifier {
  import opened Common

  /** `sum(vec2Classify * pVec)`: the element-wise product summed. */
  function Dot(v: seq<int>, p: seq<real>): real
    requires |v| == |p|
  {
    if v == [] then 0.0 else Dot(v[..|v| - 1], p[..|p| - 1]) + v[|v| - 1] as real * p[|p| - 1]
  }

  /** The log-space score of one class. */
  function Score(v: seq<int>, pVec: seq<real>, logPrior: real): real
    requires |v| == |pVec|
  {
    Dot(v, pVec) + logPrior
  }

  /** numpy refuses to multiply vectors of different lengths. */
  datatype ClassifyError = DimensionMismatch

  /** `classifyNB`: class 1 only when its score is strictly greater; a tie goes to class 0. */
  function ClassifyNB(v: seq<int>, p0Vec: seq<real>, p1Vec: seq<real>, logPrior0: real, logPrior1: real): (r: Result<int, ClassifyError>)
    ensures r.Success? <==> |v| == |p0Vec| && |v| == |p1Vec|
    ensures r.Success? ==> (r.value == 0 || r.value == 1)
    ensures r.Success? ==> (r.value == 1 <==> Score(v, p1Vec, logPrior1) > Score(v, p0Vec, logPrior0))
  {
    if |v| != |p0Vec| || |v| != |p1Vec| then Failure(DimensionMismatch)
    else
      var p1 := Score(v, p1Vec, logPrior1);
      var p0 := Score(v, p0Vec, logPrior0);
      if p1 > p0 then Success(1) else Success(0)
  }

  /**
   * Exchanging the two classes' parameters flips a strict decision, but an
   * exact tie gives class 0 either way: the rule is not symmetric.
   */
  lemma SwappedClasses(v: seq<int>, p0Vec: seq<real>, p1Vec: seq<real>, logPrior0: real, logPrior1: real)
    requires |v| == |p0Vec| == |p1Vec|
    ensures var s0, s1 := Score(v, p0Vec, logPrior0), Score(v, p1Vec, logPrior1);
      var r, swapped := ClassifyNB(v, p0Vec, p1Vec, logPrior0, logPrior1), ClassifyNB(v, p1Vec, p0Vec, logPrior1, logPrior0);
      (s0 != s1 ==> swapped.value == 1 - r.value) &&
      (s0 == s1 ==> r.value == 0 && swapped.value == 0)
  {
  }

  /** With non-negative entries, a pointwise larger weight vector gives a larger dot product. */
  lemma {:induction false} DotMonotone(v: seq<int>, lo: seq<real>, hi: seq<real>)
    requires |v| == |lo| == |hi|
    requires forall j :: 0 <= j < |v| ==> v[j] >= 0 && lo[j] <= hi[j]
    ensures Dot(v, lo) <= Dot(v, hi)
  {
    if v != [] {
      var n := |v| - 1;
      DotMonotone(v[..n], lo[..n], hi[..n]);
      assert v[n] as real * lo[n] <= v[n] as real * hi[n];
    }
  }

  /**
   * A class whose every log-probability is at least the other's, and whose
   * log-prior is strictly greater, wins on every non-negative document vector.
   */
  lemma DominatingClassWins(v: seq<int>, p0Vec: seq<real>, p1Vec: seq<real>, logPrior0: real, logPrior1: real)
    requires |v| == |p0Vec| == |p1Vec|
    requires forall j :: 0 <= j < |v| ==> v[j] >= 0
    ensures (forall j :: 0 <= j < |v| ==> p0Vec[j] <= p1Vec[j]) && logPrior0 < logPrior1 ==>
      ClassifyNB(v, p0Vec, p1Vec, logPrior0, logPrior1) == Success(1)
    ensures (forall j :: 0 <= j < |v| ==> p1Vec[j] <= p0Vec[j]) && logPrior1 <= logPrior0 ==>
      ClassifyNB(v, p0Vec, p1Vec, logPrior0, logPrior1) == Success(0)
  {
    if forall j :: 0 <= j < |v| ==> p0Vec[j] <= p1Vec[j] {
      DotMonotone(v, p0Vec, p1Vec);
    }
    if forall j :: 0 <= j < |v| ==> p1Vec[j] <= p0Vec[j] {
      DotMonotone(v, p1Vec, p0Vec);
    }
  }
}
