/**
 * The counting part of `trainNB0`: Laplace-smoothed per-class numerators
 * (start at 1) and denominators (start at 2), and the class-1 prior.
 * The element-wise logarithm of numerator / denominator is left to the
 * caller; the classifier takes its result as given real numbers.
 */
module Trainer {
  import opened Common

  /** Python's `sum` over a row or a label list. */
  function Sum(s: seq<int>): int
  {
    if s == [] then 0 else Sum(s[..|s| - 1]) + s[|s| - 1]
  }

  /** `trainNB0` sends a row to class 1 when its label is 1 and to class 0 otherwise. */
  predicate InClass(category: int, spam: bool)
  {
    (category == 1) == spam
  }

  /** Number of labels equal to 1. */
  function SpamRows(labels: seq<int>): (n: nat)
    ensures n <= |labels|
  {
    if labels == [] then 0 else SpamRows(labels[..|labels| - 1]) + (if labels[|labels| - 1] == 1 then 1 else 0)
  }

  /** Every matrix entry is non-negative (true of presence and count vectors). */
  predicate NonNegative(matrix: seq<seq<int>>)
  {
    forall i, j :: 0 <= i < |matrix| && 0 <= j < |matrix[i]| ==> matrix[i][j] >= 0
  }

  /** Every one of the first `n` rows has column `j`. */
  predicate HasColumn(matrix: seq<seq<int>>, n: nat, j: nat)
    requires n <= |matrix|
  {
    forall i :: 0 <= i < n ==> j < |matrix[i]|
  }

  /** Sum of column `j` over the first `n` rows that belong to class `spam`. */
  function ColumnCount(matrix: seq<seq<int>>, labels: seq<int>, spam: bool, j: nat, n: nat): int
    requires n <= |matrix| && n <= |labels| && HasColumn(matrix, n, j)
  {
    if n == 0 then 0
    else ColumnCount(matrix, labels, spam, j, n - 1) + (if InClass(labels[n - 1], spam) then matrix[n - 1][j] else 0)
  }

  /** Sum of the row sums of the first `n` rows that belong to class `spam`. */
  function WordTotal(matrix: seq<seq<int>>, labels: seq<int>, spam: bool, n: nat): int
    requires n <= |matrix| && n <= |labels|
  {
    if n == 0 then 0
    else WordTotal(matrix, labels, spam, n - 1) + (if InClass(labels[n - 1], spam) then Sum(matrix[n - 1]) else 0)
  }

  datatype TrainError =
    | EmptyTrainingSet   // `trainMatrix[0]` of an empty matrix raises
    | DimensionMismatch  // a missing label, or a row whose length differs from the first row's

  /** What `trainNB0` computes before taking logarithms. */
  datatype Counts = Counts(p0Num: seq<int>, p1Num: seq<int>, p0Denom: int, p1Denom: int, pAbusive: real)
  {
    function Num(spam: bool): seq<int> { if spam then p1Num else p0Num }
    function Denom(spam: bool): int { if spam then p1Denom else p0Denom }
  }

  /** At least one row, a label for every row, and every row as long as the first. */
  predicate WellShaped(matrix: seq<seq<int>>, labels: seq<int>)
  {
    |matrix| > 0 && |labels| >= |matrix| &&
    forall i :: 0 <= i < |matrix| ==> |matrix[i]| == |matrix[0]|
  }

  /** Smoothed numerators of class `spam`: 1 plus the column sums over that class's rows. */
  function Numerators(matrix: seq<seq<int>>, labels: seq<int>, spam: bool): (r: seq<int>)
    requires WellShaped(matrix, labels)
    ensures |r| == |matrix[0]|
  {
    seq(|matrix[0]|, j requires 0 <= j < |matrix[0]| => 1 + ColumnCount(matrix, labels, spam, j, |matrix|))
  }

  /** The specification of `trainNB0`'s counts. */
  function Train(matrix: seq<seq<int>>, labels: seq<int>): Result<Counts, TrainError>
  {
    if |matrix| == 0 then Failure(EmptyTrainingSet)
    else if !WellShaped(matrix, labels) then Failure(DimensionMismatch)
    else Success(Counts(
      Numerators(matrix, labels, false), Numerators(matrix, labels, true),
      2 + WordTotal(matrix, labels, false, |matrix|), 2 + WordTotal(matrix, labels, true, |matrix|),
      Sum(labels) as real / |matrix| as real))
  }

  /** `trainNB0` up to the logarithms: the accumulation loop over the training rows. */
  method TrainNB0(trainMatrix: seq<seq<int>>, trainCategory: seq<int>) returns (r: Result<Counts, TrainError>)
    ensures r == Train(trainMatrix, trainCategory)
  {
    if |trainMatrix| == 0 {
      return Failure(EmptyTrainingSet);
    }
    var numTrainDocs := |trainMatrix|;
    var numWords := |trainMatrix[0]|;
    var pAbusive := Sum(trainCategory) as real / numTrainDocs as real;
    var p0Num := new int[numWords](_ => 1);
    var p1Num := new int[numWords](_ => 1);
    var p0Denom, p1Denom := 2, 2;
    for i := 0 to numTrainDocs
      invariant i <= |trainCategory|
      invariant forall k :: 0 <= k < i ==> |trainMatrix[k]| == numWords
      invariant forall j :: 0 <= j < numWords ==> p0Num[j] == 1 + ColumnCount(trainMatrix, trainCategory, false, j, i)
      invariant forall j :: 0 <= j < numWords ==> p1Num[j] == 1 + ColumnCount(trainMatrix, trainCategory, true, j, i)
      invariant p0Denom == 2 + WordTotal(trainMatrix, trainCategory, false, i)
      invariant p1Denom == 2 + WordTotal(trainMatrix, trainCategory, true, i)
    {
      if i >= |trainCategory| || |trainMatrix[i]| != numWords {
        return Failure(DimensionMismatch);
      }
      var row := trainMatrix[i];
      if trainCategory[i] == 1 {
        forall j | 0 <= j < numWords {
          p1Num[j] := p1Num[j] + row[j];
        }
        p1Denom := p1Denom + Sum(row);
      } else {
        forall j | 0 <= j < numWords {
          p0Num[j] := p0Num[j] + row[j];
        }
        p0Denom := p0Denom + Sum(row);
      }
    }
    assert p0Num[..] == Numerators(trainMatrix, trainCategory, false);
    assert p1Num[..] == Numerators(trainMatrix, trainCategory, true);
    r := Success(Counts(p0Num[..], p1Num[..], p0Denom, p1Denom, pAbusive));
  }

  // ---------------------------------------------------------------------
  // Smoothing bounds: each ratio numerator / denominator lies in (0, 1).
  // ---------------------------------------------------------------------

  lemma {:induction false} SumNonNegative(s: seq<int>)
    requires forall k :: 0 <= k < |s| ==> s[k] >= 0
    ensures Sum(s) >= 0
  {
    if s != [] {
      SumNonNegative(s[..|s| - 1]);
    }
  }

  /** In a non-negative row no entry exceeds the row sum. */
  lemma {:induction false} EntryAtMostSum(s: seq<int>, j: nat)
    requires j < |s| && forall k :: 0 <= k < |s| ==> s[k] >= 0
    ensures 0 <= s[j] <= Sum(s)
  {
    var init := s[..|s| - 1];
    if j < |s| - 1 {
      EntryAtMostSum(init, j);
    } else {
      SumNonNegative(init);
    }
  }

  /** A class's column sum is between 0 and that class's word total. */
  lemma {:induction false} ColumnWithinTotal(matrix: seq<seq<int>>, labels: seq<int>, spam: bool, j: nat, n: nat)
    requires n <= |matrix| && n <= |labels| && HasColumn(matrix, n, j) && NonNegative(matrix)
    ensures 0 <= ColumnCount(matrix, labels, spam, j, n) <= WordTotal(matrix, labels, spam, n)
  {
    if n > 0 {
      ColumnWithinTotal(matrix, labels, spam, j, n - 1);
      EntryAtMostSum(matrix[n - 1], j);
    }
  }

  lemma {:induction false} TotalNonNegative(matrix: seq<seq<int>>, labels: seq<int>, spam: bool, n: nat)
    requires n <= |matrix| && n <= |labels| && NonNegative(matrix)
    ensures WordTotal(matrix, labels, spam, n) >= 0
  {
    if n > 0 {
      TotalNonNegative(matrix, labels, spam, n - 1);
      SumNonNegative(matrix[n - 1]);
    }
  }

  /** With non-negative entries every smoothed numerator satisfies 1 <= num < denom, and denom >= 2. */
  lemma SmoothedCountsBounded(matrix: seq<seq<int>>, labels: seq<int>, spam: bool)
    requires Train(matrix, labels).Success? && NonNegative(matrix)
    ensures var c := Train(matrix, labels).value;
      |c.Num(spam)| == |matrix[0]| && c.Denom(spam) >= 2 &&
      forall j :: 0 <= j < |c.Num(spam)| ==> 1 <= c.Num(spam)[j] < c.Denom(spam)
  {
    TotalNonNegative(matrix, labels, spam, |matrix|);
    forall j | 0 <= j < |matrix[0]|
      ensures 0 <= ColumnCount(matrix, labels, spam, j, |matrix|) <= WordTotal(matrix, labels, spam, |matrix|)
    {
      ColumnWithinTotal(matrix, labels, spam, j, |matrix|);
    }
  }

  /** A quotient of reals 0 <= a <= b with b > 0 lies in [0, 1], strictly inside when 0 < a < b. */
  lemma Fraction(a: real, b: real)
    requires 0.0 <= a <= b && b > 0.0
    ensures 0.0 <= a / b <= 1.0
    ensures 0.0 < a < b ==> 0.0 < a / b < 1.0
  {
  }

  /** Hence every ratio handed to the logarithm lies strictly between 0 and 1: its log is defined and negative. */
  lemma SmoothedRatiosInUnitInterval(matrix: seq<seq<int>>, labels: seq<int>, spam: bool)
    requires Train(matrix, labels).Success? && NonNegative(matrix)
    ensures var c := Train(matrix, labels).value;
      c.Denom(spam) > 0 &&
      forall j :: 0 <= j < |c.Num(spam)| ==> 0.0 < c.Num(spam)[j] as real / c.Denom(spam) as real < 1.0
  {
    SmoothedCountsBounded(matrix, labels, spam);
    var c := Train(matrix, labels).value;
    forall j | 0 <= j < |c.Num(spam)|
      ensures 0.0 < c.Num(spam)[j] as real / c.Denom(spam) as real < 1.0
    {
      Fraction(c.Num(spam)[j] as real, c.Denom(spam) as real);
    }
  }

  // ---------------------------------------------------------------------
  // The prior.
  // ---------------------------------------------------------------------

  /** For 0/1 labels the label sum counts the rows labelled 1. */
  lemma {:induction false} SumOfBinaryLabels(labels: seq<int>)
    requires forall i :: 0 <= i < |labels| ==> labels[i] == 0 || labels[i] == 1
    ensures Sum(labels) == SpamRows(labels)
  {
    if labels != [] {
      SumOfBinaryLabels(labels[..|labels| - 1]);
    }
  }

  /** With one 0/1 label per row the prior is the fraction of rows labelled 1, a number in [0, 1]. */
  lemma PriorIsSpamFraction(matrix: seq<seq<int>>, labels: seq<int>)
    requires Train(matrix, labels).Success? && |labels| == |matrix|
    requires forall i :: 0 <= i < |labels| ==> labels[i] == 0 || labels[i] == 1
    ensures var p := Train(matrix, labels).value.pAbusive;
      p == SpamRows(labels) as real / |matrix| as real && 0.0 <= p <= 1.0
  {
    SumOfBinaryLabels(labels);
    Fraction(SpamRows(labels) as real, |matrix| as real);
  }

  /** When every label equals `c`, the labels equal to 1 are all of them or none. */
  lemma {:induction false} UniformSpamRows(labels: seq<int>, c: int)
    requires forall i :: 0 <= i < |labels| ==> labels[i] == c
    ensures SpamRows(labels) == if c == 1 then |labels| else 0
  {
    if labels != [] {
      UniformSpamRows(labels[..|labels| - 1], c);
    }
  }

  /** Training rows that all carry the same 0/1 label give a prior of exactly 0 or 1. */
  lemma SingleClassPrior(matrix: seq<seq<int>>, labels: seq<int>)
    requires Train(matrix, labels).Success? && |labels| == |matrix|
    requires forall i :: 0 <= i < |labels| ==> labels[i] == 0 || labels[i] == 1
    requires forall i :: 0 <= i < |labels| ==> labels[i] == labels[0]
    ensures Train(matrix, labels).value.pAbusive == if labels[0] == 1 then 1.0 else 0.0
  {
    PriorIsSpamFraction(matrix, labels);
    UniformSpamRows(labels, labels[0]);
    var n := |matrix| as real;
    if labels[0] == 1 {
      assert SpamRows(labels) as real / n == n / n == 1.0;
    } else {
      assert SpamRows(labels) as real / n == 0.0 / n == 0.0;
    }
  }

  // ---------------------------------------------------------------------
  // Numerators and denominator agree: sum of numerators = width + denom - 2.
  // ---------------------------------------------------------------------

  function Plus(a: seq<int>, b: seq<int>): (r: seq<int>)
    requires |a| == |b|
  {
    seq(|a|, j requires 0 <= j < |a| => a[j] + b[j])
  }

  lemma {:induction false} SumOfPlus(a: seq<int>, b: seq<int>)
    requires |a| == |b|
    ensures Sum(Plus(a, b)) == Sum(a) + Sum(b)
  {
    if a != [] {
      var n := |a| - 1;
      SumOfPlus(a[..n], b[..n]);
      assert Plus(a, b)[..n] == Plus(a[..n], b[..n]);
    }
  }

  lemma {:induction false} SumOfIncremented(a: seq<int>)
    ensures Sum(seq(|a|, j requires 0 <= j < |a| => 1 + a[j])) == |a| + Sum(a)
  {
    if a != [] {
      var n := |a| - 1;
      SumOfIncremented(a[..n]);
      assert seq(|a|, j requires 0 <= j < |a| => 1 + a[j])[..n]
          == seq(n, j requires 0 <= j < n => 1 + a[..n][j]);
    }
  }

  /** Column sums of class `spam` over the first `n` rows, all `width` columns. */
  function ColumnCounts(matrix: seq<seq<int>>, labels: seq<int>, spam: bool, width: nat, n: nat): (r: seq<int>)
    requires n <= |matrix| && n <= |labels|
    requires forall i :: 0 <= i < n ==> |matrix[i]| == width
    ensures |r| == width
  {
    seq(width, j requires 0 <= j < width => ColumnCount(matrix, labels, spam, j, n))
  }

  /** Summing the column sums gives the word total: the two loops of accumulation agree. */
  lemma {:induction false} ColumnCountsSumToTotal(matrix: seq<seq<int>>, labels: seq<int>, spam: bool, width: nat, n: nat)
    requires n <= |matrix| && n <= |labels|
    requires forall i :: 0 <= i < n ==> |matrix[i]| == width
    ensures Sum(ColumnCounts(matrix, labels, spam, width, n)) == WordTotal(matrix, labels, spam, n)
  {
    if n == 0 {
      var zero := ColumnCounts(matrix, labels, spam, width, 0);
      if width > 0 {
        assert zero[..width - 1] == ColumnCounts(matrix, labels, spam, width - 1, 0);
        ColumnCountsSumToTotal(matrix, labels, spam, width - 1, 0);
      }
    } else {
      ColumnCountsSumToTotal(matrix, labels, spam, width, n - 1);
      var before := ColumnCounts(matrix, labels, spam, width, n - 1);
      if InClass(labels[n - 1], spam) {
        assert ColumnCounts(matrix, labels, spam, width, n) == Plus(before, matrix[n - 1]);
        SumOfPlus(before, matrix[n - 1]);
      } else {
        assert ColumnCounts(matrix, labels, spam, width, n) == before;
      }
    }
  }

  /** The numerators of a class sum to its denominator minus 2 plus one per vocabulary word. */
  lemma NumeratorsSumToDenominator(matrix: seq<seq<int>>, labels: seq<int>, spam: bool)
    requires Train(matrix, labels).Success?
    ensures var c := Train(matrix, labels).value;
      Sum(c.Num(spam)) == |c.Num(spam)| + c.Denom(spam) - 2
  {
    var width := |matrix[0]|;
    var cols := ColumnCounts(matrix, labels, spam, width, |matrix|);
    ColumnCountsSumToTotal(matrix, labels, spam, width, |matrix|);
    SumOfIncremented(cols);
    assert Numerators(matrix, labels, spam) == seq(|cols|, j requires 0 <= j < |cols| => 1 + cols[j]);
  }

  // ---------------------------------------------------------------------
  // Rows of the other class contribute nothing.
  // ---------------------------------------------------------------------

  lemma {:induction false} ColumnIgnoresOtherRows(matrix: seq<seq<int>>, other: seq<seq<int>>, labels: seq<int>, spam: bool, j: nat, n: nat)
    requires n <= |matrix| && n <= |other| && n <= |labels|
    requires HasColumn(matrix, n, j) && HasColumn(other, n, j)
    requires forall i :: 0 <= i < n && InClass(labels[i], spam) ==> other[i] == matrix[i]
    ensures ColumnCount(matrix, labels, spam, j, n) == ColumnCount(other, labels, spam, j, n)
  {
    if n > 0 {
      ColumnIgnoresOtherRows(matrix, other, labels, spam, j, n - 1);
    }
  }

  lemma {:induction false} TotalIgnoresOtherRows(matrix: seq<seq<int>>, other: seq<seq<int>>, labels: seq<int>, spam: bool, n: nat)
    requires n <= |matrix| && n <= |other| && n <= |labels|
    requires forall i :: 0 <= i < n && InClass(labels[i], spam) ==> other[i] == matrix[i]
    ensures WordTotal(matrix, labels, spam, n) == WordTotal(other, labels, spam, n)
  {
    if n > 0 {
      TotalIgnoresOtherRows(matrix, other, labels, spam, n - 1);
    }
  }

  /**
   * Two training matrices that agree on the rows of class `spam` give that
   * class the same numerators and denominator, whatever the rows of the
   * other class hold.
   */
  lemma OtherClassRowsIgnored(matrix: seq<seq<int>>, other: seq<seq<int>>, labels: seq<int>, spam: bool)
    requires Train(matrix, labels).Success? && Train(other, labels).Success?
    requires |other| == |matrix| && |other[0]| == |matrix[0]|
    requires forall i :: 0 <= i < |matrix| && InClass(labels[i], spam) ==> other[i] == matrix[i]
    ensures Train(matrix, labels).value.Num(spam) == Train(other, labels).value.Num(spam)
    ensures Train(matrix, labels).value.Denom(spam) == Train(other, labels).value.Denom(spam)
  {
    var n := |matrix|;
    TotalIgnoresOtherRows(matrix, other, labels, spam, n);
    forall j | 0 <= j < |matrix[0]|
      ensures ColumnCount(matrix, labels, spam, j, n) == ColumnCount(other, labels, spam, j, n)
    {
      ColumnIgnoresOtherRows(matrix, other, labels, spam, j, n);
    }
  }

  // ---------------------------------------------------------------------
  // A class with no training rows keeps its initial smoothing.
  // ---------------------------------------------------------------------

  lemma {:induction false} EmptyClassColumnZero(matrix: seq<seq<int>>, labels: seq<int>, spam: bool, j: nat, n: nat)
    requires n <= |matrix| && n <= |labels| && HasColumn(matrix, n, j)
    requires forall i :: 0 <= i < n ==> !InClass(labels[i], spam)
    ensures ColumnCount(matrix, labels, spam, j, n) == 0
  {
    if n > 0 {
      EmptyClassColumnZero(matrix, labels, spam, j, n - 1);
    }
  }

  lemma {:induction false} EmptyClassTotalZero(matrix: seq<seq<int>>, labels: seq<int>, spam: bool, n: nat)
    requires n <= |matrix| && n <= |labels|
    requires forall i :: 0 <= i < n ==> !InClass(labels[i], spam)
    ensures WordTotal(matrix, labels, spam, n) == 0
  {
    if n > 0 {
      EmptyClassTotalZero(matrix, labels, spam, n - 1);
    }
  }

  /** When no row belongs to class `spam`, its numerators stay 1 and its denominator stays 2. */
  lemma AbsentClassKeepsSmoothing(matrix: seq<seq<int>>, labels: seq<int>, spam: bool)
    requires Train(matrix, labels).Success?
    requires forall i :: 0 <= i < |matrix| ==> !InClass(labels[i], spam)
    ensures var c := Train(matrix, labels).value;
      c.Denom(spam) == 2 && forall j :: 0 <= j < |c.Num(spam)| ==> c.Num(spam)[j] == 1
  {
    var n := |matrix|;
    forall j | 0 <= j < |matrix[0]|
      ensures ColumnCount(matrix, labels, spam, j, n) == 0
    {
      EmptyClassColumnZero(matrix, labels, spam, j, n);
    }
    EmptyClassTotalZero(matrix, labels, spam, n);
  }
}
