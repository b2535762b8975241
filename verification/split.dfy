/**
 * The train/test split of `spamTest`: starting from the indices
 * 0 .. n-1, each round moves the index at a drawn position of the
 * training list to the end of the test list. The random draws are an
 * input: `draws[k]` is the position drawn in round k.
 */
module Split {
  import opened Common

  /** Size of the corpus (ten spam and ten ham mails) and of the held-out set. */
  const CorpusSize: nat := 20
  const TestSize: nat := 5

  predicate Increasing(s: seq<nat>)
  {
    forall i, j :: 0 <= i < j < |s| ==> s[i] < s[j]
  }

  /** Every draw is a position of the training list at its round: `int(random.uniform(0, len(trainingSet)))`. */
  predicate ValidDraws(n: nat, draws: seq<nat>)
  {
    forall k :: 0 <= k < |draws| ==> draws[k] < n - k
  }

  /** The training list after the rounds that drew `draws`: each round deletes the element at the drawn position. */
  function Pool(n: nat, draws: seq<nat>): (pool: seq<nat>)
    requires ValidDraws(n, draws)
    ensures |pool| == n - |draws|
  {
    if draws == [] then seq(n, i requires 0 <= i < n => i)
    else
      var prev := Pool(n, draws[..|draws| - 1]);
      var r := draws[|draws| - 1];
      prev[..r] + prev[r + 1..]
  }

  /** The test list after the rounds that drew `draws`: each round appends the element at the drawn position. */
  function Drawn(n: nat, draws: seq<nat>): (drawn: seq<nat>)
    requires ValidDraws(n, draws)
    ensures |drawn| == |draws|
  {
    if draws == [] then []
    else
      var init := draws[..|draws| - 1];
      Drawn(n, init) + [Pool(n, init)[draws[|draws| - 1]]]
  }

  /** `del s[i]` on an increasing list: the result is increasing and holds every element but `s[i]`. */
  lemma DeleteFromIncreasing(s: seq<nat>, i: nat)
    requires Increasing(s) && i < |s|
    ensures Increasing(s[..i] + s[i + 1..])
    ensures forall x :: x in s[..i] + s[i + 1..] <==> x in s && x != s[i]
  {
    var t := s[..i] + s[i + 1..];
    assert forall k :: 0 <= k < |t| ==> t[k] == if k < i then s[k] else s[k + 1];
    forall x | x in s && x != s[i]
      ensures x in t
    {
      var k :| 0 <= k < |s| && s[k] == x;
      assert t[if k < i then k else k - 1] == x;
    }
  }

  /**
   * Sampling without replacement: the drawn indices are distinct, the
   * remaining ones stay increasing, and together the two lists are a
   * partition of 0 .. n-1.
   */
  lemma {:induction false} SplitIsPartition(n: nat, draws: seq<nat>)
    requires ValidDraws(n, draws)
    ensures NoDuplicates(Drawn(n, draws)) && Increasing(Pool(n, draws))
    ensures forall x :: x in Drawn(n, draws) ==> x !in Pool(n, draws)
    ensures forall x :: x in Pool(n, draws) ==> x < n
    ensures forall x :: x in Drawn(n, draws) ==> x < n
    ensures forall x: nat :: x < n ==> x in Pool(n, draws) || x in Drawn(n, draws)
  {
    var pool, drawn := Pool(n, draws), Drawn(n, draws);
    if draws == [] {
      forall x: nat | x < n
        ensures x in pool
      {
        assert pool[x] == x;
      }
    } else {
      var init := draws[..|draws| - 1];
      SplitIsPartition(n, init);
      var prev, prevDrawn := Pool(n, init), Drawn(n, init);
      var r := draws[|draws| - 1];
      var picked := prev[r];
      DeleteFromIncreasing(prev, r);
      assert pool == prev[..r] + prev[r + 1..];
      assert drawn == prevDrawn + [picked];
      assert picked in prev && picked !in prevDrawn;
      assert forall x :: x in drawn <==> x in prevDrawn || x == picked;
      assert forall x :: x in pool <==> x in prev && x != picked;
    }
  }

  /** The sampling loop, without replacement. */
  method SplitIndices(n: nat, draws: seq<nat>) returns (trainingSet: seq<nat>, testSet: seq<nat>)
    requires ValidDraws(n, draws)
    ensures trainingSet == Pool(n, draws) && testSet == Drawn(n, draws)
    ensures |testSet| == |draws| && |trainingSet| == n - |draws|
    ensures NoDuplicates(testSet) && Increasing(trainingSet)
    ensures forall x :: x in testSet ==> x !in trainingSet
    ensures forall x :: x in trainingSet ==> x < n
    ensures forall x :: x in testSet ==> x < n
    ensures forall x: nat :: x < n ==> x in trainingSet || x in testSet
  {
    trainingSet := seq(n, i requires 0 <= i < n => i);
    testSet := [];
    for k := 0 to |draws|
      invariant trainingSet == Pool(n, draws[..k]) && testSet == Drawn(n, draws[..k])
    {
      assert draws[..k + 1][..k] == draws[..k];
      var randIndex := draws[k];
      testSet := testSet + [trainingSet[randIndex]];
      trainingSet := trainingSet[..randIndex] + trainingSet[randIndex + 1..];
    }
    assert draws[..|draws|] == draws;
    SplitIsPartition(n, draws);
  }

  /** Round k moves the element at position `draws[k]` of the list left by the earlier rounds. */
  lemma {:induction false} DrawnAt(n: nat, draws: seq<nat>, k: nat)
    requires ValidDraws(n, draws) && k < |draws|
    ensures Drawn(n, draws)[k] == Pool(n, draws[..k])[draws[k]]
  {
    var init := draws[..|draws| - 1];
    if k < |draws| - 1 {
      DrawnAt(n, init, k);
      assert init[..k] == draws[..k];
    } else {
      assert init == draws[..k];
    }
  }

  /** Drawing position 3 from 0 .. 4 moves index 3 and leaves the others in order. */
  lemma DrawExample()
    ensures Drawn(5, [3]) == [3] && Pool(5, [3]) == [0, 1, 2, 4]
  {
    assert [3][..0] == [];
    assert Pool(5, []) == [0, 1, 2, 3, 4];
  }

  /** `spamTest`'s use: five draws from the twenty mail indices leave fifteen for training. */
  method SpamTestSplit(draws: seq<nat>) returns (trainingSet: seq<nat>, testSet: seq<nat>)
    requires |draws| == TestSize && ValidDraws(CorpusSize, draws)
    ensures trainingSet == Pool(CorpusSize, draws) && testSet == Drawn(CorpusSize, draws)
    ensures |trainingSet| == 15 && |testSet| == 5
    ensures forall x :: x in testSet ==> x !in trainingSet
    ensures forall x: nat :: x < CorpusSize <==> x in trainingSet || x in testSet
  {
    trainingSet, testSet := SplitIndices(CorpusSize, draws);
  }
}
