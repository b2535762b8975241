/**
 * The two vectorisers: `setOfWords2Vec` (presence, 0/1) and
 * `bagOfWords2VecMN` (occurrence counts). Both index the vector by
 * vocabulary position through Python's `list.index`, which reports the
 * first position holding a token.
 */
module Vectorizer {
  import opened Common

  /** Python's `list.index`: the first position of `w` in `vocab`. */
  function IndexOf(vocab: seq<string>, w: string): (i: nat)
    requires w in vocab
    ensures i < |vocab| && vocab[i] == w
    ensures forall j :: 0 <= j < i ==> vocab[j] != w
  {
    if vocab[0] == w then 0 else 1 + IndexOf(vocab[1..], w)
  }

  /** Position `i` holds the first occurrence of its token, so `list.index` can land on it. */
  predicate IsFirst(vocab: seq<string>, i: int)
    requires 0 <= i < |vocab|
  {
    forall j :: 0 <= j < i ==> vocab[j] != vocab[i]
  }

  /** Number of times `w` occurs in `s`. */
  function Occurrences(s: seq<string>, w: string): nat
  {
    if s == [] then 0 else Occurrences(s[..|s| - 1], w) + (if s[|s| - 1] == w then 1 else 0)
  }

  /** The presence vector: 1 at the position `list.index` gives a token of the document, 0 elsewhere. */
  function PresenceVector(vocab: seq<string>, input: seq<string>): (r: seq<int>)
    ensures |r| == |vocab|
  {
    seq(|vocab|, i requires 0 <= i < |vocab| => if IsFirst(vocab, i) && vocab[i] in input then 1 else 0)
  }

  /** The count vector: at the position `list.index` gives a token, the number of its occurrences. */
  function CountVector(vocab: seq<string>, input: seq<string>): (r: seq<int>)
    ensures |r| == |vocab|
  {
    seq(|vocab|, i requires 0 <= i < |vocab| => if IsFirst(vocab, i) then Occurrences(input, vocab[i]) else 0)
  }

  /** `setOfWords2Vec`: sets the entry of every known token of the document to 1. */
  method SetOfWords2Vec(vocab: seq<string>, input: seq<string>) returns (r: seq<int>)
    ensures r == PresenceVector(vocab, input)
  {
    var returnVec := new int[|vocab|](_ => 0);
    for k := 0 to |input|
      invariant forall i :: 0 <= i < |vocab| ==>
        returnVec[i] == if IsFirst(vocab, i) && vocab[i] in input[..k] then 1 else 0
    {
      var word := input[k];
      assert input[..k + 1] == input[..k] + [word];
      if word in vocab {
        returnVec[IndexOf(vocab, word)] := 1;
      }
    }
    assert input[..|input|] == input;
    r := returnVec[..];
  }

  /** The first position of `w` is exactly where `list.index` lands. */
  lemma FirstPositionIsIndex(vocab: seq<string>, i: nat, w: string)
    requires i < |vocab|
    ensures IsFirst(vocab, i) && vocab[i] == w <==> w in vocab && i == IndexOf(vocab, w)
  {
  }

  /** Reading one more token adds one to its own count and nothing to the others. */
  lemma OccurrencesStep(s: seq<string>, k: nat, w: string)
    requires k < |s|
    ensures Occurrences(s[..k + 1], w) == Occurrences(s[..k], w) + (if s[k] == w then 1 else 0)
  {
    assert s[..k + 1][..k] == s[..k];
  }

  /** `bagOfWords2VecMN`: adds one to the entry of every known token of the document. */
  method BagOfWords2VecMN(vocab: seq<string>, input: seq<string>) returns (r: seq<int>)
    ensures r == CountVector(vocab, input)
  {
    var returnVec := new int[|vocab|](_ => 0);
    for k := 0 to |input|
      invariant forall i :: 0 <= i < |vocab| ==>
        returnVec[i] == if IsFirst(vocab, i) then Occurrences(input[..k], vocab[i]) else 0
    {
      var word := input[k];
      ghost var before := returnVec[..];
      if word in vocab {
        var idx := IndexOf(vocab, word);
        returnVec[idx] := returnVec[idx] + 1;
      }
      forall i | 0 <= i < |vocab|
        ensures returnVec[i] == if IsFirst(vocab, i) then Occurrences(input[..k + 1], vocab[i]) else 0
      {
        OccurrencesStep(input, k, vocab[i]);
        FirstPositionIsIndex(vocab, i, word);
      }
    }
    assert input[..|input|] == input;
    r := returnVec[..];
  }

  /** A token occurs at least once exactly when it is in the document. */
  lemma {:induction false} OccurrencesPositiveIffPresent(s: seq<string>, w: string)
    ensures Occurrences(s, w) > 0 <==> w in s
  {
    if s != [] {
      var init := s[..|s| - 1];
      OccurrencesPositiveIffPresent(init, w);
      assert s == init + [s[|s| - 1]];
    }
  }

  /** Over a duplicate-free vocabulary, entry i of the presence vector is 1 exactly when `vocab[i]` is in the document, else 0. */
  lemma PresenceOverDistinctVocab(vocab: seq<string>, input: seq<string>)
    requires NoDuplicates(vocab)
    ensures forall i :: 0 <= i < |vocab| ==>
      PresenceVector(vocab, input)[i] == if vocab[i] in input then 1 else 0
  {
  }

  /** Over a duplicate-free vocabulary, entry i of the count vector is the number of occurrences of `vocab[i]`. */
  lemma CountOverDistinctVocab(vocab: seq<string>, input: seq<string>)
    requires NoDuplicates(vocab)
    ensures forall i :: 0 <= i < |vocab| ==>
      CountVector(vocab, input)[i] == Occurrences(input, vocab[i])
  {
  }

  /** The presence entry is 1 exactly when the count entry is positive, and 0 otherwise. */
  lemma PresenceIsPositiveCount(vocab: seq<string>, input: seq<string>)
    ensures forall i :: 0 <= i < |vocab| ==>
      (PresenceVector(vocab, input)[i] == 1 <==> CountVector(vocab, input)[i] > 0) &&
      (PresenceVector(vocab, input)[i] == 0 <==> CountVector(vocab, input)[i] == 0)
  {
    forall i | 0 <= i < |vocab|
      ensures Occurrences(input, vocab[i]) > 0 <==> vocab[i] in input
    {
      OccurrencesPositiveIffPresent(input, vocab[i]);
    }
  }

  /** A token outside the vocabulary leaves both vectors as they were. */
  lemma UnknownTokenIgnored(vocab: seq<string>, input: seq<string>, w: string)
    requires w !in vocab
    ensures PresenceVector(vocab, input + [w]) == PresenceVector(vocab, input)
    ensures CountVector(vocab, input + [w]) == CountVector(vocab, input)
  {
    assert (input + [w])[..|input|] == input;
  }
}
