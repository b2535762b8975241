/** The vocabulary builder (`createVocabList`): the union of the tokens of all documents. */
module Vocabulary {
  import opened Common

  /** The set of tokens of one document (Python's `set(document)`). */
  function TokenSet(document: seq<string>): set<string>
  {
    set w | w in document
  }

  /** The running union `vocabSet | set(document)` after folding over `docs` from the left. */
  function Tokens(docs: seq<seq<string>>): set<string>
  {
    if docs == [] then {} else Tokens(docs[..|docs| - 1]) + TokenSet(docs[|docs| - 1])
  }

  /** A token is in the union exactly when some document contains it. */
  lemma {:induction false} TokensAreOccurrences(docs: seq<seq<string>>, w: string)
    ensures w in Tokens(docs) <==> exists i :: 0 <= i < |docs| && w in docs[i]
  {
    if docs != [] {
      var init := docs[..|docs| - 1];
      TokensAreOccurrences(init, w);
      if w in Tokens(init) {
        var i :| 0 <= i < |init| && w in init[i];
        assert docs[i] == init[i];
      }
      if exists i :: 0 <= i < |docs| && w in docs[i] {
        var i :| 0 <= i < |docs| && w in docs[i];
        if i < |docs| - 1 {
          assert init[i] == docs[i];
        }
      }
    }
  }

  /**
   * `createVocabList`: folds the documents into a set, then lists the set.
   * Python's `list(set)` has no specified order, so the listing picks the
   * elements in an arbitrary order.
   */
  method CreateVocabList(dataSet: seq<seq<string>>) returns (vocab: seq<string>)
    ensures NoDuplicates(vocab)
    ensures forall w :: w in vocab <==> exists i :: 0 <= i < |dataSet| && w in dataSet[i]
    ensures |vocab| == |Tokens(dataSet)|
  {
    var vocabSet: set<string> := {};
    for k := 0 to |dataSet|
      invariant vocabSet == Tokens(dataSet[..k])
    {
      assert dataSet[..k + 1][..k] == dataSet[..k];
      vocabSet := vocabSet + TokenSet(dataSet[k]);
    }
    assert dataSet[..|dataSet|] == dataSet;

    vocab := [];
    var rest := vocabSet;
    while rest != {}
      invariant NoDuplicates(vocab)
      invariant rest <= vocabSet
      invariant forall w :: w in vocab ==> w in vocabSet && w !in rest
      invariant forall w :: w in vocabSet ==> w in vocab || w in rest
      invariant |vocab| + |rest| == |vocabSet|
      decreases |rest|
    {
      var w :| w in rest;
      vocab := vocab + [w];
      rest := rest - {w};
    }

    forall w
      ensures w in vocab <==> exists i :: 0 <= i < |dataSet| && w in dataSet[i]
    {
      TokensAreOccurrences(dataSet, w);
    }
  }
}
