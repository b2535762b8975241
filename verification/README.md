# Naive Bayes spam filter — a Dafny model

This project models the integer and sequence logic of `bayes-modify.py`, a
small two-class Naive Bayes text classifier (spam = class 1, ham = class 0).
It covers these parts:

- **Vocabulary builder** (`createVocabList`, module `Vocabulary`). It folds
  the token sets of all documents into one set, then lists that set.
  Python's `list(set)` has no fixed order, so the model picks the elements in
  an arbitrary order.
- **Vectorisers** (`setOfWords2Vec` and `bagOfWords2VecMN`, module
  `Vectorizer`). Each fills a zero vector, one entry per vocabulary word, in
  a loop over the document. A token is located with `list.index`, which
  returns the *first* position holding it. The specification functions
  `PresenceVector` and `CountVector` say this with the predicate `IsFirst`,
  so the model also covers a vocabulary that holds a word twice.
- **Trainer** (the counting part of `trainNB0`, module `Trainer`). The
  numerators of each class start at 1 and its denominator at 2. Each row is
  added element-wise into the numerators of its class: class 1 when its
  label is 1, class 0 for any other label. The row's sum is added to that
  class's denominator. The prior is `sum(labels) / len(rows)`. The method
  uses arrays, and numpy's element-wise `+=` becomes a `forall` statement.
  The method is proved equal to the pure specification `Train`, and the
  lemmas about `Train` state what the counts mean.
- **Classifier** (`classifyNB`, module `Classifier`). The score of a class is
  `dot(v, logProbs) + logPrior`, computed over `real`. The model predicts 1
  only when the class-1 score is strictly greater, so a tie goes to 0. The
  log-probability vectors and the two log-priors are inputs.
- **Train/test split** (lines 120-124 of `spamTest`, module `Split`). Five
  times, the loop moves the index at a randomly drawn position from the
  training list to the test list. The drawn positions are an input sequence
  `draws`. `ValidDraws` states what `int(random.uniform(0, len(trainingSet)))`
  guarantees: draw k lies below the training list's length at round k.

Errors that the source raises as exceptions become `Result` values:

- An empty training matrix fails at `trainMatrix[0]` (`EmptyTrainingSet`).
- A missing label, or a row whose length differs from the first row's, is a
  `DimensionMismatch`.
- `classifyNB` on vectors of different lengths is a `DimensionMismatch`.

Points about the code that are easy to misread:

- The prior is the *sum* of the label list, taken over the whole list, even
  where the list is longer than the matrix. `PriorIsSpamFraction` shows
  that, given one 0/1 label per row, this is the fraction of rows labelled 1.
- The prior can reach 0 or 1. Given one 0/1 label per row (as `spamTest`
  passes), training rows that all have the same label give a prior of
  exactly 0 or 1 (`SingleClassPrior`). `AbsentClassKeepsSmoothing` gives the
  counts of the missing class. With a longer label list, or a label such as
  2, the prior no longer follows the rows' classes, because it sums the
  labels while the rows are split by `label == 1`.
- Tokens are located with `list.index`, a linear search for the first match.
  There is no precomputed token-to-index map.
- The smoothing denominator starts at 2 whatever the vocabulary size.
  `NumeratorsSumToDenominator` shows that a class's numerators sum to its
  denominator minus 2 plus one per vocabulary word. So the smoothed ratios
  of a class sum to 1 only for a two-word vocabulary.

## Model

| member | source | states |
|---|---|---|
| `Vocabulary.CreateVocabList` | bayes-modify.py:11-15 | The result has no duplicates. A word is in it exactly when some input document contains it. Its length is the size of the union of the token sets, so empty input gives an empty list. |
| `Vocabulary.TokensAreOccurrences` | bayes-modify.py:12-14 | The running union of `vocabSet` with `set(document)` contains a word exactly when some document contains it. |
| `Vectorizer.IndexOf` | bayes-modify.py:23 | `list.index` returns a position holding the word, and no earlier position holds it. |
| `Vectorizer.PresenceVector` | bayes-modify.py:20 | The presence vector has one entry per vocabulary position. |
| `Vectorizer.CountVector` | bayes-modify.py:37 | The count vector has one entry per vocabulary position. |
| `Vectorizer.SetOfWords2Vec` | bayes-modify.py:19-25 | The array filled by the loop is the presence vector. Entry i is 1 exactly when `vocab[i]` is in the document and i is its first position, and 0 otherwise. |
| `Vectorizer.BagOfWords2VecMN` | bayes-modify.py:36-41 | The array filled by the loop is the count vector. At the first position of each vocabulary word, the entry is the number of occurrences of that word in the document. Every other entry is 0. |
| `Vectorizer.PresenceOverDistinctVocab` | bayes-modify.py:20-23 | For a duplicate-free vocabulary, presence entry i is 1 exactly when `vocab[i]` occurs in the document, and 0 otherwise. |
| `Vectorizer.CountOverDistinctVocab` | bayes-modify.py:37-40 | For a duplicate-free vocabulary, count entry i equals the number of occurrences of `vocab[i]`. |
| `Vectorizer.OccurrencesPositiveIffPresent` | bayes-modify.py:38-40 | A word's occurrence count is positive exactly when the word is in the document. |
| `Vectorizer.PresenceIsPositiveCount` | bayes-modify.py:19-41 | Presence entry i is 1 exactly when count entry i is positive, and 0 exactly when it is 0. |
| `Vectorizer.UnknownTokenIgnored` | bayes-modify.py:21-24 | Appending a token that is not in the vocabulary leaves both vectors unchanged. |
| `Trainer.TrainNB0` | bayes-modify.py:54-66 | Empty input is `EmptyTrainingSet`, and a missing label or a ragged row is `DimensionMismatch`. Otherwise the result is `Train`: numerator j of class c is 1 plus the sum of column j over the rows of class c; the class-c denominator is 2 plus the sum of those rows' sums; the prior is the label sum divided by the row count. |
| `Trainer.SpamRows` | bayes-modify.py:57 | The number of rows labelled 1 never exceeds the number of labels. |
| `Trainer.SumOfBinaryLabels` | bayes-modify.py:57 | For 0/1 labels, `sum(trainCategory)` is the number of rows labelled 1. |
| `Trainer.PriorIsSpamFraction` | bayes-modify.py:55-57 | With one 0/1 label per row, the prior is the number of rows labelled 1 divided by the row count, and it lies in [0, 1]. |
| `Trainer.UniformSpamRows` | bayes-modify.py:57 | When every label is the same value, the number of labels equal to 1 is all of them (value 1) or none. |
| `Trainer.SingleClassPrior` | bayes-modify.py:55-57 | With one 0/1 label per row and every label equal, the prior is exactly 1.0 when that label is 1 and 0.0 when it is 0. |
| `Trainer.SmoothedCountsBounded` | bayes-modify.py:58-66 | With non-negative entries, each class's denominator is at least 2. Every numerator satisfies 1 <= num[j] < denom, and there is one numerator per column. |
| `Trainer.SmoothedRatiosInUnitInterval` | bayes-modify.py:58-68 | With non-negative entries, every ratio passed to `np.log` lies strictly between 0 and 1, so its logarithm is defined and negative. |
| `Trainer.ColumnCountsSumToTotal` | bayes-modify.py:62-66 | The element-wise row additions and the row-sum additions agree: the per-column sums of a class add up to that class's word total. |
| `Trainer.NumeratorsSumToDenominator` | bayes-modify.py:58-66 | A class's numerators sum to the number of vocabulary words plus its denominator minus 2. |
| `Trainer.OtherClassRowsIgnored` | bayes-modify.py:60-66 | Two matrices that agree on the rows of class c give class c the same numerators and denominator. Rows of the other class contribute nothing. |
| `Trainer.AbsentClassKeepsSmoothing` | bayes-modify.py:58-66 | A class with no training rows keeps every numerator at 1 and its denominator at 2. |
| `Classifier.ClassifyNB` | bayes-modify.py:81-87 | Vectors of different lengths are refused. Otherwise the result is 0 or 1, and it is 1 exactly when `dot(v, p1Vec) + logPrior1 > dot(v, p0Vec) + logPrior0`. |
| `Classifier.SwappedClasses` | bayes-modify.py:84-87 | Exchanging the two classes' parameters flips every strict decision. An exact tie gives class 0 both ways. |
| `Classifier.DotMonotone` | bayes-modify.py:82-83 | For a non-negative document vector, a pointwise larger log-probability vector gives a score at least as large. |
| `Classifier.DominatingClassWins` | bayes-modify.py:82-87 | For a non-negative vector, class 1 wins when each of its log-probabilities is at least class 0's and its log-prior is strictly larger. Class 0 wins in the mirrored case, ties included. |
| `Split.DeleteFromIncreasing` | bayes-modify.py:124 | `del` at a position of an increasing list keeps it increasing and removes exactly the element at that position. |
| `Split.Pool` | bayes-modify.py:120-124 | The training list left after the given draws has n minus the number of draws entries. |
| `Split.Drawn` | bayes-modify.py:120-124 | The test list built by the given draws has one entry per draw. |
| `Split.SplitIsPartition` | bayes-modify.py:120-124 | The drawn indices are distinct, and the remaining indices stay increasing. The two lists are disjoint, and together they are exactly {0..n-1}. |
| `Split.SplitIndices` | bayes-modify.py:120-124 | The loop's training list is `Pool(n, draws)` and its test list is `Drawn(n, draws)`. After k valid draws from 0..n-1, the test list holds k distinct indices and the training list holds the other n-k in increasing order. The two lists are disjoint, and together they are exactly {0..n-1}. |
| `Split.DrawnAt` | bayes-modify.py:122-124 | Round k appends the element at position `draws[k]` of the training list that the earlier rounds left. |
| `Split.DrawExample` | bayes-modify.py:123-124 | Drawing position 3 from 0..4 moves index 3 to the test list and leaves [0, 1, 2, 4] for training. |
| `Split.SpamTestSplit` | bayes-modify.py:120-121 | With the program's constants (20 mails, 5 draws), the lists are `Pool` and `Drawn` of the draws. The training list has 15 indices and the test list has 5. They are disjoint and together are {0..19}. |

## Left out

- Reading the mail files (gb2312 decoding, the loop over files 1..10) is I/O and is not modelled.
- `textParse` is not modelled. It depends on the `jieba` segmentation library, whose behaviour is not part of this model, and its regular-expression step means little without it.
- `np.log`, the float divisions `p1Num/p1Denom`, and float accumulation are not modelled. Numerators and denominators are exact integers, and the classifier takes log-probabilities and log-priors as given `real` inputs.
- `random.uniform` is replaced by the input sequence `draws`.
- The "not in my Vocabulary" message of `setOfWords2Vec` and all other console output are not modelled; they are reporting only.
- The rest of `spamTest` after the split is not modelled: assembling the training matrix (lines 125-129), classifying the test mails, and the error-rate percentage (lines 131-141). It only calls the modelled operations and reports.
- Trainer.TrainNB0: numpy broadcasting is not modelled. A row of length 1 would be broadcast against the others, but the model treats it as `DimensionMismatch`. The model also does not say which exception Python raises, or at which row.
- Classifier.ClassifyNB: numpy broadcasting of a length-1 vector is likewise treated as `DimensionMismatch`.
- Classifier.ClassifyNB: a prior of exactly 0 or 1 (training rows of one class only) makes `np.log` return -inf at lines 82-83. The class with no training rows then always loses. The log-priors here are finite `real` values, so the model does not cover that case.
