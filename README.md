# HMM part-of-speech tagger: training

This project models the training half of a hidden-Markov-model part-of-speech
tagger (`HMMPartOfSpeechTagging/HMM.java`) and proves properties about it.
Training takes a list of token sequences (sentences) and a parallel list of
tag sequences. It counts two kinds of tallies in nested maps:

- **transition counts**: one from the synthetic start state `"#"` to the first
  tag of each sentence, then one from each tag to the tag after it;
- **observation counts**: one from each tag to the token at the same position,
  position 0 included.

A pair whose token and tag sequences differ in length is skipped. Once every
pair has been counted, each row of each table is divided by its own total.
The resulting tables replace the model's two probability tables.

Modules:

- `Sums` (`sums.dfy`): sums over the values of a map (`SumValues`, `RealSum`).
  It proves that the sum does not depend on the order in which keys are taken,
  and that dividing every value by `t` divides the sum by `t`.
- `Counting` (`counting.dfy`): count tables as values `map<string, map<string, nat>>`.
  - `Incremented` is what one `addCount` call does.
  - `Tally` applies a sequence of tallies.
  - `TransitionCounts` and `ObservationCounts` give the tables after the first
    `n` pairs.
  - `CorpusTransitions` and `CorpusEmissions` are an independent reference: the
    flat list of every tally in the corpus.
- `Normalisation` (`normalisation.dfy`): `Normalised` gives each cell as
  count / total of its row, as an exact real. It proves that every row sums to
  exactly 1 and that every value lies in (0, 1].
- `Tagger` (`tagger.dfy`): the imperative model.
  - `CountTable` is a mutable nested count map.
  - `HMM` holds the fields `transitionProbs` and `observationProbs`.
  - `HMM.AddCount` updates a `CountTable` in place.
  - `HMM.Train` runs the source's two nested `for` loops and then replaces both
    fields.
  - `HMM.ConvertCountsToProbs` and its two row loops (`RowTotal`,
    `RowProbabilities`) build the probability tables entry by entry.

The code does not check two things that `HMM.Train` requires of its caller:

- there are at least as many tag sequences as sentences (otherwise
  `tagSequences.get(i)` fails);
- every pair of matching length is non-empty (otherwise `tags[0]` fails).

`ConvertCountsToProbs` requires every stored count to be positive. It is
private and is only ever called on tables built by `addCount`, where every
cell is at least 1.

Two details, as the code has them:

- the observation at position 0 is counted (line 101);
- `train` does not lowercase tokens; only the file loader does (line 60).

## Model

| member | source | states |
|---|---|---|
| `Counting.Incremented` | HMMPartOfSpeechTagging/HMM.java:117-121 | one tally adds a row for `key` if it is missing; cell (key, subKey) becomes its old count plus 1 (1 if absent); every other cell's count and every other row are unchanged |
| `Tagger.HMM.AddCount` | HMMPartOfSpeechTagging/HMM.java:117-121 | the table it is given in place becomes `Incremented` of its old contents |
| `Tagger.CountTable.constructor` | HMMPartOfSpeechTagging/HMM.java:89-90 | a new count table is empty |
| `Counting.IncrementedTotal` | HMMPartOfSpeechTagging/HMM.java:117-121 | one tally raises the sum of all counts by exactly 1 |
| `Counting.TallyCount` | HMMPartOfSpeechTagging/HMM.java:100-106 | after a sequence of tallies, each cell's count has grown by exactly the number of times its pair occurs in the sequence |
| `Counting.TallyTotal` | HMMPartOfSpeechTagging/HMM.java:100-106 | a sequence of n tallies raises the total by exactly n |
| `Counting.TallyWellFormed` | HMMPartOfSpeechTagging/HMM.java:117-121 | tallies never create an empty row or a zero cell |
| `Counting.TrainedCountsWellFormed` | HMMPartOfSpeechTagging/HMM.java:92-106 | after any prefix of the corpus, both count tables have only non-empty rows and positive counts |
| `Counting.MismatchedPairSkipped` | HMMPartOfSpeechTagging/HMM.java:95-98 | a pair whose token and tag lengths differ leaves both tables exactly as they were |
| `Counting.MatchedPairTotals` | HMMPartOfSpeechTagging/HMM.java:100-106 | a matched pair of length n adds exactly n to the transition total (one from `"#"`, n-1 tag to tag) and exactly n to the observation total |
| `Counting.TransitionTotal` | HMMPartOfSpeechTagging/HMM.java:92-107 | the transition table's total equals the number of transition tallies in the corpus |
| `Counting.ObservationTotal` | HMMPartOfSpeechTagging/HMM.java:92-107 | the observation table's total equals the number of tokens in matched pairs |
| `Counting.TransitionCountsExact` | HMMPartOfSpeechTagging/HMM.java:100-104 | every transition cell equals the number of occurrences of its (tag, next tag) pair, with `"#"` as the tag before the first, over the matched pairs |
| `Counting.ObservationCountsExact` | HMMPartOfSpeechTagging/HMM.java:101-105 | every observation cell equals the number of positions in matched pairs where that tag carries that token |
| `Counting.StartTransitionsOfSentence` | HMMPartOfSpeechTagging/HMM.java:100-104 | in a sentence that never uses `"#"` as a tag, exactly one tally leaves `"#"`: the one to its first tag |
| `Counting.StartCounts` | HMMPartOfSpeechTagging/HMM.java:88-100 | the count from `"#"` to tag t equals the number of matched sentences whose first tag is t |
| `Sums.SumValuesBound` | HMMPartOfSpeechTagging/HMM.java:134-140 | no single count exceeds its row's total, so every cell's division is by a positive total |
| `Sums.SumValuesRemove` | HMMPartOfSpeechTagging/HMM.java:134-137 | the total is the same whichever key is taken first, so the iteration order of the row does not matter |
| `Sums.RealSumScaled` | HMMPartOfSpeechTagging/HMM.java:139-141 | dividing every count of a row by t divides the row's sum by t |
| `Tagger.HMM.RowTotal` | HMMPartOfSpeechTagging/HMM.java:134-137 | the loop's total is the sum of the row's counts |
| `Tagger.HMM.RowProbabilities` | HMMPartOfSpeechTagging/HMM.java:138-142 | the new row has the same sub-keys as the counts and holds count / total for each |
| `Tagger.HMM.ConvertCountsToProbs` | HMMPartOfSpeechTagging/HMM.java:129-146 | the result has exactly the count table's keys, each row exactly its row's sub-keys, and each value equals count / row total |
| `Normalisation.NormalisedValues` | HMMPartOfSpeechTagging/HMM.java:132-143 | the normalised table has the outer keys of the counts, each row the sub-keys of its count row, and count / total in every cell |
| `Normalisation.RowInUnitInterval` | HMMPartOfSpeechTagging/HMM.java:140 | every probability lies in (0, 1] |
| `Normalisation.RowSumsToOne` | HMMPartOfSpeechTagging/HMM.java:134-141 | the probabilities of every non-empty row sum to exactly 1 |
| `Normalisation.NormalisedIsDistribution` | HMMPartOfSpeechTagging/HMM.java:129-146 | in a normalised well-formed table every row sums to 1 and every value is in (0, 1] |
| `Normalisation.TrainedTablesAreDistributions` | HMMPartOfSpeechTagging/HMM.java:87-111 | after training on any corpus, every row of both tables is a probability distribution over the successors (or tokens) seen for it |
| `Tagger.HMM.Train` | HMMPartOfSpeechTagging/HMM.java:87-111 | both tables become the normalised counts of this call's arguments alone: nothing from the previous tables survives |
| `Tagger.HMM.constructor` | HMMPartOfSpeechTagging/HMM.java:20-23 | a new model has empty transition and observation tables |
| `Tagger.HMM.GetTransitionProbs` | HMMPartOfSpeechTagging/HMM.java:40-42 | returns the model's current transition table |
| `Tagger.HMM.GetObservationProbs` | HMMPartOfSpeechTagging/HMM.java:44-46 | returns the model's current observation table |

## Left out

- `Math.log` and `double` division (lines 140-141): floating point. Each probability is the exact real count / total, so "sums to 1" is exact; the log is not applied.
- Integer width: counts and row totals are Java `int`. The model uses unbounded naturals and does not model overflow past 2^31 - 1.
- The diagnostic printed to standard error for a mismatched pair (line 96): output only; the skip itself is modelled.
- `loadTrainingSentenceFile`, `loadTrainingTagFile` (lines 54-78) and the file-based constructor (lines 26-33): file I/O and regular-expression splitting. The `sentences` and `tags` fields they fill are left out with them.
- `consoleTest` (lines 170-193): an interactive loop on standard input and output.
- `testFileAccuracy` (lines 195-214) and `main` (lines 217-274): drivers that call the Viterbi decoder and print accuracy.
- The Viterbi decoder: `Viterbi.java` is not part of this model.
- `toString` (lines 153-164): its text depends on `HashMap` iteration order and number formatting.
- `HashMap` iteration order: the loops of `ConvertCountsToProbs` take keys in an unspecified order. The results are proved not to depend on it.
- Aliasing: the getters return the model's own maps, which a caller could then mutate. The model returns values. The inner maps of a count table are values too; this is equivalent here because each inner map is reachable only through its outer map.
- `Counting.StartCounts`: assumes that no tag sequence uses `"#"` itself as a tag. The code does not forbid this. A tag `"#"` followed by a tag t would also be counted in the `"#"` row.
