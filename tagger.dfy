/**
 The training half of the part-of-speech tagger: an `HMM` object owns a
 transition table and an observation table, and `Train` replaces both with
 tables normalised from fresh counts of its arguments.
 */
module Tagger {
  import opened Sums
  import opened Counting
  import opened Normalisation

  /** A mutable nested count map, updated in place by `HMM.AddCount`. */
  class CountTable {
    var cells: Counts

    constructor ()
      ensures cells == map[]
    {
      cells := map[];
    }
  }

  class HMM {
    var transitionProbs: Probs
    var observationProbs: Probs

    /** A fresh model knows no transition and no observation. */
    constructor ()
      ensures transitionProbs == map[] && observationProbs == map[]
    {
      transitionProbs := map[];
      observationProbs := map[];
    }

    method GetTransitionProbs() returns (r: Probs)
      ensures r == transitionProbs
    {
      r := transitionProbs;
    }

    method GetObservationProbs() returns (r: Probs)
      ensures r == observationProbs
    {
      r := observationProbs;
    }

    /** Adds one to the cell (key, subKey) of `counts`, creating the row if it is missing. */
    method AddCount(counts: CountTable, key: string, subKey: string)
      modifies counts
      ensures counts.cells == Incremented(old(counts.cells), key, subKey)
    {
      if key !in counts.cells {
        counts.cells := counts.cells[key := map[]];
      }
      var innerMap := counts.cells[key];
      var current := if subKey in innerMap then innerMap[subKey] else 0;
      counts.cells := counts.cells[key := innerMap[subKey := current + 1]];
    }

    /** Divides every count by the total of its own row. */
    method ConvertCountsToProbs(counts: Counts) returns (probs: Probs)
      requires Positive(counts)
      ensures probs.Keys == counts.Keys
      ensures forall k :: k in counts ==> probs[k].Keys == counts[k].Keys
      ensures forall k, s :: k in counts && s in counts[k] ==>
                probs[k][s] == Fraction(counts[k][s], SumValues(counts[k]))
      ensures probs == Normalised(counts)
    {
      probs := map[];
      var keys := counts.Keys;
      while keys != {}
        invariant keys <= counts.Keys
        invariant probs.Keys == counts.Keys - keys
        invariant forall k :: k in probs ==> probs[k] == NormalisedRow(counts[k])
        decreases keys
      {
        var key :| key in keys;
        var innerCounts := counts[key];
        var total := RowTotal(innerCounts);
        var innerProbs := RowProbabilities(innerCounts, total);
        probs := probs[key := innerProbs];
        keys := keys - {key};
      }
      NormalisedValues(counts);
    }

    /** The sum of the counts of one row. */
    method RowTotal(innerCounts: map<string, nat>) returns (total: nat)
      ensures total == SumValues(innerCounts)
    {
      total := 0;
      var rest := innerCounts;
      while rest != map[]
        invariant total + SumValues(rest) == SumValues(innerCounts)
        decreases |rest|
      {
        var subKey :| subKey in rest;
        SumValuesRemove(rest, subKey);
        total := total + rest[subKey];
        rest := rest - {subKey};
      }
    }

    /** Each count of one row divided by the row's total. */
    method RowProbabilities(innerCounts: map<string, nat>, total: nat) returns (innerProbs: map<string, real>)
      requires forall s :: s in innerCounts ==> innerCounts[s] > 0
      requires total == SumValues(innerCounts)
      ensures innerProbs.Keys == innerCounts.Keys
      ensures innerProbs == NormalisedRow(innerCounts)
    {
      innerProbs := map[];
      var subKeys := innerCounts.Keys;
      while subKeys != {}
        invariant subKeys <= innerCounts.Keys
        invariant innerProbs.Keys == innerCounts.Keys - subKeys
        invariant forall s :: s in innerProbs ==> innerProbs[s] == Fraction(innerCounts[s], total)
        decreases subKeys
      {
        var subKey :| subKey in subKeys;
        SumValuesBound(innerCounts, subKey);
        innerProbs := innerProbs[subKey := Fraction(innerCounts[subKey], total)];
        subKeys := subKeys - {subKey};
      }
      NormalisedRowFromRatios(innerCounts, innerProbs, total);
    }

    /**
     Counts the transitions and observations of every pair whose lengths match,
     then replaces both tables with the normalised counts.
     */
    method Train(sentences: seq<seq<string>>, tagSequences: seq<seq<string>>)
      requires |sentences| <= |tagSequences|
      requires forall i :: 0 <= i < |sentences| && |sentences[i]| == |tagSequences[i]| ==> |sentences[i]| > 0
      modifies this
      ensures Positive(TransitionCounts(sentences, tagSequences, |sentences|))
      ensures Positive(ObservationCounts(sentences, tagSequences, |sentences|))
      ensures transitionProbs == Normalised(TransitionCounts(sentences, tagSequences, |sentences|))
      ensures observationProbs == Normalised(ObservationCounts(sentences, tagSequences, |sentences|))
    {
      var startState := StartState;
      var transitionCounts := new CountTable();
      var observationCounts := new CountTable();

      for i := 0 to |sentences|
        invariant transitionCounts.cells == TransitionCounts(sentences, tagSequences, i)
        invariant observationCounts.cells == ObservationCounts(sentences, tagSequences, i)
      {
        var tokens := sentences[i];
        var tags := tagSequences[i];
        if |tokens| != |tags| {
          continue;
        }
        ghost var transitionsBefore := transitionCounts.cells;
        ghost var observationsBefore := observationCounts.cells;
        ghost var transitions := Transitions(tags);
        ghost var emissions := Emissions(tokens, tags);

        AddCount(transitionCounts, startState, tags[0]);
        AddCount(observationCounts, tags[0], tokens[0]);
        TallyStep(transitionsBefore, transitions, 0);
        TallyStep(observationsBefore, emissions, 0);

        for j := 1 to |tokens|
          invariant transitionCounts.cells == Tally(transitionsBefore, transitions[..j])
          invariant observationCounts.cells == Tally(observationsBefore, emissions[..j])
        {
          AddCount(transitionCounts, tags[j - 1], tags[j]);
          AddCount(observationCounts, tags[j], tokens[j]);
          TallyStep(transitionsBefore, transitions, j);
          TallyStep(observationsBefore, emissions, j);
        }
        TallyWhole(transitionsBefore, transitions);
        TallyWhole(observationsBefore, emissions);
      }
      TrainedCountsWellFormed(sentences, tagSequences, |sentences|);
      // Convert counts to probabilities.
      transitionProbs := ConvertCountsToProbs(transitionCounts.cells);
      observationProbs := ConvertCountsToProbs(observationCounts.cells);
    }
  }
}
