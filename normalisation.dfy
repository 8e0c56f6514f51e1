/**
 Turning a count table into a probability table: every row is divided by its
 own total, so each cell becomes count / total. The probabilities are exact
 reals; the natural logarithm the trainer applies afterwards is not modelled.
 */
module Normalisation {
  import opened Sums
  import opened Counting

  type Probs = map<string, map<string, real>>

  /** One row divided by its own total. */
  ghost function NormalisedRow(row: map<string, nat>): map<string, real>
    requires forall s :: s in row ==> row[s] > 0
  {
    map s | s in row :: SumValuesBound(row, s); Fraction(row[s], SumValues(row))
  }

  /** Every row of the table divided by its own total. */
  ghost function Normalised(counts: Counts): Probs
    requires Positive(counts)
  {
    map k | k in counts :: NormalisedRow(counts[k])
  }

  /** A row holding count / total for exactly the row's sub-keys is the normalised row. */
  lemma NormalisedRowFromRatios(row: map<string, nat>, probs: map<string, real>, total: nat)
    requires forall s :: s in row ==> row[s] > 0
    requires total == SumValues(row)
    requires probs.Keys == row.Keys
    requires forall s :: s in probs ==> probs[s] == Fraction(row[s], total)
    ensures probs == NormalisedRow(row)
  {
  }

  /** Each stored probability is its count divided by its row's total. */
  lemma NormalisedValues(counts: Counts)
    requires Positive(counts)
    ensures Normalised(counts).Keys == counts.Keys
    ensures forall k :: k in counts ==> Normalised(counts)[k].Keys == counts[k].Keys
    ensures forall k, s :: k in counts && s in counts[k] ==>
              Normalised(counts)[k][s] == Fraction(counts[k][s], SumValues(counts[k]))
  {
  }

  /** Each probability lies in (0, 1]. */
  lemma RowInUnitInterval(counts: Counts, key: string, subKey: string)
    requires Positive(counts)
    requires key in counts && subKey in counts[key]
    ensures 0.0 < Normalised(counts)[key][subKey] <= 1.0
  {
    var row := counts[key];
    SumValuesBound(row, subKey);
    FractionInUnitInterval(row[subKey], SumValues(row));
  }

  lemma FractionInUnitInterval(a: nat, t: nat)
    requires 0 < a <= t
    ensures 0.0 < Fraction(a, t) <= 1.0
  {
    DivideBounded(a as real, t as real);
  }

  lemma DivideBounded(x: real, d: real)
    requires 0.0 < x <= d
    ensures 0.0 < x / d <= 1.0
  {
  }

  /** The probabilities of a non-empty row sum to exactly one. */
  lemma RowSumsToOne(counts: Counts, key: string)
    requires Positive(counts)
    requires key in counts && counts[key] != map[]
    ensures RealSum(Normalised(counts)[key]) == 1.0
  {
    var row := counts[key];
    NormalisedRowIsScaled(row);
    RealSumScaled(row, SumValues(row));
    SelfFraction(SumValues(row));
  }

  lemma NormalisedRowIsScaled(row: map<string, nat>)
    requires forall s :: s in row ==> row[s] > 0
    requires row != map[]
    ensures SumValues(row) > 0
    ensures NormalisedRow(row) == Scaled(row, SumValues(row))
  {
    var s :| s in row;
    SumValuesBound(row, s);
  }

  lemma SelfFraction(t: nat)
    requires t > 0
    ensures Fraction(t, t) == 1.0
  {
  }

  /** Every row of a normalised well-formed table is a probability distribution. */
  lemma NormalisedIsDistribution(counts: Counts)
    requires WellFormed(counts)
    ensures forall k :: k in counts ==> RealSum(Normalised(counts)[k]) == 1.0
    ensures forall k, s :: k in counts && s in counts[k] ==> 0.0 < Normalised(counts)[k][s] <= 1.0
  {
    forall k | k in counts
      ensures RealSum(Normalised(counts)[k]) == 1.0
    {
      RowSumsToOne(counts, k);
    }
    forall k, s | k in counts && s in counts[k]
      ensures 0.0 < Normalised(counts)[k][s] <= 1.0
    {
      RowInUnitInterval(counts, k, s);
    }
  }

  /** After training on any corpus, every row of both probability tables is a probability distribution. */
  lemma TrainedTablesAreDistributions(sentences: seq<seq<string>>, tagSequences: seq<seq<string>>)
    requires |sentences| <= |tagSequences|
    ensures WellFormed(TransitionCounts(sentences, tagSequences, |sentences|))
    ensures WellFormed(ObservationCounts(sentences, tagSequences, |sentences|))
    ensures var probs := Normalised(TransitionCounts(sentences, tagSequences, |sentences|));
      forall k :: k in probs ==> RealSum(probs[k]) == 1.0 && forall s :: s in probs[k] ==> 0.0 < probs[k][s] <= 1.0
    ensures var probs := Normalised(ObservationCounts(sentences, tagSequences, |sentences|));
      forall k :: k in probs ==> RealSum(probs[k]) == 1.0 && forall s :: s in probs[k] ==> 0.0 < probs[k][s] <= 1.0
  {
    TrainedCountsWellFormed(sentences, tagSequences, |sentences|);
    var transitions := TransitionCounts(sentences, tagSequences, |sentences|);
    var observations := ObservationCounts(sentences, tagSequences, |sentences|);
    NormalisedIsDistribution(transitions);
    NormalisedValues(transitions);
    NormalisedIsDistribution(observations);
    NormalisedValues(observations);
  }
}
