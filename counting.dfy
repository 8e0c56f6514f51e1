/**
 The count tables built by training, as values. A count table maps a source
 key (a tag, or the start state) to a row mapping a sub-key (the next tag, or
 the token) to the number of times the pair was seen. A missing cell means the
 pair was never seen, and reads as zero.
 */
module Counting {
  import opened Sums

  type Counts = map<string, map<string, nat>>

  /** One tally: (source key, sub-key). */
  type Event = (string, string)

  /** The synthetic state every sentence starts from. */
  const StartState: string := "#"

  /** The count of one cell, zero when the row or the cell is missing. */
  function Count(c: Counts, key: string, subKey: string): nat
  {
    if key in c && subKey in c[key] then c[key][subKey] else 0
  }

  /** `c` after one tally of (key, subKey): the row is created if missing. */
  function Incremented(c: Counts, key: string, subKey: string): (r: Counts)
    ensures r.Keys == c.Keys + {key}
    ensures r[key].Keys == (if key in c then c[key].Keys else {}) + {subKey}
    ensures Count(r, key, subKey) == Count(c, key, subKey) + 1
    ensures forall k, s :: (k, s) != (key, subKey) ==> Count(r, k, s) == Count(c, k, s)
    ensures forall k :: k in c && k != key ==> r[k] == c[k]
  {
    var row := if key in c then c[key] else map[];
    c[key := row[subKey := (if subKey in row then row[subKey] else 0) + 1]]
  }

  /** Every stored count is positive (rows may be empty). */
  ghost predicate Positive(c: Counts)
  {
    forall k, s :: k in c && s in c[k] ==> c[k][s] > 0
  }

  /** Every stored count is positive and no row is empty: the shape every tally has. */
  ghost predicate WellFormed(c: Counts)
  {
    Positive(c) && forall k :: k in c ==> c[k] != map[]
  }

  /** The total of each row. */
  ghost function RowTotals(c: Counts): map<string, nat>
  {
    map k | k in c :: SumValues(c[k])
  }

  /** The sum of all counts in the table. */
  ghost function Total(c: Counts): nat
  {
    SumValues(RowTotals(c))
  }

  /** One tally adds exactly one to the table's total. */
  lemma IncrementedTotal(c: Counts, key: string, subKey: string)
    ensures Total(Incremented(c, key, subKey)) == Total(c) + 1
  {
    var row := if key in c then c[key] else map[];
    var n := if subKey in row then row[subKey] else 0;
    assert Incremented(c, key, subKey) == c[key := row[subKey := n + 1]];
    RowIncrementedTotal(c, key, row, subKey, n);
  }

  lemma RowIncrementedTotal(c: Counts, key: string, row: map<string, nat>, subKey: string, n: nat)
    requires row == if key in c then c[key] else map[]
    requires n == if subKey in row then row[subKey] else 0
    ensures Total(c[key := row[subKey := n + 1]]) == Total(c) + 1
  {
    var row' := row[subKey := n + 1];
    SumValuesUpdate(row, subKey, n + 1);
    var rt := RowTotals(c);
    RowTotalsUpdate(c, key, row');
    SumValuesUpdate(rt, key, SumValues(row'));
    assert (if key in rt then rt[key] else 0) == SumValues(row);
  }

  lemma RowTotalsUpdate(c: Counts, key: string, row: map<string, nat>)
    ensures RowTotals(c[key := row]) == RowTotals(c)[key := SumValues(row)]
  {
  }

  /** One tally keeps a table well-formed. */
  lemma IncrementedWellFormed(c: Counts, key: string, subKey: string)
    requires WellFormed(c)
    ensures WellFormed(Incremented(c, key, subKey))
  {
    var r := Incremented(c, key, subKey);
    forall k, s | k in r && s in r[k]
      ensures r[k][s] > 0
    {
      assert Count(r, k, s) == r[k][s];
      if (k, s) != (key, subKey) {
        assert Count(c, k, s) == r[k][s];
      }
    }
  }

  /** The table after tallying every event in order, starting from `c`. */
  function Tally(c: Counts, events: seq<Event>): Counts
    decreases |events|
  {
    if events == [] then c
    else
      var last := events[|events| - 1];
      Incremented(Tally(c, events[..|events| - 1]), last.0, last.1)
  }

  /** Tallying one more event is one more increment. */
  lemma TallySnoc(c: Counts, events: seq<Event>, e: Event)
    ensures Tally(c, events + [e]) == Incremented(Tally(c, events), e.0, e.1)
  {
    assert (events + [e])[..|events|] == events;
  }

  /** Tallying one more event of a sequence is one more increment. */
  lemma TallyStep(c: Counts, events: seq<Event>, j: nat)
    requires j < |events|
    ensures Tally(c, events[..j + 1]) == Incremented(Tally(c, events[..j]), events[j].0, events[j].1)
  {
    assert events[..j + 1] == events[..j] + [events[j]];
    TallySnoc(c, events[..j], events[j]);
  }

  lemma TallyWhole(c: Counts, events: seq<Event>)
    ensures Tally(c, events[..|events|]) == Tally(c, events)
  {
    assert events[..|events|] == events;
  }

  /** Exact per-cell counts: each cell grows by the number of its events. */
  lemma {:induction false} TallyCount(c: Counts, events: seq<Event>, key: string, subKey: string)
    ensures Count(Tally(c, events), key, subKey) == Count(c, key, subKey) + multiset(events)[(key, subKey)]
    decreases |events|
  {
    if events != [] {
      var n := |events| - 1;
      TallyCount(c, events[..n], key, subKey);
      assert events == events[..n] + [events[n]];
      assert multiset(events) == multiset(events[..n]) + multiset{events[n]};
    }
  }

  /** Tallying n events adds exactly n to the total. */
  lemma {:induction false} TallyTotal(c: Counts, events: seq<Event>)
    ensures Total(Tally(c, events)) == Total(c) + |events|
    decreases |events|
  {
    if events != [] {
      var n := |events| - 1;
      TallyTotal(c, events[..n]);
      IncrementedTotal(Tally(c, events[..n]), events[n].0, events[n].1);
    }
  }

  lemma {:induction false} TallyWellFormed(c: Counts, events: seq<Event>)
    requires WellFormed(c)
    ensures WellFormed(Tally(c, events))
    decreases |events|
  {
    if events != [] {
      var n := |events| - 1;
      TallyWellFormed(c, events[..n]);
      IncrementedWellFormed(Tally(c, events[..n]), events[n].0, events[n].1);
    }
  }

  /** The transition tallies of one sentence: start state to the first tag, then each tag to the next. */
  function Transitions(tags: seq<string>): seq<Event>
  {
    seq(|tags|, j requires 0 <= j < |tags| =>
      if j == 0 then (StartState, tags[0]) else (tags[j - 1], tags[j]))
  }

  /** The observation tallies of one sentence: each tag to the token at its position. */
  function Emissions(tokens: seq<string>, tags: seq<string>): seq<Event>
    requires |tokens| == |tags|
  {
    seq(|tags|, j requires 0 <= j < |tags| => (tags[j], tokens[j]))
  }

  /** A training pair is used only when its token and tag sequences have the same length. */
  predicate Matched(sentences: seq<seq<string>>, tagSequences: seq<seq<string>>, i: nat)
    requires i < |sentences| && i < |tagSequences|
  {
    |sentences[i]| == |tagSequences[i]|
  }

  /** The transition counts after the first `n` training pairs. */
  function TransitionCounts(sentences: seq<seq<string>>, tagSequences: seq<seq<string>>, n: nat): Counts
    requires n <= |sentences| && n <= |tagSequences|
  {
    if n == 0 then map[]
    else
      var before := TransitionCounts(sentences, tagSequences, n - 1);
      if Matched(sentences, tagSequences, n - 1) then Tally(before, Transitions(tagSequences[n - 1]))
      else before
  }

  /** The observation counts after the first `n` training pairs. */
  function ObservationCounts(sentences: seq<seq<string>>, tagSequences: seq<seq<string>>, n: nat): Counts
    requires n <= |sentences| && n <= |tagSequences|
  {
    if n == 0 then map[]
    else
      var before := ObservationCounts(sentences, tagSequences, n - 1);
      if Matched(sentences, tagSequences, n - 1) then Tally(before, Emissions(sentences[n - 1], tagSequences[n - 1]))
      else before
  }

  /** Reference definition: all transition tallies of the first `n` pairs, in order. */
  function CorpusTransitions(sentences: seq<seq<string>>, tagSequences: seq<seq<string>>, n: nat): seq<Event>
    requires n <= |sentences| && n <= |tagSequences|
  {
    if n == 0 then []
    else
      CorpusTransitions(sentences, tagSequences, n - 1)
      + (if Matched(sentences, tagSequences, n - 1) then Transitions(tagSequences[n - 1]) else [])
  }

  /** Reference definition: all observation tallies of the first `n` pairs, in order. */
  function CorpusEmissions(sentences: seq<seq<string>>, tagSequences: seq<seq<string>>, n: nat): seq<Event>
    requires n <= |sentences| && n <= |tagSequences|
  {
    if n == 0 then []
    else
      CorpusEmissions(sentences, tagSequences, n - 1)
      + (if Matched(sentences, tagSequences, n - 1) then Emissions(sentences[n - 1], tagSequences[n - 1]) else [])
  }

  /** Each transition cell holds exactly the number of times its pair occurs in the corpus. */
  lemma {:induction false} TransitionCountsExact(sentences: seq<seq<string>>, tagSequences: seq<seq<string>>, n: nat, key: string, subKey: string)
    requires n <= |sentences| && n <= |tagSequences|
    ensures Count(TransitionCounts(sentences, tagSequences, n), key, subKey)
         == multiset(CorpusTransitions(sentences, tagSequences, n))[(key, subKey)]
  {
    if n > 0 {
      TransitionCountsExact(sentences, tagSequences, n - 1, key, subKey);
      var before := CorpusTransitions(sentences, tagSequences, n - 1);
      var counted := TransitionCounts(sentences, tagSequences, n - 1);
      if Matched(sentences, tagSequences, n - 1) {
        var added := Transitions(tagSequences[n - 1]);
        assert TransitionCounts(sentences, tagSequences, n) == Tally(counted, added);
        assert CorpusTransitions(sentences, tagSequences, n) == before + added;
        TallyCount(counted, added, key, subKey);
        assert multiset(before + added) == multiset(before) + multiset(added);
      } else {
        assert TransitionCounts(sentences, tagSequences, n) == counted;
        assert CorpusTransitions(sentences, tagSequences, n) == before + [];
        assert before + [] == before;
      }
    }
  }

  /** Each observation cell holds exactly the number of times its (tag, token) pair occurs in the corpus. */
  lemma {:induction false} ObservationCountsExact(sentences: seq<seq<string>>, tagSequences: seq<seq<string>>, n: nat, key: string, subKey: string)
    requires n <= |sentences| && n <= |tagSequences|
    ensures Count(ObservationCounts(sentences, tagSequences, n), key, subKey)
         == multiset(CorpusEmissions(sentences, tagSequences, n))[(key, subKey)]
  {
    if n > 0 {
      ObservationCountsExact(sentences, tagSequences, n - 1, key, subKey);
      var before := CorpusEmissions(sentences, tagSequences, n - 1);
      var counted := ObservationCounts(sentences, tagSequences, n - 1);
      if Matched(sentences, tagSequences, n - 1) {
        var added := Emissions(sentences[n - 1], tagSequences[n - 1]);
        assert ObservationCounts(sentences, tagSequences, n) == Tally(counted, added);
        assert CorpusEmissions(sentences, tagSequences, n) == before + added;
        TallyCount(counted, added, key, subKey);
        assert multiset(before + added) == multiset(before) + multiset(added);
      } else {
        assert ObservationCounts(sentences, tagSequences, n) == counted;
        assert CorpusEmissions(sentences, tagSequences, n) == before + [];
        assert before + [] == before;
      }
    }
  }

  /** A pair whose lengths differ adds nothing to either table. */
  lemma MismatchedPairSkipped(sentences: seq<seq<string>>, tagSequences: seq<seq<string>>, i: nat)
    requires i < |sentences| && i < |tagSequences|
    requires |sentences[i]| != |tagSequences[i]|
    ensures TransitionCounts(sentences, tagSequences, i + 1) == TransitionCounts(sentences, tagSequences, i)
    ensures ObservationCounts(sentences, tagSequences, i + 1) == ObservationCounts(sentences, tagSequences, i)
  {
  }

  /** A matched pair of length n adds exactly n to each table's total. */
  lemma MatchedPairTotals(sentences: seq<seq<string>>, tagSequences: seq<seq<string>>, i: nat)
    requires i < |sentences| && i < |tagSequences|
    requires |sentences[i]| == |tagSequences[i]|
    ensures Total(TransitionCounts(sentences, tagSequences, i + 1))
         == Total(TransitionCounts(sentences, tagSequences, i)) + |tagSequences[i]|
    ensures Total(ObservationCounts(sentences, tagSequences, i + 1))
         == Total(ObservationCounts(sentences, tagSequences, i)) + |tagSequences[i]|
  {
    TallyTotal(TransitionCounts(sentences, tagSequences, i), Transitions(tagSequences[i]));
    TallyTotal(ObservationCounts(sentences, tagSequences, i), Emissions(sentences[i], tagSequences[i]));
  }

  /** The transition table holds exactly one tally per corpus transition. */
  lemma {:induction false} TransitionTotal(sentences: seq<seq<string>>, tagSequences: seq<seq<string>>, n: nat)
    requires n <= |sentences| && n <= |tagSequences|
    ensures Total(TransitionCounts(sentences, tagSequences, n)) == |CorpusTransitions(sentences, tagSequences, n)|
  {
    if n > 0 {
      TransitionTotal(sentences, tagSequences, n - 1);
      var before := CorpusTransitions(sentences, tagSequences, n - 1);
      var counted := TransitionCounts(sentences, tagSequences, n - 1);
      if Matched(sentences, tagSequences, n - 1) {
        var added := Transitions(tagSequences[n - 1]);
        assert TransitionCounts(sentences, tagSequences, n) == Tally(counted, added);
        assert CorpusTransitions(sentences, tagSequences, n) == before + added;
        TallyTotal(counted, added);
      } else {
        assert TransitionCounts(sentences, tagSequences, n) == counted;
        assert CorpusTransitions(sentences, tagSequences, n) == before + [];
      }
    }
  }

  /** The observation table holds exactly one tally per corpus token. */
  lemma {:induction false} ObservationTotal(sentences: seq<seq<string>>, tagSequences: seq<seq<string>>, n: nat)
    requires n <= |sentences| && n <= |tagSequences|
    ensures Total(ObservationCounts(sentences, tagSequences, n)) == |CorpusEmissions(sentences, tagSequences, n)|
  {
    if n > 0 {
      ObservationTotal(sentences, tagSequences, n - 1);
      var before := CorpusEmissions(sentences, tagSequences, n - 1);
      var counted := ObservationCounts(sentences, tagSequences, n - 1);
      if Matched(sentences, tagSequences, n - 1) {
        var added := Emissions(sentences[n - 1], tagSequences[n - 1]);
        assert ObservationCounts(sentences, tagSequences, n) == Tally(counted, added);
        assert CorpusEmissions(sentences, tagSequences, n) == before + added;
        TallyTotal(counted, added);
      } else {
        assert ObservationCounts(sentences, tagSequences, n) == counted;
        assert CorpusEmissions(sentences, tagSequences, n) == before + [];
      }
    }
  }

  /** Both count tables have only non-empty rows and positive counts, after any number of pairs. */
  lemma {:induction false} TrainedCountsWellFormed(sentences: seq<seq<string>>, tagSequences: seq<seq<string>>, n: nat)
    requires n <= |sentences| && n <= |tagSequences|
    ensures WellFormed(TransitionCounts(sentences, tagSequences, n))
    ensures WellFormed(ObservationCounts(sentences, tagSequences, n))
  {
    if n > 0 {
      TrainedCountsWellFormed(sentences, tagSequences, n - 1);
      if Matched(sentences, tagSequences, n - 1) {
        TallyWellFormed(TransitionCounts(sentences, tagSequences, n - 1), Transitions(tagSequences[n - 1]));
        TallyWellFormed(ObservationCounts(sentences, tagSequences, n - 1), Emissions(sentences[n - 1], tagSequences[n - 1]));
      }
    }
  }

  /** The number of matched pairs among the first `n` whose first tag is `tag`. */
  function SentencesStartingWith(sentences: seq<seq<string>>, tagSequences: seq<seq<string>>, n: nat, tag: string): nat
    requires n <= |sentences| && n <= |tagSequences|
  {
    if n == 0 then 0
    else
      SentencesStartingWith(sentences, tagSequences, n - 1, tag)
      + (if Matched(sentences, tagSequences, n - 1) && |tagSequences[n - 1]| > 0 && tagSequences[n - 1][0] == tag
         then 1 else 0)
  }

  /** In a sentence that never uses the start state as a tag, only its first tally leaves the start state. */
  lemma StartTransitionsOfSentence(tags: seq<string>, tag: string)
    requires forall j :: 0 <= j < |tags| ==> tags[j] != StartState
    ensures multiset(Transitions(tags))[(StartState, tag)] == if |tags| > 0 && tags[0] == tag then 1 else 0
  {
    var e := Transitions(tags);
    if |tags| > 0 {
      assert e == [e[0]] + e[1..];
      assert (StartState, tag) !in e[1..];
    } else {
      assert e == [];
    }
  }

  /** The start-state row counts, for each tag, the matched sentences that begin with it. */
  lemma {:induction false} StartCounts(sentences: seq<seq<string>>, tagSequences: seq<seq<string>>, n: nat, tag: string)
    requires n <= |sentences| && n <= |tagSequences|
    requires forall i, j :: 0 <= i < n && 0 <= j < |tagSequences[i]| ==> tagSequences[i][j] != StartState
    ensures Count(TransitionCounts(sentences, tagSequences, n), StartState, tag)
         == SentencesStartingWith(sentences, tagSequences, n, tag)
  {
    if n > 0 {
      StartCounts(sentences, tagSequences, n - 1, tag);
      if Matched(sentences, tagSequences, n - 1) {
        var tags := tagSequences[n - 1];
        TallyCount(TransitionCounts(sentences, tagSequences, n - 1), Transitions(tags), StartState, tag);
        StartTransitionsOfSentence(tags, tag);
      }
    }
  }
}
