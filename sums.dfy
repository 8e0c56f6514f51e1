/**
 The sums that the training code computes over the values of a map: the
 row total of a count table (the `total` loop of `convertCountsToLogProbs`)
 and, for the normalisation results, the sum of a row of probabilities.
 A map has no order, so each sum picks some key, adds its value and recurses
 on the rest; the `Remove` lemmas show that the choice does not matter.
 */
module Sums {

  /** The sum of the values of a map of natural numbers. */
  ghost function SumValues(m: map<string, nat>): nat
    decreases |m|
  {
    if m == map[] then 0
    else
      var k :| k in m;
      m[k] + SumValues(m - {k})
  }

  /** Taking out any one key leaves the sum of the rest. */
  lemma {:induction false} SumValuesRemove(m: map<string, nat>, k: string)
    requires k in m
    ensures SumValues(m) == m[k] + SumValues(m - {k})
    decreases |m|
  {
    var j :| j in m && SumValues(m) == m[j] + SumValues(m - {j});
    if j != k {
      SumValuesRemove(m - {j}, k);
      SumValuesRemove(m - {k}, j);
      assert m - {j} - {k} == m - {k} - {j};
    }
  }

  /** No single value exceeds the sum. */
  lemma SumValuesBound(m: map<string, nat>, k: string)
    requires k in m
    ensures m[k] <= SumValues(m)
  {
    SumValuesRemove(m, k);
  }

  /** Overwriting one entry changes the sum by the difference of the two values. */
  lemma SumValuesUpdate(m: map<string, nat>, k: string, v: nat)
    ensures SumValues(m[k := v]) + (if k in m then m[k] else 0) == SumValues(m) + v
  {
    SumValuesRemove(m[k := v], k);
    assert m[k := v] - {k} == m - {k};
    if k in m {
      SumValuesRemove(m, k);
    } else {
      assert m - {k} == m;
    }
  }

  /** The sum of the values of a map of reals. */
  ghost function RealSum(m: map<string, real>): real
    decreases |m|
  {
    if m == map[] then 0.0
    else
      var k :| k in m;
      m[k] + RealSum(m - {k})
  }

  lemma {:induction false} RealSumRemove(m: map<string, real>, k: string)
    requires k in m
    ensures RealSum(m) == m[k] + RealSum(m - {k})
    decreases |m|
  {
    var j :| j in m && RealSum(m) == m[j] + RealSum(m - {j});
    if j != k {
      RealSumRemove(m - {j}, k);
      RealSumRemove(m - {k}, j);
      assert m - {j} - {k} == m - {k} - {j};
    }
  }

  /** The exact quotient count / total. */
  function Fraction(count: nat, total: nat): real
    requires total > 0
  {
    count as real / total as real
  }

  /** Each value divided by the same positive number `t`. */
  ghost function Scaled(m: map<string, nat>, t: nat): map<string, real>
    requires t > 0
  {
    map s | s in m :: Fraction(m[s], t)
  }

  /** Dividing every value by `t` divides the sum by `t`. */
  lemma {:induction false} RealSumScaled(m: map<string, nat>, t: nat)
    requires t > 0
    ensures RealSum(Scaled(m, t)) == Fraction(SumValues(m), t)
    decreases |m|
  {
    if m == map[] {
      assert Scaled(m, t) == map[];
      assert Fraction(0, t) == 0.0;
    } else {
      var k :| k in m;
      RealSumScaled(m - {k}, t);
      RealSumScaledStep(m, t, k);
    }
  }

  /** The inductive step of `RealSumScaled`: from the sum without `k` to the sum with it. */
  lemma RealSumScaledStep(m: map<string, nat>, t: nat, k: string)
    requires t > 0 && k in m
    requires RealSum(Scaled(m - {k}, t)) == Fraction(SumValues(m - {k}), t)
    ensures RealSum(Scaled(m, t)) == Fraction(SumValues(m), t)
  {
    var r := Scaled(m, t);
    RealSumRemove(r, k);
    ScaledRemove(m, t, k);
    assert r[k] == Fraction(m[k], t);
    SumValuesRemove(m, k);
    FractionSum(m[k], SumValues(m - {k}), SumValues(m), t);
  }

  lemma ScaledRemove(m: map<string, nat>, t: nat, k: string)
    requires t > 0
    ensures Scaled(m, t) - {k} == Scaled(m - {k}, t)
  {
  }

  lemma FractionSum(a: nat, b: nat, c: nat, t: nat)
    requires t > 0 && c == a + b
    ensures Fraction(a, t) + Fraction(b, t) == Fraction(c, t)
  {
    assert c as real == a as real + b as real;
    DivideSum(a as real, b as real, t as real);
  }

  lemma DivideSum(x: real, y: real, d: real)
    requires d > 0.0
    ensures x / d + y / d == (x + y) / d
  {
  }
}
