/** The epoch and billing estimate at the end of run_check
    (fine_tuning_data_checker.py:66-72, 147, 151-166). */
module Estimator {

  const MaxTokensPerExample: nat := 4096
  const TargetEpochs: nat := 3
  const MinDefaultEpochs: nat := 1
  const MaxDefaultEpochs: nat := 25
  const MinTargetExamples: nat := 15
  const MaxTargetExamples: nat := 25000

  function Min(a: nat, b: nat): nat { if a <= b then a else b }
  function Max(a: nat, b: nat): nat { if a >= b then a else b }

  /** The default number of epochs for a dataset of `examples` records:
      three, raised for small datasets so that at least about fifteen
      examples are seen, lowered for large ones so that at most about
      25000 are. */
  function Epochs(examples: nat): (epochs: nat)
    requires examples >= 1
    ensures MinDefaultEpochs <= epochs <= MaxDefaultEpochs
    ensures epochs <= MinTargetExamples
  {
    if examples * TargetEpochs < MinTargetExamples then
      Min(MaxDefaultEpochs, MinTargetExamples / examples)
    else if examples * TargetEpochs > MaxTargetExamples then
      Max(MinDefaultEpochs, MaxTargetExamples / examples)
    else
      TargetEpochs
  }

  /** How many lengths exceed the per-example cap. */
  function TooLongCount(lens: seq<nat>): nat
  {
    if lens == [] then 0
    else TooLongCount(lens[..|lens| - 1]) + (if lens[|lens| - 1] > MaxTokensPerExample then 1 else 0)
  }

  /** The lengths summed after capping each at the per-example cap. */
  function BilledTokens(lens: seq<nat>): nat
  {
    if lens == [] then 0
    else BilledTokens(lens[..|lens| - 1]) + Min(MaxTokensPerExample, lens[|lens| - 1])
  }

  function Sum(lens: seq<nat>): nat
  {
    if lens == [] then 0 else Sum(lens[..|lens| - 1]) + lens[|lens| - 1]
  }

  /** The figures the report prints after the distributions. */
  datatype Estimate = Estimate(tooLong: nat, billedTokens: nat, epochs: nat, chargedTokens: nat)

  /** The estimate for the token lengths `convoLens` (one per statistics
      entry, that is one per message of a valid record) of a dataset of
      `examples` records. */
  function EstimateCost(convoLens: seq<nat>, examples: nat): (e: Estimate)
    requires examples >= 1
    ensures e.epochs == Epochs(examples)
    ensures e.chargedTokens == e.epochs * e.billedTokens
    ensures e.tooLong <= |convoLens|
    ensures e.billedTokens <= Sum(convoLens)
    ensures e.billedTokens <= MaxTokensPerExample * |convoLens|
    ensures e.billedTokens == Sum(convoLens) <==> e.tooLong == 0
  {
    TooLongCountBounded(convoLens);
    BilledTokensBounded(convoLens);
    BilledExactIffNoneTooLong(convoLens);
    var billed := BilledTokens(convoLens);
    Estimate(TooLongCount(convoLens), billed, Epochs(examples), Epochs(examples) * billed)
  }

  // ---------------------------------------------------------------------
  // Properties

  lemma {:induction false} TooLongCountBounded(lens: seq<nat>)
    ensures TooLongCount(lens) <= |lens|
  {
    if lens != [] {
      TooLongCountBounded(lens[..|lens| - 1]);
    }
  }

  /** Billing truncates each length to the cap: never more than the
      untruncated total, nor than the cap per length. */
  lemma {:induction false} BilledTokensBounded(lens: seq<nat>)
    ensures BilledTokens(lens) <= Sum(lens)
    ensures BilledTokens(lens) <= MaxTokensPerExample * |lens|
  {
    if lens != [] {
      BilledTokensBounded(lens[..|lens| - 1]);
    }
  }

  /** Billing charges the full length exactly when no length exceeds
      the cap. */
  lemma {:induction false} BilledExactIffNoneTooLong(lens: seq<nat>)
    ensures BilledTokens(lens) == Sum(lens) <==> TooLongCount(lens) == 0
  {
    if lens != [] {
      var init := lens[..|lens| - 1];
      BilledExactIffNoneTooLong(init);
      BilledTokensBounded(init);
    }
  }

  /** More examples never mean more epochs. */
  lemma EpochsMonotone(n: nat, m: nat)
    requires 1 <= n <= m
    ensures Epochs(m) <= Epochs(n)
  {
    if n * TargetEpochs < MinTargetExamples {
      assert Epochs(n) >= TargetEpochs by {
        assert n <= 4;
      }
    } else if m * TargetEpochs > MaxTargetExamples && n * TargetEpochs > MaxTargetExamples {
      DivMonotone(MaxTargetExamples, n, m);
    } else if m * TargetEpochs > MaxTargetExamples {
      assert MaxTargetExamples / m <= TargetEpochs by {
        DivMonotone(MaxTargetExamples, MaxTargetExamples / TargetEpochs, m);
      }
    }
  }

  lemma DivMonotone(a: nat, n: nat, m: nat)
    requires 1 <= n <= m
    ensures a / m <= a / n
  {
    var q, p := a / m, a / n;
    assert m * q + a % m == a;
    assert n * p + a % n == a;
    MulMonotone(q, n, m);
    if q > p {
      MulMonotone(n, p + 1, q);
      assert false;
    }
  }

  lemma MulBound(a: nat, b: nat, c: nat, d: nat)
    requires a <= c && b <= d
    ensures a * b <= c * d
  {
    MulMonotone(b, a, c);
    MulMonotone(c, b, d);
  }

  lemma MulMonotone(k: nat, n: nat, m: nat)
    requires n <= m
    ensures k * n <= k * m
  {
  }

  /** The chosen epochs keep the number of examples seen in training in
      range: one more epoch would exceed the lower target, and the upper
      target is exceeded only when a single epoch already does. */
  lemma EpochsNearTarget(n: nat)
    requires n >= 1
    ensures n * (Epochs(n) + 1) > MinTargetExamples
    ensures n * Epochs(n) <= MaxTargetExamples || Epochs(n) == MinDefaultEpochs
  {
    var e := Epochs(n);
    if n * TargetEpochs < MinTargetExamples {
      assert n <= 4;
    } else if n * TargetEpochs > MaxTargetExamples {
      var q := MaxTargetExamples / n;
      assert n * q <= MaxTargetExamples;
      assert n * (q + 1) > MaxTargetExamples;
    }
  }

  /** Three records of one message each, of lengths 100, 200 and 150: the small-dataset boost
      gives 15 / 3 = 5 epochs, 450 billed tokens, 2250 charged. */
  lemma SmallDatasetExample()
    ensures EstimateCost([100, 200, 150], 3) == Estimate(0, 450, 5, 2250)
  {
    var lens := [100, 200, 150];
    assert lens[..2] == [100, 200];
    assert lens[..2][..1] == [100];
    assert lens[..2][..1][..0] == [];
    assert BilledTokens([100]) == 100 && Sum([100]) == 100 && TooLongCount([100]) == 0;
    assert BilledTokens([100, 200]) == 300 && Sum([100, 200]) == 300 && TooLongCount([100, 200]) == 0;
    assert BilledTokens(lens) == 450 && Sum(lens) == 450 && TooLongCount(lens) == 0;
    assert Epochs(3) == 5;
  }

  /** 30000 examples: 25000 / 30000 rounds down to 0, floored to 1 epoch. */
  lemma LargeDatasetExample()
    ensures Epochs(30000) == 1
  {
    assert 30000 * TargetEpochs == 90000;
    assert MaxTargetExamples / 30000 == 0;
  }
}
