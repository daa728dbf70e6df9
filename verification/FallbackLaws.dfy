/**
 What the fallback of coin selection misses (liana/src/spend.rs, lines 466-496). It takes coins
 in descending value per weight and stops at the first acceptable set. It finds one whenever
 there is one, unless both the coins' weights differ and a fee is to be replaced.
 */
module FallbackLaws {
  import opened Wrappers
  import opened CoinSelection
  import opened CoinSelector

  // ----- conditions -----

  /** An order of descending value per weight. */
  ghost predicate Descending(candidates: seq<Candidate>, order: seq<nat>) {
    forall j, k :: 0 <= j < k < |order| && order[j] < |candidates| && order[k] < |candidates| ==>
      candidates[order[j]].value * candidates[order[k]].weight
      >= candidates[order[k]].value * candidates[order[j]].weight
  }

  /** The fixed parts of the transaction weigh the same however many coins it spends. */
  ghost predicate ConstantOverhead(r: Request) {
    forall n, m :: 0 <= n <= |r.coins| ==> r.target.overhead(n, m) == r.target.overhead(0, m)
  }

  predicate SameWeights(candidates: seq<Candidate>) {
    forall i, j :: 0 <= i < |candidates| && 0 <= j < |candidates| ==> candidates[i].weight == candidates[j].weight
  }

  function CandidatesOf(r: Request): (c: seq<Candidate>)
    requires r.target.rate > 0
    ensures |c| == |r.coins|
  {
    Candidates(r.coins, r.inputWeight, r.target.rate)
  }

  /** Every input weighs something, and there is no fee to replace or all coins weigh the same. */
  ghost predicate SuitsFallback(r: Request)
    requires r.target.rate > 0
  {
    r.inputWeight > 0
    && ((r.target.replacedFee.None? && ConstantOverhead(r)) || SameWeights(CandidatesOf(r)))
  }

  // ----- sums over a mask -----

  function Total(candidates: seq<Candidate>, mask: seq<bool>, f: Candidate -> int): int
    requires |mask| == |candidates|
  {
    if candidates == [] then 0
    else (if mask[0] then f(candidates[0]) else 0) + Total(candidates[1..], mask[1..], f)
  }

  /** A mask that drops only what counts against it, and adds only what counts for it, totals more. */
  lemma {:induction false} TotalGrows(candidates: seq<Candidate>, a: seq<bool>, b: seq<bool>, f: Candidate -> int)
    requires |a| == |b| == |candidates|
    requires forall i :: 0 <= i < |a| && a[i] && !b[i] ==> f(candidates[i]) <= 0
    requires forall i :: 0 <= i < |a| && b[i] && !a[i] ==> f(candidates[i]) >= 0
    ensures Total(candidates, a, f) <= Total(candidates, b, f)
  {
    if candidates != [] {
      assert forall i :: 0 < i < |a| ==>
          a[i] == a[1..][i - 1] && b[i] == b[1..][i - 1] && candidates[i] == candidates[1..][i - 1];
      TotalGrows(candidates[1..], a[1..], b[1..], f);
    }
  }

  lemma {:induction false} TotalOfOneMore(candidates: seq<Candidate>, mask: seq<bool>, i: nat, f: Candidate -> int)
    requires |mask| == |candidates| && i < |mask|
    ensures Total(candidates, mask[i := true], f)
         == Total(candidates, mask, f) + if mask[i] then 0 else f(candidates[i])
  {
    if i > 0 {
      assert mask[i := true][1..] == mask[1..][i - 1 := true];
      TotalOfOneMore(candidates[1..], mask[1..], i - 1, f);
    } else {
      assert mask[0 := true][1..] == mask[1..];
    }
  }

  function One(): Candidate -> int {
    (c: Candidate) => 1
  }

  /** Four times what a candidate brings above its own fee. */
  function Worth(rate: nat): Candidate -> int {
    (c: Candidate) => WITNESS_SCALE_FACTOR * c.value - c.weight * rate
  }

  function ValueAbove(value: int): Candidate -> int {
    (c: Candidate) => c.value - value
  }

  lemma {:induction false} ChosenTotals(candidates: seq<Candidate>, mask: seq<bool>, rate: nat, value: int)
    requires |mask| == |candidates|
    ensures var chosen := Chosen(candidates, mask);
            |chosen| == Total(candidates, mask, One())
            && WITNESS_SCALE_FACTOR * Value(chosen) - Weight(chosen) * rate == Total(candidates, mask, Worth(rate))
            && Value(chosen) - |chosen| * value == Total(candidates, mask, ValueAbove(value))
  {
    if candidates != [] {
      ChosenTotals(candidates[1..], mask[1..], rate, value);
      var rest := Chosen(candidates[1..], mask[1..]);
      if mask[0] {
        assert ([candidates[0]] + rest)[1..] == rest;
        Distributes(candidates[0].weight, Weight(rest), rate);
        Distributes(1, |rest|, value);
      } else {
        assert [] + rest == rest;
      }
    }
  }

  lemma {:induction false} WeightOfSame(candidates: seq<Candidate>, mask: seq<bool>, weight: nat)
    requires |mask| == |candidates| && forall i :: 0 <= i < |candidates| ==> candidates[i].weight == weight
    ensures Weight(Chosen(candidates, mask)) == |Chosen(candidates, mask)| * weight
  {
    if candidates != [] {
      WeightOfSame(candidates[1..], mask[1..], weight);
      var rest := Chosen(candidates[1..], mask[1..]);
      if mask[0] {
        assert ([candidates[0]] + rest)[1..] == rest;
        Distributes(1, |rest|, weight);
      } else {
        assert [] + rest == rest;
      }
    }
  }

  // ----- more to spend is never worse -----

  /** With and without change, the second choice leaves at least as much as the first. */
  predicate LeavesMore(a: seq<Candidate>, b: seq<Candidate>, target: Target, policy: ChangePolicy) {
    Excess(a, target, NO_DRAIN) <= Excess(b, target, NO_DRAIN)
    && Excess(a, target, Drain(policy.weight, 1, 0)) <= Excess(b, target, Drain(policy.weight, 1, 0))
  }

  lemma SatisfiedStays(a: seq<Candidate>, b: seq<Candidate>, target: Target, policy: ChangePolicy, mustHaveChange: bool)
    requires LeavesMore(a, b, target, policy) && Satisfied(a, target, policy, mustHaveChange)
    ensures Satisfied(b, target, policy, mustHaveChange)
  {
    ChangeTakesTheExcess(a, target, policy);
    ChangeTakesTheExcess(b, target, policy);
    hide Excess;
  }

  lemma RoundedFee(valueA: int, valueB: int, feeA: int, feeB: int, fixed: int)
    requires WITNESS_SCALE_FACTOR * valueA - feeA <= WITNESS_SCALE_FACTOR * valueB - feeB
    ensures valueA - (feeA + fixed + WITNESS_SCALE_FACTOR - 1) / WITNESS_SCALE_FACTOR
         <= valueB - (feeB + fixed + WITNESS_SCALE_FACTOR - 1) / WITNESS_SCALE_FACTOR
  {
  }

  lemma MoreWorthLeavesMore(a: seq<Candidate>, b: seq<Candidate>, target: Target, drain: Drain)
    requires target.replacedFee.None?
    requires var m := target.outputs + drain.outputs; target.overhead(|a|, m) == target.overhead(|b|, m)
    requires WITNESS_SCALE_FACTOR * Value(a) - Weight(a) * target.rate
          <= WITNESS_SCALE_FACTOR * Value(b) - Weight(b) * target.rate
    ensures Excess(a, target, drain) <= Excess(b, target, drain)
  {
    hide Value, Weight;
    var rate := target.rate;
    var fixed := target.overhead(|a|, target.outputs + drain.outputs) + target.outputWeight + drain.weight;
    assert TxWeight(a, target, drain) == Weight(a) + fixed && TxWeight(b, target, drain) == Weight(b) + fixed;
    Distributes(Weight(a), fixed, rate);
    Distributes(Weight(b), fixed, rate);
    hide TxWeight;
    RoundedFee(Value(a), Value(b), Weight(a) * rate, Weight(b) * rate, fixed * rate);
  }

  lemma SameWeightLeavesMore(a: seq<Candidate>, b: seq<Candidate>, target: Target, drain: Drain)
    requires |a| == |b| && Weight(a) == Weight(b) && Value(a) <= Value(b)
    ensures Excess(a, target, drain) <= Excess(b, target, drain)
  {
    hide Value, Weight, ImpliedFee;
    assert TxWeight(a, target, drain) == TxWeight(b, target, drain);
    hide TxWeight;
  }

  // ----- without a fee to replace: the prefix of all coins that pay for themselves -----

  predicate Pays(c: Candidate, rate: nat) {
    Worth(rate)(c) > 0
  }

  lemma Heavier(a: int, b: int, weight: nat)
    requires weight > 0
    ensures a * weight >= b * weight ==> a >= b
    ensures a * weight > b * weight ==> a > b
  {
    if a < b {
      Grows(a + 1, b, weight);
      Distributes(a, 1, weight);
    }
  }

  lemma PaysBefore(a: Candidate, b: Candidate, rate: nat)
    requires a.weight > 0 && b.weight > 0 && a.value * b.weight >= b.value * a.weight && Pays(b, rate)
    ensures Pays(a, rate)
  {
    Grows(b.weight * rate + 1, WITNESS_SCALE_FACTOR * b.value, a.weight);
    Distributes(b.weight * rate, 1, a.weight);
    assert WITNESS_SCALE_FACTOR * a.value * b.weight == WITNESS_SCALE_FACTOR * (a.value * b.weight);
    assert WITNESS_SCALE_FACTOR * b.value * a.weight == WITNESS_SCALE_FACTOR * (b.value * a.weight);
    assert a.weight * rate * b.weight == b.weight * rate * a.weight;
    Heavier(WITNESS_SCALE_FACTOR * a.value, a.weight * rate, b.weight);
  }

  /** Besides the required coins, the prefix has exactly the coins that pay for themselves. */
  ghost predicate IsPaying(r: Request, order: seq<nat>, k: nat)
    requires r.target.rate > 0
  {
    k <= |order|
    && forall i :: 0 <= i < |r.coins| && !r.coins[i].mustSelect ==>
         (i in order[..k] <==> Pays(CandidatesOf(r)[i], r.target.rate))
  }

  lemma Weighty(r: Request, i: nat)
    requires r.target.rate > 0 && r.inputWeight > 0 && i < |r.coins|
    ensures CandidatesOf(r)[i].weight > 0
  {
    CandidateAt(r.coins, r.inputWeight, r.target.rate, i);
  }

  lemma PayingPrefix(r: Request, order: seq<nat>) returns (k: nat)
    requires r.target.rate > 0 && r.inputWeight > 0 && Visits(order, |r.coins|) && Descending(CandidatesOf(r), order)
    ensures IsPaying(r, order, k)
  {
    hide Candidates, Pays;
    var candidates, rate := CandidatesOf(r), r.target.rate;
    forall j | 0 <= j < |order| ensures order[j] < |r.coins| {
      assert order[j] in order;
    }
    k := 0;
    while k < |order| && (r.coins[order[k]].mustSelect || Pays(candidates[order[k]], rate))
      invariant k <= |order|
      invariant forall j :: 0 <= j < k ==> r.coins[order[j]].mustSelect || Pays(candidates[order[j]], rate)
    {
      k := k + 1;
    }
    forall i | 0 <= i < |r.coins| && !r.coins[i].mustSelect && Pays(candidates[i], rate) ensures i in order[..k] {
      assert i in order;
      var m :| 0 <= m < |order| && order[m] == i;
      if m > k {
        Weighty(r, i);
        Weighty(r, order[k]);
        PaysBefore(candidates[order[k]], candidates[i], rate);
      }
      assert order[..k][m] == i;
    }
  }

  lemma PayingIsBest(r: Request, order: seq<nat>, k: nat, mask: seq<bool>)
    requires r.target.rate > 0 && r.target.replacedFee.None? && ConstantOverhead(r)
    requires IsPaying(r, order, k) && Acceptable(r, mask)
    ensures Acceptable(r, Prefix(r.coins, order, k))
  {
    var candidates, best, rate := CandidatesOf(r), Prefix(r.coins, order, k), r.target.rate;
    TotalGrows(candidates, mask, best, Worth(rate));
    ChosenTotals(candidates, mask, rate, 0);
    ChosenTotals(candidates, best, rate, 0);
    hide Candidates, Chosen, Total, Worth, Excess, Satisfied, Policy;
    MoreWorthLeavesMore(Chosen(candidates, mask), Chosen(candidates, best), r.target, NO_DRAIN);
    MoreWorthLeavesMore(Chosen(candidates, mask), Chosen(candidates, best), r.target, Drain(Policy(r).weight, 1, 0));
    SatisfiedStays(Chosen(candidates, mask), Chosen(candidates, best), r.target, Policy(r), r.mustHaveChange);
  }

  // ----- coins that weigh the same: the prefix of as many coins -----

  lemma CountOfPrefix(r: Request, order: seq<nat>, k: nat)
    requires r.target.rate > 0 && k < |order| && order[k] < |r.coins|
    ensures Total(CandidatesOf(r), Prefix(r.coins, order, k + 1), One())
         <= Total(CandidatesOf(r), Prefix(r.coins, order, k), One()) + 1
  {
    PrefixNext(r.coins, order, k);
    TotalOfOneMore(CandidatesOf(r), Prefix(r.coins, order, k), order[k], One());
  }

  /** Some prefix chooses exactly as many coins as a mask that keeps the required ones. */
  lemma PrefixOfSize(r: Request, order: seq<nat>, mask: seq<bool>) returns (k: nat)
    requires r.target.rate > 0 && Visits(order, |r.coins|) && KeepsRequired(r.coins, mask)
    ensures k <= |order|
    ensures Total(CandidatesOf(r), Prefix(r.coins, order, k), One()) == Total(CandidatesOf(r), mask, One())
  {
    hide Total;
    var candidates := CandidatesOf(r);
    TotalGrows(candidates, Prefix(r.coins, order, 0), mask, One());
    assert order[..|order|] == order;
    TotalGrows(candidates, mask, Prefix(r.coins, order, |order|), One());
    forall j | 0 <= j < |order| ensures order[j] < |r.coins| {
      assert order[j] in order;
    }
    hide Prefix;
    k := 0;
    while Total(candidates, Prefix(r.coins, order, k), One()) < Total(candidates, mask, One())
      invariant k <= |order|
      invariant Total(candidates, Prefix(r.coins, order, k), One()) <= Total(candidates, mask, One())
      decreases |order| - k
    {
      CountOfPrefix(r, order, k);
      k := k + 1;
    }
  }

  lemma DescendingValues(r: Request, order: seq<nat>)
    requires r.target.rate > 0 && r.inputWeight > 0
    requires forall j :: 0 <= j < |order| ==> order[j] < |r.coins|
    requires SameWeights(CandidatesOf(r)) && Descending(CandidatesOf(r), order)
    ensures forall j, m :: 0 <= j < m < |order| ==>
              CandidatesOf(r)[order[j]].value >= CandidatesOf(r)[order[m]].value
  {
    var candidates := CandidatesOf(r);
    hide Candidates;
    forall j, m | 0 <= j < m < |order| ensures candidates[order[j]].value >= candidates[order[m]].value {
      Weighty(r, order[j]);
      Heavier(candidates[order[j]].value, candidates[order[m]].value, candidates[order[j]].weight);
    }
  }

  /** Every coin of a prefix that is not required is worth at least as much as every coin outside. */
  lemma PrefixIsWorthMost(r: Request, order: seq<nat>, k: nat, mask: seq<bool>) returns (value: int)
    requires r.target.rate > 0 && r.inputWeight > 0 && Visits(order, |r.coins|) && k <= |order| && r.coins != []
    requires SameWeights(CandidatesOf(r)) && Descending(CandidatesOf(r), order) && KeepsRequired(r.coins, mask)
    ensures var candidates, prefix := CandidatesOf(r), Prefix(r.coins, order, k);
            (forall i :: 0 <= i < |mask| && mask[i] && !prefix[i] ==> candidates[i].value <= value)
            && (forall i :: 0 <= i < |mask| && prefix[i] && !mask[i] ==> candidates[i].value >= value)
  {
    var candidates, prefix := CandidatesOf(r), Prefix(r.coins, order, k);
    hide Candidates;
    assert 0 in order;
    var last := if k == 0 then 0 else k - 1;
    forall j | 0 <= j < |order| ensures order[j] < |r.coins| {
      assert order[j] in order;
    }
    value := candidates[order[last]].value;
    DescendingValues(r, order);
    hide Descending, SameWeights, CandidatesOf;
    forall i | 0 <= i < |mask| && mask[i] && !prefix[i] ensures candidates[i].value <= value {
      assert i in order;
      var m :| 0 <= m < |order| && order[m] == i;
      assert forall j :: 0 <= j < k ==> order[j] in order[..k];
    }
    forall i | 0 <= i < |mask| && prefix[i] && !mask[i] ensures candidates[i].value >= value {
      var m :| 0 <= m < k && order[..k][m] == i;
      assert order[m] == i;
    }
  }

  lemma SameSizeIsBest(r: Request, order: seq<nat>, mask: seq<bool>) returns (k: nat)
    requires r.target.rate > 0 && r.inputWeight > 0 && Visits(order, |r.coins|) && r.coins != []
    requires SameWeights(CandidatesOf(r)) && Descending(CandidatesOf(r), order) && Acceptable(r, mask)
    ensures k <= |order| && Acceptable(r, Prefix(r.coins, order, k))
  {
    hide Satisfied, Candidates, Descending;
    k := PrefixOfSize(r, order, mask);
    var candidates, prefix := CandidatesOf(r), Prefix(r.coins, order, k);
    var value := PrefixIsWorthMost(r, order, k, mask);
    TotalGrows(candidates, mask, prefix, ValueAbove(value));
    ChosenTotals(candidates, mask, 0, value);
    ChosenTotals(candidates, prefix, 0, value);
    WeightOfSame(candidates, mask, candidates[0].weight);
    WeightOfSame(candidates, prefix, candidates[0].weight);
    hide Chosen, Total, Excess, Policy, ValueAbove;
    var a, b := Chosen(candidates, mask), Chosen(candidates, prefix);
    SameWeightLeavesMore(a, b, r.target, NO_DRAIN);
    SameWeightLeavesMore(a, b, r.target, Drain(Policy(r).weight, 1, 0));
    SatisfiedStays(a, b, r.target, Policy(r), r.mustHaveChange);
  }

  // ----- what the fallback finds -----

  /**
   In descending value per weight some prefix is acceptable exactly when any choice of coins is,
   if there is no fee to replace or all coins weigh the same: insufficient funds are then only
   reported when no choice of coins would do.
   */
  lemma FallbackIsComplete(r: Request, order: seq<nat>)
    requires r.target.rate > 0 && Visits(order, |r.coins|) && Descending(CandidatesOf(r), order) && SuitsFallback(r)
    ensures NoneAcceptable(r, order) <==> forall mask :: !Acceptable(r, mask)
  {
    hide Acceptable, Prefix, Candidates, Descending;
    forall mask | Acceptable(r, mask) ensures !NoneAcceptable(r, order) {
      if r.target.replacedFee.None? && ConstantOverhead(r) {
        var k := PayingPrefix(r, order);
        PayingIsBest(r, order, k, mask);
      } else if r.coins == [] {
        OnlyMask(r, order, mask);
      } else {
        var k := SameSizeIsBest(r, order, mask);
      }
    }
  }

  lemma OnlyMask(r: Request, order: seq<nat>, mask: seq<bool>)
    requires r.target.rate > 0 && r.coins == [] && Acceptable(r, mask)
    ensures mask == Prefix(r.coins, order, 0)
  {
  }

  // ----- a fee to replace, and coins that weigh different amounts -----

  /**
   A replacement at 10 sat/vb for a fee of 1894 sat. The second coin has 9900 vb of ancestors
   that paid nothing, and is worth a little less than they cost; the third is worth less still.
   */
  function ReplacingRequest(): Request {
    var coins := [
      CandidateCoin(OutPoint(0, 0), 2000, 0, false, false, None, None),
      CandidateCoin(OutPoint(1, 0), 99_000, 0, false, false, None, Some(AncestorInfo(9900, 0))),
      CandidateCoin(OutPoint(2, 0), 980, 0, false, false, None, None)];
    Request(coins, Target(10, Some(1894), 795, 0, 1, (inputs: nat, outputs: nat) => 42), 172, 400, false)
  }

  lemma ReplacingCandidates()
    ensures CandidatesOf(ReplacingRequest()) == [Candidate(2000, 400), Candidate(99_000, 40_000), Candidate(980, 400)]
  {
    var coins := ReplacingRequest().coins;
    assert |coins| == 3 && coins[1..][0] == coins[1] && coins[1..][1..] == [coins[2]] && [coins[2]][1..] == [];
    assert Candidates([coins[2]], 400, 10) == [Candidate(980, 400)];
    assert Candidates(coins[1..], 400, 10) == [Candidate(99_000, 40_000)] + [Candidate(980, 400)];
  }

  /** Which of three are chosen. */
  lemma ChosenOfThree(a: Candidate, b: Candidate, c: Candidate, mask: seq<bool>)
    requires |mask| == 3
    ensures var chosen := Chosen([a, b, c], mask);
            |chosen| <= 3
            && Value(chosen) == (if mask[0] then a.value else 0) + (if mask[1] then b.value else 0)
                                + (if mask[2] then c.value else 0)
            && Weight(chosen) == (if mask[0] then a.weight else 0) + (if mask[1] then b.weight else 0)
                                 + (if mask[2] then c.weight else 0)
  {
    ChosenOneMore([a, b, c], mask);
    assert [a, b, c][1..] == [b, c] && [b, c][1..] == [c] && [c][1..] == [];
    ChosenOneMore([b, c], mask[1..]);
    ChosenOneMore([c], mask[1..][1..]);
    hide Chosen, Value, Weight;
    ChosenNothing(mask[1..][1..][1..]);
  }

  lemma ChosenNothing(mask: seq<bool>)
    requires mask == []
    ensures var none: seq<Candidate> := []; Value(Chosen(none, mask)) == Weight(Chosen(none, mask)) == 0
  {
  }

  lemma ChosenOneMore(candidates: seq<Candidate>, mask: seq<bool>)
    requires |mask| == |candidates| > 0
    ensures var chosen, rest := Chosen(candidates, mask), Chosen(candidates[1..], mask[1..]);
            Value(chosen) == Value(rest) + (if mask[0] then candidates[0].value else 0)
            && Weight(chosen) == Weight(rest) + (if mask[0] then candidates[0].weight else 0)
  {
    var rest := Chosen(candidates[1..], mask[1..]);
    if mask[0] {
      assert ([candidates[0]] + rest)[1..] == rest;
    } else {
      assert [] + rest == rest;
    }
  }

  lemma ReplacingAcceptable(mask: seq<bool>)
    requires |mask| == 3
    ensures Acceptable(ReplacingRequest(), mask) <==> mask == [true, false, true]
  {
    ReplacingCandidates();
    ChosenOfThree(Candidate(2000, 400), Candidate(99_000, 40_000), Candidate(980, 400), mask);
    hide Candidates, Chosen, Value, Weight;
  }

  /** The first and the third coin would do, and the fallback reports insufficient funds. */
  lemma ReplacementMayBeMissed()
    ensures var r, order := ReplacingRequest(), [0, 1, 2];
            Visits(order, |r.coins|) && Descending(CandidatesOf(r), order) && !SuitsFallback(r)
            && NoneAcceptable(r, order) && Acceptable(r, [true, false, true])
  {
    var r, order := ReplacingRequest(), [0, 1, 2];
    hide Acceptable, Candidates, Descending, Prefix, SuitsFallback, ReplacingRequest;
    ReplacingOrder();
    ReplacingAcceptable([true, false, true]);
    forall k | 0 <= k <= 3 ensures !Acceptable(r, Prefix(r.coins, order, k)) {
      ReplacingPrefix(k);
      ReplacingAcceptable(Prefix(r.coins, order, k));
    }
  }

  lemma ReplacingOrder()
    ensures var r, order := ReplacingRequest(), [0, 1, 2];
            r.target.rate == 10 && |r.coins| == 3 && Visits(order, |r.coins|)
            && Descending(CandidatesOf(r), order) && !SuitsFallback(r)
  {
    var r := ReplacingRequest();
    ReplacingCandidates();
    hide Candidates, CandidatesOf;
    assert CandidatesOf(r)[0].weight != CandidatesOf(r)[1].weight;
  }

  lemma ReplacingPrefix(k: nat)
    requires k <= 3 && |ReplacingRequest().coins| == 3
    ensures Prefix(ReplacingRequest().coins, [0, 1, 2], k) != [true, false, true]
  {
    var order := [0, 1, 2];
    assert k >= 2 ==> order[..k][1] == 1;
    assert k < 3 ==> 2 !in order[..k];
    assert k >= 2 ==> Prefix(ReplacingRequest().coins, order, k)[1];
    assert k < 3 ==> !Prefix(ReplacingRequest().coins, order, k)[2];
  }
}
