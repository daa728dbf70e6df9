/**
 Choosing coins for a spend (liana/src/spend.rs, `select_coins_for_spend`), in exact
 integer arithmetic. The selector itself is an external library: what is used of it is
 written out here, and its branch-and-bound search is an oracle that either fails or
 returns a selection that meets its target.
 */
module CoinSelection {
  import opened Wrappers

  const DUST_OUTPUT_SATS := 500
  const WITNESS_SCALE_FACTOR := 4
  /** The feerate at which change is reckoned to be spent one day. */
  const LONG_TERM_FEERATE := 5
  /** Replacing a transaction costs one satoshi per virtual byte on top of its fees. */
  const INCREMENTAL_FEERATE := 1

  datatype OutPoint = OutPoint(txid: nat, vout: nat)

  datatype AncestorInfo = AncestorInfo(vsize: nat, fee: nat)

  datatype CandidateCoin = CandidateCoin(
    outpoint: OutPoint,
    amount: nat,
    derivIndex: nat,
    isChange: bool,
    mustSelect: bool,
    sequence: Option<nat>,
    ancestors: Option<AncestorInfo>)

  datatype Candidate = Candidate(value: nat, weight: nat)

  /** A change output the selector reckons with: none has no weight, value or output. */
  datatype Drain = Drain(weight: nat, outputs: nat, value: nat)

  const NO_DRAIN := Drain(0, 0, 0)

  /** What a selection must pay for. `overhead` is the weight of a transaction's fixed parts. */
  datatype Target = Target(
    rate: nat,
    replacedFee: Option<nat>,
    outputValue: nat,
    outputWeight: nat,
    outputs: nat,
    overhead: (nat, nat) -> nat)

  /** A change output is added when its value would exceed `minValue`. */
  datatype ChangePolicy = ChangePolicy(weight: nat, minValue: nat)

  // ----- sums over chosen elements -----

  function Chosen<T>(xs: seq<T>, mask: seq<bool>): (r: seq<T>)
    requires |mask| == |xs|
    ensures |r| <= |xs|
  {
    if xs == [] then []
    else (if mask[0] then [xs[0]] else []) + Chosen(xs[1..], mask[1..])
  }

  function Value(candidates: seq<Candidate>): nat {
    if candidates == [] then 0 else candidates[0].value + Value(candidates[1..])
  }

  function Weight(candidates: seq<Candidate>): nat {
    if candidates == [] then 0 else candidates[0].weight + Weight(candidates[1..])
  }

  function Amount(coins: seq<CandidateCoin>): nat {
    if coins == [] then 0 else coins[0].amount + Amount(coins[1..])
  }

  /** The virtual bytes of a coin's ancestors that their fees leave unpaid at a rate. */
  function UnpaidSize(coin: CandidateCoin, rate: nat): nat
    requires rate > 0
  {
    match coin.ancestors
    case None => 0
    case Some(info) => if info.vsize > info.fee / rate then info.vsize - info.fee / rate else 0
  }

  /** The weight added for a coin so that it pays for its ancestors. */
  function ExtraWeight(coin: CandidateCoin, rate: nat): nat
    requires rate > 0
  {
    UnpaidSize(coin, rate) * WITNESS_SCALE_FACTOR
  }

  function ExtraWeights(coins: seq<CandidateCoin>, rate: nat): nat
    requires rate > 0
  {
    if coins == [] then 0 else ExtraWeight(coins[0], rate) + ExtraWeights(coins[1..], rate)
  }

  // ----- fees -----

  /** The fee a weight costs at a rate in satoshis per virtual byte, rounded up. */
  function ImpliedFee(weight: nat, rate: nat): nat {
    (weight * rate + WITNESS_SCALE_FACTOR - 1) / WITNESS_SCALE_FACTOR
  }

  function TxWeight(chosen: seq<Candidate>, target: Target, drain: Drain): nat {
    target.overhead(|chosen|, target.outputs + drain.outputs) + Weight(chosen) + target.outputWeight + drain.weight
  }

  /** The fee a selection must pay: its rate, and what replacing costs. */
  function RequiredFee(chosen: seq<Candidate>, target: Target, drain: Drain): nat {
    var weight := TxWeight(chosen, target, drain);
    var byRate := ImpliedFee(weight, target.rate);
    match target.replacedFee
    case None => byRate
    case Some(fee) =>
      var toReplace := fee + ImpliedFee(weight, INCREMENTAL_FEERATE);
      if byRate > toReplace then byRate else toReplace
  }

  /** What is left over once outputs, change and fee are paid. */
  function Excess(chosen: seq<Candidate>, target: Target, drain: Drain): int {
    Value(chosen) - target.outputValue - drain.value - RequiredFee(chosen, target, drain)
  }

  /** The change output the policy gives a selection. */
  function DrainOf(chosen: seq<Candidate>, target: Target, policy: ChangePolicy): Drain {
    var excess := Excess(chosen, target, Drain(policy.weight, 1, 0));
    if excess > policy.minValue then Drain(policy.weight, 1, excess) else NO_DRAIN
  }

  /** The condition on which selection may stop. */
  predicate Satisfied(chosen: seq<Candidate>, target: Target, policy: ChangePolicy, mustHaveChange: bool) {
    var drain := DrainOf(chosen, target, policy);
    Excess(chosen, target, drain) >= 0 && (drain != NO_DRAIN || !mustHaveChange)
  }

  /** With change, the whole excess goes to the change output: the fee is exactly what is required. */
  lemma ChangeTakesTheExcess(chosen: seq<Candidate>, target: Target, policy: ChangePolicy)
    ensures var drain := DrainOf(chosen, target, policy);
            drain != NO_DRAIN ==> drain.value > policy.minValue && Excess(chosen, target, drain) == 0
  {
  }

  // ----- paying for ancestors -----

  /** What the ancestors of a coin lack to reach a rate, to the satoshi. */
  function Shortfall(coin: CandidateCoin, rate: nat): nat {
    match coin.ancestors
    case None => 0
    case Some(info) => if info.vsize * rate > info.fee then info.vsize * rate - info.fee else 0
  }

  function Shortfalls(coins: seq<CandidateCoin>, rate: nat): nat {
    if coins == [] then 0 else Shortfall(coins[0], rate) + Shortfalls(coins[1..], rate)
  }

  lemma DivisionBounds(fee: nat, rate: nat)
    requires rate > 0
    ensures (fee / rate) * rate <= fee < (fee / rate) * rate + rate
  {
  }

  lemma Distributes(a: int, b: int, rate: int)
    ensures (a + b) * rate == a * rate + b * rate
    ensures (a - b) * rate == a * rate - b * rate
  {
  }

  lemma Grows(a: int, b: int, rate: nat)
    requires a <= b
    ensures a * rate <= b * rate
  {
  }

  /** One coin pays its ancestors' shortfall, and less than one feerate unit more. */
  lemma UnpaidSizeBounds(coin: CandidateCoin, rate: nat)
    requires rate > 0
    ensures Shortfall(coin, rate) <= UnpaidSize(coin, rate) * rate <= Shortfall(coin, rate) + rate - 1
  {
    if coin.ancestors.Some? {
      var info := coin.ancestors.value;
      var units := info.fee / rate;
      DivisionBounds(info.fee, rate);
      Distributes(info.vsize, units, rate);
      if info.vsize > units {
        Grows(units + 1, info.vsize, rate);
        Distributes(units, 1, rate);
      } else {
        Grows(info.vsize, units, rate);
      }
    }
  }

  function UnpaidSizes(coins: seq<CandidateCoin>, rate: nat): nat
    requires rate > 0
  {
    if coins == [] then 0 else UnpaidSize(coins[0], rate) + UnpaidSizes(coins[1..], rate)
  }

  lemma {:induction false} ExtraWeightsAreUnits(coins: seq<CandidateCoin>, rate: nat)
    requires rate > 0
    ensures ExtraWeights(coins, rate) == WITNESS_SCALE_FACTOR * UnpaidSizes(coins, rate)
  {
    if coins != [] {
      ExtraWeightsAreUnits(coins[1..], rate);
      hide UnpaidSize;
    }
  }

  lemma {:induction false} UnpaidSizesBounds(coins: seq<CandidateCoin>, rate: nat)
    requires rate > 0
    ensures Shortfalls(coins, rate) <= UnpaidSizes(coins, rate) * rate
                                    <= Shortfalls(coins, rate) + |coins| * (rate - 1)
  {
    hide UnpaidSize, Shortfall;
    if coins != [] {
      var rest := coins[1..];
      UnpaidSizeBounds(coins[0], rate);
      UnpaidSizesBounds(rest, rate);
      Distributes(UnpaidSize(coins[0], rate), UnpaidSizes(rest, rate), rate);
      Distributes(1, |rest|, rate - 1);
    }
  }

  /** The fee reported as paid for ancestors. */
  function FeeForAncestors(coins: seq<CandidateCoin>, rate: nat): nat
    requires rate > 0
  {
    ImpliedFee(ExtraWeights(coins, rate), rate)
  }

  lemma ImpliedFeeOfUnits(units: nat, rate: nat)
    ensures ImpliedFee(WITNESS_SCALE_FACTOR * units, rate) == units * rate
  {
    assert WITNESS_SCALE_FACTOR * units * rate == WITNESS_SCALE_FACTOR * (units * rate);
  }

  /**
   The ancestor fee covers the exact shortfall of every selected coin's ancestors, and
   exceeds their sum by less than one feerate unit per selected coin.
   */
  lemma AncestorFeeIsTight(coins: seq<CandidateCoin>, rate: nat)
    requires rate > 0
    ensures Shortfalls(coins, rate) <= FeeForAncestors(coins, rate)
    ensures coins != [] ==> FeeForAncestors(coins, rate) < Shortfalls(coins, rate) + |coins| * rate
  {
    hide ImpliedFee, ExtraWeights, UnpaidSizes, Shortfalls;
    ExtraWeightsAreUnits(coins, rate);
    UnpaidSizesBounds(coins, rate);
    ImpliedFeeOfUnits(UnpaidSizes(coins, rate), rate);
    Distributes(rate, 1, |coins|);
  }

  lemma ImpliedFeeSplits(weight: nat, units: nat, rate: nat)
    ensures ImpliedFee(weight + WITNESS_SCALE_FACTOR * units, rate) == ImpliedFee(weight, rate) + units * rate
  {
    Distributes(weight, WITNESS_SCALE_FACTOR * units, rate);
    assert WITNESS_SCALE_FACTOR * units * rate == WITNESS_SCALE_FACTOR * (units * rate);
  }

  lemma ImpliedFeeReaches(weight: nat, rate: nat)
    ensures WITNESS_SCALE_FACTOR * ImpliedFee(weight, rate) >= weight * rate
  {
  }

  /** Paying the rate on a weight and on the weight added to coins pays the weight and every coin's shortfall. */
  lemma AddedWeightPays(coins: seq<CandidateCoin>, rate: nat, weight: nat, fee: nat)
    requires rate > 0 && fee >= ImpliedFee(weight + ExtraWeights(coins, rate), rate)
    ensures WITNESS_SCALE_FACTOR * (fee - Shortfalls(coins, rate)) >= weight * rate
  {
    hide ImpliedFee, ExtraWeights, UnpaidSizes, Shortfalls;
    ExtraWeightsAreUnits(coins, rate);
    ImpliedFeeSplits(weight, UnpaidSizes(coins, rate), rate);
    UnpaidSizesBounds(coins, rate);
    ImpliedFeeReaches(weight, rate);
  }
}
