/**
 The selection procedure itself (liana/src/spend.rs, `select_coins_for_spend`): a mutable
 selector, the search oracle, and the fallback loop that takes coins in descending value
 per weight until the target is met.
 */
module CoinSelector {
  import opened Wrappers
  import opened CoinSelection

  /** The selector of the library: which candidates are chosen, and in which order more are taken. */
  class Selector {
    var order: seq<nat>
    var mask: seq<bool>

    /** The order visits every candidate. */
    ghost predicate Valid()
      reads this
    {
      (forall k :: k in order ==> k < |mask|) && forall i :: 0 <= i < |mask| ==> i in order
    }

    constructor (size: nat)
      ensures Valid() && |mask| == size && mask == seq(size, i => false)
    {
      order := seq(size, i => i);
      mask := seq(size, i => false);
      new;
      forall i | 0 <= i < |mask| ensures i in order {
        assert order[i] == i;
      }
    }

    method Select(i: nat)
      requires Valid() && i < |mask|
      modifies this`mask
      ensures Valid() && mask == old(mask)[i := true]
    {
      mask := mask[i := true];
    }

    /** A new order of the same candidates. */
    method Sort(newOrder: seq<nat>)
      requires Valid() && Visits(newOrder, |mask|)
      modifies this`order
      ensures Valid() && order == newOrder
    {
      order := newOrder;
    }

    /** Chooses the next candidate of the order that is not chosen yet, if there is one. */
    method SelectNext() returns (found: bool)
      requires Valid()
      modifies this`mask
      ensures Valid() && |mask| == |old(mask)|
      ensures found ==> exists k :: TakesNext(order, old(mask), mask, k)
      ensures !found ==> mask == old(mask) && forall i :: 0 <= i < |mask| ==> mask[i]
    {
      forall k | 0 <= k < |order| ensures order[k] < |mask| {
        assert order[k] in order;
      }
      for k := 0 to |order|
        invariant mask == old(mask) && order == old(order)
        invariant forall j :: 0 <= j < |order| ==> order[j] < |mask|
        invariant forall j :: 0 <= j < k ==> mask[order[j]]
      {
        if !mask[order[k]] {
          var i := order[k];
          mask := mask[i := true];
          assert TakesNext(order, old(mask), mask, k);
          return true;
        }
      }
      forall i | 0 <= i < |mask| ensures mask[i] {
        assert i in order;
        var j :| 0 <= j < |order| && order[j] == i;
      }
      return false;
    }

    /** The library's search: an oracle's selection replaces the current one. */
    method Adopt(found: seq<bool>)
      requires Valid() && |found| == |mask|
      modifies this`mask
      ensures Valid() && mask == found
    {
      mask := found;
    }
  }

  predicate Visits(order: seq<nat>, size: nat) {
    (forall k :: k in order ==> k < size) && forall i :: 0 <= i < size ==> i in order
  }

  /** The candidate at place `k` of the order, and no other, was chosen next: all before it are. */
  ghost predicate TakesNext(order: seq<nat>, before: seq<bool>, after: seq<bool>, k: nat) {
    k < |order| && order[k] < |before| && !before[order[k]] && after == before[order[k] := true]
    && forall j :: 0 <= j < k ==> order[j] < |before| && before[order[j]]
  }

  function Unchosen(mask: seq<bool>): nat {
    if mask == [] then 0 else (if mask[0] then 0 else 1) + Unchosen(mask[1..])
  }

  lemma {:induction false} ChoosingLowers(mask: seq<bool>, i: nat)
    requires i < |mask| && !mask[i]
    ensures Unchosen(mask[i := true]) == Unchosen(mask) - 1
  {
    if i > 0 {
      assert mask[i := true][1..] == mask[1..][i - 1 := true];
      ChoosingLowers(mask[1..], i - 1);
    } else {
      assert mask[0 := true][1..] == mask[1..];
    }
  }

  // ----- what the procedure is given and returns -----

  datatype Request = Request(
    coins: seq<CandidateCoin>,
    target: Target,
    changeWeight: nat,
    /** The weight of an input of ours, base and satisfaction. */
    inputWeight: nat,
    mustHaveChange: bool)

  datatype Selection = Selection(
    selected: seq<CandidateCoin>,
    changeAmount: nat,
    maxChangeAmount: nat,
    feeForAncestors: nat)

  predicate DistinctOutpoints(coins: seq<CandidateCoin>) {
    forall i, j :: 0 <= i < j < |coins| ==> coins[i].outpoint != coins[j].outpoint
  }

  /** What a change output wastes: its own weight now, and an input of ours to spend it one day. */
  function ChangeWaste(r: Request): nat {
    (r.changeWeight * r.target.rate + r.inputWeight * LONG_TERM_FEERATE + WITNESS_SCALE_FACTOR - 1)
    / WITNESS_SCALE_FACTOR
  }

  /** No change below our dust limit, and none below what it wastes: the library's bound is exclusive. */
  function Policy(r: Request): ChangePolicy {
    ChangePolicy(r.changeWeight, if ChangeWaste(r) > DUST_OUTPUT_SATS - 1 then ChangeWaste(r) else DUST_OUTPUT_SATS - 1)
  }

  function CandidateOf(coin: CandidateCoin, inputWeight: nat, rate: nat): Candidate
    requires rate > 0
  {
    Candidate(coin.amount, inputWeight + ExtraWeight(coin, rate))
  }

  function Candidates(coins: seq<CandidateCoin>, inputWeight: nat, rate: nat): (r: seq<Candidate>)
    requires rate > 0
    ensures |r| == |coins|
  {
    if coins == [] then [] else [CandidateOf(coins[0], inputWeight, rate)] + Candidates(coins[1..], inputWeight, rate)
  }

  function ChosenOf(r: Request, mask: seq<bool>): seq<Candidate>
    requires r.target.rate > 0 && |mask| == |r.coins|
  {
    Chosen(Candidates(r.coins, r.inputWeight, r.target.rate), mask)
  }

  /** Every coin that must be spent is chosen. */
  predicate KeepsRequired(coins: seq<CandidateCoin>, mask: seq<bool>) {
    |mask| == |coins| && forall i :: 0 <= i < |coins| ==> coins[i].mustSelect ==> mask[i]
  }

  /** A selection that may be returned. */
  predicate Acceptable(r: Request, mask: seq<bool>)
    requires r.target.rate > 0
  {
    KeepsRequired(r.coins, mask) && Satisfied(ChosenOf(r, mask), r.target, Policy(r), r.mustHaveChange)
  }

  /** The drain that leaves nothing to the change output. */
  function EmptyChange(r: Request): Drain {
    Drain(r.changeWeight, 1, 0)
  }

  function Max0(x: int): nat {
    if x > 0 then x else 0
  }

  /** What is returned for a chosen set of coins. */
  ghost predicate IsSelection(r: Request, mask: seq<bool>, s: Selection)
    requires r.target.rate > 0
  {
    Acceptable(r, mask)
    && s.selected == Chosen(r.coins, mask)
    && s.changeAmount == DrainOf(ChosenOf(r, mask), r.target, Policy(r)).value
    && s.maxChangeAmount == Max0(Excess(ChosenOf(r, mask), r.target, EmptyChange(r)))
    && s.feeForAncestors == FeeForAncestors(s.selected, r.target.rate)
  }

  function AllTrue(size: nat): (mask: seq<bool>)
    ensures |mask| == size && forall i :: 0 <= i < size ==> mask[i]
  {
    seq(size, i => true)
  }

  /** What the failure reports as missing: measured against the smallest change when change is required. */
  function Missing(r: Request): nat
    requires r.target.rate > 0
  {
    var all := ChosenOf(r, AllTrue(|r.coins|));
    var drain := if r.mustHaveChange then Drain(r.changeWeight, 1, DUST_OUTPUT_SATS)
                 else DrainOf(all, r.target, Policy(r));
    var excess := Excess(all, r.target, drain);
    if excess < 0 then -excess else excess
  }

  // ----- the procedure -----

  method SelectCoinsForSpend(r: Request, search: Option<seq<bool>>, order: seq<nat>)
    returns (result: Result<Selection, nat>)
    requires r.target.rate > 0 && DistinctOutpoints(r.coins)
    requires Visits(order, |r.coins|)
    requires search.Some? ==> Acceptable(r, search.value)
    ensures result.Ok? ==> exists mask :: IsSelection(r, mask, result.value)
    ensures result.Ok? && search.Some? ==> IsSelection(r, search.value, result.value)
    ensures result.Ok? && search.None? ==>
              exists k: nat :: FirstAcceptable(r, order, k) && IsSelection(r, Prefix(r.coins, order, k), result.value)
    ensures result.Err? ==> search.None? && NoneAcceptable(r, order)
    ensures result.Err? ==> !Acceptable(r, AllTrue(|r.coins|)) && result.error == Missing(r)
  {
    hide Acceptable, IsSelection, Missing, Candidates, Excess, DrainOf, FeeForAncestors, Chosen, ExtraWeights;
    hide FirstAcceptable, NoneAcceptable;
    var candidates, added := WeighCandidates(r);
    var selector := new Selector(|r.coins|);
    SelectRequired(selector, r.coins);
    if search.Some? {
      AcceptableLength(r, search.value);
      selector.Adopt(search.value);
    } else {
      RequiredFirst(r.coins, selector.order, order);
      selector.Sort(order);
      hide Prefix;
      var met := Fallback(selector, r, candidates);
      if !met {
        var missing := ReportMissing(r, selector.mask, candidates);
        return Err(missing);
      }
      ghost var k: nat :| k <= |order| && FirstAcceptable(r, order, k) && selector.mask == Prefix(r.coins, order, k);
      FirstIsAcceptable(r, order, k);
    }
    AcceptableLength(r, selector.mask);
    var selection := ReportSelection(r, selector.mask, candidates, added);
    return Ok(selection);
  }

  lemma FirstIsAcceptable(r: Request, order: seq<nat>, k: nat)
    requires r.target.rate > 0 && FirstAcceptable(r, order, k)
    ensures k <= |order| && Acceptable(r, Prefix(r.coins, order, k))
  {
  }

  lemma RequiredFirst(coins: seq<CandidateCoin>, order: seq<nat>, other: seq<nat>)
    ensures Prefix(coins, order, 0) == Prefix(coins, other, 0)
  {
  }

  method ReportMissing(r: Request, mask: seq<bool>, candidates: seq<Candidate>) returns (missing: nat)
    requires r.target.rate > 0 && candidates == Candidates(r.coins, r.inputWeight, r.target.rate)
    requires |mask| == |r.coins| && forall i :: 0 <= i < |mask| ==> mask[i]
    ensures mask == AllTrue(|r.coins|) && missing == Missing(r)
  {
    hide Excess, DrainOf, Candidates, Chosen;
    var all := Chosen(candidates, mask);
    var drain := if r.mustHaveChange then Drain(r.changeWeight, 1, DUST_OUTPUT_SATS)
                 else DrainOf(all, r.target, Policy(r));
    var excess := Excess(all, r.target, drain);
    assert mask == AllTrue(|r.coins|);
    return if excess < 0 then -excess else excess;
  }

  method ReportSelection(r: Request, mask: seq<bool>, candidates: seq<Candidate>, added: map<OutPoint, nat>)
    returns (s: Selection)
    requires r.target.rate > 0 && candidates == Candidates(r.coins, r.inputWeight, r.target.rate)
    requires Acceptable(r, mask) && |mask| == |r.coins|
    requires forall i :: 0 <= i < |r.coins| ==>
               r.coins[i].outpoint in added && added[r.coins[i].outpoint] == ExtraWeight(r.coins[i], r.target.rate)
    ensures IsSelection(r, mask, s)
  {
    hide Acceptable, Excess, DrainOf, Candidates, Chosen, ExtraWeights, ExtraWeight, ImpliedFee;
    var chosen := Chosen(candidates, mask);
    var changeAmount := DrainOf(chosen, r.target, Policy(r)).value;
    var maxChangeAmount := Max0(Excess(chosen, r.target, EmptyChange(r)));
    var total := AddedWeight(r, mask, added);
    return Selection(Chosen(r.coins, mask), changeAmount, maxChangeAmount, ImpliedFee(total, r.target.rate));
  }

  lemma AcceptableLength(r: Request, mask: seq<bool>)
    requires r.target.rate > 0 && Acceptable(r, mask)
    ensures |mask| == |r.coins|
  {
  }

  lemma {:induction false} CandidateAt(coins: seq<CandidateCoin>, inputWeight: nat, rate: nat, i: nat)
    requires rate > 0 && i < |coins|
    ensures Candidates(coins, inputWeight, rate)[i] == CandidateOf(coins[i], inputWeight, rate)
  {
    if i > 0 {
      CandidateAt(coins[1..], inputWeight, rate, i - 1);
    }
  }

  /** The candidates, and the weight added to each coin for its ancestors. */
  method WeighCandidates(r: Request) returns (candidates: seq<Candidate>, added: map<OutPoint, nat>)
    requires r.target.rate > 0 && DistinctOutpoints(r.coins)
    ensures candidates == Candidates(r.coins, r.inputWeight, r.target.rate)
    ensures forall i :: 0 <= i < |r.coins| ==>
              r.coins[i].outpoint in added && added[r.coins[i].outpoint] == ExtraWeight(r.coins[i], r.target.rate)
  {
    candidates, added := [], map[];
    for i := 0 to |r.coins|
      invariant |candidates| == i
      invariant forall j :: 0 <= j < i ==> candidates[j] == CandidateOf(r.coins[j], r.inputWeight, r.target.rate)
      invariant forall j :: 0 <= j < i ==>
                  r.coins[j].outpoint in added && added[r.coins[j].outpoint] == ExtraWeight(r.coins[j], r.target.rate)
      invariant forall o :: o in added ==> exists j :: 0 <= j < i && r.coins[j].outpoint == o
    {
      hide ExtraWeight;
      var coin := r.coins[i];
      var extra := ExtraWeight(coin, r.target.rate);
      assert coin.outpoint !in added;
      added := added[coin.outpoint := extra];
      candidates := candidates + [Candidate(coin.amount, r.inputWeight + extra)];
    }
    forall i | 0 <= i < |r.coins| ensures candidates[i] == Candidates(r.coins, r.inputWeight, r.target.rate)[i] {
      CandidateAt(r.coins, r.inputWeight, r.target.rate, i);
    }
  }

  /** The required coins and the first ones of an order. */
  function Prefix(coins: seq<CandidateCoin>, order: seq<nat>, k: nat): (mask: seq<bool>)
    requires k <= |order|
    ensures |mask| == |coins|
  {
    seq(|coins|, i requires 0 <= i < |coins| => coins[i].mustSelect || i in order[..k])
  }

  lemma PrefixNext(coins: seq<CandidateCoin>, order: seq<nat>, k: nat)
    requires k < |order| && order[k] < |coins|
    ensures Prefix(coins, order, k + 1) == Prefix(coins, order, k)[order[k] := true]
  {
    assert order[..k + 1] == order[..k] + [order[k]];
  }

  method SelectRequired(selector: Selector, coins: seq<CandidateCoin>)
    requires selector.Valid() && selector.mask == seq(|coins|, i => false)
    modifies selector
    ensures selector.Valid() && selector.mask == Prefix(coins, selector.order, 0)
    ensures selector.order == old(selector.order)
  {
    for i := 0 to |coins|
      invariant selector.Valid() && |selector.mask| == |coins| && selector.order == old(selector.order)
      invariant forall j :: 0 <= j < |coins| ==> (selector.mask[j] <==> j < i && coins[j].mustSelect)
    {
      if coins[i].mustSelect {
        selector.Select(i);
      }
    }
  }

  /** A prefix of the order that is acceptable, and the first one that is. */
  ghost predicate FirstAcceptable(r: Request, order: seq<nat>, k: nat)
    requires r.target.rate > 0
  {
    k <= |order| && Acceptable(r, Prefix(r.coins, order, k))
    && forall j :: 0 <= j < k ==> !Acceptable(r, Prefix(r.coins, order, j))
  }

  ghost predicate NoneAcceptable(r: Request, order: seq<nat>)
    requires r.target.rate > 0
  {
    forall k :: 0 <= k <= |order| ==> !Acceptable(r, Prefix(r.coins, order, k))
  }

  /** Up to where a next candidate is found the prefixes are all the same. */
  lemma {:induction false} TakingNext(coins: seq<CandidateCoin>, order: seq<nat>, k: nat, next: nat)
    requires k <= next <= |order|
    requires forall j :: 0 <= j < next ==> order[j] < |coins| && Prefix(coins, order, k)[order[j]]
    ensures Prefix(coins, order, next) == Prefix(coins, order, k)
    decreases next - k
  {
    if k < next {
      PrefixNext(coins, order, k);
      TakingNext(coins, order, k + 1, next);
    }
  }

  lemma NoPrefixBetween(r: Request, order: seq<nat>, k: nat, next: nat)
    requires r.target.rate > 0 && k <= next <= |order|
    requires forall j :: 0 <= j < next ==> order[j] < |r.coins| && Prefix(r.coins, order, k)[order[j]]
    requires forall j :: 0 <= j <= k ==> !Acceptable(r, Prefix(r.coins, order, j))
    ensures forall j :: 0 <= j <= next ==> !Acceptable(r, Prefix(r.coins, order, j))
  {
    hide Acceptable, Prefix;
    forall j | k < j <= next ensures !Acceptable(r, Prefix(r.coins, order, j)) {
      TakingNext(r.coins, order, k, j);
    }
  }

  /** Takes coins until the target is met, or every coin is taken. */
  method Fallback(selector: Selector, r: Request, candidates: seq<Candidate>) returns (met: bool)
    requires r.target.rate > 0 && candidates == Candidates(r.coins, r.inputWeight, r.target.rate)
    requires selector.Valid() && selector.mask == Prefix(r.coins, selector.order, 0)
    modifies selector
    ensures selector.order == old(selector.order) && |selector.mask| == |r.coins|
    ensures met ==> exists k: nat :: k <= |selector.order| && FirstAcceptable(r, selector.order, k)
                               && selector.mask == Prefix(r.coins, selector.order, k)
    ensures !met ==> NoneAcceptable(r, selector.order)
    ensures !met ==> !Acceptable(r, selector.mask) && forall i :: 0 <= i < |selector.mask| ==> selector.mask[i]
  {
    hide Candidates, Excess, DrainOf;
    var policy := Policy(r);
    ghost var order := selector.order;
    ghost var k: nat := 0;
    hide TakesNext;
    while true
      invariant selector.Valid() && selector.order == order && k <= |order|
      invariant selector.mask == Prefix(r.coins, order, k)
      invariant forall j :: 0 <= j < k ==> !Acceptable(r, Prefix(r.coins, order, j))
      decreases Unchosen(selector.mask)
    {
      PrefixKeepsRequired(r.coins, order, k);
      hide Prefix;
      var chosen := Chosen(candidates, selector.mask);
      var drain := DrainOf(chosen, r.target, policy);
      if Excess(chosen, r.target, drain) >= 0 && (drain != NO_DRAIN || !r.mustHaveChange) {
        assert FirstAcceptable(r, order, k);
        return true;
      }
      assert !Acceptable(r, Prefix(r.coins, order, k));
      hide Acceptable;
      ghost var before := selector.mask;
      var found := selector.SelectNext();
      if !found {
        NoneLeft(r, order, k);
        return false;
      }
      ghost var next :| TakesNext(order, before, selector.mask, next);
      k := OnePrefixFurther(r, order, k, next, selector.mask);
    }
  }

  lemma PrefixKeepsRequired(coins: seq<CandidateCoin>, order: seq<nat>, k: nat)
    requires k <= |order|
    ensures KeepsRequired(coins, Prefix(coins, order, k))
  {
  }

  lemma NoneLeft(r: Request, order: seq<nat>, k: nat)
    requires r.target.rate > 0 && k <= |order| && Visits(order, |r.coins|)
    requires forall i :: 0 <= i < |r.coins| ==> Prefix(r.coins, order, k)[i]
    requires forall j :: 0 <= j <= k ==> !Acceptable(r, Prefix(r.coins, order, j))
    ensures NoneAcceptable(r, order)
  {
    hide Prefix, Acceptable;
    forall j | 0 <= j < |order| ensures order[j] < |r.coins| {
      assert order[j] in order;
    }
    NoPrefixBetween(r, order, k, |order|);
  }

  lemma OnePrefixFurther(r: Request, order: seq<nat>, k: nat, next: nat, after: seq<bool>) returns (further: nat)
    requires r.target.rate > 0 && k <= |order| && TakesNext(order, Prefix(r.coins, order, k), after, next)
    requires forall j :: 0 <= j <= k ==> !Acceptable(r, Prefix(r.coins, order, j))
    ensures further <= |order| && after == Prefix(r.coins, order, further)
    ensures forall j :: 0 <= j < further ==> !Acceptable(r, Prefix(r.coins, order, j))
    ensures Unchosen(after) < Unchosen(Prefix(r.coins, order, k))
  {
    further := next + 1;
    assert forall j :: 0 <= j < k ==> order[j] in order[..k];
    hide Acceptable;
    TakingNext(r.coins, order, k, next);
    NoPrefixBetween(r, order, k, next);
    PrefixNext(r.coins, order, next);
    ChoosingLowers(Prefix(r.coins, order, k), order[next]);
  }

  /** The weight added for the ancestors of the selected coins, looked up coin by coin. */
  method AddedWeight(r: Request, mask: seq<bool>, added: map<OutPoint, nat>) returns (total: nat)
    requires r.target.rate > 0 && |mask| == |r.coins|
    requires forall i :: 0 <= i < |r.coins| ==>
               r.coins[i].outpoint in added && added[r.coins[i].outpoint] == ExtraWeight(r.coins[i], r.target.rate)
    ensures total == ExtraWeights(Chosen(r.coins, mask), r.target.rate)
  {
    total := 0;
    assert r.coins[0..] == r.coins && mask[0..] == mask;
    for i := 0 to |r.coins|
      invariant total + ExtraWeights(Chosen(r.coins[i..], mask[i..]), r.target.rate)
             == ExtraWeights(Chosen(r.coins, mask), r.target.rate)
    {
      ChosenNext(r.coins[i..], mask[i..], r.target.rate);
      assert r.coins[i..][1..] == r.coins[i + 1..] && mask[i..][1..] == mask[i + 1..];
      if mask[i] {
        total := total + added[r.coins[i].outpoint];
      }
    }
  }

  lemma ChosenNext(coins: seq<CandidateCoin>, mask: seq<bool>, rate: nat)
    requires coins != [] && |mask| == |coins| && rate > 0
    ensures ExtraWeights(Chosen(coins, mask), rate)
         == (if mask[0] then ExtraWeight(coins[0], rate) else 0) + ExtraWeights(Chosen(coins[1..], mask[1..]), rate)
  {
    var rest := Chosen(coins[1..], mask[1..]);
    if mask[0] {
      assert ([coins[0]] + rest)[1..] == rest;
    } else {
      assert [] + rest == rest;
    }
  }
}
