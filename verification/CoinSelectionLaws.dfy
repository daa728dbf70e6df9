/** What a returned selection guarantees, and what a failure means. */
module CoinSelectionLaws {
  import opened Wrappers
  import opened CoinSelection
  import opened CoinSelector

  lemma {:induction false} ChosenLaw(coins: seq<CandidateCoin>, inputWeight: nat, rate: nat, mask: seq<bool>)
    requires rate > 0 && |mask| == |coins|
    ensures var chosen := Chosen(Candidates(coins, inputWeight, rate), mask); var selected := Chosen(coins, mask);
            |chosen| == |selected| && Value(chosen) == Amount(selected)
            && Weight(chosen) == |selected| * inputWeight + ExtraWeights(selected, rate)
  {
    if coins != [] {
      ChosenLaw(coins[1..], inputWeight, rate, mask[1..]);
      var candidates := Candidates(coins, inputWeight, rate);
      assert candidates[1..] == Candidates(coins[1..], inputWeight, rate);
      var chosen, selected := Chosen(candidates[1..], mask[1..]), Chosen(coins[1..], mask[1..]);
      hide ExtraWeight;
      if mask[0] {
        assert ([candidates[0]] + chosen)[1..] == chosen && ([coins[0]] + selected)[1..] == selected;
        Distributes(1, |selected|, inputWeight);
      } else {
        assert [] + chosen == chosen && [] + selected == selected;
      }
    }
  }

  lemma {:induction false} ChosenMembers(coins: seq<CandidateCoin>, mask: seq<bool>)
    requires |mask| == |coins|
    ensures forall c :: c in Chosen(coins, mask) ==> c in coins
    ensures forall i :: 0 <= i < |coins| && mask[i] ==> coins[i] in Chosen(coins, mask)
  {
    if coins != [] {
      ChosenMembers(coins[1..], mask[1..]);
      forall i | 0 <= i < |coins| && mask[i] ensures coins[i] in Chosen(coins, mask) {
        if i > 0 {
          assert coins[1..][i - 1] == coins[i] && mask[1..][i - 1];
        }
      }
    }
  }

  lemma {:induction false} ChosenDistinct(coins: seq<CandidateCoin>, mask: seq<bool>)
    requires |mask| == |coins| && DistinctOutpoints(coins)
    ensures DistinctOutpoints(Chosen(coins, mask))
  {
    if coins != [] {
      var rest := coins[1..];
      forall i, j | 0 <= i < j < |rest| ensures rest[i].outpoint != rest[j].outpoint {
        assert coins[i + 1].outpoint != coins[j + 1].outpoint;
      }
      ChosenDistinct(rest, mask[1..]);
      ChosenMembers(rest, mask[1..]);
      var chosen := Chosen(rest, mask[1..]);
      if mask[0] {
        var all := [coins[0]] + chosen;
        forall i, j | 0 <= i < j < |all| ensures all[i].outpoint != all[j].outpoint {
          if i == 0 {
            assert chosen[j - 1] in rest;
            var k :| 0 <= k < |rest| && rest[k] == chosen[j - 1];
            assert coins[k + 1] == chosen[j - 1];
          } else {
            assert all[i] == chosen[i - 1] && all[j] == chosen[j - 1];
          }
        }
      } else {
        assert [] + chosen == chosen;
      }
    }
  }

  /** The weight of the transaction that spends the selected coins, without what is added for ancestors. */
  function SpendWeight(r: Request, s: Selection): nat {
    r.target.overhead(|s.selected|, r.target.outputs + if s.changeAmount > 0 then 1 else 0)
    + |s.selected| * r.inputWeight + r.target.outputWeight + if s.changeAmount > 0 then r.changeWeight else 0
  }

  /** The fee a selection leaves. */
  function FeeOf(r: Request, s: Selection): int {
    Amount(s.selected) - r.target.outputValue - s.changeAmount
  }

  /** The fee the request asks for: its rate on the transaction and the added weight, and the replacement. */
  function FeeAsked(r: Request, s: Selection): nat
    requires r.target.rate > 0
  {
    var weight := SpendWeight(r, s) + ExtraWeights(s.selected, r.target.rate);
    var byRate := ImpliedFee(weight, r.target.rate);
    match r.target.replacedFee
    case None => byRate
    case Some(fee) =>
      var toReplace := fee + ImpliedFee(weight, INCREMENTAL_FEERATE);
      if byRate > toReplace then byRate else toReplace
  }

  lemma DrainCases(r: Request, mask: seq<bool>)
    requires r.target.rate > 0 && |mask| == |r.coins|
    ensures var drain := DrainOf(ChosenOf(r, mask), r.target, Policy(r));
            (drain == NO_DRAIN || (drain == Drain(r.changeWeight, 1, drain.value) && drain.value >= DUST_OUTPUT_SATS
                                   && Excess(ChosenOf(r, mask), r.target, drain) == 0))
            && (drain.value > 0 <==> drain != NO_DRAIN)
  {
    hide ChosenOf, Excess;
    ChangeTakesTheExcess(ChosenOf(r, mask), r.target, Policy(r));
  }

  lemma RequiredIsAsked(r: Request, mask: seq<bool>, s: Selection)
    requires r.target.rate > 0 && IsSelection(r, mask, s)
    ensures var chosen := ChosenOf(r, mask); var drain := DrainOf(chosen, r.target, Policy(r));
            RequiredFee(chosen, r.target, drain) == FeeAsked(r, s)
            && Excess(chosen, r.target, drain) == FeeOf(r, s) - FeeAsked(r, s)
  {
    DrainCases(r, mask);
    ChosenLaw(r.coins, r.inputWeight, r.target.rate, mask);
    hide DrainOf, ExtraWeights, ImpliedFee, Chosen, Value, Weight, Amount, Candidates, Acceptable;
  }

  /**
   A returned selection keeps every required coin, spends only candidates, none twice, and
   leaves at least the fee asked for; with change it leaves exactly that fee and the change is
   at least the dust limit; when change is required there is some.
   */
  lemma SelectionLaw(r: Request, mask: seq<bool>, s: Selection)
    requires r.target.rate > 0 && DistinctOutpoints(r.coins) && IsSelection(r, mask, s)
    ensures forall c :: c in s.selected ==> c in r.coins
    ensures forall c :: c in r.coins && c.mustSelect ==> c in s.selected
    ensures DistinctOutpoints(s.selected)
    ensures FeeOf(r, s) >= FeeAsked(r, s)
    ensures s.changeAmount > 0 ==> s.changeAmount >= DUST_OUTPUT_SATS && FeeOf(r, s) == FeeAsked(r, s)
    ensures r.mustHaveChange ==> s.changeAmount > 0
  {
    ChosenMembers(r.coins, mask);
    ChosenDistinct(r.coins, mask);
    DrainCases(r, mask);
    RequiredIsAsked(r, mask, s);
    hide FeeAsked, FeeOf, DrainOf, Excess, Chosen, Candidates, ChosenOf;
    forall c | c in r.coins && c.mustSelect ensures c in s.selected {
      var i :| 0 <= i < |r.coins| && r.coins[i] == c;
    }
  }

  /** The fee of a selection pays for the transaction at the rate asked for, and what every coin's ancestors lack. */
  lemma SelectionPaysForAncestors(r: Request, mask: seq<bool>, s: Selection)
    requires r.target.rate > 0 && IsSelection(r, mask, s)
    requires FeeOf(r, s) >= FeeAsked(r, s)
    ensures WITNESS_SCALE_FACTOR * (FeeOf(r, s) - Shortfalls(s.selected, r.target.rate))
         >= SpendWeight(r, s) * r.target.rate
  {
    hide IsSelection, ImpliedFee, SpendWeight, ExtraWeights, FeeOf, Shortfalls;
    AddedWeightPays(s.selected, r.target.rate, SpendWeight(r, s), FeeOf(r, s));
  }

  // ----- failures -----

  /** What spending every coin would leave for a change output. */
  function MostChange(r: Request): int
    requires r.target.rate > 0
  {
    Excess(ChosenOf(r, AllTrue(|r.coins|)), r.target, EmptyChange(r))
  }

  lemma ExcessWithChange(chosen: seq<Candidate>, target: Target, weight: nat, value: nat)
    ensures Excess(chosen, target, Drain(weight, 1, value)) == Excess(chosen, target, Drain(weight, 1, 0)) - value
  {
  }

  /** Without required change, what is reported missing is the exact shortage of spending everything. */
  lemma MissingWithoutChange(r: Request)
    requires r.target.rate > 0 && !Acceptable(r, AllTrue(|r.coins|)) && !r.mustHaveChange
    ensures Excess(ChosenOf(r, AllTrue(|r.coins|)), r.target, NO_DRAIN) + Missing(r) == 0 && Missing(r) > 0
  {
    var mask := AllTrue(|r.coins|);
    DrainCases(r, mask);
    hide Excess, DrainOf, ChosenOf;
  }

  /** The smallest change output the policy makes. */
  function SmallestChange(r: Request): nat {
    Policy(r).minValue + 1
  }

  /** The request with one more coin's worth of value: its first coin is worth more. */
  function ToppedUp(r: Request, more: nat): Request
    requires r.coins != []
  {
    r.(coins := [r.coins[0].(amount := r.coins[0].amount + more)] + r.coins[1..])
  }

  lemma ToppedUpValue(coins: seq<CandidateCoin>, inputWeight: nat, rate: nat, more: nat)
    requires coins != [] && rate > 0
    ensures var richer := [coins[0].(amount := coins[0].amount + more)] + coins[1..];
            var before, after := Candidates(coins, inputWeight, rate), Candidates(richer, inputWeight, rate);
            |after| == |before| && Value(after) == Value(before) + more && Weight(after) == Weight(before)
  {
    var richer := [coins[0].(amount := coins[0].amount + more)] + coins[1..];
    assert richer[1..] == coins[1..];
    var rest := Candidates(coins[1..], inputWeight, rate);
    assert Candidates(coins, inputWeight, rate)[1..] == rest && Candidates(richer, inputWeight, rate)[1..] == rest;
  }

  lemma {:induction false} AllChosen<T>(xs: seq<T>)
    ensures Chosen(xs, AllTrue(|xs|)) == xs
  {
    if xs != [] {
      assert AllTrue(|xs|)[1..] == AllTrue(|xs[1..]|);
      AllChosen(xs[1..]);
    }
  }

  /** With required change, spending everything is accepted exactly when it leaves the smallest change. */
  lemma AcceptableIffChange(r: Request)
    requires r.target.rate > 0 && r.mustHaveChange
    ensures Acceptable(r, AllTrue(|r.coins|)) <==> MostChange(r) >= SmallestChange(r)
  {
    var mask := AllTrue(|r.coins|);
    DrainCases(r, mask);
    hide Excess, ChosenOf, ChangeWaste;
  }

  /** What it takes to be accepted: enough more value for the smallest change, and no less. */
  lemma TopUpLaw(r: Request, more: nat)
    requires r.target.rate > 0 && r.mustHaveChange && r.coins != []
    ensures Acceptable(ToppedUp(r, more), AllTrue(|r.coins|)) <==> MostChange(r) + more >= SmallestChange(r)
  {
    var richer := ToppedUp(r, more);
    assert |richer.coins| == |r.coins|;
    AcceptableIffChange(richer);
    ToppedUpValue(r.coins, r.inputWeight, r.target.rate, more);
    AllChosen(Candidates(r.coins, r.inputWeight, r.target.rate));
    AllChosen(Candidates(richer.coins, r.inputWeight, r.target.rate));
    assert MostChange(richer) == MostChange(r) + more by {
      hide Acceptable, Value, Weight, Candidates, Chosen, ImpliedFee;
    }
    hide Acceptable, MostChange;
  }

  /** The reported amount is the least that makes spending everything acceptable. */
  ghost predicate MissingIsExact(r: Request)
    requires r.target.rate > 0 && r.coins != []
  {
    forall more: nat :: Acceptable(ToppedUp(r, more), AllTrue(|r.coins|)) <==> more >= Missing(r)
  }

  /**
   With required change the reported amount is measured against the dust limit, but change
   is only made above what it wastes. So it is what is missing whenever a change output wastes
   less than the dust limit, and otherwise only if, by accident, spending everything leaves
   change halfway between the two.
   */
  lemma MissingWithChange(r: Request)
    requires r.target.rate > 0 && !Acceptable(r, AllTrue(|r.coins|)) && r.mustHaveChange
    ensures var lack := SmallestChange(r) - MostChange(r);
            lack > 0
            && (Missing(r) == lack
                <==> ChangeWaste(r) < DUST_OUTPUT_SATS || 2 * MostChange(r) == ChangeWaste(r) + DUST_OUTPUT_SATS + 1)
            && (r.coins != [] ==> (MissingIsExact(r) <==> Missing(r) == lack))
  {
    AcceptableIffChange(r);
    MissingFromChange(r);
    hide Acceptable, Missing, MostChange;
    if r.coins != [] {
      ExactIffLack(r);
    }
  }

  lemma ExactIffLack(r: Request)
    requires r.target.rate > 0 && r.mustHaveChange && r.coins != [] && MostChange(r) < SmallestChange(r)
    ensures MissingIsExact(r) <==> Missing(r) == SmallestChange(r) - MostChange(r)
  {
    hide Acceptable, Missing, MostChange, ChangeWaste;
    var lack := SmallestChange(r) - MostChange(r);
    forall more: nat ensures Acceptable(ToppedUp(r, more), AllTrue(|r.coins|)) <==> more >= lack {
      TopUpLaw(r, more);
    }
    if MissingIsExact(r) {
      assert Acceptable(ToppedUp(r, lack), AllTrue(|r.coins|))
             && Acceptable(ToppedUp(r, Missing(r)), AllTrue(|r.coins|));
    }
  }

  lemma MissingFromChange(r: Request)
    requires r.target.rate > 0 && r.mustHaveChange
    ensures Missing(r) == if MostChange(r) < DUST_OUTPUT_SATS then DUST_OUTPUT_SATS - MostChange(r)
                          else MostChange(r) - DUST_OUTPUT_SATS
  {
    ExcessWithChange(ChosenOf(r, AllTrue(|r.coins|)), r.target, r.changeWeight, DUST_OUTPUT_SATS);
    hide Excess, ChosenOf;
  }

  /** A coin worth `amount`, to be sent to ourselves at 50 sat/vb: an input of 100 vb, a change output of 43 vb. */
  function SelfSend(amount: nat): Request {
    Request([CandidateCoin(OutPoint(0, 0), amount, 0, false, true, None, None)],
            Target(50, None, 0, 0, 0, (inputs: nat, outputs: nat) => 42), 172, 400, true)
  }

  lemma SelfSendChange(amount: nat)
    ensures MostChange(SelfSend(amount)) == amount - 7675 && ChangeWaste(SelfSend(amount)) == 2650
  {
    var r := SelfSend(amount);
    var candidate := Candidate(amount, 400);
    assert Candidates(r.coins, 400, 50) == [candidate] by {
      assert r.coins[1..] == [];
    }
    AllChosen([candidate]);
    assert Value([candidate]) == amount && Weight([candidate]) == 400 by {
      assert [candidate][1..] == [];
    }
  }

  /**
   At 50 sat/vb a coin of 8075 sat is said to lack 100 sat and one of 9000 sat to lack 825 sat.
   Both lack more: with as much added, neither can be sent.
   */
  lemma MissingMayBeTooLittle()
    ensures var poor, rich := SelfSend(8075), SelfSend(9000);
            !Acceptable(poor, AllTrue(1)) && Missing(poor) == 100 && !Acceptable(ToppedUp(poor, 100), AllTrue(1))
            && !Acceptable(rich, AllTrue(1)) && Missing(rich) == 825 && !Acceptable(ToppedUp(rich, 825), AllTrue(1))
  {
    forall amount | amount == 8075 || amount == 9000
      ensures !Acceptable(SelfSend(amount), AllTrue(1))
              && Missing(SelfSend(amount)) == (if amount == 8075 then 100 else 825)
              && !Acceptable(ToppedUp(SelfSend(amount), Missing(SelfSend(amount))), AllTrue(1))
    {
      var r := SelfSend(amount);
      SelfSendChange(amount);
      AcceptableIffChange(r);
      MissingFromChange(r);
      TopUpLaw(r, Missing(r));
      hide Acceptable, Missing, MostChange, ChangeWaste;
    }
  }

  // ----- spending everything -----

  ghost predicate SpendsAll(coins: seq<CandidateCoin>, selected: seq<CandidateCoin>) {
    forall c :: c in coins ==> c in selected
  }

  /** Whatever the search finds and in whatever order coins are taken, coins that all must be spent all are. */
  lemma RequiredAreAllSpent(r: Request, mask: seq<bool>, s: Selection)
    requires r.target.rate > 0 && DistinctOutpoints(r.coins) && IsSelection(r, mask, s)
    requires forall c :: c in r.coins ==> c.mustSelect
    ensures SpendsAll(r.coins, s.selected)
  {
    SelectionLaw(r, mask, s);
  }
}
