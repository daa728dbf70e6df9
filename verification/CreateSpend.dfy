/** The whole of `create_spend` (liana/src/spend.rs) and what its success guarantees. */
module CreateSpend {
  import opened Wrappers
  import opened CoinSelection
  import opened CoinSelector
  import opened CoinSelectionLaws
  import opened Spend
  import opened Ancestors
  import opened FallbackLaws
  import opened Sums

  // ----- sums over what is built -----

  lemma {:induction false} TotalsOfAppended(desc: Descriptor, outputs: seq<TxOut>, last: TxOut)
    ensures OutputTotal(outputs + [last]) == OutputTotal(outputs) + last.value
    ensures OutputWeights(desc, outputs + [last]) == OutputWeights(desc, outputs) + desc.outputWeight(last.script)
  {
    if outputs == [] {
      assert outputs + [last] == [last] && [last][1..] == [];
    } else {
      assert (outputs + [last])[1..] == outputs[1..] + [last];
      TotalsOfAppended(desc, outputs[1..], last);
    }
  }

  /** The inputs of the PSBT are worth what the selected coins are. */
  lemma {:induction false} InputTotalIsAmount(desc: Descriptor, getTx: nat -> Option<nat>, selected: seq<CandidateCoin>,
                                              inputs: seq<PsbtIn>)
    requires |inputs| == |selected|
    requires forall i :: 0 <= i < |selected| ==> inputs[i] == SigningInput(desc, getTx, selected[i])
    ensures InputTotal(inputs).Some? ==> InputTotal(inputs).value == Amount(selected)
  {
    if inputs != [] {
      InputTotalIsAmount(desc, getTx, selected[1..], inputs[1..]);
    }
  }

  lemma ImpliedFeeGrows(a: nat, b: nat, rate: nat)
    requires a <= b
    ensures ImpliedFee(a, rate) <= ImpliedFee(b, rate)
  {
    Grows(a, b, rate);
  }

  // ----- building -----

  /** The destination outputs; the first one with an invalid value is refused. */
  method BuildOutputs(destinations: seq<Destination>) returns (r: Result<(seq<TxOut>, seq<PsbtOut>), SpendError>)
    ensures r.Ok? ==> r.value.0 == Outputs(destinations) && |r.value.1| == |destinations|
                      && (forall i :: 0 <= i < |destinations| ==>
                            ValidValue(destinations[i].amount) && r.value.1[i] == OutInfo(destinations[i].address))
    ensures r.Err? ==> exists i: nat ::
              FirstInvalid(destinations, i) && r.error == InvalidOutputValue(destinations[i].amount)
  {
    var outputs, infos := [], [];
    for i := 0 to |destinations|
      invariant |outputs| == i && forall j :: 0 <= j < i ==> outputs[j] == DestinationOut(destinations[j])
      invariant |infos| == i && forall j :: 0 <= j < i ==> infos[j] == OutInfo(destinations[j].address)
      invariant forall j :: 0 <= j < i ==> ValidValue(destinations[j].amount)
    {
      var checked := CheckOutputValue(destinations[i].amount);
      if checked.Err? {
        assert FirstInvalid(destinations, i);
        return Err(checked.error);
      }
      outputs := outputs + [DestinationOut(destinations[i])];
      infos := infos + [OutInfo(destinations[i].address)];
    }
    return Ok((outputs, infos));
  }

  /** One input, in the transaction and in the PSBT, for every selected coin. */
  method BuildInputs(desc: Descriptor, getTx: nat -> Option<nat>, selected: seq<CandidateCoin>)
    returns (inputs: seq<TxIn>, signing: seq<PsbtIn>)
    ensures |inputs| == |selected| == |signing|
    ensures forall i :: 0 <= i < |selected| ==>
              inputs[i] == SpendingInput(selected[i]) && signing[i] == SigningInput(desc, getTx, selected[i])
  {
    inputs, signing := [], [];
    for i := 0 to |selected|
      invariant |inputs| == i == |signing|
      invariant forall j :: 0 <= j < i ==>
                  inputs[j] == SpendingInput(selected[j]) && signing[j] == SigningInput(desc, getTx, selected[j])
    {
      inputs := inputs + [SpendingInput(selected[i])];
      signing := signing + [SigningInput(desc, getTx, selected[i])];
    }
  }

  /** The change output, added when there is change; a value we would refuse to create is refused. */
  method AddChange(destinations: seq<Destination>, change: Address, s: Selection, outputs: seq<TxOut>,
                   infos: seq<PsbtOut>)
    returns (r: Result<(seq<TxOut>, seq<PsbtOut>), SpendError>)
    requires outputs == Outputs(destinations) && |infos| == |destinations|
    requires forall i :: 0 <= i < |destinations| ==>
               ValidValue(destinations[i].amount) && infos[i] == OutInfo(destinations[i].address)
    ensures r.Err? <==> s.changeAmount > 0 && !ValidValue(s.changeAmount)
    ensures r.Err? ==> r.error == InvalidOutputValue(s.changeAmount)
    ensures r.Ok? ==> r.value.0 == Outputs(destinations)
                                   + (if s.changeAmount > 0 then [TxOut(s.changeAmount, change.script)] else [])
                      && r.value.1 == infos + (if s.changeAmount > 0 then [OutInfo(change)] else [])
                      && forall i :: 0 <= i < |r.value.0| ==> ValidValue(r.value.0[i].value)
  {
    if s.changeAmount > 0 {
      var checked := CheckOutputValue(s.changeAmount);
      if checked.Err? {
        return Err(checked.error);
      }
      return Ok((outputs + [TxOut(s.changeAmount, change.script)], infos + [OutInfo(change)]));
    }
    return Ok((outputs + [], infos + []));
  }

  method Warn(s: Selection) returns (warnings: seq<Warning>)
    ensures warnings == ExpectedWarnings(s.changeAmount > 0, s.maxChangeAmount, s.feeForAncestors)
  {
    warnings := [];
    if s.changeAmount > 0 {
    } else if s.maxChangeAmount > 0 {
      warnings := warnings + [ChangeAddedToFee(s.maxChangeAmount)];
    }
    if s.feeForAncestors > 0 {
      warnings := warnings + [AdditionalFeeForAncestors(s.feeForAncestors)];
    }
  }

  // ----- the fee of what was built -----

  /** The transaction's totals are those coin selection reckoned with. */
  lemma TotalsMatch(desc: Descriptor, destinations: seq<Destination>, coins: seq<CandidateCoin>, fees: Fees,
                    change: Address, s: Selection, outputs: seq<TxOut>)
    requires outputs == Outputs(destinations)
                        + (if s.changeAmount > 0 then [TxOut(s.changeAmount, change.script)] else [])
    ensures var r := SelectionRequest(desc, destinations, coins, fees, change);
            OutputTotal(outputs) == r.target.outputValue + s.changeAmount
            && forall tx: Tx :: tx.outputs == outputs ==>
                 SpendWeight(r, s) == SignedWeight(desc, UsesPrimary(coins), s.selected, tx)
  {
    hide UsesPrimary;
    var base := Outputs(destinations);
    if s.changeAmount > 0 {
      TotalsOfAppended(desc, base, TxOut(s.changeAmount, change.script));
    } else {
      assert outputs == base;
    }
  }

  lemma FeeIsWhatIsLeft(desc: Descriptor, usePrimary: bool, selected: seq<CandidateCoin>, psbt: Psbt,
                        getTx: nat -> Option<nat>, fee: int)
    requires InputsSpend(desc, getTx, selected, psbt) && Sanity(desc, psbt, usePrimary).Ok?
    requires fee == Amount(selected) - OutputTotal(psbt.tx.outputs)
    ensures fee >= 0 && FeeIsSane(desc, usePrimary, selected, psbt.tx, fee) && NoDust(desc, psbt.tx.outputs)
  {
    InputTotalIsAmount(desc, getTx, selected, psbt.inputs);
  }

  lemma FeeCovers(desc: Descriptor, destinations: seq<Destination>, coins: seq<CandidateCoin>, fees: Fees,
                  change: Address, mask: seq<bool>, s: Selection, tx: Tx, fee: nat)
    requires fees.rate > 0 && DistinctOutpoints(coins)
    requires IsSelection(SelectionRequest(desc, destinations, coins, fees, change), mask, s)
    requires tx.outputs == Outputs(destinations)
                        + (if s.changeAmount > 0 then [TxOut(s.changeAmount, change.script)] else [])
    requires fee == Amount(s.selected) - OutputTotal(tx.outputs)
    ensures FeeIsEnough(desc, UsesPrimary(coins), fees, s.selected, tx, fee)
  {
    var r := SelectionRequest(desc, destinations, coins, fees, change);
    hide IsSelection, Shortfalls, ExtraWeights, DistinctOutpoints, OutputTotal, Amount, UsesPrimary;
    TotalsMatch(desc, destinations, coins, fees, change, s, tx.outputs);
    SelectionLaw(r, mask, s);
    SelectionPaysForAncestors(r, mask, s);
    var weight := SpendWeight(r, s);
    hide IsSelection, SpendWeight, ImpliedFee, ExtraWeights, Shortfalls, OutputWeights, UsesPrimary;
    ImpliedFeeGrows(weight, weight + ExtraWeights(s.selected, fees.rate), INCREMENTAL_FEERATE);
  }

  lemma OutputsAreThere(destinations: seq<Destination>, change: Address, s: Selection, outputs: seq<TxOut>,
                        infos: seq<PsbtOut>, built: seq<PsbtOut>, psbt: Psbt)
    requires outputs == Outputs(destinations)
                        + (if s.changeAmount > 0 then [TxOut(s.changeAmount, change.script)] else [])
    requires |infos| == |destinations| && built == infos + (if s.changeAmount > 0 then [OutInfo(change)] else [])
    requires forall i :: 0 <= i < |destinations| ==> infos[i] == OutInfo(destinations[i].address)
    requires psbt.tx.outputs == outputs && psbt.outputs == built
    ensures OutputsPay(destinations, change, s.changeAmount > 0, psbt)
  {
  }

  /** What is left of the selected coins after the outputs pays at least what was asked for: it is never negative. */
  lemma BuiltFeeIsNotNegative(desc: Descriptor, destinations: seq<Destination>, coins: seq<CandidateCoin>, fees: Fees,
                              change: Address, mask: seq<bool>, s: Selection, outputs: seq<TxOut>)
    requires fees.rate > 0 && DistinctOutpoints(coins)
    requires IsSelection(SelectionRequest(desc, destinations, coins, fees, change), mask, s)
    requires outputs == Outputs(destinations)
                        + (if s.changeAmount > 0 then [TxOut(s.changeAmount, change.script)] else [])
    ensures Amount(s.selected) >= OutputTotal(outputs)
    ensures s.changeAmount > 0 ==> s.changeAmount >= DUST_OUTPUT_SATS
    ensures destinations == [] ==> s.changeAmount > 0
  {
    var r := SelectionRequest(desc, destinations, coins, fees, change);
    RequestShape(desc, destinations, coins, fees, change);
    TotalsMatch(desc, destinations, coins, fees, change, s, outputs);
    hide IsSelection, SelectionRequest, FeeAsked, OutputTotal;
    SelectionLaw(r, mask, s);
  }

  lemma {:induction false} InputsAreKnown(desc: Descriptor, getTx: nat -> Option<nat>, selected: seq<CandidateCoin>,
                                          inputs: seq<PsbtIn>)
    requires |inputs| == |selected|
    requires forall i :: 0 <= i < |selected| ==> inputs[i] == SigningInput(desc, getTx, selected[i])
    ensures ShownValue(inputs) == Amount(selected)
    ensures AllInputsKnown(inputs)
       <==> forall i :: 0 <= i < |selected| ==> desc.keyOrigins(SpentDerivation(selected[i])) > 0
  {
    if inputs != [] {
      InputsAreKnown(desc, getTx, selected[1..], inputs[1..]);
      assert forall i :: 0 < i < |inputs| ==> inputs[i] == inputs[1..][i - 1] && selected[i] == selected[1..][i - 1];
    }
  }

  /** A PSBT that is found insane although its fee is not negative and it matches its transaction: why. */
  lemma InsanePsbt(desc: Descriptor, getTx: nat -> Option<nat>, selected: seq<CandidateCoin>, psbt: Psbt,
                   usePrimary: bool)
    requires InputsSpend(desc, getTx, selected, psbt) && |psbt.outputs| == |psbt.tx.outputs| > 0
    requires Amount(selected) >= OutputTotal(psbt.tx.outputs) && Sanity(desc, psbt, usePrimary).Err?
    ensures match Sanity(desc, psbt, usePrimary).error
            case SanityCheckFailure =>
              (exists i :: 0 <= i < |selected| && desc.keyOrigins(SpentDerivation(selected[i])) == 0)
              || !NoDust(desc, psbt.tx.outputs)
            case InsaneFees(info) =>
              FeeRefused(desc, usePrimary, psbt.tx, Amount(selected) - OutputTotal(psbt.tx.outputs), info)
            case _ => false
  {
    InputsAreKnown(desc, getTx, selected, psbt.inputs);
    SanityLaw(desc, psbt, usePrimary);
    hide AllInputsKnown, ShownValue, OutputTotal, Amount, NoDust;
  }

  lemma InsanityExplained(desc: Descriptor, getTx: nat -> Option<nat>, destinations: seq<Destination>,
                          coins: seq<CandidateCoin>, fees: Fees, change: Address, s: Selection, psbt: Psbt)
    requires InputsSpend(desc, getTx, s.selected, psbt) && |psbt.outputs| == |psbt.tx.outputs| > 0
    requires Amount(s.selected) >= OutputTotal(psbt.tx.outputs) && Sanity(desc, psbt, UsesPrimary(coins)).Err?
    ensures RefusalHolds(desc, destinations, coins, fees, change, s, psbt.tx,
                         Sanity(desc, psbt, UsesPrimary(coins)).error)
    ensures !Sanity(desc, psbt, UsesPrimary(coins)).error.InsufficientFunds?
  {
    hide SelectionRequest, UsesPrimary, Missing, Acceptable, Sanity, NoDust;
    hide InputsSpend, OutputTotal, Amount, FeeRefused;
    InsanePsbt(desc, getTx, s.selected, psbt, UsesPrimary(coins));
  }

  /**
   Creating a spend. On success the result is a good spend of some of the candidates: the
   right coins, matching inputs, the destinations in order and the change, valid values, and a
   fee that is sane and sufficient. A refusal is never wrong about its reason, and one kind
   of it, a failed sanity check, is left to descriptors that name no keys or whose scripts
   are dust above our own limit.
   */
  method CreateSpend(desc: Descriptor, getTx: nat -> Option<nat>, destinations: seq<Destination>,
                     coins: seq<CandidateCoin>, fees: Fees, change: Address, lockTime: nat,
                     search: Option<seq<bool>>, order: seq<nat>)
    returns (r: Result<SpendResult, SpendError>, ghost selection: Selection)
    requires DistinctOutpoints(coins) && Visits(order, |coins|)
    requires search.Some? && fees.rate > 0 ==>
               Acceptable(SelectionRequest(desc, destinations, coins, fees, change), search.value)
    ensures r.Ok? ==> MIN_FEERATE_VB <= fees.rate <= MAX_FEERATE_REPR
    ensures r.Ok? ==> GoodSpend(desc, getTx, destinations, coins, fees, change, lockTime, selection.selected, r.value)
    ensures r.Ok? ==> r.value.hasChange == (selection.changeAmount > 0)
                      && r.value.warnings == ExpectedWarnings(r.value.hasChange, selection.maxChangeAmount,
                                                              selection.feeForAncestors)
                      && exists mask ::
                           IsSelection(SelectionRequest(desc, destinations, coins, fees, change), mask, selection)
    ensures r.Err? ==> RefusalHolds(desc, destinations, coins, fees, change, selection,
                                    BuiltTx(destinations, change, lockTime, selection), r.error)
    ensures r.Err? && r.error.InsufficientFunds? ==>
              var request := SelectionRequest(desc, destinations, coins, fees, change);
              request.target.rate > 0
              && (Descending(CandidatesOf(request), order) && SuitsFallback(request) ==>
                    forall mask :: !Acceptable(request, mask))
    ensures fees.rate < MIN_FEERATE_VB ==> r == Err(InvalidFeerate(fees.rate))
    ensures fees.rate >= MIN_FEERATE_VB && (exists i: nat :: FirstInvalid(destinations, i)) ==>
              r.Err? && r.error.InvalidOutputValue?
  {
    hide IsSelection, Acceptable, Missing, SelectionRequest, Sanity, GoodSpend, SigningInput, SpendingInput, FeeRefused;
    hide NoneAcceptable, Descending, SuitsFallback, CandidatesOf;
    selection := Selection([], 0, 0, 0);
    if fees.rate < MIN_FEERATE_VB {
      return Err(InvalidFeerate(fees.rate)), selection;
    }
    var built := BuildOutputs(destinations);
    if built.Err? {
      return Err(built.error), selection;
    }
    var (outputs, infos) := built.value;
    var usePrimary := UsesPrimary(coins);
    if fees.rate > MAX_FEERATE_REPR {
      return Err(InsaneFees(TooHighFeerate(fees.rate))), selection;
    }
    var request := SelectionRequest(desc, destinations, coins, fees, change);
    RequestShape(desc, destinations, coins, fees, change);
    var selected := SelectCoinsForSpend(request, search, order);
    if selected.Err? {
      NothingWouldDo(request, order);
      return Err(InsufficientFunds(selected.error)), selection;
    }
    selection := selected.value;
    var assembled := Assemble(desc, getTx, destinations, coins, fees, change, lockTime, selected.value, outputs, infos);
    if assembled.Err? {
      return Err(assembled.error), selection;
    }
    var warnings := Warn(selected.value);
    r := Ok(SpendResult(assembled.value, selected.value.changeAmount > 0, warnings));
    Finish(desc, getTx, destinations, coins, fees, change, selection, r.value);
  }

  lemma NothingWouldDo(r: Request, order: seq<nat>)
    requires r.target.rate > 0 && Visits(order, |r.coins|) && NoneAcceptable(r, order)
    ensures Descending(CandidatesOf(r), order) && SuitsFallback(r) ==> forall mask :: !Acceptable(r, mask)
  {
    hide Acceptable, NoneAcceptable, Descending, SuitsFallback, CandidatesOf;
    if Descending(CandidatesOf(r), order) && SuitsFallback(r) {
      FallbackIsComplete(r, order);
    }
  }

  /** The rest of the transaction and its PSBT, checked. */
  method Assemble(desc: Descriptor, getTx: nat -> Option<nat>, destinations: seq<Destination>,
                  coins: seq<CandidateCoin>, fees: Fees, change: Address, lockTime: nat, s: Selection,
                  outputs: seq<TxOut>, infos: seq<PsbtOut>)
    returns (r: Result<Psbt, SpendError>)
    requires fees.rate > 0 && DistinctOutpoints(coins)
    requires exists mask :: IsSelection(SelectionRequest(desc, destinations, coins, fees, change), mask, s)
    requires outputs == Outputs(destinations) && |infos| == |destinations|
    requires forall i :: 0 <= i < |destinations| ==>
               ValidValue(destinations[i].amount) && infos[i] == OutInfo(destinations[i].address)
    ensures r.Err? ==> RefusalHolds(desc, destinations, coins, fees, change, s,
                                    BuiltTx(destinations, change, lockTime, s), r.error)
    ensures r.Err? ==> !r.error.InsufficientFunds?
    ensures r.Ok? ==> r.value.tx == BuiltTx(destinations, change, lockTime, s)
                      && InputsSpend(desc, getTx, s.selected, r.value)
                      && OutputsPay(destinations, change, s.changeAmount > 0, r.value)
                      && (forall i :: 0 <= i < |r.value.tx.outputs| ==> ValidValue(r.value.tx.outputs[i].value))
                      && Sanity(desc, r.value, UsesPrimary(coins)).Ok?
  {
    hide IsSelection, SelectionRequest, Sanity, SigningInput, SpendingInput;
    hide FeeRefused, UsesPrimary, Missing, Acceptable;
    RequestShape(desc, destinations, coins, fees, change);
    ghost var mask :| IsSelection(SelectionRequest(desc, destinations, coins, fees, change), mask, s);
    BuiltFeeIsNotNegative(desc, destinations, coins, fees, change, mask, s,
                          BuiltTx(destinations, change, lockTime, s).outputs);
    var withChange := AddChange(destinations, change, s, outputs, infos);
    if withChange.Err? {
      return Err(withChange.error);
    }
    var inputs, signing := BuildInputs(desc, getTx, s.selected);
    var psbt := Psbt(Tx(lockTime, inputs, withChange.value.0), signing, withChange.value.1);
    assert inputs == SpendingInputs(s.selected);
    OutputsAreThere(destinations, change, s, psbt.tx.outputs, infos, psbt.outputs, psbt);
    hide RefusalHolds, Outputs, SpendingInputs;
    var sane := SanityCheck(desc, psbt, UsesPrimary(coins));
    if sane.Err? {
      InsanityExplained(desc, getTx, destinations, coins, fees, change, s, psbt);
      return Err(sane.error);
    }
    return Ok(psbt);
  }

  /**
   With descriptors that name keys for every coin, and no script dust above our limit, the
   sanity check never fails as such.
   */
  lemma SanityNeverFails(desc: Descriptor, destinations: seq<Destination>, coins: seq<CandidateCoin>, fees: Fees,
                         change: Address, lockTime: nat, s: Selection)
    requires forall d :: desc.keyOrigins(d) > 0
    requires forall script :: desc.dustLimit(script) <= DUST_OUTPUT_SATS
    requires forall i :: 0 <= i < |destinations| ==> ValidValue(destinations[i].amount)
    requires s.changeAmount > 0 ==> s.changeAmount >= DUST_OUTPUT_SATS
    ensures !RefusalHolds(desc, destinations, coins, fees, change, s, BuiltTx(destinations, change, lockTime, s),
                          SanityCheckFailure)
  {
    hide UsesPrimary, SelectionRequest, Acceptable, Missing;
  }

  /**
   A created spend and its coins' ancestors reach the rate exactly when its fee pays, above its
   own due, what those ancestors lack; and they do if no shared ancestor pays more than the rate.
   */
  lemma SpendPaysForPackage(desc: Descriptor, getTx: nat -> Option<nat>, destinations: seq<Destination>,
                            coins: seq<CandidateCoin>, fees: Fees, change: Address, lockTime: nat,
                            selected: seq<CandidateCoin>, res: SpendResult, pool: Mempool, ancestors: seq<set<TxId>>)
    requires fees.rate > 0
    requires GoodSpend(desc, getTx, destinations, coins, fees, change, lockTime, selected, res)
    requires DescribesAll(pool, ancestors, selected)
    ensures var tx, package := res.psbt.tx, Union(ancestors);
            var weight := SignedWeight(desc, UsesPrimary(coins), selected, tx);
            var fee := Amount(selected) - OutputTotal(tx.outputs);
            var reached := ReachesRate(pool, package, weight, fee, fees.rate);
            (reached <==> fee - ImpliedFee(weight, fees.rate) >= Sum(LackIn(pool, fees.rate), package))
            && (SharedPayNoMore(pool, ancestors, fees.rate) ==> reached)
  {
    var tx := res.psbt.tx;
    hide DescribesAll, SharedPayNoMore, Union, SignedWeight, UsesPrimary, Shortfalls, InputsSpend, OutputsPay;
    hide ReachesRate, LackIn, Sum, ImpliedFee;
    var weight, fee := SignedWeight(desc, UsesPrimary(coins), selected, tx), Amount(selected) - OutputTotal(tx.outputs);
    PackageReachesRate(pool, Union(ancestors), weight, fee, fees.rate);
    WholeSatoshis(weight, fees.rate, fee - Shortfalls(selected, fees.rate));
    if SharedPayNoMore(pool, ancestors, fees.rate) {
      ShortfallsCoverUnion(pool, ancestors, selected, fees.rate);
    }
  }

  lemma RequestShape(desc: Descriptor, destinations: seq<Destination>, coins: seq<CandidateCoin>, fees: Fees,
                     change: Address)
    ensures var r := SelectionRequest(desc, destinations, coins, fees, change);
            r.coins == coins && r.target.rate == fees.rate && r.mustHaveChange == (destinations == [])
  {
    hide UsesPrimary, OutputTotal, OutputWeights;
  }

  /** A spend assembled from a selection, and found sane, is good. */
  lemma Finish(desc: Descriptor, getTx: nat -> Option<nat>, destinations: seq<Destination>, coins: seq<CandidateCoin>,
               fees: Fees, change: Address, s: Selection, res: SpendResult)
    requires fees.rate > 0 && DistinctOutpoints(coins)
    requires exists mask :: IsSelection(SelectionRequest(desc, destinations, coins, fees, change), mask, s)
    requires InputsSpend(desc, getTx, s.selected, res.psbt)
    requires res.hasChange == (s.changeAmount > 0) && OutputsPay(destinations, change, res.hasChange, res.psbt)
    requires res.psbt.tx.outputs == Outputs(destinations)
                                    + (if s.changeAmount > 0 then [TxOut(s.changeAmount, change.script)] else [])
    requires forall i :: 0 <= i < |res.psbt.tx.outputs| ==> ValidValue(res.psbt.tx.outputs[i].value)
    requires Sanity(desc, res.psbt, UsesPrimary(coins)).Ok?
    ensures GoodSpend(desc, getTx, destinations, coins, fees, change, res.psbt.tx.lockTime, s.selected, res)
  {
    var r := SelectionRequest(desc, destinations, coins, fees, change);
    var mask :| IsSelection(r, mask, s);
    RequestShape(desc, destinations, coins, fees, change);
    hide IsSelection, Sanity, UsesPrimary, InputsSpend, OutputTotal, SelectionRequest;
    SelectionLaw(r, mask, s);
    var fee := Amount(s.selected) - OutputTotal(res.psbt.tx.outputs);
    FeeIsWhatIsLeft(desc, UsesPrimary(coins), s.selected, res.psbt, getTx, fee);
    FeeCovers(desc, destinations, coins, fees, change, mask, s, res.psbt.tx, fee);
    hide FeeIsSane, FeeIsEnough, NoDust, FeeOf, FeeAsked;
    assert SpendsRightCoins(coins, s.selected);
  }
}
