/** Building a spend and its PSBT (liana/src/spend.rs, `create_spend` and `sanity_check_psbt`). */
module Spend {
  import opened Wrappers
  import opened CoinSelection
  import opened CoinSelector
  import opened CoinSelectionLaws

  const MAX_MONEY := 21_000_000 * 100_000_000
  const MAX_FEE := 100_000_000
  const MIN_FEERATE_VB := 1
  const MAX_FEERATE_VB := 1_000
  /** The largest feerate that fits sixteen bits. */
  const MAX_FEERATE_REPR := 65_535
  /** nSequence of an input that signals replaceability and no relative timelock. */
  const ENABLE_RBF_NO_LOCKTIME := 0xFFFF_FFFD
  const RELATIVE_LOCK_DISABLED := 0x8000_0000

  datatype Script = Script(bytes: seq<nat>)

  datatype TxOut = TxOut(value: nat, script: Script)

  datatype TxIn = TxIn(previous: OutPoint, sequence: nat)

  datatype Tx = Tx(lockTime: nat, inputs: seq<TxIn>, outputs: seq<TxOut>)

  /** Where a key of ours comes from: the change or receive keychain, and an index. */
  datatype Derivation = Derivation(isChange: bool, index: nat)

  /** `keyOrigins` is how many key origins a derived descriptor fills in. */
  datatype PsbtIn = PsbtIn(derivation: Derivation, keyOrigins: nat, witnessUtxo: Option<TxOut>, previousTx: Option<nat>)

  datatype PsbtOut = PsbtOut(derivation: Option<Derivation>)

  datatype Psbt = Psbt(tx: Tx, inputs: seq<PsbtIn>, outputs: seq<PsbtOut>)

  datatype Address = Address(script: Script, info: Option<Derivation>)

  datatype Destination = Destination(address: Address, amount: nat)

  datatype Fees = Regular(rate: nat) | Rbf(rate: nat, replaced: nat)

  datatype InsaneFee = NegativeFee | InvalidRate | TooHighFee(fee: nat) | TooHighFeerate(rate: nat)

  datatype SpendError =
    | InvalidFeerate(rate: nat)
    | InvalidOutputValue(value: nat)
    | InsaneFees(info: InsaneFee)
    | SanityCheckFailure
    | InsufficientFunds(missing: nat)

  datatype Warning = ChangeAddedToFee(amount: nat) | AdditionalFeeForAncestors(amount: nat)

  datatype SpendResult = SpendResult(psbt: Psbt, hasChange: bool, warnings: seq<Warning>)

  /** The wallet descriptor: scripts, sizes and weights the descriptor library computes. */
  datatype Descriptor = Descriptor(
    isTaproot: bool,
    script: Derivation -> Script,
    keyOrigins: Derivation -> nat,
    outputWeight: Script -> nat,
    dustLimit: Script -> nat,
    maxSatWeight: bool -> nat,
    inputBaseWeight: nat,
    vbytes: (Tx, bool) -> nat,
    overhead: (nat, nat) -> nat)

  // ----- sums -----

  function OutputTotal(outputs: seq<TxOut>): nat {
    if outputs == [] then 0 else outputs[0].value + OutputTotal(outputs[1..])
  }

  function OutputWeights(desc: Descriptor, outputs: seq<TxOut>): nat {
    if outputs == [] then 0 else desc.outputWeight(outputs[0].script) + OutputWeights(desc, outputs[1..])
  }

  /** The value of the inputs; every input must show its coin and carry a key origin. */
  function InputTotal(inputs: seq<PsbtIn>): Option<nat> {
    if inputs == [] then Some(0)
    else if inputs[0].keyOrigins == 0 || inputs[0].witnessUtxo.None? then None
    else match InputTotal(inputs[1..])
      case None => None
      case Some(rest) => Some(inputs[0].witnessUtxo.value.value + rest)
  }

  // ----- the sanity check -----

  predicate ValidValue(value: nat) {
    DUST_OUTPUT_SATS <= value <= MAX_MONEY
  }

  function CheckOutputValue(value: nat): Result<(), SpendError> {
    if value > MAX_MONEY || value < DUST_OUTPUT_SATS then Err(InvalidOutputValue(value)) else Ok(())
  }

  /** The fees of a transaction, judged. */
  function CheckFees(valueIn: nat, valueOut: nat, vbytes: nat): Result<(), SpendError> {
    if valueIn < valueOut then Err(InsaneFees(NegativeFee))
    else
      var fee := valueIn - valueOut;
      if fee > MAX_FEE then Err(InsaneFees(TooHighFee(fee)))
      else if vbytes == 0 then Err(InsaneFees(InvalidRate))
      else if MIN_FEERATE_VB <= fee / vbytes <= MAX_FEERATE_VB then Ok(())
      else Err(InsaneFees(TooHighFeerate(fee / vbytes)))
  }

  predicate NoDust(desc: Descriptor, outputs: seq<TxOut>) {
    forall i :: 0 <= i < |outputs| ==> outputs[i].value >= desc.dustLimit(outputs[i].script)
  }

  function Sanity(desc: Descriptor, psbt: Psbt, usePrimary: bool): Result<(), SpendError> {
    if |psbt.inputs| != |psbt.tx.inputs| || |psbt.outputs| != |psbt.tx.outputs| || psbt.tx.outputs == [] then
      Err(SanityCheckFailure)
    else match InputTotal(psbt.inputs)
      case None => Err(SanityCheckFailure)
      case Some(valueIn) =>
        match CheckFees(valueIn, OutputTotal(psbt.tx.outputs), desc.vbytes(psbt.tx, usePrimary))
        case Err(e) => Err(e)
        case Ok(_) => if NoDust(desc, psbt.tx.outputs) then Ok(()) else Err(SanityCheckFailure)
  }

  method SanityCheck(desc: Descriptor, psbt: Psbt, usePrimary: bool) returns (r: Result<(), SpendError>)
    ensures r == Sanity(desc, psbt, usePrimary)
  {
    var tx := psbt.tx;
    if |psbt.inputs| != |tx.inputs| || |psbt.outputs| != |tx.outputs| || tx.outputs == [] {
      return Err(SanityCheckFailure);
    }
    var valueIn := 0;
    assert psbt.inputs[0..] == psbt.inputs;
    for i := 0 to |psbt.inputs|
      invariant InputTotal(psbt.inputs) == match InputTotal(psbt.inputs[i..])
                                           case None => None
                                           case Some(rest) => Some(valueIn + rest)
    {
      assert psbt.inputs[i..][1..] == psbt.inputs[i + 1..];
      var input := psbt.inputs[i];
      if input.keyOrigins == 0 {
        return Err(SanityCheckFailure);
      }
      if input.witnessUtxo.None? {
        return Err(SanityCheckFailure);
      }
      valueIn := valueIn + input.witnessUtxo.value.value;
    }
    var valueOut := 0;
    assert tx.outputs[0..] == tx.outputs;
    for i := 0 to |tx.outputs|
      invariant OutputTotal(tx.outputs) == valueOut + OutputTotal(tx.outputs[i..])
    {
      assert tx.outputs[i..][1..] == tx.outputs[i + 1..];
      valueOut := valueOut + tx.outputs[i].value;
    }
    var fees := CheckFees(valueIn, valueOut, desc.vbytes(tx, usePrimary));
    if fees.Err? {
      return Err(fees.error);
    }
    for i := 0 to |tx.outputs|
      invariant forall j :: 0 <= j < i ==> tx.outputs[j].value >= desc.dustLimit(tx.outputs[j].script)
    {
      if tx.outputs[i].value < desc.dustLimit(tx.outputs[i].script) {
        return Err(SanityCheckFailure);
      }
    }
    return Ok(());
  }

  /** Every input shows its coin and the keys that can sign for it. */
  predicate AllInputsKnown(inputs: seq<PsbtIn>) {
    forall i :: 0 <= i < |inputs| ==> inputs[i].keyOrigins > 0 && inputs[i].witnessUtxo.Some?
  }

  /** The value of the coins that are shown. */
  function ShownValue(inputs: seq<PsbtIn>): nat {
    if inputs == [] then 0
    else (if inputs[0].witnessUtxo.Some? then inputs[0].witnessUtxo.value.value else 0) + ShownValue(inputs[1..])
  }

  lemma {:induction false} InputTotalLaw(inputs: seq<PsbtIn>)
    ensures InputTotal(inputs) == if AllInputsKnown(inputs) then Some(ShownValue(inputs)) else None
  {
    if inputs != [] {
      InputTotalLaw(inputs[1..]);
      assert forall i :: 0 < i < |inputs| ==> inputs[i] == inputs[1..][i - 1];
    }
  }

  /** The PSBT describes its transaction, which has an output, and knows all its inputs. */
  predicate MatchesTx(psbt: Psbt) {
    |psbt.inputs| == |psbt.tx.inputs| && |psbt.outputs| == |psbt.tx.outputs| > 0 && AllInputsKnown(psbt.inputs)
  }

  /** A fee within the limits, absolute and per virtual byte. */
  predicate FeeInLimits(fee: int, vbytes: nat) {
    0 <= fee <= MAX_FEE && vbytes > 0 && MIN_FEERATE_VB <= fee / vbytes <= MAX_FEERATE_VB
  }

  /** A fee outside the limits, and how it is reported. */
  predicate FeeIsInsane(fee: int, vbytes: nat, info: InsaneFee) {
    match info
    case NegativeFee => fee < 0
    case InvalidRate => 0 <= fee <= MAX_FEE && vbytes == 0
    case TooHighFee(f) => f == fee > MAX_FEE
    case TooHighFeerate(rate) =>
      0 <= fee <= MAX_FEE && vbytes > 0 && rate == fee / vbytes && !(MIN_FEERATE_VB <= rate <= MAX_FEERATE_VB)
  }

  /**
   The sanity check passes exactly the PSBTs that match their transaction, create no dust and
   pay a fee within the limits, and it names exactly the fee it refuses.
   */
  lemma SanityLaw(desc: Descriptor, psbt: Psbt, usePrimary: bool)
    ensures var r, vbytes := Sanity(desc, psbt, usePrimary), desc.vbytes(psbt.tx, usePrimary);
            var fee := ShownValue(psbt.inputs) - OutputTotal(psbt.tx.outputs);
            (r.Ok? <==> MatchesTx(psbt) && FeeInLimits(fee, vbytes) && NoDust(desc, psbt.tx.outputs))
            && (forall info :: r == Err(InsaneFees(info)) <==> MatchesTx(psbt) && FeeIsInsane(fee, vbytes, info))
            && (r == Err(SanityCheckFailure)
                <==> !MatchesTx(psbt) || (FeeInLimits(fee, vbytes) && !NoDust(desc, psbt.tx.outputs)))
  {
    InputTotalLaw(psbt.inputs);
    CheckFeesLaw(ShownValue(psbt.inputs), OutputTotal(psbt.tx.outputs), desc.vbytes(psbt.tx, usePrimary));
    hide InputTotal, ShownValue, OutputTotal, AllInputsKnown, NoDust, CheckFees, FeeInLimits, FeeIsInsane;
  }

  lemma CheckFeesLaw(valueIn: nat, valueOut: nat, vbytes: nat)
    ensures var r, fee := CheckFees(valueIn, valueOut, vbytes), valueIn - valueOut;
            (r.Ok? <==> FeeInLimits(fee, vbytes))
            && (r.Err? ==> r.error.InsaneFees?)
            && (forall info :: r == Err(InsaneFees(info)) <==> FeeIsInsane(fee, vbytes, info))
  {
  }

  // ----- the pieces of a spend -----

  predicate RelativeLock(sequence: nat) {
    sequence < RELATIVE_LOCK_DISABLED
  }

  /** Without relative timelocks among the candidates, the primary path is used. */
  predicate UsesPrimary(coins: seq<CandidateCoin>) {
    forall i :: 0 <= i < |coins| ==> coins[i].sequence.Some? ==> !RelativeLock(coins[i].sequence.value)
  }

  function DestinationOut(d: Destination): TxOut {
    TxOut(d.amount, d.address.script)
  }

  /** An address of ours is marked in the PSBT output for signing devices. */
  function OutInfo(address: Address): PsbtOut {
    PsbtOut(address.info)
  }

  function SpentDerivation(coin: CandidateCoin): Derivation {
    Derivation(coin.isChange, coin.derivIndex)
  }

  function SpendingInput(coin: CandidateCoin): TxIn {
    TxIn(coin.outpoint, if coin.sequence.Some? then coin.sequence.value else ENABLE_RBF_NO_LOCKTIME)
  }

  function SigningInput(desc: Descriptor, getTx: nat -> Option<nat>, coin: CandidateCoin): PsbtIn {
    var derivation := SpentDerivation(coin);
    PsbtIn(derivation, desc.keyOrigins(derivation), Some(TxOut(coin.amount, desc.script(derivation))),
           if desc.isTaproot then None else getTx(coin.outpoint.txid))
  }

  function Outputs(destinations: seq<Destination>): (r: seq<TxOut>)
    ensures |r| == |destinations| && forall i :: 0 <= i < |r| ==> r[i] == DestinationOut(destinations[i])
  {
    if destinations == [] then [] else [DestinationOut(destinations[0])] + Outputs(destinations[1..])
  }

  function ReplacedFee(fees: Fees): Option<nat> {
    if fees.Rbf? then Some(fees.replaced) else None
  }

  /** What coin selection is asked for. */
  function SelectionRequest(desc: Descriptor, destinations: seq<Destination>, coins: seq<CandidateCoin>, fees: Fees,
                            change: Address): Request
  {
    var outputs := Outputs(destinations);
    var inputWeight := desc.inputBaseWeight + desc.maxSatWeight(UsesPrimary(coins));
    var changeWeight := desc.outputWeight(change.script);
    var target := Target(fees.rate, ReplacedFee(fees), OutputTotal(outputs), OutputWeights(desc, outputs), |outputs|,
                         desc.overhead);
    Request(coins, target, changeWeight, inputWeight, destinations == [])
  }

  /** The inputs spend the selected coins one by one, in the transaction and in the PSBT. */
  ghost predicate InputsSpend(desc: Descriptor, getTx: nat -> Option<nat>, selected: seq<CandidateCoin>, psbt: Psbt) {
    |psbt.tx.inputs| == |selected| == |psbt.inputs|
    && forall i :: 0 <= i < |selected| ==>
         psbt.tx.inputs[i] == SpendingInput(selected[i]) && psbt.inputs[i] == SigningInput(desc, getTx, selected[i])
  }

  /** The outputs are the destinations in order, then the change if there is any. */
  ghost predicate OutputsPay(destinations: seq<Destination>, change: Address, hasChange: bool, psbt: Psbt) {
    |psbt.tx.outputs| == |psbt.outputs| == |destinations| + (if hasChange then 1 else 0)
    && (forall i :: 0 <= i < |destinations| ==>
          psbt.tx.outputs[i] == DestinationOut(destinations[i]) && psbt.outputs[i] == OutInfo(destinations[i].address))
    && (hasChange ==> psbt.tx.outputs[|destinations|].script == change.script
                      && psbt.outputs[|destinations|] == OutInfo(change))
  }

  /** The value of the coins is split between the outputs and a fee that is neither absurd nor too low. */
  ghost predicate FeeIsSane(desc: Descriptor, usePrimary: bool, selected: seq<CandidateCoin>, tx: Tx, fee: nat) {
    Amount(selected) == OutputTotal(tx.outputs) + fee
    && FeeInLimits(fee, desc.vbytes(tx, usePrimary))
  }

  /** The weight of a spend with its inputs signed. */
  function SignedWeight(desc: Descriptor, usePrimary: bool, selected: seq<CandidateCoin>, tx: Tx): nat {
    desc.overhead(|selected|, |tx.outputs|)
    + |selected| * (desc.inputBaseWeight + desc.maxSatWeight(usePrimary))
    + OutputWeights(desc, tx.outputs)
  }

  /**
   The fee pays for the transaction at the rate asked for and what its coins' ancestors lack,
   and for a replacement.
   */
  ghost predicate FeeIsEnough(desc: Descriptor, usePrimary: bool, fees: Fees, selected: seq<CandidateCoin>, tx: Tx,
                              fee: nat)
    requires fees.rate > 0
  {
    var weight := SignedWeight(desc, usePrimary, selected, tx);
    WITNESS_SCALE_FACTOR * (fee - Shortfalls(selected, fees.rate)) >= weight * fees.rate
    && (fees.Rbf? ==> fee >= fees.replaced + ImpliedFee(weight, INCREMENTAL_FEERATE))
  }

  ghost predicate SpendsRightCoins(coins: seq<CandidateCoin>, selected: seq<CandidateCoin>) {
    (forall c :: c in selected ==> c in coins)
    && (forall c :: c in coins && c.mustSelect ==> c in selected)
    && DistinctOutpoints(selected)
  }

  function ExpectedWarnings(hasChange: bool, maxChange: nat, ancestorFee: nat): seq<Warning> {
    (if !hasChange && maxChange > 0 then [ChangeAddedToFee(maxChange)] else [])
    + if ancestorFee > 0 then [AdditionalFeeForAncestors(ancestorFee)] else []
  }

  // ----- refusals -----

  function SpendingInputs(selected: seq<CandidateCoin>): seq<TxIn> {
    seq(|selected|, i requires 0 <= i < |selected| => SpendingInput(selected[i]))
  }

  /** The transaction made of a selection. */
  function BuiltTx(destinations: seq<Destination>, change: Address, lockTime: nat, s: Selection): Tx {
    Tx(lockTime, SpendingInputs(s.selected),
       Outputs(destinations) + if s.changeAmount > 0 then [TxOut(s.changeAmount, change.script)] else [])
  }

  predicate FirstInvalid(destinations: seq<Destination>, i: nat) {
    i < |destinations| && !ValidValue(destinations[i].amount)
    && forall j :: 0 <= j < i ==> ValidValue(destinations[j].amount)
  }

  /** A fee that a created spend may not pay; it is never negative. */
  predicate FeeRefused(desc: Descriptor, usePrimary: bool, tx: Tx, fee: int, info: InsaneFee) {
    fee >= 0 && FeeIsInsane(fee, desc.vbytes(tx, usePrimary), info)
  }

  /** What each refusal says of the request, or of the transaction made of the coins that were selected. */
  ghost predicate RefusalHolds(desc: Descriptor, destinations: seq<Destination>, coins: seq<CandidateCoin>, fees: Fees,
                               change: Address, s: Selection, tx: Tx, error: SpendError)
  {
    match error
    case InvalidFeerate(rate) => rate == fees.rate < MIN_FEERATE_VB
    case InvalidOutputValue(value) =>
      (exists i: nat :: FirstInvalid(destinations, i) && value == destinations[i].amount)
      || (value == s.changeAmount > MAX_MONEY
          && forall i :: 0 <= i < |destinations| ==> ValidValue(destinations[i].amount))
    case InsaneFees(info) =>
      (fees.rate > MAX_FEERATE_REPR && info == TooHighFeerate(fees.rate))
      || FeeRefused(desc, UsesPrimary(coins), tx, Amount(s.selected) - OutputTotal(tx.outputs), info)
    case SanityCheckFailure =>
      (exists i :: 0 <= i < |s.selected| && desc.keyOrigins(SpentDerivation(s.selected[i])) == 0)
      || !NoDust(desc, tx.outputs)
    case InsufficientFunds(missing) =>
      fees.rate > 0
      && var request := SelectionRequest(desc, destinations, coins, fees, change);
         !Acceptable(request, AllTrue(|request.coins|)) && missing == Missing(request)
  }

  /** Everything a created spend promises. */
  ghost predicate GoodSpend(desc: Descriptor, getTx: nat -> Option<nat>, destinations: seq<Destination>,
                            coins: seq<CandidateCoin>, fees: Fees, change: Address, lockTime: nat,
                            selected: seq<CandidateCoin>, res: SpendResult)
    requires fees.rate > 0
  {
    var tx, usePrimary := res.psbt.tx, UsesPrimary(coins);
    tx.lockTime == lockTime
    && SpendsRightCoins(coins, selected)
    && InputsSpend(desc, getTx, selected, res.psbt)
    && OutputsPay(destinations, change, res.hasChange, res.psbt)
    && (forall i :: 0 <= i < |tx.outputs| ==> ValidValue(tx.outputs[i].value))
    && NoDust(desc, tx.outputs)
    && (exists fee: nat :: FeeIsSane(desc, usePrimary, selected, tx, fee)
                           && FeeIsEnough(desc, usePrimary, fees, selected, tx, fee))
    && (destinations == [] ==> res.hasChange && |tx.outputs| == 1)
  }

  // ----- sending everything to oneself -----

  /** A wallet with inputs of 100 virtual bytes and outputs of 43. */
  function PlainWallet(): Descriptor {
    Descriptor(false, (d: Derivation) => Script([]), (d: Derivation) => 1, (s: Script) => 172, (s: Script) => 330,
               (primary: bool) => 236, 164, (tx: Tx, primary: bool) => 200, (inputs: nat, outputs: nat) => 42)
  }

  function PlainCoin(index: nat): CandidateCoin {
    CandidateCoin(OutPoint(index, 0), 100_000, index, false, false, None, None)
  }

  function PlainRequest(): Request {
    SelectionRequest(PlainWallet(), [], [PlainCoin(0), PlainCoin(1)], Regular(1), Address(Script([]), None))
  }

  /**
   With no destinations, not every candidate need be spent: of two coins of 100000 sat that
   may be spent and need not, the fallback takes the first and keeps the other.
   */
  lemma OptionalCoinMayStay() returns (s: Selection)
    ensures var r := PlainRequest();
            r.coins == [PlainCoin(0), PlainCoin(1)] && r.target.rate > 0
            && FirstAcceptable(r, [0, 1], 1) && IsSelection(r, Prefix(r.coins, [0, 1], 1), s)
            && !SpendsAll(r.coins, s.selected)
  {
    var r := PlainRequest();
    FirstOfTwo(PlainCoin(0), PlainCoin(1));
    PlainPrefixes();
    PlainChoices();
    hide PlainRequest, Acceptable, Prefix, Chosen, Excess, FeeForAncestors;
    hide ChosenOf, DrainOf, Policy, Max0, EmptyChange;
    var mask, chosen := [true, false], ChosenOf(r, [true, false]);
    s := Selection([PlainCoin(0)], DrainOf(chosen, r.target, Policy(r)).value,
                   Max0(Excess(chosen, r.target, EmptyChange(r))), FeeForAncestors([PlainCoin(0)], r.target.rate));
    assert PlainCoin(1) in r.coins && PlainCoin(1) !in [PlainCoin(0)];
  }

  lemma PlainPrefixes()
    ensures var coins := [PlainCoin(0), PlainCoin(1)];
            Prefix(coins, [0, 1], 0) == [false, false] && Prefix(coins, [0, 1], 1) == [true, false]
    ensures PlainRequest().coins == [PlainCoin(0), PlainCoin(1)] && PlainRequest().target.rate == 1
  {
    assert [0, 1][..1] == [0] && [0, 1][..0] == [];
  }

  lemma PlainChoices()
    ensures |PlainRequest().coins| == 2 && PlainRequest().target.rate == 1
    ensures Acceptable(PlainRequest(), [true, false]) && !Acceptable(PlainRequest(), [false, false])
  {
    PlainCandidates();
    FirstOfTwo(Candidate(100_000, 400), Candidate(100_000, 400));
    NoneOfTwo(Candidate(100_000, 400), Candidate(100_000, 400));
    OneCandidate();
    hide Chosen, Candidates, Value, Weight;
  }

  lemma PlainCandidates()
    ensures Candidates([PlainCoin(0), PlainCoin(1)], 400, 1) == [Candidate(100_000, 400), Candidate(100_000, 400)]
  {
    var coins := [PlainCoin(0), PlainCoin(1)];
    assert coins[1..] == [PlainCoin(1)] && coins[1..][1..] == [];
    assert Candidates(coins[1..], 400, 1) == [Candidate(100_000, 400)];
  }

  lemma FirstOfTwo<T>(a: T, b: T)
    ensures Chosen([a, b], [true, false]) == [a]
  {
    assert [a, b][1..] == [b] && [true, false][1..] == [false];
    assert Chosen([b], [false]) == [];
  }

  lemma NoneOfTwo<T>(a: T, b: T)
    ensures Chosen([a, b], [false, false]) == []
  {
    assert [a, b][1..] == [b] && [false, false][1..] == [false];
    assert Chosen([b], [false]) == [];
  }

  lemma OneCandidate()
    ensures Value([]) == Weight([]) == 0
    ensures Value([Candidate(100_000, 400)]) == 100_000 && Weight([Candidate(100_000, 400)]) == 400
  {
    assert [Candidate(100_000, 400)][1..] == [];
  }
}
