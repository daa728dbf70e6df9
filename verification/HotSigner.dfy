/**
 Signing a PSBT with a hot signer (liana/src/signer.rs). Derivation, signature hashes and
 signatures are functions nothing is known about, except that they are functions: signing
 is deterministic.
 */
module HotSigner {
  import opened Wrappers

  type PrivateKey = nat
  type PublicKey = nat
  type Fingerprint = nat
  type LeafHash = nat
  type Signature = nat
  type Path = seq<nat>

  datatype TxOut = TxOut(value: nat, script: nat)

  datatype Tx = Tx(id: nat)

  datatype Origin = Origin(fingerprint: Fingerprint, path: Path)

  datatype TapOrigin = TapOrigin(leaves: seq<LeafHash>, origin: Origin)

  datatype PsbtIn = PsbtIn(
    witnessScript: Option<nat>,
    witnessUtxo: Option<TxOut>,
    derivations: map<PublicKey, Origin>,
    tapOrigins: map<PublicKey, TapOrigin>,
    tapInternalKey: Option<PublicKey>,
    tapMerkleRoot: Option<nat>,
    partialSigs: map<PublicKey, Signature>,
    tapScriptSigs: map<(PublicKey, LeafHash), Signature>,
    tapKeySig: Option<Signature>)

  datatype Psbt = Psbt(tx: Tx, inputs: seq<PsbtIn>)

  datatype SignerError = InsanePsbt | IncompletePsbt

  datatype Signer = Signer(fingerprint: Fingerprint, derive: Path -> PrivateKey)

  datatype Crypto = Crypto(
    publicKey: PrivateKey -> PublicKey,
    xOnlyKey: PrivateKey -> PublicKey,
    tweaked: (PrivateKey, Option<nat>) -> PrivateKey,
    ecdsa: (nat, PrivateKey) -> Signature,
    schnorr: (nat, PrivateKey) -> Signature,
    p2wshHash: (Tx, nat, nat, nat) -> Option<nat>,
    keySpendHash: (Tx, nat, seq<TxOut>) -> Option<nat>,
    leafSpendHash: (Tx, nat, seq<TxOut>, LeafHash) -> Option<nat>)

  // ----- what a signer adds to an input -----

  /** New signatures for one input. */
  datatype Sigs = Sigs(
    partial: map<PublicKey, Signature>,
    script: map<(PublicKey, LeafHash), Signature>,
    key: Option<Signature>)

  function WithSigs(input: PsbtIn, sigs: Sigs): PsbtIn {
    input.(partialSigs := input.partialSigs + sigs.partial,
           tapScriptSigs := input.tapScriptSigs + sigs.script,
           tapKeySig := if sigs.key.Some? then sigs.key else input.tapKeySig)
  }

  predicate IsOwn(s: Signer, origin: Origin) {
    origin.fingerprint == s.fingerprint
  }

  function OwnKeys(s: Signer, input: PsbtIn): set<PublicKey> {
    set k | k in input.derivations && IsOwn(s, input.derivations[k])
  }

  function PrivateOf(s: Signer, origin: Origin): PrivateKey {
    s.derive(origin.path)
  }

  /** ECDSA signatures for every key of ours; a key that is not what its path derives is refused. */
  function P2wshSigs(c: Crypto, s: Signer, tx: Tx, input: PsbtIn, index: nat): Result<Sigs, SignerError> {
    if input.witnessScript.None? || input.witnessUtxo.None? then Err(IncompletePsbt)
    else match c.p2wshHash(tx, index, input.witnessScript.value, input.witnessUtxo.value.value)
      case None => Err(InsanePsbt)
      case Some(hash) =>
        var own := OwnKeys(s, input);
        if exists k :: k in own && c.publicKey(PrivateOf(s, input.derivations[k])) != k then Err(InsanePsbt)
        else Ok(Sigs(map k | k in own :: c.ecdsa(hash, PrivateOf(s, input.derivations[k])), map[], None))
  }

  /** The internal key is known and ours. */
  predicate OwnsInternalKey(s: Signer, input: PsbtIn) {
    input.tapInternalKey.Some? && input.tapInternalKey.value in input.tapOrigins
    && IsOwn(s, input.tapOrigins[input.tapInternalKey.value].origin)
  }

  function KeyPathSig(c: Crypto, s: Signer, tx: Tx, prevouts: seq<TxOut>, input: PsbtIn, index: nat)
    : Result<Option<Signature>, SignerError>
  {
    if !OwnsInternalKey(s, input) then Ok(None)
    else
      var key := PrivateOf(s, input.tapOrigins[input.tapInternalKey.value].origin);
      if c.xOnlyKey(key) != input.tapInternalKey.value then Err(InsanePsbt)
      else match c.keySpendHash(tx, index, prevouts)
        case None => Err(InsanePsbt)
        case Some(hash) => Ok(Some(c.schnorr(hash, c.tweaked(key, input.tapMerkleRoot))))
  }

  /** The leaves we sign: each of a key of ours with each leaf that key is in. */
  function OwnLeaves(s: Signer, input: PsbtIn): set<(PublicKey, LeafHash)> {
    set k, l |
      k in input.tapOrigins && IsOwn(s, input.tapOrigins[k].origin) && l in input.tapOrigins[k].leaves :: (k, l)
  }

  function TaprootSigs(c: Crypto, s: Signer, tx: Tx, prevouts: seq<TxOut>, input: PsbtIn, index: nat)
    : Result<Sigs, SignerError>
  {
    match KeyPathSig(c, s, tx, prevouts, input, index)
    case Err(e) => Err(e)
    case Ok(key) =>
      var own := OwnLeaves(s, input);
      if exists p :: p in own && c.leafSpendHash(tx, index, prevouts, p.1).None? then Err(InsanePsbt)
      else
        Ok(Sigs(map[],
                map p | p in own ::
                  c.schnorr(c.leafSpendHash(tx, index, prevouts, p.1).value,
                            PrivateOf(s, input.tapOrigins[p.0].origin)),
                key))
  }

  function InputSigs(c: Crypto, s: Signer, tx: Tx, prevouts: seq<TxOut>, input: PsbtIn, index: nat)
    : Result<Sigs, SignerError>
  {
    if input.witnessScript.Some? then P2wshSigs(c, s, tx, input, index)
    else TaprootSigs(c, s, tx, prevouts, input, index)
  }

  function Prevouts(inputs: seq<PsbtIn>): seq<TxOut> {
    if inputs == [] then []
    else (if inputs[0].witnessUtxo.Some? then [inputs[0].witnessUtxo.value] else []) + Prevouts(inputs[1..])
  }

  /** The inputs from `index` on, signed. */
  function SignedInputs(c: Crypto, s: Signer, tx: Tx, prevouts: seq<TxOut>, inputs: seq<PsbtIn>, index: nat)
    : Result<seq<PsbtIn>, SignerError>
    requires index <= |inputs|
    decreases |inputs| - index
  {
    if index == |inputs| then Ok(inputs)
    else match InputSigs(c, s, tx, prevouts, inputs[index], index)
      case Err(e) => Err(e)
      case Ok(sigs) => SignedInputs(c, s, tx, prevouts, inputs[index := WithSigs(inputs[index], sigs)], index + 1)
  }

  function Signed(c: Crypto, s: Signer, psbt: Psbt): Result<Psbt, SignerError> {
    var prevouts := Prevouts(psbt.inputs);
    if |prevouts| != |psbt.inputs| then Err(IncompletePsbt)
    else match SignedInputs(c, s, psbt.tx, prevouts, psbt.inputs, 0)
      case Err(e) => Err(e)
      case Ok(inputs) => Ok(Psbt(psbt.tx, inputs))
  }

  // ----- the loops of the source -----

  /** ECDSA signatures for some keys of an input. */
  function EcdsaFor(c: Crypto, s: Signer, input: PsbtIn, keys: set<PublicKey>, hash: nat): map<PublicKey, Signature> {
    map k | k in keys && k in OwnKeys(s, input) :: c.ecdsa(hash, PrivateOf(s, input.derivations[k]))
  }

  lemma EcdsaForOneMore(c: Crypto, s: Signer, input: PsbtIn, keys: set<PublicKey>, key: PublicKey, hash: nat)
    requires key in input.derivations && key !in keys
    ensures EcdsaFor(c, s, input, keys + {key}, hash)
         == if IsOwn(s, input.derivations[key]) then
              EcdsaFor(c, s, input, keys, hash)[key := c.ecdsa(hash, PrivateOf(s, input.derivations[key]))]
            else EcdsaFor(c, s, input, keys, hash)
  {
  }

  /** Those of the keys that carry our fingerprint are what their paths derive. */
  predicate KeysMatch(c: Crypto, s: Signer, input: PsbtIn, keys: set<PublicKey>) {
    forall k :: k in keys && k in input.derivations && IsOwn(s, input.derivations[k]) ==>
      c.publicKey(PrivateOf(s, input.derivations[k])) == k
  }

  lemma KeysMatchOneMore(c: Crypto, s: Signer, input: PsbtIn, keys: set<PublicKey>, key: PublicKey)
    requires key in input.derivations && KeysMatch(c, s, input, keys)
    requires IsOwn(s, input.derivations[key]) ==> c.publicKey(PrivateOf(s, input.derivations[key])) == key
    ensures KeysMatch(c, s, input, keys + {key})
  {
  }

  lemma NoKeysYet(c: Crypto, s: Signer, input: PsbtIn, hash: nat)
    ensures input.partialSigs == input.partialSigs + EcdsaFor(c, s, input, {}, hash)
    ensures KeysMatch(c, s, input, {})
  {
    assert EcdsaFor(c, s, input, {}, hash) == map[];
  }

  /** The signatures for all the keys are those of our keys, and they go with nothing else. */
  lemma AllEcdsa(c: Crypto, s: Signer, tx: Tx, input: PsbtIn, index: nat, hash: nat)
    requires input.witnessScript.Some? && input.witnessUtxo.Some?
    requires c.p2wshHash(tx, index, input.witnessScript.value, input.witnessUtxo.value.value) == Some(hash)
    requires KeysMatch(c, s, input, input.derivations.Keys)
    ensures P2wshSigs(c, s, tx, input, index)
            == Ok(Sigs(EcdsaFor(c, s, input, input.derivations.Keys, hash), map[], None))
  {
    var own := OwnKeys(s, input);
    assert forall k :: k in own ==> c.publicKey(PrivateOf(s, input.derivations[k])) == k;
    var r := P2wshSigs(c, s, tx, input, index);
    assert r.Ok?;
    assert r.value.partial == EcdsaFor(c, s, input, input.derivations.Keys, hash);
  }

  lemma OnlyEcdsa(input: PsbtIn, partial: map<PublicKey, Signature>)
    ensures WithSigs(input, Sigs(partial, map[], None)) == input.(partialSigs := input.partialSigs + partial)
  {
    var none: map<(PublicKey, LeafHash), Signature> := map[];
    assert input.tapScriptSigs + none == input.tapScriptSigs;
  }

  lemma ForeignKeyRefused(c: Crypto, s: Signer, tx: Tx, input: PsbtIn, index: nat, key: PublicKey)
    requires input.witnessScript.Some? && input.witnessUtxo.Some?
    requires key in input.derivations && IsOwn(s, input.derivations[key])
    requires c.publicKey(PrivateOf(s, input.derivations[key])) != key
    ensures P2wshSigs(c, s, tx, input, index) == Err(InsanePsbt)
  {
    assert key in OwnKeys(s, input);
  }

  method SignP2wsh(c: Crypto, s: Signer, tx: Tx, input: PsbtIn, index: nat) returns (r: Result<PsbtIn, SignerError>)
    ensures r == match P2wshSigs(c, s, tx, input, index)
                 case Err(e) => Err(e)
                 case Ok(sigs) => Ok(WithSigs(input, sigs))
  {
    hide OwnKeys, EcdsaFor, WithSigs, KeysMatch;
    if input.witnessScript.None? || input.witnessUtxo.None? {
      return Err(IncompletePsbt);
    }
    var hash := c.p2wshHash(tx, index, input.witnessScript.value, input.witnessUtxo.value.value);
    if hash.None? {
      return Err(InsanePsbt);
    }
    var keys, sigs := input.derivations.Keys, input.partialSigs;
    ghost var done := {};
    NoKeysYet(c, s, input, hash.value);
    hide P2wshSigs;
    while keys != {}
      invariant done + keys == input.derivations.Keys && done !! keys
      invariant KeysMatch(c, s, input, done)
      invariant sigs == input.partialSigs + EcdsaFor(c, s, input, done, hash.value)
      decreases keys
    {
      var key :| key in keys;
      EcdsaForOneMore(c, s, input, done, key, hash.value);
      keys, done := keys - {key}, done + {key};
      if input.derivations[key].fingerprint != s.fingerprint {
        KeysMatchOneMore(c, s, input, done - {key}, key);
        assert done - {key} + {key} == done;
        continue;
      }
      var private := s.derive(input.derivations[key].path);
      var public := c.publicKey(private);
      if public != key {
        ForeignKeyRefused(c, s, tx, input, index, key);
        return Err(InsanePsbt);
      }
      KeysMatchOneMore(c, s, input, done - {key}, key);
      assert done - {key} + {key} == done;
      sigs := sigs[public := c.ecdsa(hash.value, private)];
    }
    assert done == input.derivations.Keys;
    AllEcdsa(c, s, tx, input, index, hash.value);
    OnlyEcdsa(input, EcdsaFor(c, s, input, done, hash.value));
    return Ok(input.(partialSigs := sigs));
  }

  /** Schnorr signatures for some of the leaves of an input. */
  function SchnorrFor(c: Crypto, s: Signer, tx: Tx, prevouts: seq<TxOut>, input: PsbtIn, index: nat,
                      leaves: set<(PublicKey, LeafHash)>): map<(PublicKey, LeafHash), Signature>
    requires Hashable(c, tx, prevouts, input, index, leaves)
  {
    map p | p in leaves ::
      c.schnorr(c.leafSpendHash(tx, index, prevouts, p.1).value, PrivateOf(s, input.tapOrigins[p.0].origin))
  }

  /** The leaves listed for a key, as places a signature can stand. */
  function LeavesOf(key: PublicKey, leaves: seq<LeafHash>): set<(PublicKey, LeafHash)> {
    set l | l in leaves :: (key, l)
  }

  /** Our leaves among those of some keys. */
  function OwnLeavesOf(s: Signer, input: PsbtIn, keys: set<PublicKey>): set<(PublicKey, LeafHash)> {
    set p | p in OwnLeaves(s, input) && p.0 in keys
  }

  lemma OwnLeavesOneMore(s: Signer, input: PsbtIn, keys: set<PublicKey>, key: PublicKey)
    requires key in input.tapOrigins && key !in keys
    ensures OwnLeavesOf(s, input, keys + {key})
         == OwnLeavesOf(s, input, keys)
            + (if IsOwn(s, input.tapOrigins[key].origin) then LeavesOf(key, input.tapOrigins[key].leaves) else {})
  {
  }

  lemma SchnorrForMore(c: Crypto, s: Signer, tx: Tx, prevouts: seq<TxOut>, input: PsbtIn, index: nat,
                       earlier: map<(PublicKey, LeafHash), Signature>,
                       a: set<(PublicKey, LeafHash)>, b: set<(PublicKey, LeafHash)>)
    requires Hashable(c, tx, prevouts, input, index, a) && Hashable(c, tx, prevouts, input, index, b)
    requires Hashable(c, tx, prevouts, input, index, a + b)
    ensures earlier + SchnorrFor(c, s, tx, prevouts, input, index, a) + SchnorrFor(c, s, tx, prevouts, input, index, b)
         == earlier + SchnorrFor(c, s, tx, prevouts, input, index, a + b)
  {
  }

  /** All these leaves have a signature hash. */
  predicate Hashable(c: Crypto, tx: Tx, prevouts: seq<TxOut>, input: PsbtIn, index: nat,
                     leaves: set<(PublicKey, LeafHash)>)
  {
    forall p :: p in leaves ==> p.0 in input.tapOrigins && c.leafSpendHash(tx, index, prevouts, p.1).Some?
  }

  lemma NoLeavesYet(c: Crypto, s: Signer, tx: Tx, prevouts: seq<TxOut>, input: PsbtIn, index: nat)
    ensures OwnLeavesOf(s, input, {}) == {} && Hashable(c, tx, prevouts, input, index, {})
    ensures input.tapScriptSigs == input.tapScriptSigs + SchnorrFor(c, s, tx, prevouts, input, index, {})
  {
  }

  lemma AllLeaves(s: Signer, input: PsbtIn)
    ensures OwnLeavesOf(s, input, input.tapOrigins.Keys) == OwnLeaves(s, input)
  {
  }

  lemma LeafRefused(c: Crypto, s: Signer, tx: Tx, prevouts: seq<TxOut>, input: PsbtIn, index: nat, key: PublicKey)
    requires key in input.tapOrigins && IsOwn(s, input.tapOrigins[key].origin)
    requires !Hashable(c, tx, prevouts, input, index, LeavesOf(key, input.tapOrigins[key].leaves))
    ensures !Hashable(c, tx, prevouts, input, index, OwnLeaves(s, input))
  {
    var p :| p in LeavesOf(key, input.tapOrigins[key].leaves) && c.leafSpendHash(tx, index, prevouts, p.1).None?;
    assert p in OwnLeaves(s, input);
  }

  lemma HashableBoth(c: Crypto, tx: Tx, prevouts: seq<TxOut>, input: PsbtIn, index: nat,
                     a: set<(PublicKey, LeafHash)>, b: set<(PublicKey, LeafHash)>)
    requires Hashable(c, tx, prevouts, input, index, a) && Hashable(c, tx, prevouts, input, index, b)
    ensures Hashable(c, tx, prevouts, input, index, a + b)
  {
  }

  /** Script-path signatures in every leaf one of our keys is in. */
  method SignLeaves(c: Crypto, s: Signer, tx: Tx, prevouts: seq<TxOut>, input: PsbtIn, index: nat)
    returns (r: Result<map<(PublicKey, LeafHash), Signature>, SignerError>)
    ensures r.Ok? <==> Hashable(c, tx, prevouts, input, index, OwnLeaves(s, input))
    ensures r.Err? ==> r.error == InsanePsbt
    ensures r.Ok? ==> r.value == input.tapScriptSigs
                                 + SchnorrFor(c, s, tx, prevouts, input, index, OwnLeaves(s, input))
  {
    hide OwnLeaves, OwnLeavesOf, LeavesOf, SchnorrFor, Hashable;
    var keys, sigs := input.tapOrigins.Keys, input.tapScriptSigs;
    ghost var done := {};
    NoLeavesYet(c, s, tx, prevouts, input, index);
    while keys != {}
      invariant done + keys == input.tapOrigins.Keys && done !! keys
      invariant Hashable(c, tx, prevouts, input, index, OwnLeavesOf(s, input, done))
      invariant sigs == input.tapScriptSigs
                        + SchnorrFor(c, s, tx, prevouts, input, index, OwnLeavesOf(s, input, done))
      decreases keys
    {
      var key :| key in keys;
      OwnLeavesOneMore(s, input, done, key);
      ghost var before, more := OwnLeavesOf(s, input, done), LeavesOf(key, input.tapOrigins[key].leaves);
      keys, done := keys - {key}, done + {key};
      if input.tapOrigins[key].origin.fingerprint != s.fingerprint {
        assert OwnLeavesOf(s, input, done) == before;
        continue;
      }
      var own := SignKeyLeaves(c, s, tx, prevouts, input, index, key);
      if own.Err? {
        LeafRefused(c, s, tx, prevouts, input, index, key);
        return Err(own.error);
      }
      HashableBoth(c, tx, prevouts, input, index, before, more);
      SchnorrForMore(c, s, tx, prevouts, input, index, input.tapScriptSigs, before, more);
      sigs := sigs + own.value;
    }
    assert done == input.tapOrigins.Keys;
    AllLeaves(s, input);
    return Ok(sigs);
  }

  /** One key of ours in all its leaves. */
  method SignKeyLeaves(c: Crypto, s: Signer, tx: Tx, prevouts: seq<TxOut>, input: PsbtIn, index: nat, key: PublicKey)
    returns (r: Result<map<(PublicKey, LeafHash), Signature>, SignerError>)
    requires key in input.tapOrigins
    ensures r.Ok? <==> Hashable(c, tx, prevouts, input, index, LeavesOf(key, input.tapOrigins[key].leaves))
    ensures r.Err? ==> r.error == InsanePsbt
    ensures r.Ok? ==> r.value == SchnorrFor(c, s, tx, prevouts, input, index,
                                            LeavesOf(key, input.tapOrigins[key].leaves))
  {
    var leaves, origin := input.tapOrigins[key].leaves, input.tapOrigins[key].origin;
    var sigs := map[];
    for i := 0 to |leaves|
      invariant Hashable(c, tx, prevouts, input, index, LeavesOf(key, leaves[..i]))
      invariant sigs == SchnorrFor(c, s, tx, prevouts, input, index, LeavesOf(key, leaves[..i]))
    {
      assert leaves[..i + 1] == leaves[..i] + [leaves[i]];
      var private := s.derive(origin.path);
      var hash := c.leafSpendHash(tx, index, prevouts, leaves[i]);
      if hash.None? {
        assert (key, leaves[i]) in LeavesOf(key, leaves);
        return Err(InsanePsbt);
      }
      assert LeavesOf(key, leaves[..i + 1]) == LeavesOf(key, leaves[..i]) + {(key, leaves[i])};
      sigs := sigs[(key, leaves[i]) := c.schnorr(hash.value, private)];
    }
    assert leaves[..|leaves|] == leaves;
    return Ok(sigs);
  }

  lemma SchnorrForAll(c: Crypto, s: Signer, tx: Tx, prevouts: seq<TxOut>, input: PsbtIn, index: nat)
    ensures TaprootSigs(c, s, tx, prevouts, input, index)
         == match KeyPathSig(c, s, tx, prevouts, input, index)
            case Err(e) => Err(e)
            case Ok(key) =>
              if !Hashable(c, tx, prevouts, input, index, OwnLeaves(s, input)) then Err(InsanePsbt)
              else Ok(Sigs(map[], SchnorrFor(c, s, tx, prevouts, input, index, OwnLeaves(s, input)), key))
  {
    hide KeyPathSig;
    assert forall p :: p in OwnLeaves(s, input) ==> p.0 in input.tapOrigins;
    if Hashable(c, tx, prevouts, input, index, OwnLeaves(s, input))
       && KeyPathSig(c, s, tx, prevouts, input, index).Ok? {
      var r := TaprootSigs(c, s, tx, prevouts, input, index);
      assert r.Ok?;
      assert r.value.script == SchnorrFor(c, s, tx, prevouts, input, index, OwnLeaves(s, input));
    }
  }

  method SignTaproot(c: Crypto, s: Signer, tx: Tx, prevouts: seq<TxOut>, input: PsbtIn, index: nat)
    returns (r: Result<PsbtIn, SignerError>)
    ensures r == match TaprootSigs(c, s, tx, prevouts, input, index)
                 case Err(e) => Err(e)
                 case Ok(sigs) => Ok(WithSigs(input, sigs))
  {
    hide SchnorrFor, OwnLeaves, Hashable, TaprootSigs;
    SchnorrForAll(c, s, tx, prevouts, input, index);
    var keySig := input.tapKeySig;
    if OwnsInternalKey(s, input) {
      var private := s.derive(input.tapOrigins[input.tapInternalKey.value].origin.path);
      if c.xOnlyKey(private) != input.tapInternalKey.value {
        return Err(InsanePsbt);
      }
      var hash := c.keySpendHash(tx, index, prevouts);
      if hash.None? {
        return Err(InsanePsbt);
      }
      keySig := Some(c.schnorr(hash.value, c.tweaked(private, input.tapMerkleRoot)));
    }
    var leaves := SignLeaves(c, s, tx, prevouts, input, index);
    if leaves.Err? {
      return Err(leaves.error);
    }
    var none: map<PublicKey, Signature> := map[];
    assert input.partialSigs + none == input.partialSigs;
    return Ok(input.(tapScriptSigs := leaves.value, tapKeySig := keySig));
  }

  /** `sign_psbt`: every input in turn, P2WSH or Taproot. */
  method SignPsbt(c: Crypto, s: Signer, psbt: Psbt) returns (r: Result<Psbt, SignerError>)
    ensures r == Signed(c, s, psbt)
  {
    var prevouts := Prevouts(psbt.inputs);
    if |prevouts| != |psbt.inputs| {
      return Err(IncompletePsbt);
    }
    var inputs := psbt.inputs;
    for i := 0 to |psbt.inputs|
      invariant |inputs| == |psbt.inputs|
      invariant SignedInputs(c, s, psbt.tx, prevouts, psbt.inputs, 0)
             == SignedInputs(c, s, psbt.tx, prevouts, inputs, i)
    {
      hide P2wshSigs, TaprootSigs, WithSigs;
      if inputs[i].witnessScript.Some? {
        var one := SignP2wsh(c, s, psbt.tx, inputs[i], i);
        if one.Err? {
          return Err(one.error);
        }
        inputs := inputs[i := one.value];
      } else {
        var one := SignTaproot(c, s, psbt.tx, prevouts, inputs[i], i);
        if one.Err? {
          return Err(one.error);
        }
        inputs := inputs[i := one.value];
      }
    }
    return Ok(Psbt(psbt.tx, inputs));
  }

  // ----- signing changes signatures only -----

  /** The signatures an input gets, none if it cannot be signed. */
  function SigsOf(c: Crypto, s: Signer, tx: Tx, prevouts: seq<TxOut>, input: PsbtIn, index: nat): Sigs {
    match InputSigs(c, s, tx, prevouts, input, index)
    case Ok(sigs) => sigs
    case Err(_) => Sigs(map[], map[], None)
  }

  /** Two inputs that differ in signatures at most. */
  predicate SameRequest(a: PsbtIn, b: PsbtIn) {
    b == a.(partialSigs := b.partialSigs, tapScriptSigs := b.tapScriptSigs, tapKeySig := b.tapKeySig)
  }

  /** What is signed does not depend on the signatures that are already there. */
  lemma SigsIgnoreSigs(c: Crypto, s: Signer, tx: Tx, prevouts: seq<TxOut>, a: PsbtIn, b: PsbtIn, index: nat)
    requires SameRequest(a, b)
    ensures InputSigs(c, s, tx, prevouts, a, index) == InputSigs(c, s, tx, prevouts, b, index)
  {
    assert OwnKeys(s, a) == OwnKeys(s, b);
    assert OwnLeaves(s, a) == OwnLeaves(s, b);
  }

  /** New signatures are only for keys of the signer. */
  lemma SigsAreOwn(c: Crypto, s: Signer, tx: Tx, prevouts: seq<TxOut>, input: PsbtIn, index: nat)
    ensures var sigs := SigsOf(c, s, tx, prevouts, input, index);
            sigs.partial.Keys <= OwnKeys(s, input) && sigs.script.Keys <= OwnLeaves(s, input)
            && (sigs.key.Some? ==> OwnsInternalKey(s, input))
  {
  }

  /** The signatures of two signers with different fingerprints go to different places. */
  lemma DifferentSignersDisjoint(a: Signer, b: Signer, input: PsbtIn)
    requires a.fingerprint != b.fingerprint
    ensures OwnKeys(a, input) !! OwnKeys(b, input) && OwnLeaves(a, input) !! OwnLeaves(b, input)
    ensures !(OwnsInternalKey(a, input) && OwnsInternalKey(b, input))
  {
  }

  lemma SigsCommute(input: PsbtIn, x: Sigs, y: Sigs)
    requires x.partial.Keys !! y.partial.Keys && x.script.Keys !! y.script.Keys && (x.key.None? || y.key.None?)
    ensures WithSigs(WithSigs(input, x), y) == WithSigs(WithSigs(input, y), x)
  {
    assert input.partialSigs + x.partial + y.partial == input.partialSigs + y.partial + x.partial;
    assert input.tapScriptSigs + x.script + y.script == input.tapScriptSigs + y.script + x.script;
  }

  lemma SigsTwice(input: PsbtIn, x: Sigs)
    ensures WithSigs(WithSigs(input, x), x) == WithSigs(input, x)
  {
    assert input.partialSigs + x.partial + x.partial == input.partialSigs + x.partial;
    assert input.tapScriptSigs + x.script + x.script == input.tapScriptSigs + x.script;
  }

  // ----- signatures are those the coin asks for -----

  /** Verification of signatures: by public key and signed hash. */
  datatype Verifier = Verifier(
    ecdsa: (PublicKey, nat, Signature) -> bool,
    schnorr: (PublicKey, nat, Signature) -> bool)

  /** What a private key signs verifies under its public key. */
  ghost predicate Accepts(v: Verifier, c: Crypto) {
    (forall hash: nat, key: PrivateKey :: v.ecdsa(c.publicKey(key), hash, c.ecdsa(hash, key)))
    && forall hash: nat, key: PrivateKey :: v.schnorr(c.xOnlyKey(key), hash, c.schnorr(hash, key))
  }

  /** A P2WSH input that is signed is signed by every key of ours, and each signature verifies under its key. */
  lemma P2wshSignaturesVerify(c: Crypto, v: Verifier, s: Signer, tx: Tx, input: PsbtIn, index: nat)
    requires Accepts(v, c) && P2wshSigs(c, s, tx, input, index).Ok?
    ensures var sigs := P2wshSigs(c, s, tx, input, index).value;
            var hash := c.p2wshHash(tx, index, input.witnessScript.value, input.witnessUtxo.value.value);
            hash.Some? && sigs.partial.Keys == OwnKeys(s, input) && sigs.script == map[] && sigs.key.None?
            && forall k :: k in sigs.partial ==> v.ecdsa(k, hash.value, sigs.partial[k])
  {
  }

  /**
   A Taproot input that is signed has a signature in every leaf of ours, and one for the key
   path exactly if the internal key is ours. The latter verifies under the tweaked key; one in
   a leaf verifies under the key it is filed for if that is what the key's path derives, which
   is checked for the internal key only.
   */
  lemma TaprootSignaturesVerify(c: Crypto, v: Verifier, s: Signer, tx: Tx, prevouts: seq<TxOut>, input: PsbtIn,
                                index: nat)
    requires Accepts(v, c) && TaprootSigs(c, s, tx, prevouts, input, index).Ok?
    ensures var sigs := TaprootSigs(c, s, tx, prevouts, input, index).value;
            sigs.partial == map[] && sigs.script.Keys == OwnLeaves(s, input)
            && (sigs.key.Some? <==> OwnsInternalKey(s, input))
            && (sigs.key.Some? ==>
                  var key := PrivateOf(s, input.tapOrigins[input.tapInternalKey.value].origin);
                  var hash := c.keySpendHash(tx, index, prevouts);
                  c.xOnlyKey(key) == input.tapInternalKey.value && hash.Some?
                  && v.schnorr(c.xOnlyKey(c.tweaked(key, input.tapMerkleRoot)), hash.value, sigs.key.value))
            && forall p :: p in sigs.script ==>
                 var hash := c.leafSpendHash(tx, index, prevouts, p.1);
                 hash.Some?
                 && (c.xOnlyKey(PrivateOf(s, input.tapOrigins[p.0].origin)) == p.0 ==>
                       v.schnorr(p.0, hash.value, sigs.script[p]))
  {
    SchnorrForAll(c, s, tx, prevouts, input, index);
    hide TaprootSigs;
  }

  // ----- whole PSBTs -----

  /** Every input shows the coin it spends. */
  predicate ShowsCoins(inputs: seq<PsbtIn>) {
    forall i :: 0 <= i < |inputs| ==> inputs[i].witnessUtxo.Some?
  }

  lemma {:induction false} PrevoutsLaw(inputs: seq<PsbtIn>)
    ensures |Prevouts(inputs)| <= |inputs|
    ensures |Prevouts(inputs)| == |inputs| <==> ShowsCoins(inputs)
  {
    if inputs != [] {
      PrevoutsLaw(inputs[1..]);
      assert forall i :: 0 < i < |inputs| ==> inputs[i] == inputs[1..][i - 1];
    }
  }

  lemma {:induction false} PrevoutsIgnoreSigs(a: seq<PsbtIn>, b: seq<PsbtIn>)
    requires |a| == |b| && forall i :: 0 <= i < |a| ==> SameRequest(a[i], b[i])
    ensures Prevouts(a) == Prevouts(b)
  {
    if a != [] {
      PrevoutsIgnoreSigs(a[1..], b[1..]);
    }
  }

  predicate Signable(c: Crypto, s: Signer, tx: Tx, prevouts: seq<TxOut>, inputs: seq<PsbtIn>, i: nat)
    requires i < |inputs|
  {
    InputSigs(c, s, tx, prevouts, inputs[i], i).Ok?
  }

  function SignedInput(c: Crypto, s: Signer, tx: Tx, prevouts: seq<TxOut>, inputs: seq<PsbtIn>, i: nat): PsbtIn
    requires i < |inputs|
  {
    WithSigs(inputs[i], SigsOf(c, s, tx, prevouts, inputs[i], i))
  }

  /** Past the check for coins, the only error is an insane PSBT. */
  lemma OnlyInsane(c: Crypto, s: Signer, tx: Tx, prevouts: seq<TxOut>, input: PsbtIn, index: nat)
    requires input.witnessUtxo.Some?
    ensures var r := InputSigs(c, s, tx, prevouts, input, index); r.Err? ==> r.error == InsanePsbt
  {
  }

  /** Signing succeeds when every input can be signed, each independently of the others. */
  lemma {:induction false} SignedInputsLaw(c: Crypto, s: Signer, tx: Tx, prevouts: seq<TxOut>, inputs: seq<PsbtIn>,
                                           index: nat)
    requires index <= |inputs| && ShowsCoins(inputs)
    ensures var r := SignedInputs(c, s, tx, prevouts, inputs, index);
            (r.Ok? <==> forall i :: index <= i < |inputs| ==> Signable(c, s, tx, prevouts, inputs, i))
            && (r.Err? ==> r.error == InsanePsbt)
            && (r.Ok? ==> |r.value| == |inputs|
                          && (forall i :: 0 <= i < index ==> r.value[i] == inputs[i])
                          && forall i :: index <= i < |inputs| ==>
                               r.value[i] == SignedInput(c, s, tx, prevouts, inputs, i))
    decreases |inputs| - index
  {
    hide InputSigs, WithSigs;
    if index < |inputs| {
      OnlyInsane(c, s, tx, prevouts, inputs[index], index);
      var sigs := InputSigs(c, s, tx, prevouts, inputs[index], index);
      if sigs.Ok? {
        var next := inputs[index := WithSigs(inputs[index], sigs.value)];
        WithSigsKeepsCoin(inputs[index], sigs.value);
        SignedInputsLaw(c, s, tx, prevouts, next, index + 1);
        forall i | index < i < |inputs|
          ensures Signable(c, s, tx, prevouts, next, i) <==> Signable(c, s, tx, prevouts, inputs, i)
        {
          assert next[i] == inputs[i];
        }
      } else {
        assert !Signable(c, s, tx, prevouts, inputs, index);
      }
    }
  }

  lemma WithSigsKeepsCoin(input: PsbtIn, sigs: Sigs)
    ensures WithSigs(input, sigs).witnessUtxo == input.witnessUtxo && SameRequest(input, WithSigs(input, sigs))
  {
  }

  /** The whole PSBT can be signed. */
  predicate AllSignable(c: Crypto, s: Signer, psbt: Psbt) {
    ShowsCoins(psbt.inputs)
    && forall i :: 0 <= i < |psbt.inputs| ==> Signable(c, s, psbt.tx, Prevouts(psbt.inputs), psbt.inputs, i)
  }

  lemma SignedLaw(c: Crypto, s: Signer, psbt: Psbt)
    ensures var r := Signed(c, s, psbt);
            (r.Ok? <==> AllSignable(c, s, psbt))
            && (r.Err? ==> r.error == if ShowsCoins(psbt.inputs) then InsanePsbt else IncompletePsbt)
            && (r.Ok? ==> r.value.tx == psbt.tx && |r.value.inputs| == |psbt.inputs|
                          && forall i :: 0 <= i < |psbt.inputs| ==>
                               r.value.inputs[i]
                               == SignedInput(c, s, psbt.tx, Prevouts(psbt.inputs), psbt.inputs, i))
  {
    hide Signable, SignedInput, SignedInputs;
    PrevoutsLaw(psbt.inputs);
    if ShowsCoins(psbt.inputs) {
      SignedInputsLaw(c, s, psbt.tx, Prevouts(psbt.inputs), psbt.inputs, 0);
    }
  }

  /** Nothing but signatures differs between two PSBTs. */
  predicate SameRequests(a: Psbt, b: Psbt) {
    b.tx == a.tx && |b.inputs| == |a.inputs|
    && forall i :: 0 <= i < |a.inputs| ==> SameRequest(a.inputs[i], b.inputs[i])
  }

  /** Two states of an input that agree on all but signatures that are the signer's to give. */
  ghost predicate OthersKept(s: Signer, x: PsbtIn, y: PsbtIn) {
    SameRequest(x, y)
    && (forall k :: k !in OwnKeys(s, x) ==>
          (k in y.partialSigs <==> k in x.partialSigs)
          && (k in x.partialSigs ==> y.partialSigs[k] == x.partialSigs[k]))
    && (forall p :: p !in OwnLeaves(s, x) ==>
          (p in y.tapScriptSigs <==> p in x.tapScriptSigs)
          && (p in x.tapScriptSigs ==> y.tapScriptSigs[p] == x.tapScriptSigs[p]))
    && (!OwnsInternalKey(s, x) ==> y.tapKeySig == x.tapKeySig)
  }

  lemma OwnSigsKeepOthers(s: Signer, input: PsbtIn, sigs: Sigs)
    requires sigs.partial.Keys <= OwnKeys(s, input) && sigs.script.Keys <= OwnLeaves(s, input)
    requires sigs.key.Some? ==> OwnsInternalKey(s, input)
    ensures OthersKept(s, input, WithSigs(input, sigs))
  {
    hide OwnKeys, OwnLeaves, OwnsInternalKey;
  }

  /** Signing only changes signatures, and only those of the signer's own keys and leaves. */
  lemma SigningChangesOwnSignatures(c: Crypto, s: Signer, psbt: Psbt)
    requires Signed(c, s, psbt).Ok?
    ensures var after := Signed(c, s, psbt).value;
            after.tx == psbt.tx && |after.inputs| == |psbt.inputs|
            && forall i :: 0 <= i < |psbt.inputs| ==> OthersKept(s, psbt.inputs[i], after.inputs[i])
  {
    SignedLaw(c, s, psbt);
    hide Signed, SigsOf, OthersKept;
    forall i | 0 <= i < |psbt.inputs|
      ensures OthersKept(s, psbt.inputs[i], Signed(c, s, psbt).value.inputs[i])
    {
      var sigs := SigsOf(c, s, psbt.tx, Prevouts(psbt.inputs), psbt.inputs[i], i);
      SigsAreOwn(c, s, psbt.tx, Prevouts(psbt.inputs), psbt.inputs[i], i);
      OwnSigsKeepOthers(s, psbt.inputs[i], sigs);
    }
  }

  lemma SignedIsSameRequest(c: Crypto, s: Signer, psbt: Psbt)
    requires Signed(c, s, psbt).Ok?
    ensures SameRequests(psbt, Signed(c, s, psbt).value)
  {
    SigningChangesOwnSignatures(c, s, psbt);
    hide Signed;
  }

  /** One signer after another. */
  function SignedBy(c: Crypto, a: Signer, b: Signer, psbt: Psbt): Result<Psbt, SignerError> {
    match Signed(c, a, psbt)
    case Err(e) => Err(e)
    case Ok(once) => Signed(c, b, once)
  }

  /** What a PSBT's inputs get, and whether it can be signed, does not depend on signatures already there. */
  lemma SignableIgnoresSigs(c: Crypto, s: Signer, a: Psbt, b: Psbt)
    requires SameRequests(a, b)
    ensures AllSignable(c, s, a) <==> AllSignable(c, s, b)
    ensures ShowsCoins(a.inputs) <==> ShowsCoins(b.inputs)
    ensures forall i :: 0 <= i < |a.inputs| ==>
              SigsOf(c, s, a.tx, Prevouts(a.inputs), a.inputs[i], i)
              == SigsOf(c, s, b.tx, Prevouts(b.inputs), b.inputs[i], i)
  {
    PrevoutsIgnoreSigs(a.inputs, b.inputs);
    hide InputSigs;
    var prevouts := Prevouts(a.inputs);
    forall i | 0 <= i < |a.inputs|
      ensures Signable(c, s, a.tx, prevouts, a.inputs, i) <==> Signable(c, s, b.tx, prevouts, b.inputs, i)
      ensures SigsOf(c, s, a.tx, prevouts, a.inputs[i], i) == SigsOf(c, s, b.tx, prevouts, b.inputs[i], i)
      ensures a.inputs[i].witnessUtxo == b.inputs[i].witnessUtxo
    {
      SigsIgnoreSigs(c, s, a.tx, prevouts, a.inputs[i], b.inputs[i], i);
    }
  }

  /** An input after both signers. */
  function SignedInputByBoth(c: Crypto, a: Signer, b: Signer, psbt: Psbt, i: nat): PsbtIn
    requires i < |psbt.inputs|
  {
    var input, prevouts := psbt.inputs[i], Prevouts(psbt.inputs);
    WithSigs(WithSigs(input, SigsOf(c, a, psbt.tx, prevouts, input, i)), SigsOf(c, b, psbt.tx, prevouts, input, i))
  }

  /** The outcome of two signers: both must be able to sign, and each adds its signatures. */
  lemma SignedByLaw(c: Crypto, a: Signer, b: Signer, psbt: Psbt)
    ensures var r := SignedBy(c, a, b, psbt);
            (r.Ok? <==> AllSignable(c, a, psbt) && AllSignable(c, b, psbt))
            && (r.Err? ==> r.error == if ShowsCoins(psbt.inputs) then InsanePsbt else IncompletePsbt)
            && (r.Ok? ==> r.value.tx == psbt.tx && |r.value.inputs| == |psbt.inputs|
                          && forall i :: 0 <= i < |psbt.inputs| ==>
                               r.value.inputs[i] == SignedInputByBoth(c, a, b, psbt, i))
  {
    SignedLaw(c, a, psbt);
    var once := Signed(c, a, psbt);
    if once.Ok? {
      SignedIsSameRequest(c, a, psbt);
      SignedLaw(c, b, once.value);
      SignableIgnoresSigs(c, b, psbt, once.value);
      hide Signed, SigsOf, WithSigs, SameRequests, AllSignable, ShowsCoins;
    }
  }

  /**
   Two signers with different fingerprints may sign in either order: same signed PSBT, or
   same error, whatever mix of P2WSH and Taproot inputs there is.
   */
  lemma SigningOrderDoesNotMatter(c: Crypto, a: Signer, b: Signer, psbt: Psbt)
    requires a.fingerprint != b.fingerprint
    ensures SignedBy(c, a, b, psbt) == SignedBy(c, b, a, psbt)
  {
    SignedByLaw(c, a, b, psbt);
    SignedByLaw(c, b, a, psbt);
    var x, y, prevouts := SignedBy(c, a, b, psbt), SignedBy(c, b, a, psbt), Prevouts(psbt.inputs);
    hide SignedBy, SigsOf, WithSigs, OwnKeys, OwnLeaves, OwnsInternalKey;
    if x.Ok? {
      forall i | 0 <= i < |psbt.inputs| ensures x.value.inputs[i] == y.value.inputs[i] {
        var input := psbt.inputs[i];
        SigsAreOwn(c, a, psbt.tx, prevouts, input, i);
        SigsAreOwn(c, b, psbt.tx, prevouts, input, i);
        DifferentSignersDisjoint(a, b, input);
        SigsCommute(input, SigsOf(c, a, psbt.tx, prevouts, input, i), SigsOf(c, b, psbt.tx, prevouts, input, i));
      }
      assert x.value.inputs == y.value.inputs;
    }
  }

  /** Signing again changes nothing. */
  lemma SigningTwice(c: Crypto, s: Signer, psbt: Psbt)
    ensures SignedBy(c, s, s, psbt) == Signed(c, s, psbt)
  {
    SignedByLaw(c, s, s, psbt);
    SignedLaw(c, s, psbt);
    var x, y, prevouts := SignedBy(c, s, s, psbt), Signed(c, s, psbt), Prevouts(psbt.inputs);
    hide SignedBy, Signed, SigsOf, WithSigs;
    if x.Ok? {
      forall i | 0 <= i < |psbt.inputs| ensures x.value.inputs[i] == y.value.inputs[i] {
        SigsTwice(psbt.inputs[i], SigsOf(c, s, psbt.tx, prevouts, psbt.inputs[i], i));
      }
      assert x.value.inputs == y.value.inputs;
    }
  }
}
