/**
 Paying for unconfirmed ancestors (liana/src/spend.rs, lines 241-244 and 374-393). A coin only
 comes with the total size and fees of its ancestors; here those totals are of sets of
 transactions in a mempool, and the package is the spend with the union of the sets.
 */
module Ancestors {
  import opened Wrappers
  import opened CoinSelection
  import opened CoinSelector
  import opened CoinSelectionLaws
  import opened Sums

  type TxId = nat

  datatype Unconfirmed = Unconfirmed(vsize: nat, fee: nat)

  type Mempool = map<TxId, Unconfirmed>

  // ----- totals over sets of transactions -----

  /** Sums of quantities that are a combination of two others. */
  lemma {:induction false} SumCombines(f: TxId -> int, g: TxId -> int, h: TxId -> int, rate: nat, txs: set<TxId>)
    requires forall tx :: tx in txs ==> h(tx) == f(tx) * rate - g(tx)
    ensures Sum(h, txs) == Sum(f, txs) * rate - Sum(g, txs)
    decreases |txs|
  {
    if txs != {} {
      var tx :| tx in txs;
      var rest := txs - {tx};
      SumTakes(f, txs, tx);
      SumTakes(g, txs, tx);
      SumTakes(h, txs, tx);
      SumCombines(f, g, h, rate, rest);
      Distributes(f(tx), Sum(f, rest), rate);
    }
  }

  function SizeIn(pool: Mempool): TxId -> int {
    (tx: TxId) => if tx in pool then pool[tx].vsize else 0
  }

  function FeeIn(pool: Mempool): TxId -> int {
    (tx: TxId) => if tx in pool then pool[tx].fee else 0
  }

  /** What a transaction lacks to reach a rate; negative if it pays more. */
  function LackIn(pool: Mempool, rate: nat): TxId -> int {
    (tx: TxId) => SizeIn(pool)(tx) * rate - FeeIn(pool)(tx)
  }

  lemma LackOfSet(pool: Mempool, rate: nat, txs: set<TxId>)
    ensures Sum(LackIn(pool, rate), txs) == Sum(SizeIn(pool), txs) * rate - Sum(FeeIn(pool), txs)
  {
    SumCombines(SizeIn(pool), FeeIn(pool), LackIn(pool, rate), rate, txs);
  }

  // ----- the ancestors of selected coins -----

  /** What a coin says of its ancestors is the totals of a set of them. */
  ghost predicate Describes(pool: Mempool, txs: set<TxId>, coin: CandidateCoin) {
    match coin.ancestors
    case None => txs == {}
    case Some(info) => info.vsize == Sum(SizeIn(pool), txs) && info.fee == Sum(FeeIn(pool), txs)
  }

  ghost predicate DescribesAll(pool: Mempool, ancestors: seq<set<TxId>>, coins: seq<CandidateCoin>) {
    |ancestors| == |coins| && forall i :: 0 <= i < |coins| ==> Describes(pool, ancestors[i], coins[i])
  }

  function Union(sets: seq<set<TxId>>): set<TxId> {
    if sets == [] then {} else sets[0] + Union(sets[1..])
  }

  /** A transaction that is an ancestor of two of the coins does not pay more than the rate. */
  ghost predicate SharedPayNoMore(pool: Mempool, ancestors: seq<set<TxId>>, rate: nat) {
    forall i, j, tx :: 0 <= i < j < |ancestors| && tx in ancestors[i] && tx in ancestors[j] ==>
      LackIn(pool, rate)(tx) >= 0
  }

  ghost predicate Disjoint(ancestors: seq<set<TxId>>) {
    forall i, j :: 0 <= i < j < |ancestors| ==> ancestors[i] !! ancestors[j]
  }

  lemma {:induction false} InUnion(sets: seq<set<TxId>>, tx: TxId) returns (i: nat)
    requires tx in Union(sets)
    ensures i < |sets| && tx in sets[i]
  {
    if tx in sets[0] {
      i := 0;
    } else {
      var k := InUnion(sets[1..], tx);
      i := k + 1;
    }
  }

  lemma ShortfallIsLack(pool: Mempool, txs: set<TxId>, coin: CandidateCoin, rate: nat)
    requires Describes(pool, txs, coin)
    ensures Shortfall(coin, rate) >= Sum(LackIn(pool, rate), txs)
  {
    LackOfSet(pool, rate, txs);
    hide LackIn;
  }

  /** What the union of the ancestors lacks is covered by what the coins' ancestors lack one by one. */
  lemma {:induction false} ShortfallsCoverUnion(pool: Mempool, ancestors: seq<set<TxId>>, coins: seq<CandidateCoin>,
                                                rate: nat)
    requires DescribesAll(pool, ancestors, coins) && SharedPayNoMore(pool, ancestors, rate)
    ensures Shortfalls(coins, rate) >= Sum(LackIn(pool, rate), Union(ancestors))
  {
    if coins != [] {
      var f, first, rest := LackIn(pool, rate), ancestors[0], ancestors[1..];
      assert forall i :: 0 <= i < |rest| ==> Describes(pool, rest[i], coins[1..][i]);
      assert SharedPayNoMore(pool, rest, rate) by {
        forall i, j, tx | 0 <= i < j < |rest| && tx in rest[i] && tx in rest[j] ensures f(tx) >= 0 {
          assert tx in ancestors[i + 1] && tx in ancestors[j + 1];
        }
      }
      forall tx | tx in first * Union(rest) ensures f(tx) >= 0 {
        var k := InUnion(rest, tx);
        assert tx in ancestors[0] && tx in ancestors[k + 1];
      }
      ShortfallsCoverUnion(pool, rest, coins[1..], rate);
      ShortfallIsLack(pool, first, coins[0], rate);
      SumOfUnion(f, first, Union(rest));
      SumNonNegative(f, first * Union(rest));
      hide LackIn, Shortfall, Describes, SharedPayNoMore;
    }
  }

  // ----- when the package reaches the rate -----

  /** A transaction and a set of others pay at least a rate together. */
  ghost predicate ReachesRate(pool: Mempool, package: set<TxId>, weight: nat, fee: int, rate: nat) {
    WITNESS_SCALE_FACTOR * (fee + Sum(FeeIn(pool), package))
    >= (weight + WITNESS_SCALE_FACTOR * Sum(SizeIn(pool), package)) * rate
  }

  /** They do exactly when what the fee leaves above the transaction's own due is what the others lack. */
  lemma PackageReachesRate(pool: Mempool, package: set<TxId>, weight: nat, fee: int, rate: nat)
    ensures ReachesRate(pool, package, weight, fee, rate)
       <==> fee - ImpliedFee(weight, rate) >= Sum(LackIn(pool, rate), package)
  {
    LackOfSet(pool, rate, package);
    var size, fees := Sum(SizeIn(pool), package), Sum(FeeIn(pool), package);
    hide LackIn, SizeIn, FeeIn, ImpliedFee;
    Distributes(weight, WITNESS_SCALE_FACTOR * size, rate);
    assert WITNESS_SCALE_FACTOR * size * rate == WITNESS_SCALE_FACTOR * (size * rate);
    WholeSatoshis(weight, rate, fee + fees - size * rate);
  }

  /** Rounding a fee up decides nothing among whole satoshis. */
  lemma WholeSatoshis(weight: nat, rate: nat, paid: int)
    ensures WITNESS_SCALE_FACTOR * paid >= weight * rate <==> paid >= ImpliedFee(weight, rate)
  {
  }

  /** What the fee of a selection leaves above the rate on the transaction and on the added weight. */
  function Surplus(r: Request, s: Selection): int
    requires r.target.rate > 0
  {
    FeeOf(r, s) - ImpliedFee(SpendWeight(r, s) + ExtraWeights(s.selected, r.target.rate), r.target.rate)
  }

  /** Only without a change output, or for a replacement, is there a surplus. */
  lemma SurplusLaw(r: Request, mask: seq<bool>, s: Selection)
    requires r.target.rate > 0 && DistinctOutpoints(r.coins) && IsSelection(r, mask, s)
    ensures Surplus(r, s) >= 0
    ensures s.changeAmount > 0 && r.target.replacedFee.None? ==> Surplus(r, s) == 0
  {
    SelectionLaw(r, mask, s);
    hide IsSelection, ImpliedFee, ExtraWeights, SpendWeight, FeeOf, DistinctOutpoints;
  }

  /**
   The package of a selection reaches the rate exactly when what is added for the coins one by
   one, and the surplus, pay what the union of their ancestors lacks. With a change output and
   nothing to replace there is no surplus.
   */
  lemma SelectionReachesRate(r: Request, mask: seq<bool>, s: Selection, pool: Mempool, ancestors: seq<set<TxId>>)
    requires r.target.rate > 0 && DistinctOutpoints(r.coins) && IsSelection(r, mask, s)
    ensures var rate := r.target.rate;
            var added, lack := UnpaidSizes(s.selected, rate) * rate, Sum(LackIn(pool, rate), Union(ancestors));
            var reached := ReachesRate(pool, Union(ancestors), SpendWeight(r, s), FeeOf(r, s), rate);
            (reached <==> added + Surplus(r, s) >= lack)
            && (s.changeAmount > 0 && r.target.replacedFee.None? ==> (reached <==> added >= lack))
  {
    PackageReachesRate(pool, Union(ancestors), SpendWeight(r, s), FeeOf(r, s), r.target.rate);
    SurplusLaw(r, mask, s);
    ExtraWeightsAreUnits(s.selected, r.target.rate);
    ImpliedFeeSplits(SpendWeight(r, s), UnpaidSizes(s.selected, r.target.rate), r.target.rate);
    hide ReachesRate, IsSelection, ImpliedFee, SpendWeight, ExtraWeights, UnpaidSizes, FeeOf, Union, Sum, LackIn;
  }

  /** So it does, whatever the selection, if no ancestor that two of its coins share pays more than the rate. */
  lemma SharedPayNoMoreIsEnough(r: Request, mask: seq<bool>, s: Selection, pool: Mempool, ancestors: seq<set<TxId>>)
    requires r.target.rate > 0 && DistinctOutpoints(r.coins) && IsSelection(r, mask, s)
    requires DescribesAll(pool, ancestors, s.selected) && SharedPayNoMore(pool, ancestors, r.target.rate)
    ensures ReachesRate(pool, Union(ancestors), SpendWeight(r, s), FeeOf(r, s), r.target.rate)
  {
    SelectionReachesRate(r, mask, s, pool, ancestors);
    SurplusLaw(r, mask, s);
    ShortfallsCoverUnion(pool, ancestors, s.selected, r.target.rate);
    UnpaidSizesBounds(s.selected, r.target.rate);
    hide ReachesRate, IsSelection, Surplus, SpendWeight, UnpaidSizes, FeeOf;
    hide Union, Sum, LackIn, DescribesAll, SharedPayNoMore;
  }

  /** In particular if no two coins share an ancestor. */
  lemma DisjointIsEnough(pool: Mempool, ancestors: seq<set<TxId>>, rate: nat)
    requires Disjoint(ancestors)
    ensures SharedPayNoMore(pool, ancestors, rate)
  {
  }

  // ----- a shared ancestor that pays more -----

  lemma SumOfTwo(f: TxId -> int, a: TxId, b: TxId)
    requires a != b
    ensures Sum(f, {a, b}) == f(a) + f(b)
  {
    SumTakes(f, {a, b}, a);
    SumTakes(f, {a, b} - {a}, b);
    assert {a, b} - {a} - {b} == {};
  }

  lemma SumOfThree(f: TxId -> int, a: TxId, b: TxId, c: TxId)
    requires a != b && a != c && b != c
    ensures Sum(f, {a, b, c}) == f(a) + f(b) + f(c)
  {
    SumTakes(f, {a, b, c}, a);
    assert {a, b, c} - {a} == {b, c};
    SumOfTwo(f, b, c);
  }

  function SharedPool(): Mempool {
    map[0 := Unconfirmed(100, 2000), 1 := Unconfirmed(100, 0), 2 := Unconfirmed(100, 0)]
  }

  function SharingCoin(index: nat): CandidateCoin {
    CandidateCoin(OutPoint(index, 0), 100_000, 0, false, false, None, Some(AncestorInfo(200, 2000)))
  }

  lemma SharingCoinsAreDescribed()
    ensures Describes(SharedPool(), {0, 1}, SharingCoin(1)) && Describes(SharedPool(), {0, 2}, SharingCoin(2))
  {
    var pool := SharedPool();
    SumOfTwo(SizeIn(pool), 0, 1);
    SumOfTwo(FeeIn(pool), 0, 1);
    SumOfTwo(SizeIn(pool), 0, 2);
    SumOfTwo(FeeIn(pool), 0, 2);
    hide Sum;
  }

  lemma UnionOfTwo(a: set<TxId>, b: set<TxId>)
    ensures Union([a, b]) == a + b
  {
    var second := [a, b][1..];
    assert second[0] == b && Union(second[1..]) == {};
  }

  lemma UnpaidOfTwo(a: CandidateCoin, b: CandidateCoin, rate: nat)
    requires rate > 0
    ensures UnpaidSizes([a, b], rate) == UnpaidSize(a, rate) + UnpaidSize(b, rate)
  {
    hide UnpaidSize;
    var second := [a, b][1..];
    assert second[0] == b && UnpaidSizes(second[1..], rate) == 0;
  }

  /**
   Two coins over one ancestor that pays double the rate and one each that pays nothing: by the
   totals of each coin nothing is lacking, while the three transactions together lack 1000 sat.
   */
  lemma SharedAncestorCountsTwice()
    ensures var coins, ancestors := [SharingCoin(1), SharingCoin(2)], [{0, 1}, {0, 2}];
            DescribesAll(SharedPool(), ancestors, coins) && !SharedPayNoMore(SharedPool(), ancestors, 10)
            && UnpaidSizes(coins, 10) == 0 && Union(ancestors) == {0, 1, 2}
            && Sum(LackIn(SharedPool(), 10), Union(ancestors)) == 1000
  {
    SharingCoinsAreDescribed();
    SharedPaysMore();
    UnionOfTwo({0, 1}, {0, 2});
    UnpaidOfTwo(SharingCoin(1), SharingCoin(2), 10);
    SharedLack();
    hide Sum, Union, UnpaidSizes, Describes, SharedPayNoMore, LackIn, SharedPool;
  }

  /** Every selection of those two coins at that rate, with change and nothing to replace, misses it. */
  lemma SharedAncestorMissesRate(r: Request, mask: seq<bool>, s: Selection)
    requires r.target.rate == 10 && r.target.replacedFee.None? && DistinctOutpoints(r.coins)
    requires IsSelection(r, mask, s) && s.changeAmount > 0 && s.selected == [SharingCoin(1), SharingCoin(2)]
    ensures !ReachesRate(SharedPool(), Union([{0, 1}, {0, 2}]), SpendWeight(r, s), FeeOf(r, s), 10)
  {
    SharedAncestorCountsTwice();
    SelectionReachesRate(r, mask, s, SharedPool(), [{0, 1}, {0, 2}]);
    hide ReachesRate, IsSelection, Surplus, SpendWeight, UnpaidSizes, FeeOf, Union, Sum, LackIn;
    hide SharedPool, SharingCoin, SharedPayNoMore, DescribesAll;
  }

  /** Both coins are to be sent to ourselves at 10 sat/vb. */
  function SharingRequest(): Request {
    var target := Target(10, None, 0, 0, 0, (inputs: nat, outputs: nat) => 42);
    Request([SharingCoin(1), SharingCoin(2)], target, 172, 400, true)
  }

  /** Such selections are made: one with a change output of 197465 sat. */
  lemma SharingSelection() returns (s: Selection)
    ensures IsSelection(SharingRequest(), [true, true], s) && DistinctOutpoints(SharingRequest().coins)
    ensures s.changeAmount == 197_465 && s.selected == [SharingCoin(1), SharingCoin(2)]
    ensures !ReachesRate(SharedPool(), Union([{0, 1}, {0, 2}]), SpendWeight(SharingRequest(), s),
                         FeeOf(SharingRequest(), s), 10)
  {
    var r, mask := SharingRequest(), [true, true];
    s := SharingIsSelected();
    assert DistinctOutpoints(r.coins) && r.target.replacedFee.None?;
    hide ReachesRate, IsSelection, SpendWeight, FeeOf;
    SharedAncestorMissesRate(r, mask, s);
  }

  lemma SharingIsSelected() returns (s: Selection)
    ensures IsSelection(SharingRequest(), [true, true], s)
    ensures s.changeAmount == 197_465 && s.selected == [SharingCoin(1), SharingCoin(2)]
  {
    hide Acceptable, Chosen, Excess, FeeForAncestors, ChosenOf, DrainOf, Policy, Max0, SharingCoin, EmptyChange;
    var r, mask := SharingRequest(), [true, true];
    SharingCandidates();
    SharingExcess();
    SharingIsAccepted();
    BothChosen(SharingCoin(1), SharingCoin(2));
    var chosen := ChosenOf(r, mask);
    assert r.coins == [SharingCoin(1), SharingCoin(2)] && r.target.rate == 10;
    s := Selection(Chosen(r.coins, mask), 197_465, Max0(Excess(chosen, r.target, EmptyChange(r))),
                   FeeForAncestors(Chosen(r.coins, mask), 10));
  }

  lemma SharingIsAccepted()
    ensures Acceptable(SharingRequest(), [true, true])
  {
    SharingCandidates();
    SharingExcess();
    hide Excess, ChosenOf, DrainOf, Policy;
  }

  lemma BothChosen<T>(a: T, b: T)
    ensures Chosen([a, b], [true, true]) == [a, b]
  {
    assert [a, b][1..] == [b] && [true, true][1..] == [true];
    assert Chosen([b], [true]) == [b];
  }

  lemma SharingCandidates()
    ensures ChosenOf(SharingRequest(), [true, true]) == [Candidate(100_000, 400), Candidate(100_000, 400)]
  {
    var coins := [SharingCoin(1), SharingCoin(2)];
    assert coins[1..] == [SharingCoin(2)] && coins[1..][1..] == [];
    assert Candidates(coins[1..], 400, 10) == [Candidate(100_000, 400)];
    BothChosen(Candidate(100_000, 400), Candidate(100_000, 400));
    hide Chosen;
  }

  lemma SharingExcess()
    ensures var r, chosen := SharingRequest(), [Candidate(100_000, 400), Candidate(100_000, 400)];
            DrainOf(chosen, r.target, Policy(r)) == Drain(172, 1, 197_465)
            && Excess(chosen, r.target, Drain(172, 1, 197_465)) == 0
  {
    var chosen := [Candidate(100_000, 400), Candidate(100_000, 400)];
    assert chosen[1..] == [Candidate(100_000, 400)] && chosen[1..][1..] == [];
    assert Value(chosen) == 200_000 && Weight(chosen) == 800;
    hide Value, Weight;
  }

  lemma SharedLacks()
    ensures LackIn(SharedPool(), 10)(0) == -1000 && LackIn(SharedPool(), 10)(1) == LackIn(SharedPool(), 10)(2) == 1000
  {
    var pool := SharedPool();
    assert SizeIn(pool)(0) == SizeIn(pool)(1) == SizeIn(pool)(2) == 100;
    assert FeeIn(pool)(0) == 2000 && FeeIn(pool)(1) == FeeIn(pool)(2) == 0;
  }

  lemma SharedPaysMore()
    ensures !SharedPayNoMore(SharedPool(), [{0, 1}, {0, 2}], 10)
  {
    var ancestors := [{0, 1}, {0, 2}];
    SharedLacks();
    assert 0 in ancestors[0] && 0 in ancestors[1] && LackIn(SharedPool(), 10)(0) < 0;
  }

  lemma SharedLack()
    ensures Sum(LackIn(SharedPool(), 10), {0, 1, 2}) == 1000
  {
    SumOfThree(LackIn(SharedPool(), 10), 0, 1, 2);
    SharedLacks();
    hide Sum, LackIn, SharedPool;
  }
}
