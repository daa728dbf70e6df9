/**
 How often a request is written when the server never answers. Retries are counted per id,
 and a retry is written under a new id: before the first timeout is reported a single
 request may be on its way fifteen times, and with timeouts it is written without end.
 */
module WsRetries {
  import opened Wrappers
  import opened WsModel
  import opened WsRuns

  /** Nobody asks for anything more, and the server says nothing. */
  predicate IsSilent(a: Action) {
    a.Ticking? || a.CheckingTimeouts? || a.Retrying? || (a.Send? && a.ok)
  }

  /** A run of such events in which the clock stands still while the checker handles what it copied. */
  ghost predicate IsSilentRun(s: State, actions: seq<Action>)
    requires IsRun(s, actions)
    decreases |actions|
  {
    actions == []
    || (IsSilent(actions[0]) && (actions[0].Ticking? ==> s.stale == [])
        && IsSilentRun(Apply(s, actions[0]), actions[1..]))
  }

  /** One request waits to be written for the first time. */
  ghost predicate OneQueued(s: State, request: Request) {
    TableInv(s) && s.running && s.queue == [request] && s.pending == map[] && s.stale == [] && MayAsk(request)
  }

  // ----- how many copies a copy leads to -----

  /**
   What one copy of a request amounts to when `checks` more checks of it can find it too old,
   with `done` retries behind it: itself, and what each retry to come leads to. The retry that
   follows a check leaves its new copy as many checks as the old one has left.
   */
  function Descendants(checks: nat, done: nat): (n: nat)
    ensures n >= 1
    decreases checks, MAX_RETRIES - done
  {
    if done >= MAX_RETRIES || done >= checks then 1
    else Descendants(checks - (done + 1), 0) + Descendants(checks, done + 1)
  }

  lemma DescendantsStep(checks: nat, done: nat)
    ensures Descendants(checks, done)
         == if done >= MAX_RETRIES || done >= checks then 1
            else Descendants(checks - (done + 1), 0) + Descendants(checks, done + 1)
  {
  }

  /** Twice as many with every check, as long as none is the last. */
  lemma DescendantsOf(checks: nat)
    requires checks <= MAX_RETRIES + 1
    ensures Descendants(checks, 0) == [1, 2, 4, 8, 15][checks]
  {
    hide Descendants;
    if checks > 0 {
      DescendantsOf(checks - 1);
    }
    if checks > 1 {
      DescendantsOf(checks - 2);
    }
    if checks > 2 {
      DescendantsOf(checks - 3);
    }
    DescendantsStep(checks, 0);
    DescendantsStep(checks, 1);
    DescendantsStep(checks, 2);
    DescendantsStep(checks, 3);
  }

  // ----- following the copies of one request -----

  /** A copy that was written, and how many checks of the first copy had come before it. */
  datatype Copy = Copy(id: RequestId, born: nat)

  /** The copies written so far, the first one first, and for each queued one the checks before it. */
  datatype Ledger = Ledger(copies: seq<Copy>, queued: seq<nat>)

  function Ids(copies: seq<Copy>): set<RequestId> {
    set i | 0 <= i < |copies| :: copies[i].id
  }

  ghost predicate DistinctIds(copies: seq<Copy>) {
    forall i, j :: 0 <= i < j < |copies| ==> copies[i].id != copies[j].id
  }

  /** How often an id was found too old, the check the checker is working on included. */
  ghost function Checks(s: State, id: RequestId): nat
    requires id in s.pending
  {
    s.pending[id].retries + if HasCopy(s.stale, id) then 1 else 0
  }

  /** Since when an id waits, once the checker is done with its copies. */
  ghost function WaitsSince(s: State, id: RequestId): nat
    requires id in s.pending
  {
    if HasCopy(s.stale, id) then s.clock else s.pending[id].since
  }

  ghost function FirstChecks(s: State, l: Ledger): nat
    requires s.pending.Keys == Ids(l.copies)
  {
    if l.copies == [] then 0
    else
      assert l.copies[0].id in Ids(l.copies);
      Checks(s, l.copies[0].id)
  }

  /** The ledger lists what is pending and queued, all of it one request. */
  ghost predicate Lists(s: State, l: Ledger, request: Request, start: set<RequestId>) {
    s.pending.Keys == Ids(l.copies) && DistinctIds(l.copies) && |l.queued| == |s.queue|
    && s.issued == start + Ids(l.copies)
    && (forall i :: 0 <= i < |s.queue| ==> s.queue[i] == request)
    && (forall id :: id in s.pending ==> s.pending[id].request == request && s.pending[id].since <= s.clock)
    && (forall i :: 0 <= i < |s.stale| ==> s.stale[i].id in s.pending)
  }

  /** A copy is never found too old more often than the first one since it was written, nor sooner when as often. */
  ghost predicate Behind(s: State, first: RequestId, c: Copy)
    requires first in s.pending && c.id in s.pending
  {
    c.born + Checks(s, c.id) <= Checks(s, first)
    && (c.born + Checks(s, c.id) == Checks(s, first) ==> WaitsSince(s, first) <= WaitsSince(s, c.id))
  }

  ghost predicate CopiesBehind(s: State, copies: seq<Copy>)
    requires s.pending.Keys == Ids(copies)
  {
    forall i :: 0 <= i < |copies| ==>
      copies[i].id in Ids(copies) && copies[0].id in Ids(copies) && Behind(s, copies[0].id, copies[i])
  }

  ghost predicate AllBehind(s: State, l: Ledger)
    requires s.pending.Keys == Ids(l.copies)
  {
    CopiesBehind(s, l.copies)
    && (forall j :: 0 <= j < |l.queued| ==> l.queued[j] <= FirstChecks(s, l))
    && (l.copies == [] ==> l.queued == [0] && s.stale == [])
    && (l.copies != [] ==> l.copies[0].born == 0)
  }

  function Left(checks: nat, born: nat): nat {
    if born <= checks then checks - born else 0
  }

  function WrittenWeight(pending: map<RequestId, Pending>, copies: seq<Copy>, checks: nat): nat
    requires Ids(copies) <= pending.Keys
  {
    if copies == [] then 0
    else
      assert copies[0].id in Ids(copies);
      assert Ids(copies[1..]) <= Ids(copies);
      Descendants(Left(checks, copies[0].born), pending[copies[0].id].retries)
      + WrittenWeight(pending, copies[1..], checks)
  }

  function QueuedWeight(queued: seq<nat>, checks: nat): nat {
    if queued == [] then 0 else Descendants(Left(checks, queued[0]), 0) + QueuedWeight(queued[1..], checks)
  }

  /** What everything written and queued amounts to. */
  function Weight(s: State, l: Ledger, checks: nat): nat
    requires Ids(l.copies) <= s.pending.Keys
  {
    WrittenWeight(s.pending, l.copies, checks) + QueuedWeight(l.queued, checks)
  }

  /** While the first copy has been checked at most `checks` times, the weight is that of one unwritten request. */
  ghost predicate Balanced(s: State, l: Ledger, checks: nat)
    requires s.pending.Keys == Ids(l.copies)
  {
    FirstChecks(s, l) <= checks ==> Weight(s, l, checks) == Descendants(checks, 0)
  }

  ghost predicate Follows(s: State, l: Ledger, request: Request, start: set<RequestId>) {
    TableInv(s) && MayAsk(request) && s.running
    && Lists(s, l, request, start) && AllBehind(s, l) && Balanced(s, l, 3) && Balanced(s, l, 4)
  }

  // ----- weights -----

  lemma {:induction false} WeightCounts(pending: map<RequestId, Pending>, copies: seq<Copy>, checks: nat)
    requires Ids(copies) <= pending.Keys
    ensures |Ids(copies)| <= |copies| <= WrittenWeight(pending, copies, checks)
  {
    if copies == [] {
      assert Ids(copies) == {};
    } else {
      assert Ids(copies) == {copies[0].id} + Ids(copies[1..]) by { IdsSplit(copies); }
      WeightCounts(pending, copies[1..], checks);
    }
  }

  lemma IdsSplit(copies: seq<Copy>)
    requires copies != []
    ensures Ids(copies) == {copies[0].id} + Ids(copies[1..])
  {
    forall id | id in Ids(copies) ensures id in {copies[0].id} + Ids(copies[1..]) {
      var i :| 0 <= i < |copies| && copies[i].id == id;
      if i > 0 {
        assert copies[1..][i - 1].id == id;
      }
    }
    forall id | id in Ids(copies[1..]) ensures id in Ids(copies) {
      var i :| 0 <= i < |copies[1..]| && copies[1..][i].id == id;
      assert copies[i + 1].id == id;
    }
  }

  lemma IdsAppended(copies: seq<Copy>, c: Copy)
    ensures Ids(copies + [c]) == Ids(copies) + {c.id}
  {
    var all := copies + [c];
    assert all[|copies|].id == c.id;
    forall id | id in Ids(copies) ensures id in Ids(all) {
      var i :| 0 <= i < |copies| && copies[i].id == id;
      assert all[i].id == id;
    }
  }

  /** Entries with the same retries weigh the same. */
  lemma {:induction false} SameWeight(a: map<RequestId, Pending>, b: map<RequestId, Pending>, copies: seq<Copy>,
                                      checks: nat)
    requires Ids(copies) <= a.Keys && Ids(copies) <= b.Keys
    requires forall id :: id in Ids(copies) ==> a[id].retries == b[id].retries
    ensures WrittenWeight(a, copies, checks) == WrittenWeight(b, copies, checks)
  {
    if copies != [] {
      IdsSplit(copies);
      SameWeight(a, b, copies[1..], checks);
    }
  }

  lemma {:induction false} AppendedWeight(pending: map<RequestId, Pending>, copies: seq<Copy>, c: Copy, checks: nat)
    requires Ids(copies + [c]) <= pending.Keys && Ids(copies) <= pending.Keys && c.id in pending
    ensures WrittenWeight(pending, copies + [c], checks)
         == WrittenWeight(pending, copies, checks) + Descendants(Left(checks, c.born), pending[c.id].retries)
  {
    var all := copies + [c];
    if copies == [] {
      assert all == [c];
    } else {
      assert all[1..] == copies[1..] + [c];
      IdsSplit(all);
      IdsSplit(copies);
      AppendedWeight(pending, copies[1..], c, checks);
    }
  }

  lemma {:induction false} AppendedQueue(queued: seq<nat>, born: nat, checks: nat)
    ensures QueuedWeight(queued + [born], checks) == QueuedWeight(queued, checks) + Descendants(Left(checks, born), 0)
  {
    if queued == [] {
      assert queued + [born] == [born];
    } else {
      assert (queued + [born])[1..] == queued[1..] + [born];
      AppendedQueue(queued[1..], born, checks);
    }
  }

  /** A retry of one copy splits its weight between itself and the new copy. */
  lemma {:induction false} RetriedWeight(a: map<RequestId, Pending>, b: map<RequestId, Pending>, copies: seq<Copy>,
                                         k: nat, checks: nat)
    requires Ids(copies) <= a.Keys && Ids(copies) <= b.Keys && DistinctIds(copies) && k < |copies|
    requires forall id :: id in Ids(copies) && id != copies[k].id ==> a[id].retries == b[id].retries
    requires copies[k].id in a && copies[k].id in b
    requires var c := copies[k];
             b[c.id].retries == a[c.id].retries + 1 <= MAX_RETRIES && c.born + b[c.id].retries <= checks
    ensures WrittenWeight(a, copies, checks)
         == WrittenWeight(b, copies, checks) + Descendants(Left(checks, copies[k].born + b[copies[k].id].retries), 0)
  {
    IdsSplit(copies);
    assert forall i :: 0 < i < |copies| ==> copies[i] == copies[1..][i - 1];
    if k == 0 {
      var c := copies[0];
      assert c.id !in Ids(copies[1..]);
      SameWeight(a, b, copies[1..], checks);
      DescendantsStep(Left(checks, c.born), a[c.id].retries);
      hide Descendants;
    } else {
      assert DistinctIds(copies[1..]);
      assert copies[0].id != copies[k].id && copies[1..][k - 1] == copies[k];
      hide Descendants;
      RetriedWeight(a, b, copies[1..], k - 1, checks);
    }
  }

  // ----- one event after the other -----

  /** A change that moves no copy, request or count keeps weights and order. */
  lemma SameCounts(s: State, t: State, l: Ledger)
    requires s.pending.Keys == Ids(l.copies) && AllBehind(s, l) && Balanced(s, l, 3) && Balanced(s, l, 4)
    requires t.pending == s.pending && t.stale == s.stale == []
    ensures AllBehind(t, l) && Balanced(t, l, 3) && Balanced(t, l, 4)
  {
    hide WrittenWeight, QueuedWeight, Ids, Descendants;
    assert forall id :: id in s.pending ==> Checks(t, id) == Checks(s, id) && WaitsSince(t, id) == WaitsSince(s, id);
    hide Checks, WaitsSince;
    forall i | 0 <= i < |l.copies|
      ensures l.copies[i].id in Ids(l.copies) && l.copies[0].id in Ids(l.copies)
              && Behind(t, l.copies[0].id, l.copies[i])
    {
      assert Behind(s, l.copies[0].id, l.copies[i]);
    }
    assert FirstChecks(t, l) == FirstChecks(s, l);
    hide Behind;
  }

  lemma TickFollows(s: State, l: Ledger, request: Request, start: set<RequestId>, duration: nat)
    requires Follows(s, l, request, start) && s.stale == []
    ensures Follows(Tick(s, duration), l, request, start)
  {
    CachesKeepTable(s, Tick(s, duration));
    SameCounts(s, Tick(s, duration), l);
    hide TableInv, AllBehind, Balanced, Ids, DistinctIds;
  }

  /** The checker copies: who is found too old counts one check more. */
  lemma CheckMoves(s: State, id: RequestId)
    requires id in s.pending && s.stale == []
    ensures var t := CheckTimeouts(s); var stale := TooOld(s.pending[id], s.clock);
            Checks(t, id) == Checks(s, id) + (if stale then 1 else 0)
            && WaitsSince(t, id) == (if stale then s.clock else s.pending[id].since)
            && WaitsSince(s, id) == s.pending[id].since
  {
    CheckLaw(s);
    hide CheckTimeouts;
    assert !HasCopy(s.stale, id);
  }

  lemma CheckBehind(s: State, first: RequestId, c: Copy)
    requires s.stale == [] && first in s.pending && c.id in s.pending && Behind(s, first, c)
    requires s.pending[c.id].since <= s.clock && s.pending[first].since <= s.clock
    ensures Behind(CheckTimeouts(s), first, c)
  {
    CheckMoves(s, first);
    CheckMoves(s, c.id);
    hide CheckTimeouts, Checks, WaitsSince;
  }

  lemma CheckCopiesBehind(s: State, copies: seq<Copy>)
    requires s.stale == [] && s.pending.Keys == Ids(copies) && CopiesBehind(s, copies)
    requires forall id :: id in s.pending ==> s.pending[id].since <= s.clock
    ensures CheckTimeouts(s).pending == s.pending
    ensures CopiesBehind(CheckTimeouts(s), copies)
  {
    var t := CheckTimeouts(s);
    hide CheckTimeouts, Behind, Ids;
    CheckLaw(s);
    forall i | 0 <= i < |copies|
      ensures copies[i].id in Ids(copies) && copies[0].id in Ids(copies) && Behind(t, copies[0].id, copies[i])
    {
      CheckBehind(s, copies[0].id, copies[i]);
    }
  }

  lemma CheckIsBehind(s: State, l: Ledger)
    requires s.stale == [] && l.copies != [] && s.pending.Keys == Ids(l.copies) && AllBehind(s, l)
    requires forall id :: id in s.pending ==> s.pending[id].since <= s.clock
    ensures CheckTimeouts(s).pending == s.pending
    ensures AllBehind(CheckTimeouts(s), l) && FirstChecks(s, l) <= FirstChecks(CheckTimeouts(s), l)
  {
    assert l.copies[0].id in Ids(l.copies);
    CheckMoves(s, l.copies[0].id);
    hide CheckTimeouts, Checks, WaitsSince, CopiesBehind, Ids;
    CheckCopiesBehind(s, l.copies);
  }

  lemma CheckBalanced(s: State, l: Ledger, checks: nat)
    requires s.pending.Keys == Ids(l.copies) && Balanced(s, l, checks) && CheckTimeouts(s).pending == s.pending
    requires FirstChecks(s, l) <= FirstChecks(CheckTimeouts(s), l)
    ensures Balanced(CheckTimeouts(s), l, checks)
  {
    hide CheckTimeouts, FirstChecks, Descendants, Ids, WrittenWeight, QueuedWeight;
  }

  lemma CheckLists(s: State, l: Ledger, request: Request, start: set<RequestId>)
    requires Lists(s, l, request, start)
    ensures Lists(CheckTimeouts(s), l, request, start)
  {
    CheckLaw(s);
    hide CheckTimeouts, Ids, DistinctIds, HasCopy, DistinctCopies;
    var t := CheckTimeouts(s);
    assert forall i :: 0 <= i < |t.stale| ==> IsCopyOf(t.stale[i], s.pending);
  }

  lemma CheckFollows(s: State, l: Ledger, request: Request, start: set<RequestId>)
    requires Follows(s, l, request, start) && s.stale == [] && l.copies != []
    ensures Follows(CheckTimeouts(s), l, request, start)
  {
    CheckKeepsTable(s);
    CheckLists(s, l, request, start);
    CheckIsBehind(s, l);
    CheckBalanced(s, l, 3);
    CheckBalanced(s, l, 4);
    hide TableInv, AllBehind, Balanced, Ids, DistinctIds, StaleEntries;
  }

  lemma OneCopyWeighs(pending: map<RequestId, Pending>, c: Copy, checks: nat)
    requires c.id in pending && c.born == 0 && pending[c.id].retries == 0
    ensures Ids([c]) == {c.id}
    ensures WrittenWeight(pending, [c], checks) == Descendants(checks, 0)
  {
    assert [c][0].id == c.id;
    assert [c][1..] == [];
    assert Ids([c]) == {c.id};
    hide Descendants;
  }

  lemma FirstIsBehind(t: State, c: Copy, request: Request, checks: nat)
    requires t.pending == map[c.id := Pending(request, 0, t.clock)] && t.stale == [] && c.born == 0
    ensures t.pending.Keys == Ids([c]) && DistinctIds([c])
    ensures AllBehind(t, Ledger([c], [])) && Balanced(t, Ledger([c], []), checks)
  {
    OneCopyWeighs(t.pending, c, checks);
    assert t.pending.Keys == {c.id};
    hide Ids, WrittenWeight, Descendants, HasCopy;
  }

  lemma NothingWritten(s: State, l: Ledger, request: Request, start: set<RequestId>)
    requires Lists(s, l, request, start) && AllBehind(s, l) && l.copies == []
    ensures s.pending == map[] && s.stale == [] && s.queue == [request] && s.issued == start
  {
    assert Ids(l.copies) == {};
  }

  lemma FirstSendLists(t: State, request: Request, start: set<RequestId>, c: Copy)
    requires t.pending == map[c.id := Pending(request, 0, t.clock)] && t.stale == [] && t.queue == []
    requires t.issued == start + {c.id} && t.pending.Keys == Ids([c]) && DistinctIds([c])
    ensures Lists(t, Ledger([c], []), request, start)
  {
    assert t.pending.Keys == {c.id};
    hide Ids, DistinctIds;
  }

  /** The first request is written. */
  lemma FirstSendFollows(s: State, l: Ledger, request: Request, start: set<RequestId>, newId: RequestId)
    requires Follows(s, l, request, start) && l.copies == [] && s.queue != [] && newId !in s.issued
    ensures Follows(SendNext(s, newId, true), Ledger([Copy(newId, 0)], []), request, start)
  {
    var t, c := SendNext(s, newId, true), Copy(newId, 0);
    hide TableInv, Lists, AllBehind, Balanced, Ids, SendNext, DistinctIds;
    NothingWritten(s, l, request, start);
    SendKeepsTable(s, newId, true);
    SentFields(s, newId);
    assert t.pending == map[newId := Pending(request, 0, t.clock)];
    FirstIsBehind(t, c, request, 3);
    FirstIsBehind(t, c, request, 4);
    FirstSendLists(t, request, start, c);
  }

  lemma SendBehind(s: State, l: Ledger, newId: RequestId, i: nat)
    requires s.queue != [] && !s.queue[0].Close? && newId !in s.pending && i < |l.copies|
    requires s.pending.Keys == Ids(l.copies) && AllBehind(s, l)
    ensures l.copies[0].id in Ids(l.copies) && l.copies[i].id in Ids(l.copies)
    ensures Behind(SendNext(s, newId, true), l.copies[0].id, l.copies[i])
  {
    SentFields(s, newId);
    assert Behind(s, l.copies[0].id, l.copies[i]);
    hide SendNext, HasCopy;
  }

  lemma NotPending(s: State, newId: RequestId)
    requires TableInv(s) && newId !in s.issued
    ensures newId !in s.pending
  {
  }

  /** The ledger after a queued copy was written. */
  function Written(l: Ledger, newId: RequestId): Ledger
    requires l.queued != []
  {
    Ledger(l.copies + [Copy(newId, l.queued[0])], l.queued[1..])
  }

  lemma SendLists(s: State, l: Ledger, request: Request, start: set<RequestId>, newId: RequestId)
    requires Lists(s, l, request, start) && s.queue != [] && newId !in s.pending && !request.Close?
    ensures Lists(SendNext(s, newId, true), Written(l, newId), request, start)
  {
    SentFields(s, newId);
    var t, l' := SendNext(s, newId, true), Written(l, newId);
    IdsAppended(l.copies, Copy(newId, l.queued[0]));
    hide SendNext;
    forall i, j | 0 <= i < j < |l'.copies| ensures l'.copies[i].id != l'.copies[j].id {
      assert l.copies[i].id in Ids(l.copies);
      assert j < |l.copies| ==> l.copies[i].id != l.copies[j].id;
    }
    hide Ids;
  }

  lemma SendIsBehind(s: State, l: Ledger, newId: RequestId)
    requires s.queue != [] && !s.queue[0].Close? && newId !in s.pending && |l.queued| == |s.queue| && l.copies != []
    requires s.pending.Keys == Ids(l.copies) && AllBehind(s, l)
    requires forall i :: 0 <= i < |s.stale| ==> s.stale[i].id in s.pending
    requires forall id :: id in s.pending ==> s.pending[id].since <= s.clock
    requires SendNext(s, newId, true).pending.Keys == Ids(Written(l, newId).copies)
    ensures AllBehind(SendNext(s, newId, true), Written(l, newId))
  {
    var t, l' := SendNext(s, newId, true), Written(l, newId);
    SentFields(s, newId);
    IdsAppended(l.copies, Copy(newId, l.queued[0]));
    assert !HasCopy(t.stale, newId);
    var first := l.copies[0].id;
    assert first in Ids(l.copies) && first != newId;
    assert FirstChecks(t, l') == FirstChecks(s, l);
    forall i | 0 <= i < |l'.copies|
      ensures l'.copies[i].id in Ids(l'.copies) && first in Ids(l'.copies) && Behind(t, first, l'.copies[i])
    {
      if i < |l.copies| {
        SendBehind(s, l, newId, i);
      }
    }
    hide SendNext, Ids, HasCopy, Behind;
  }

  lemma SendBalanced(s: State, l: Ledger, newId: RequestId, checks: nat)
    requires s.queue != [] && !s.queue[0].Close? && newId !in s.pending && |l.queued| == |s.queue| && l.copies != []
    requires s.pending.Keys == Ids(l.copies) && Balanced(s, l, checks)
    requires SendNext(s, newId, true).pending.Keys == Ids(Written(l, newId).copies)
    ensures Balanced(SendNext(s, newId, true), Written(l, newId), checks)
  {
    var t, l' := SendNext(s, newId, true), Written(l, newId);
    SentFields(s, newId);
    hide SendNext, HasCopy, Descendants;
    IdsAppended(l.copies, Copy(newId, l.queued[0]));
    assert l.copies[0].id in Ids(l.copies);
    assert FirstChecks(t, l') == FirstChecks(s, l);
    AppendedWeight(t.pending, l.copies, Copy(newId, l.queued[0]), checks);
    SameWeight(s.pending, t.pending, l.copies, checks);
    hide Ids, Checks, WrittenWeight;
  }

  lemma SendFollows(s: State, l: Ledger, request: Request, start: set<RequestId>, newId: RequestId)
    requires Follows(s, l, request, start) && l.copies != [] && s.queue != [] && newId !in s.issued
    ensures Follows(SendNext(s, newId, true), Written(l, newId), request, start)
  {
    SendKeepsTable(s, newId, true);
    NotPending(s, newId);
    SentFields(s, newId);
    SendLists(s, l, request, start, newId);
    SendIsBehind(s, l, newId);
    SendBalanced(s, l, newId, 3);
    SendBalanced(s, l, newId, 4);
    hide TableInv, SendNext, AllBehind, Balanced;
  }

  // ----- retries -----

  lemma PoppedCopies(s: State, id: RequestId)
    requires s.stale != [] && DistinctCopies(s.stale)
    ensures HasCopy(s.stale[1..], id) <==> HasCopy(s.stale, id) && id != s.stale[0].id
    ensures HasCopy(s.stale, s.stale[0].id)
  {
    if HasCopy(s.stale, id) && id != s.stale[0].id {
      var i :| 0 <= i < |s.stale| && s.stale[i].id == id;
      assert s.stale[1..][i - 1].id == id;
    }
    if HasCopy(s.stale[1..], id) {
      var i :| 0 <= i < |s.stale[1..]| && s.stale[1..][i].id == id;
      assert s.stale[i + 1].id == id;
    }
  }

  /** What a retry does. */
  lemma RetriedFields(s: State)
    requires s.running && s.stale != [] && s.stale[0].retries < MAX_RETRIES && s.stale[0].id in s.pending
    ensures var t, e := RetryNext(s), s.stale[0];
            t.queue == s.queue + [e.request] && t.issued == s.issued && t.stale == s.stale[1..] && t.clock == s.clock
            && t.running == s.running && t.notes == s.notes && t.connected == s.connected
            && t.pending.Keys == s.pending.Keys
            && (forall other :: other in s.pending && other != e.id ==> t.pending[other] == s.pending[other])
            && t.pending[e.id] == Pending(s.pending[e.id].request, s.pending[e.id].retries + 1, s.clock)
  {
    BumpFields(s.(stale := s.stale[1..]), s.stale[0].id);
    hide Bumped;
  }

  /** What a retry changes, answered meanwhile or not. */
  lemma RetryChanges(s: State)
    requires TableInv(s) && s.running && s.stale != [] && s.stale[0].retries < MAX_RETRIES
    ensures var t, e := RetryNext(s), s.stale[0];
            t.queue == s.queue + [e.request] && t.stale == s.stale[1..] && t.clock == s.clock && t.issued == s.issued
            && t.running && t.connected == s.connected && t.pending.Keys == s.pending.Keys
            && (forall id :: id in s.pending && id != e.id ==> t.pending[id] == s.pending[id])
            && (e.id in s.pending ==>
                  s.pending[e.id].request == e.request
                  && t.pending[e.id] == Pending(e.request, s.pending[e.id].retries + 1, s.clock))
  {
    assert FreshCopy(s, s.stale[0]);
    BumpFields(s.(stale := s.stale[1..]), s.stale[0].id);
    hide TableInv, Bumped, FreshCopy;
  }

  lemma DropChanges(s: State, e: Stale)
    ensures var t := Dropped(s, e);
            t == s.(pending := s.pending - {e.id}, abandoned := t.abandoned, timedOut := t.timedOut)
  {
  }

  /** What handling an entry changes that is not retried again. */
  lemma LastRetryChanges(s: State)
    requires s.stale != [] && s.stale[0].retries >= MAX_RETRIES
    ensures var t := RetryNext(s);
            t.pending == s.pending - {s.stale[0].id} && t.stale == s.stale[1..] && t.clock == s.clock
            && t.issued == s.issued && t.running == s.running && t.connected == s.connected && t.queue == s.queue
  {
    DropChanges(s.(stale := s.stale[1..]), s.stale[0]);
    hide Dropped;
  }

  /** A check that is handled counts as before. */
  lemma RetryKeepsChecks(s: State, id: RequestId)
    requires s.running && s.stale != [] && s.stale[0].retries < MAX_RETRIES && s.stale[0].id in s.pending
    requires DistinctCopies(s.stale) && id in s.pending
    ensures id in RetryNext(s).pending
    ensures Checks(RetryNext(s), id) == Checks(s, id) && WaitsSince(RetryNext(s), id) == WaitsSince(s, id)
  {
    RetriedFields(s);
    PoppedCopies(s, id);
    hide RetryNext, HasCopy;
  }

  /** The place of an id in the ledger. */
  lemma PlaceOf(copies: seq<Copy>, id: RequestId) returns (k: nat)
    requires id in Ids(copies)
    ensures k < |copies| && copies[k].id == id
  {
    k :| 0 <= k < |copies| && copies[k].id == id;
  }

  lemma RetryBalanced(s: State, l: Ledger, k: nat, checks: nat)
    requires s.running && s.stale != [] && s.stale[0].retries < MAX_RETRIES && s.stale[0].id in s.pending
    requires DistinctCopies(s.stale) && k < |l.copies| && l.copies[k].id == s.stale[0].id
    requires s.pending.Keys == Ids(l.copies) && DistinctIds(l.copies) && AllBehind(s, l) && Balanced(s, l, checks)
    requires s.pending[s.stale[0].id].retries == s.stale[0].retries
    ensures RetryNext(s).pending.Keys == Ids(l.copies)
    ensures Balanced(RetryNext(s), l.(queued := l.queued + [l.copies[k].born + s.stale[0].retries + 1]), checks)
  {
    var t, e, c := RetryNext(s), s.stale[0], l.copies[k];
    var l' := l.(queued := l.queued + [c.born + e.retries + 1]);
    RetriedFields(s);
    var first := l.copies[0].id;
    assert first in Ids(l.copies);
    RetryKeepsChecks(s, first);
    assert Behind(s, first, c);
    PoppedCopies(s, e.id);
    assert Checks(s, c.id) == e.retries + 1;
    assert FirstChecks(t, l') == FirstChecks(s, l);
    hide RetryNext, Checks, WaitsSince, Ids, Descendants;
    if FirstChecks(s, l) <= checks {
      RetriedWeight(s.pending, t.pending, l.copies, k, checks);
      AppendedQueue(l.queued, c.born + e.retries + 1, checks);
    }
  }

  lemma RetryIsBehind(s: State, l: Ledger, k: nat)
    requires s.running && s.stale != [] && s.stale[0].retries < MAX_RETRIES && s.stale[0].id in s.pending
    requires DistinctCopies(s.stale) && k < |l.copies| && l.copies[k].id == s.stale[0].id
    requires s.pending.Keys == Ids(l.copies) && AllBehind(s, l)
    requires s.pending[s.stale[0].id].retries == s.stale[0].retries
    ensures RetryNext(s).pending.Keys == Ids(l.copies)
    ensures AllBehind(RetryNext(s), l.(queued := l.queued + [l.copies[k].born + s.stale[0].retries + 1]))
  {
    var t, e, c := RetryNext(s), s.stale[0], l.copies[k];
    var l' := l.(queued := l.queued + [c.born + e.retries + 1]);
    RetriedFields(s);
    var first := l.copies[0].id;
    assert first in Ids(l.copies);
    RetryKeepsChecks(s, first);
    assert Behind(s, first, c);
    PoppedCopies(s, e.id);
    assert Checks(s, c.id) == e.retries + 1;
    assert FirstChecks(t, l') == FirstChecks(s, l);
    hide RetryNext, HasCopy;
    forall i | 0 <= i < |l.copies| ensures l.copies[i].id in Ids(l.copies) && Behind(t, first, l.copies[i]) {
      assert Behind(s, first, l.copies[i]);
      RetryKeepsChecks(s, l.copies[i].id);
    }
    hide Behind, Ids, Checks, WaitsSince;
  }

  lemma RetryLists(s: State, l: Ledger, request: Request, start: set<RequestId>, born: nat)
    requires s.running && s.stale != [] && s.stale[0].retries < MAX_RETRIES && s.stale[0].id in s.pending
    requires Lists(s, l, request, start) && s.stale[0].request == request
    ensures Lists(RetryNext(s), l.(queued := l.queued + [born]), request, start)
  {
    RetriedFields(s);
    hide RetryNext, Ids, DistinctIds;
  }

  lemma RetryFollows(s: State, l: Ledger, request: Request, start: set<RequestId>) returns (l': Ledger)
    requires Follows(s, l, request, start) && s.stale != [] && s.stale[0].retries < MAX_RETRIES
    ensures Follows(RetryNext(s), l', request, start)
  {
    hide TableInv, AllBehind, Balanced, DistinctIds, Ids, RetryNext;
    var e := s.stale[0];
    assert e.id in s.pending;
    var k := PlaceOf(l.copies, e.id);
    l' := l.(queued := l.queued + [l.copies[k].born + e.retries + 1]);
    RetryKeepsTable(s);
    CopyCounts(s);
    RetryLists(s, l, request, start, l.copies[k].born + e.retries + 1);
    RetryIsBehind(s, l, k);
    RetryBalanced(s, l, k, 3);
    RetryBalanced(s, l, k, 4);
    RetriedFields(s);
    hide Lists;
  }

  lemma CopyCounts(s: State)
    requires TableInv(s) && s.stale != [] && s.stale[0].id in s.pending
    ensures s.pending[s.stale[0].id].retries == s.stale[0].retries && DistinctCopies(s.stale)
    ensures s.pending[s.stale[0].id].request == s.stale[0].request
  {
    assert FreshCopy(s, s.stale[0]);
  }

  // ----- whole runs -----

  lemma EmptyCheck(s: State)
    requires s.pending == map[] && s.stale == []
    ensures CheckTimeouts(s) == s
  {
    assert s.pending.Keys == {};
  }

  /** A retry that gives up is reported; no other silent event is. */
  lemma StepTimeouts(s: State, a: Action)
    requires Enabled(s, a) && IsSilent(a)
    ensures Timeouts(Apply(s, a).notes)
         == Timeouts(s.notes) + if a.Retrying? && s.stale[0].retries >= MAX_RETRIES then 1 else 0
  {
    hide SendNext, RetryNext, CheckTimeouts, Timeouts;
    match a
    case Send(newId, _) => SendNotes(s, newId);
    case CheckingTimeouts => CheckLaw(s);
    case Retrying => RetryNotes(s);
    case Ticking(_) =>
  }

  lemma SendNotes(s: State, newId: RequestId)
    requires s.queue != []
    ensures SendNext(s, newId, true).notes == s.notes
  {
    hide Stopped, Sent;
    StoppedNotes(s.(queue := s.queue[1..]));
    SentNotes(s.(queue := s.queue[1..]), newId, s.queue[0]);
  }

  lemma StoppedNotes(s: State)
    ensures Stopped(s).notes == s.notes
  {
  }

  lemma SentNotes(s: State, newId: RequestId, request: Request)
    ensures Sent(s, newId, request).notes == s.notes
  {
  }

  lemma RetryNotes(s: State)
    requires s.stale != []
    ensures Timeouts(RetryNext(s).notes)
         == Timeouts(s.notes) + if s.stale[0].retries >= MAX_RETRIES then 1 else 0
  {
    hide Timeouts, Bumped, Dropped, Notify;
    var s1, e := s.(stale := s.stale[1..]), s.stale[0];
    BumpFields(s1, e.id);
    TimeoutsOfNotify(Dropped(s1, e), RequestTimeoutNote);
    DroppedNotes(s1, e);
  }

  lemma DroppedNotes(s: State, e: Stale)
    ensures Dropped(s, e).notes == s.notes
  {
  }

  lemma {:induction false} TimeoutsGrow(s: State, actions: seq<Action>)
    requires IsRun(s, actions) && forall a :: a in actions ==> IsSilent(a)
    ensures Timeouts(s.notes) <= Timeouts(After(s, actions).notes)
    decreases |actions|
  {
    hide Apply, Enabled, Timeouts;
    if actions != [] {
      StepTimeouts(s, actions[0]);
      TimeoutsGrow(Apply(s, actions[0]), actions[1..]);
    }
  }

  lemma {:induction false} AllSilent(s: State, actions: seq<Action>)
    requires IsRun(s, actions) && IsSilentRun(s, actions)
    ensures forall a :: a in actions ==> IsSilent(a)
    decreases |actions|
  {
    hide Apply, Enabled;
    if actions != [] {
      AllSilent(Apply(s, actions[0]), actions[1..]);
      assert actions == [actions[0]] + actions[1..];
    }
  }

  lemma StepFollows(s: State, l: Ledger, request: Request, start: set<RequestId>, a: Action) returns (l': Ledger)
    requires Follows(s, l, request, start) && Enabled(s, a) && IsSilent(a)
    requires (a.Ticking? ==> s.stale == []) && (a.Retrying? ==> s.stale[0].retries < MAX_RETRIES)
    ensures Follows(Apply(s, a), l', request, start)
  {
    hide TableInv, AllBehind, Balanced, Ids, DistinctIds, SendNext, RetryNext, CheckTimeouts;
    match a
    case Ticking(duration) =>
      l' := l;
      hide Lists;
      TickFollows(s, l, request, start, duration);
    case CheckingTimeouts =>
      l' := l;
      if l.copies == [] {
        NothingWritten(s, l, request, start);
        EmptyCheck(s);
      } else {
        hide Lists;
        CheckFollows(s, l, request, start);
      }
    case Retrying =>
      hide Lists;
      l' := RetryFollows(s, l, request, start);
    case Send(newId, _) =>
      if l.copies == [] {
        hide Lists;
        l' := Ledger([Copy(newId, 0)], []);
        FirstSendFollows(s, l, request, start, newId);
      } else {
        l' := Written(l, newId);
        SendFollows(s, l, request, start, newId);
      }
  }

  lemma {:induction false} RunFollows(s: State, l: Ledger, request: Request, start: set<RequestId>,
                                      actions: seq<Action>)
    returns (l': Ledger)
    requires Follows(s, l, request, start) && IsRun(s, actions) && IsSilentRun(s, actions)
    requires Timeouts(After(s, actions).notes) == Timeouts(s.notes)
    ensures Follows(After(s, actions), l', request, start)
    decreases |actions|
  {
    hide Follows, Apply, Enabled, Timeouts;
    if actions == [] {
      l' := l;
    } else {
      var a := actions[0];
      StepTimeouts(s, a);
      AllSilent(Apply(s, a), actions[1..]);
      TimeoutsGrow(Apply(s, a), actions[1..]);
      var next := StepFollows(s, l, request, start, a);
      l' := RunFollows(Apply(s, a), next, request, start, actions[1..]);
    }
  }

  lemma StartFollows(s: State, request: Request)
    requires OneQueued(s, request)
    ensures Follows(s, Ledger([], [0]), request, s.issued)
  {
    var l := Ledger([], [0]);
    assert Ids(l.copies) == {};
    assert s.pending.Keys == {};
    assert [0][1..] == [];
    assert QueuedWeight([0], 3) == Descendants(3, 0) && QueuedWeight([0], 4) == Descendants(4, 0) by {
      hide Descendants;
    }
    hide TableInv, Descendants, Ids, WrittenWeight;
  }

  /** A copied entry will not be retried again. */
  predicate IsLast(stale: seq<Stale>) {
    exists i :: 0 <= i < |stale| && stale[i].retries >= MAX_RETRIES
  }

  /** The checker works on an id it will not retry again. */
  predicate LastCheck(s: State) {
    IsLast(s.stale)
  }

  lemma LedgerCounts(s: State, l: Ledger, request: Request, start: set<RequestId>)
    requires Follows(s, l, request, start)
    ensures |s.issued - start| <= 15
    ensures !LastCheck(s) ==> |s.issued - start| <= 8
  {
    DescendantsOf(3);
    DescendantsOf(4);
    WeightCounts(s.pending, l.copies, 3);
    WeightCounts(s.pending, l.copies, 4);
    FirstWithin(s, l);
    hide TableInv, AllBehind, Descendants, WrittenWeight, QueuedWeight, FirstChecks, Ids, DistinctIds;
    assert s.issued - start <= Ids(l.copies);
    Smaller(s.issued - start, Ids(l.copies));
  }

  /** The first copy is checked four times at most, and three times before its last check. */
  lemma FirstWithin(s: State, l: Ledger)
    requires TableInv(s) && s.pending.Keys == Ids(l.copies)
    ensures FirstChecks(s, l) <= 4 && (!LastCheck(s) ==> FirstChecks(s, l) <= 3)
  {
    if l.copies != [] {
      var id := l.copies[0].id;
      assert id in Ids(l.copies);
      assert s.pending[id].retries <= MAX_RETRIES by { assert id in s.pending; }
      if HasCopy(s.stale, id) {
        var i :| 0 <= i < |s.stale| && s.stale[i].id == id;
        assert FreshCopy(s, s.stale[i]);
      }
    }
  }

  /**
   A server that never answers: however the checker and the loop take turns, one request is
   written at most fifteen times before the first timeout is reported, and at most eight
   times before the checker finds an id too old that it has retried three times already.
   */
  lemma CopiesBeforeTimeout(s: State, request: Request, actions: seq<Action>)
    requires OneQueued(s, request) && IsRun(s, actions) && IsSilentRun(s, actions)
    requires Timeouts(After(s, actions).notes) == Timeouts(s.notes)
    ensures |After(s, actions).issued - s.issued| <= 15
    ensures !LastCheck(After(s, actions)) ==> |After(s, actions).issued - s.issued| <= 8
  {
    StartFollows(s, request);
    hide Follows, Timeouts, OneQueued;
    var l := RunFollows(s, Ledger([], [0]), request, s.issued, actions);
    LedgerCounts(After(s, actions), l, request, s.issued);
  }
}
