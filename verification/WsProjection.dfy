/**
 One request among many. What `WsRetries` and `WsAnyClock` say of a request that is alone holds
 of every request, whatever else is asked, answered, written and retried meanwhile: its own
 entries go through a run of their own.
 */
module WsProjection {
  import opened Wrappers
  import opened WsModel
  import opened WsRuns
  import opened WsRetries
  import opened WsAnyClock

  // ----- the part of a state that is about one request -----

  function OnlyQueue(queue: seq<Request>, request: Request): seq<Request> {
    if queue == [] then []
    else (if queue[0] == request then [request] else []) + OnlyQueue(queue[1..], request)
  }

  function OnlyStale(stale: seq<Stale>, request: Request): seq<Stale> {
    if stale == [] then []
    else (if stale[0].request == request then [stale[0]] else []) + OnlyStale(stale[1..], request)
  }

  function OnlyPending(pending: map<RequestId, Pending>, request: Request): map<RequestId, Pending> {
    map id | id in pending && pending[id].request == request :: pending[id]
  }

  /** The second state has what the first one has of a request, and nothing else. */
  ghost predicate Shows(s: State, p: State, request: Request) {
    TableInv(p) && p.running && (s.connected ==> p.connected) && p.clock == s.clock && p.issued <= s.issued
    && p.queue == OnlyQueue(s.queue, request)
    && p.pending == OnlyPending(s.pending, request)
    && p.stale == OnlyStale(s.stale, request)
  }

  lemma {:induction false} QueueAppended(queue: seq<Request>, last: Request, request: Request)
    ensures OnlyQueue(queue + [last], request)
         == OnlyQueue(queue, request) + if last == request then [request] else []
  {
    if queue == [] {
      assert queue + [last] == [last] && [last][1..] == [];
    } else {
      assert (queue + [last])[1..] == queue[1..] + [last];
      QueueAppended(queue[1..], last, request);
    }
  }

  // ----- runs in which a request is not answered -----

  /** Another event, that leaves the connection and what is queued and pending of a request alone. */
  ghost predicate LeavesAlone(s: State, a: Action, request: Request)
    requires Enabled(s, a)
  {
    (a.Asking? || a.Receiving? || a.LosingPing?)
    && Apply(s, a).running
    && OnlyQueue(Apply(s, a).queue, request) == OnlyQueue(s.queue, request)
    && OnlyPending(Apply(s, a).pending, request) == OnlyPending(s.pending, request)
  }

  ghost predicate Allowed(s: State, a: Action, request: Request)
    requires Enabled(s, a)
  {
    (IsSilent(a) && (a.Send? ==> !s.queue[0].Close?)) || LeavesAlone(s, a, request)
  }

  /** The request is neither answered nor asked for again, and the connection lasts. */
  ghost predicate IsQuietRun(s: State, actions: seq<Action>, request: Request)
    requires IsRun(s, actions)
    decreases |actions|
  {
    actions == []
    || (Allowed(s, actions[0], request) && IsQuietRun(Apply(s, actions[0]), actions[1..], request))
  }

  predicate GivesUp(s: State, a: Action, request: Request) {
    a.Retrying? && s.stale != [] && s.stale[0].request == request && s.stale[0].retries >= MAX_RETRIES
  }

  /** No timeout of the request is reported. */
  ghost predicate NoTimeout(s: State, actions: seq<Action>, request: Request)
    requires IsRun(s, actions)
    decreases |actions|
  {
    actions == []
    || (!GivesUp(s, actions[0], request) && NoTimeout(Apply(s, actions[0]), actions[1..], request))
  }

  /** The clock stands still while the checker handles copies of the request. */
  ghost predicate ClockRests(s: State, actions: seq<Action>, request: Request)
    requires IsRun(s, actions)
    decreases |actions|
  {
    actions == []
    || ((actions[0].Ticking? ==> OnlyStale(s.stale, request) == [])
        && ClockRests(Apply(s, actions[0]), actions[1..], request))
  }

  function WritesIt(s: State, a: Action, request: Request): nat {
    if a.Send? && s.queue != [] && s.queue[0] == request then 1 else 0
  }

  /** How often the request is written. */
  ghost function Writes(s: State, actions: seq<Action>, request: Request): nat
    requires IsRun(s, actions)
    decreases |actions|
  {
    if actions == [] then 0
    else WritesIt(s, actions[0], request) + Writes(Apply(s, actions[0]), actions[1..], request)
  }

  // ----- the checker copies -----

  function OnlyIds(pending: map<RequestId, Pending>, request: Request, ids: seq<RequestId>): seq<RequestId>
    requires forall id :: id in ids ==> id in pending
  {
    if ids == [] then []
    else (if pending[ids[0]].request == request then [ids[0]] else []) + OnlyIds(pending, request, ids[1..])
  }

  lemma {:induction false} InOnlyIds(pending: map<RequestId, Pending>, request: Request, ids: seq<RequestId>,
                                     id: RequestId)
    requires forall x :: x in ids ==> x in pending
    ensures id in OnlyIds(pending, request, ids) <==> id in ids && pending[id].request == request
  {
    if ids != [] {
      InOnlyIds(pending, request, ids[1..], id);
      assert ids == [ids[0]] + ids[1..];
    }
  }

  ghost predicate Ascending(ids: seq<RequestId>) {
    forall i, j :: 0 <= i < j < |ids| ==> ids[i] < ids[j]
  }

  lemma AscendingParts(ids: seq<RequestId>)
    requires Ascending(ids) && ids != []
    ensures Ascending(ids[1..]) && forall id :: id in ids[1..] ==> ids[0] < id
  {
  }

  lemma AscendingPrepend(id: RequestId, ids: seq<RequestId>)
    requires Ascending(ids) && forall x :: x in ids ==> id < x
    ensures Ascending([id] + ids)
  {
    assert forall i :: 0 <= i < |ids| ==> ids[i] in ids;
  }

  lemma {:induction false} OnlyIdsAscend(pending: map<RequestId, Pending>, request: Request, ids: seq<RequestId>)
    requires forall id :: id in ids ==> id in pending
    requires Ascending(ids)
    ensures Ascending(OnlyIds(pending, request, ids))
  {
    if ids != [] {
      AscendingParts(ids);
      OnlyIdsAscend(pending, request, ids[1..]);
      var rest := OnlyIds(pending, request, ids[1..]);
      forall id | id in rest ensures ids[0] < id {
        InOnlyIds(pending, request, ids[1..], id);
      }
      hide Ascending;
      AscendingPrepend(ids[0], rest);
      assert [] + rest == rest;
    }
  }

  lemma {:induction false} AscendingUnique(a: seq<RequestId>, b: seq<RequestId>)
    requires Ascending(a) && Ascending(b) && forall id :: id in a <==> id in b
    ensures a == b
  {
    if a == [] {
      assert forall i :: 0 <= i < |b| ==> b[i] in b;
    } else {
      assert a[0] in b && b[0] in a;
      AscendingParts(a);
      AscendingParts(b);
      hide Ascending;
      assert a == [a[0]] + a[1..] && b == [b[0]] + b[1..];
      assert a[0] == b[0];
      forall id ensures id in a[1..] <==> id in b[1..] {
        assert id in a[1..] ==> id in b && id != b[0];
        assert id in b[1..] ==> id in a && id != a[0];
      }
      AscendingUnique(a[1..], b[1..]);
    }
  }

  lemma {:induction false} OnlyStaleEntries(pending: map<RequestId, Pending>, clock: nat, ids: seq<RequestId>,
                                            request: Request)
    requires forall id :: id in ids ==> id in pending
    ensures forall id :: id in OnlyIds(pending, request, ids) ==> id in OnlyPending(pending, request)
    ensures OnlyStale(StaleEntries(pending, clock, ids), request)
         == StaleEntries(OnlyPending(pending, request), clock, OnlyIds(pending, request, ids))
  {
    if ids != [] {
      OnlyStaleEntries(pending, clock, ids[1..], request);
      var entry, rest := pending[ids[0]], StaleEntries(pending, clock, ids[1..]);
      var stale := Stale(ids[0], entry.request, entry.retries);
      assert ([stale] + rest)[1..] == rest && [] + rest == rest;
      var only, restIds := OnlyPending(pending, request), OnlyIds(pending, request, ids[1..]);
      assert ([ids[0]] + restIds)[1..] == restIds && [] + restIds == restIds;
      assert [] + OnlyStale(rest, request) == OnlyStale(rest, request);
      assert [] + StaleEntries(only, clock, restIds) == StaleEntries(only, clock, restIds);
    }
  }

  lemma CheckShows(s: State, p: State, request: Request)
    requires Shows(s, p, request)
    ensures Shows(CheckTimeouts(s), CheckTimeouts(p), request)
  {
    CheckKeepsTable(p);
    var ids := SortedIds(s.pending.Keys);
    OnlyIdsAscend(s.pending, request, ids);
    OnlyStaleEntries(s.pending, s.clock, ids, request);
    forall id ensures id in p.pending.Keys <==> id in OnlyIds(s.pending, request, ids) {
      InOnlyIds(s.pending, request, ids, id);
    }
    AscendingUnique(OnlyIds(s.pending, request, ids), SortedIds(p.pending.Keys));
    hide TableInv, SortedIds, StaleEntries, OnlyStale, OnlyQueue, OnlyIds, OnlyPending;
  }

  // ----- one event -----

  lemma TickShows(s: State, p: State, request: Request, duration: nat)
    requires Shows(s, p, request)
    ensures Shows(Tick(s, duration), Tick(p, duration), request)
  {
    CachesKeepTable(p, Tick(p, duration));
    hide TableInv, OnlyStale, OnlyQueue, OnlyPending;
  }

  lemma QueueTaken(queue: seq<Request>, request: Request)
    requires queue != []
    ensures queue[0] == request ==>
              OnlyQueue(queue, request) != [] && OnlyQueue(queue, request)[0] == request
              && OnlyQueue(queue, request)[1..] == OnlyQueue(queue[1..], request)
    ensures queue[0] != request ==> OnlyQueue(queue, request) == OnlyQueue(queue[1..], request)
  {
  }

  lemma StaleTaken(stale: seq<Stale>, request: Request)
    requires stale != []
    ensures stale[0].request == request ==>
              OnlyStale(stale, request) != [] && OnlyStale(stale, request)[0] == stale[0]
              && OnlyStale(stale, request)[1..] == OnlyStale(stale[1..], request)
    ensures stale[0].request != request ==> OnlyStale(stale, request) == OnlyStale(stale[1..], request)
  {
  }

  lemma WriteShows(s: State, p: State, request: Request, newId: RequestId)
    requires TableInv(s) && Shows(s, p, request) && MayAsk(request)
    requires s.running && s.queue != [] && s.queue[0] == request && newId !in s.issued
    ensures p.queue != [] && newId !in p.issued
    ensures Shows(SendNext(s, newId, true), SendNext(p, newId, true), request)
    ensures SendNext(p, newId, true).issued == p.issued + {newId}
  {
    hide TableInv, SendNext, OnlyQueue, OnlyStale, OnlyPending;
    QueueTaken(s.queue, request);
    SentFields(s, newId);
    SentFields(p, newId);
    SendKeepsTable(p, newId, true);
    OnlyWritten(s.pending, newId, Pending(request, 0, s.clock), request);
  }

  lemma OnlyWritten(pending: map<RequestId, Pending>, id: RequestId, entry: Pending, request: Request)
    ensures entry.request == request ==>
              OnlyPending(pending[id := entry], request) == OnlyPending(pending, request)[id := entry]
    ensures entry.request != request && id !in pending ==>
              OnlyPending(pending[id := entry], request) == OnlyPending(pending, request)
  {
  }

  lemma OtherWriteShows(s: State, p: State, request: Request, newId: RequestId)
    requires TableInv(s) && Shows(s, p, request)
    requires s.running && s.queue != [] && s.queue[0] != request && !s.queue[0].Close? && newId !in s.issued
    ensures Shows(SendNext(s, newId, true), p, request)
  {
    QueueTaken(s.queue, request);
    SentFields(s, newId);
    NotPending(s, newId);
    hide TableInv, SendNext, OnlyQueue, OnlyStale, OnlyPending;
    OnlyWritten(s.pending, newId, Pending(s.queue[0], 0, s.clock), request);
  }

  lemma RetryShows(s: State, p: State, request: Request)
    requires TableInv(s) && Shows(s, p, request) && s.running && s.stale != []
    requires s.stale[0].request == request && s.stale[0].retries < MAX_RETRIES
    ensures p.stale != [] && p.stale[0] == s.stale[0]
    ensures Shows(RetryNext(s), RetryNext(p), request) && RetryNext(p).issued == p.issued
  {
    hide TableInv, RetryNext, OnlyQueue, OnlyStale, OnlyPending;
    StaleTaken(s.stale, request);
    RetryChanges(s);
    RetryChanges(p);
    RetryKeepsTable(p);
    QueueAppended(s.queue, request, request);
    OnlyRetried(s.pending, RetryNext(s).pending, RetryNext(p).pending, request, s.stale[0].id, s.clock);
  }

  /** One entry of the request changes alike in both. */
  lemma OnlyRetried(before: map<RequestId, Pending>, after: map<RequestId, Pending>, own: map<RequestId, Pending>,
                    request: Request, id: RequestId, clock: nat)
    requires after.Keys == before.Keys && forall x :: x in before && x != id ==> after[x] == before[x]
    requires id in before ==> before[id].request == request
                              && after[id] == Pending(request, before[id].retries + 1, clock)
    requires own.Keys == OnlyPending(before, request).Keys
    requires forall x :: x in own && x != id ==> own[x] == OnlyPending(before, request)[x]
    requires id in own ==> own[id] == Pending(request, OnlyPending(before, request)[id].retries + 1, clock)
    ensures own == OnlyPending(after, request)
  {
  }

  /** Entries of another request come and go. */
  lemma OnlyOthers(before: map<RequestId, Pending>, after: map<RequestId, Pending>, request: Request, id: RequestId)
    requires forall x :: x != id ==> (x in after <==> x in before)
    requires forall x :: x in before && x != id ==> after[x] == before[x]
    requires id in before ==> before[id].request != request
    requires id in after ==> after[id].request != request
    ensures OnlyPending(after, request) == OnlyPending(before, request)
  {
  }

  /** Handling a copy of another request, whether it is retried or given up on. */
  lemma OtherRetryChanges(s: State, request: Request)
    requires TableInv(s) && s.running && s.stale != [] && s.stale[0].request != request
    ensures var t := RetryNext(s);
            t.stale == s.stale[1..] && t.clock == s.clock && t.issued == s.issued && t.running
            && t.connected == s.connected && OnlyPending(t.pending, request) == OnlyPending(s.pending, request)
            && (t.queue == s.queue || t.queue == s.queue + [s.stale[0].request])
  {
    var e := s.stale[0];
    hide OnlyPending;
    if e.retries < MAX_RETRIES {
      RetryChanges(s);
      hide TableInv, RetryNext;
      OnlyOthers(s.pending, RetryNext(s).pending, request, e.id);
    } else {
      assert FreshCopy(s, e);
      hide TableInv, FreshCopy;
      LastRetryChanges(s);
      hide RetryNext;
      OnlyOthers(s.pending, RetryNext(s).pending, request, e.id);
    }
  }

  lemma OtherRetryShows(s: State, p: State, request: Request)
    requires TableInv(s) && Shows(s, p, request) && s.running && s.stale != [] && s.stale[0].request != request
    ensures Shows(RetryNext(s), p, request)
  {
    StaleTaken(s.stale, request);
    OtherRetryChanges(s, request);
    QueueAppended(s.queue, s.stale[0].request, request);
    hide TableInv, RetryNext, OnlyQueue, OnlyStale, OnlyPending;
    assert OnlyQueue(s.queue, request) + [] == OnlyQueue(s.queue, request);
  }

  lemma AloneShows(s: State, p: State, request: Request, a: Action)
    requires Shows(s, p, request) && Enabled(s, a) && LeavesAlone(s, a, request)
    ensures Shows(Apply(s, a), p, request)
  {
    AloneKeeps(s, a, request);
    hide TableInv, Apply, OnlyQueue, OnlyStale, OnlyPending;
  }

  /** Everything the checker and the loop look at besides queue and table. */
  predicate SameSides(s: State, t: State) {
    t.stale == s.stale && t.clock == s.clock && t.issued == s.issued && (t.connected ==> s.connected)
  }

  lemma AloneKeeps(s: State, a: Action, request: Request)
    requires Enabled(s, a) && LeavesAlone(s, a, request)
    ensures SameSides(s, Apply(s, a))
  {
    hide Receive, OnlyQueue, OnlyPending;
    if a.Receiving? {
      ReceiveSides(s, a.msg);
    }
  }

  lemma ReceiveSides(s: State, msg: Incoming)
    ensures SameSides(s, Receive(s, msg))
  {
    hide HandleReply, HandleError, Matches, ExpectedReply, Notify, GiveUp;
    NoteSides(s, MessageErrorNote);
    match msg
    case Decoded(None, Some(id)) =>
      if id in s.pending {
        RemovalSides(s, id);
      }
    case Decoded(Some(response), requestId) =>
      if response.Error? {
        ErrorSides(s, response.code, requestId);
      } else {
        ReplySides(if requestId.Some? then s.(pending := s.pending - {requestId.value}) else s, response);
      }
    case _ =>
  }

  lemma ErrorSides(s: State, code: string, requestId: Option<RequestId>)
    ensures SameSides(s, HandleError(s, code, requestId))
  {
    hide Notify, GiveUp, CacheUnknown;
    if requestId.None? || requestId.value !in s.pending {
      NoteSides(s, MessageErrorNote);
    } else {
      var id, request := requestId.value, s.pending[requestId.value].request;
      RemovalSides(s, id);
      if code == "UNAUTHORIZED" && request.FetchUser? {
        NoteSides(CacheUnknown(s, id), UserNote(request.id));
      } else {
        NoteSides(GiveUp(s, id), MessageErrorNote);
      }
    }
  }

  lemma NoteSides(s: State, note: Notification)
    ensures SameSides(s, Notify(s, note))
  {
  }

  lemma RemovalSides(s: State, id: RequestId)
    requires id in s.pending
    ensures SameSides(s, GiveUp(s, id))
    ensures s.pending[id].request.FetchUser? ==> SameSides(s, CacheUnknown(s, id))
  {
  }

  lemma ReplySides(s: State, response: Response)
    ensures SameSides(s, HandleReply(s, response))
  {
    hide HandleOrg, HandleWallet, HandleUser, Notify;
    match response
    case Connected(_, _) => NoteSides(s, ConnectedNote);
    case DeleteUserOrg(user, org) => NoteSides(s.(orgs := s.orgs - {org}), UpdateNote);
    case OrgReply(org) => OrgSides(s, org);
    case WalletReply(wallet) => WalletSides(s, wallet);
    case UserReply(user) => UserSides(s, user);
    case _ =>
  }

  lemma OrgSides(s: State, org: Org)
    ensures SameSides(s, HandleOrg(s, org))
  {
    hide MissingUsers, MissingWallets, SortedIds, UserFetch;
  }

  lemma WalletSides(s: State, wallet: Wallet)
    ensures SameSides(s, HandleWallet(s, wallet))
  {
    hide UserFetches, Editors, WithWallet, UserFetch;
  }

  lemma UserSides(s: State, user: User)
    ensures SameSides(s, HandleUser(s, user))
  {
    hide UserFetch;
  }

  /** The events of the request's own run that one event amounts to: one or none. */
  ghost predicate Mirrors(s: State, p: State, a: Action, own: seq<Action>, request: Request)
    requires Enabled(s, a)
  {
    |own| <= 1 && (forall b :: b in own ==> IsSilent(b) && (b.Ticking? ==> a.Ticking?) && !GivesUp(p, b, request))
    && IsRun(p, own) && Shows(Apply(s, a), After(p, own), request)
    && |After(p, own).issued| == |p.issued| + WritesIt(s, a, request)
  }

  lemma MirrorsNone(s: State, p: State, a: Action, request: Request)
    requires Enabled(s, a) && Shows(Apply(s, a), p, request) && WritesIt(s, a, request) == 0
    ensures Mirrors(s, p, a, [], request)
  {
    hide Apply, Enabled, Shows, WritesIt;
  }

  lemma MirrorsOne(s: State, p: State, a: Action, request: Request)
    requires Enabled(s, a) && Enabled(p, a) && IsSilent(a) && !GivesUp(p, a, request)
    requires Shows(Apply(s, a), Apply(p, a), request)
    requires |Apply(p, a).issued| == |p.issued| + WritesIt(s, a, request)
    ensures Mirrors(s, p, a, [a], request)
  {
    hide Apply, Enabled, Shows, WritesIt, GivesUp;
    assert [a][1..] == [];
    assert IsRun(Apply(p, a), []) && After(Apply(p, a), []) == Apply(p, a);
    assert IsRun(p, [a]) && After(p, [a]) == Apply(p, a);
  }

  lemma CheckIssues(s: State)
    ensures CheckTimeouts(s).issued == s.issued
  {
  }

  lemma StepMirrors(s: State, p: State, request: Request, a: Action) returns (own: seq<Action>)
    requires TableInv(s) && s.running && Shows(s, p, request) && MayAsk(request)
    requires Enabled(s, a) && Allowed(s, a, request) && !GivesUp(s, a, request)
    ensures Mirrors(s, p, a, own, request) && TableInv(Apply(s, a)) && Apply(s, a).running
  {
    hide TableInv, SendNext, RetryNext, CheckTimeouts, LeavesAlone, OnlyQueue, OnlyStale, OnlyPending, Mirrors;
    StepKeepsTable(s, a);
    StillRuns(s, a, request);
    own := [a];
    match a
    case Ticking(duration) =>
      TickShows(s, p, request, duration);
      MirrorsOne(s, p, a, request);
    case CheckingTimeouts =>
      CheckShows(s, p, request);
      NoStale(request);
      CheckIssues(p);
      MirrorsOne(s, p, a, request);
    case Retrying =>
      if s.stale[0].request == request {
        RetryShows(s, p, request);
        MirrorsOne(s, p, a, request);
      } else {
        own := [];
        OtherRetryShows(s, p, request);
        MirrorsNone(s, p, a, request);
      }
    case Send(newId, ok) =>
      if s.queue[0] == request {
        SendIsWritten(s, p, request, a);
        MirrorsOne(s, p, a, request);
      } else {
        own := [];
        SendIsOther(s, p, request, a);
        MirrorsNone(s, p, a, request);
      }
    case _ =>
      own := [];
      AloneShows(s, p, request, a);
      MirrorsNone(s, p, a, request);
  }

  lemma NoStale(request: Request)
    ensures OnlyStale([], request) == []
  {
  }

  lemma StillRuns(s: State, a: Action, request: Request)
    requires s.running && Enabled(s, a) && Allowed(s, a, request)
    ensures Apply(s, a).running
  {
    hide OnlyQueue, OnlyPending;
    if a.Send? {
      SentFields(s, a.newId);
      hide SendNext;
    } else if a.Retrying? {
      BumpFields(s.(stale := s.stale[1..]), s.stale[0].id);
      hide Bumped;
    } else if a.CheckingTimeouts? {
      CheckLaw(s);
      hide CheckTimeouts;
    }
  }

  lemma SendIsWritten(s: State, p: State, request: Request, a: Action)
    requires TableInv(s) && s.running && Shows(s, p, request) && MayAsk(request)
    requires a.Send? && Enabled(s, a) && Allowed(s, a, request) && s.queue[0] == request
    ensures Enabled(p, a) && IsSilent(a) && Shows(Apply(s, a), Apply(p, a), request)
    ensures |Apply(p, a).issued| == |p.issued| + 1
  {
    hide LeavesAlone, TableInv, SendNext, OnlyQueue, OnlyStale, OnlyPending;
    AloneIsNoSend(s, a, request);
    WriteShows(s, p, request, a.newId);
  }

  lemma SendIsOther(s: State, p: State, request: Request, a: Action)
    requires TableInv(s) && s.running && Shows(s, p, request)
    requires a.Send? && Enabled(s, a) && Allowed(s, a, request) && s.queue[0] != request
    ensures Shows(Apply(s, a), p, request)
  {
    hide LeavesAlone, TableInv, SendNext, OnlyQueue, OnlyStale, OnlyPending;
    AloneIsNoSend(s, a, request);
    OtherWriteShows(s, p, request, a.newId);
  }

  lemma AloneIsNoSend(s: State, a: Action, request: Request)
    requires a.Send? && Enabled(s, a)
    ensures !LeavesAlone(s, a, request)
  {
  }

  // ----- whole runs -----

  lemma MirroredTimeouts(p: State, own: seq<Action>, request: Request)
    requires |own| <= 1 && IsRun(p, own) && forall b :: b in own ==> IsSilent(b) && !GivesUp(p, b, request)
    requires forall i :: 0 <= i < |p.stale| ==> p.stale[i].request == request
    ensures Timeouts(After(p, own).notes) == Timeouts(p.notes)
  {
    hide Timeouts, Apply;
    if own != [] {
      assert own[0] in own;
      StepTimeouts(p, own[0]);
    }
  }

  lemma {:induction false} OnlyStaleIsOfIt(stale: seq<Stale>, request: Request)
    ensures forall i :: 0 <= i < |OnlyStale(stale, request)| ==> OnlyStale(stale, request)[i].request == request
  {
    if stale != [] {
      OnlyStaleIsOfIt(stale[1..], request);
    }
  }

  /** At most one event before a run. */
  lemma Joins(p: State, own: seq<Action>, rest: seq<Action>)
    requires |own| <= 1 && IsRun(p, own) && IsRun(After(p, own), rest)
    requires forall b :: b in own + rest ==> IsSilent(b)
    ensures IsRun(p, own + rest) && After(p, own + rest) == After(After(p, own), rest)
    ensures IsSilentRun(After(p, own), rest) && (own != [] && own[0].Ticking? ==> p.stale == []) ==>
              IsSilentRun(p, own + rest)
  {
    hide Apply, Enabled, IsSilent;
    if own == [] {
      assert own + rest == rest;
    } else {
      assert (own + rest)[1..] == rest && own[1..] == [];
      assert own[0] in own + rest;
    }
  }

  lemma {:induction false} RunMirrors(s: State, p: State, request: Request, actions: seq<Action>)
    returns (own: seq<Action>)
    requires TableInv(s) && s.running && Shows(s, p, request) && MayAsk(request)
    requires IsRun(s, actions) && IsQuietRun(s, actions, request) && NoTimeout(s, actions, request)
    ensures IsRun(p, own) && forall b :: b in own ==> IsSilent(b)
    ensures ClockRests(s, actions, request) ==> IsSilentRun(p, own)
    ensures Shows(After(s, actions), After(p, own), request)
    ensures |After(p, own).issued| == |p.issued| + Writes(s, actions, request)
    ensures Timeouts(After(p, own).notes) == Timeouts(p.notes)
    decreases |actions|
  {
    if actions == [] {
      own := [];
    } else {
      var a := actions[0];
      var step := StepMirrors(s, p, request, a);
      OnlyStaleIsOfIt(s.stale, request);
      MirroredTimeouts(p, step, request);
      hide TableInv, Apply, Enabled, IsSilent, Allowed, GivesUp, Timeouts, WritesIt, OnlyStale, OnlyQueue, OnlyPending;
      var rest := RunMirrors(Apply(s, a), After(p, step), request, actions[1..]);
      Joins(p, step, rest);
      own := step + rest;
    }
  }

  // ----- one request among many -----

  /** A request that is queued once, not written yet, on a running connection. */
  ghost predicate QueuedOnce(s: State, request: Request) {
    TableInv(s) && s.running && MayAsk(request) && OnlyQueue(s.queue, request) == [request]
    && OnlyPending(s.pending, request) == map[] && OnlyStale(s.stale, request) == []
  }

  /** The checker works on an id of the request that it will not retry again. */
  predicate LastCheckOf(s: State, request: Request) {
    exists i :: 0 <= i < |s.stale| && s.stale[i].request == request && s.stale[i].retries >= MAX_RETRIES
  }

  function OnItsOwn(s: State, request: Request): State {
    Initial().(connected := s.connected, running := true, queue := [request], clock := s.clock)
  }

  lemma StartsOnItsOwn(s: State, request: Request)
    requires QueuedOnce(s, request)
    ensures Shows(s, OnItsOwn(s, request), request) && OneQueued(OnItsOwn(s, request), request)
    ensures OnItsOwn(s, request).issued == {}
  {
    InitialTable();
    QueueChangeKeepsTable(Initial(), OnItsOwn(s, request));
    hide TableInv, OnlyQueue, OnlyPending, OnlyStale;
  }

  lemma {:induction false} OnlyStaleHas(stale: seq<Stale>, request: Request, e: Stale)
    requires e in OnlyStale(stale, request)
    ensures e in stale && e.request == request
  {
    if e !in OnlyStale(stale[1..], request) {
      assert e == stale[0];
    } else {
      OnlyStaleHas(stale[1..], request, e);
    }
  }

  lemma NoOwnLastCheck(s: State, p: State, request: Request)
    requires Shows(s, p, request) && !LastCheckOf(s, request)
    ensures !LastCheck(p)
  {
    hide TableInv, OnlyQueue, OnlyPending, OnlyStale;
    forall i | 0 <= i < |p.stale| ensures p.stale[i].retries < MAX_RETRIES {
      OnlyStaleHas(s.stale, request, p.stale[i]);
    }
  }

  /**
   However many other requests are asked, answered and retried meanwhile: a request that is not
   answered is written at most fifteen times before a timeout of it is reported, and at most eight
   times before the checker finds one of its ids too old that it has retried three times already.
   If the clock may move while the checker handles its copies, it is written at most 37 times.
   */
  lemma CopiesOfOne(s: State, request: Request, actions: seq<Action>)
    requires QueuedOnce(s, request)
    requires IsRun(s, actions) && IsQuietRun(s, actions, request) && NoTimeout(s, actions, request)
    ensures Writes(s, actions, request) <= 37
    ensures ClockRests(s, actions, request) ==> Writes(s, actions, request) <= 15
    ensures ClockRests(s, actions, request) && !LastCheckOf(After(s, actions), request) ==>
              Writes(s, actions, request) <= 8
  {
    var p := OnItsOwn(s, request);
    StartsOnItsOwn(s, request);
    hide QueuedOnce, OnItsOwn, OneQueued, Timeouts, LastCheck, LastCheckOf, IsSilent;
    ShowsNoMore(s, p, request);
    var own := RunMirrors(s, p, request, actions);
    hide Shows;
    assert After(p, own).issued - p.issued == After(p, own).issued;
    CopiesWhateverTheClock(p, request, own);
    if ClockRests(s, actions, request) {
      CopiesBeforeTimeout(p, request, own);
      if !LastCheckOf(After(s, actions), request) {
        NoOwnLastCheck(After(s, actions), After(p, own), request);
      }
    }
  }

  lemma ShowsNoMore(s: State, p: State, request: Request)
    requires QueuedOnce(s, request)
    ensures TableInv(s) && s.running && MayAsk(request)
  {
  }
}
