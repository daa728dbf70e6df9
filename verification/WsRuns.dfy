/** What every run of the client keeps. */
module WsRuns {
  import opened Wrappers
  import opened WsModel

  // ----- runs -----

  /** One event, with the choices the environment makes. */
  datatype Action =
    | Send(newId: RequestId, ok: bool)
    | Receiving(msg: Incoming)
    | Losing
    | CheckingTimeouts
    | Retrying
    | Ticking(duration: nat)
    | Asking(request: Request)
    | LosingPing
    | Closing
    | LoggingOut
    | Opening(user: Uuid)

  /** The user interface and the ping thread never ask for a connection or its end this way. */
  predicate MayAsk(request: Request) {
    !request.Connect? && !request.Close?
  }

  /** Replies to fetches carry the object that was asked for. */
  predicate Honest(s: State, msg: Incoming) {
    msg.Decoded? && msg.response.Some? && msg.requestId.Some? && msg.requestId.value in s.pending ==>
      match (s.pending[msg.requestId.value].request, msg.response.value)
      case (FetchUser(id), UserReply(user)) => user.uuid == id
      case (FetchWallet(id), WalletReply(wallet)) => wallet.id == id
      case _ => true
  }

  ghost predicate Distinct(ids: seq<RequestId>) {
    forall i, j :: 0 <= i < j < |ids| ==> ids[i] != ids[j]
  }

  /** When an event can happen. Request ids are drawn at random and never repeat. */
  ghost predicate Enabled(s: State, a: Action) {
    match a
    case Send(newId, _) => s.running && s.queue != [] && newId !in s.issued
    case Receiving(msg) => s.running
    case Losing => s.running
    case CheckingTimeouts => s.connected && s.stale == []
    case Retrying => s.stale != []
    case Ticking(_) => true
    case Asking(request) => MayAsk(request)
    case LosingPing => s.connected
    case Closing => true
    case LoggingOut => true
    case Opening(_) => !s.running
  }

  ghost function Apply(s: State, a: Action): State
    requires Enabled(s, a)
  {
    match a
    case Send(newId, ok) => SendNext(s, newId, ok)
    case Receiving(msg) => Receive(s, msg)
    case Losing => ConnectionLost(s)
    case CheckingTimeouts => CheckTimeouts(s)
    case Retrying => RetryNext(s)
    case Ticking(duration) => Tick(s, duration)
    case Asking(request) => Ask(s, request)
    case LosingPing => PingTimeout(s)
    case Closing => CloseConnection(s)
    case LoggingOut => Logout(s)
    case Opening(user) => Open(s, user)
  }

  /** A run whose every step can happen. */
  ghost predicate IsRun(s: State, actions: seq<Action>)
    decreases |actions|
  {
    actions == [] || (Enabled(s, actions[0]) && IsRun(Apply(s, actions[0]), actions[1..]))
  }

  ghost function After(s: State, actions: seq<Action>): State
    requires IsRun(s, actions)
    decreases |actions|
  {
    if actions == [] then s else After(Apply(s, actions[0]), actions[1..])
  }

  /** A run in which every reply to a fetch is about what was asked. */
  ghost predicate IsHonestRun(s: State, actions: seq<Action>)
    requires IsRun(s, actions)
    decreases |actions|
  {
    actions == []
    || ((actions[0].Receiving? ==> Honest(s, actions[0].msg)) && IsHonestRun(Apply(s, actions[0]), actions[1..]))
  }

  // ----- the table of pending requests -----

  predicate Sendable(request: Request) {
    !request.Connect?
  }

  ghost predicate QueueInv(queue: seq<Request>) {
    forall r :: r in queue ==> Sendable(r)
  }

  ghost predicate PendingInv(s: State) {
    forall id :: id in s.pending ==>
      id in s.issued && id in s.resent && MayAsk(s.pending[id].request)
      && s.pending[id].retries == s.resent[id] && id !in s.timedOut
  }

  /** A copied entry is still what the table has for its id, if the table still has it. */
  ghost predicate FreshCopy(s: State, e: Stale) {
    e.id in s.issued && e.id in s.resent && MayAsk(e.request) && e.retries == s.resent[e.id] && e.id !in s.timedOut
    && (e.id in s.pending ==> s.pending[e.id].request == e.request)
  }

  ghost predicate StaleInv(s: State) {
    (forall i :: 0 <= i < |s.stale| ==> FreshCopy(s, s.stale[i]))
    && forall i, j :: 0 <= i < j < |s.stale| ==> s.stale[i].id != s.stale[j].id
  }

  ghost predicate HistoryInv(s: State) {
    (forall id :: id in s.resent ==> id in s.issued && s.resent[id] <= MAX_RETRIES)
    && (forall id :: id in s.timedOut ==> id in s.resent && s.resent[id] == MAX_RETRIES)
    && |s.timedOut| == Timeouts(s.notes)
  }

  /** What every reachable table, queue and checker snapshot satisfies. */
  ghost predicate TableInv(s: State) {
    QueueInv(s.queue) && PendingInv(s) && StaleInv(s) && HistoryInv(s)
  }

  /** How often the user was told that a request timed out. */
  function Timeouts(notes: seq<Notification>): nat {
    if notes == [] then 0
    else Timeouts(notes[..|notes| - 1]) + if notes[|notes| - 1].RequestTimeoutNote? then 1 else 0
  }

  lemma TimeoutsOfNotify(s: State, note: Notification)
    ensures Timeouts(Notify(s, note).notes) == Timeouts(s.notes) + if note.RequestTimeoutNote? then 1 else 0
  {
    assert (s.notes + [note])[..|s.notes|] == s.notes;
  }

  lemma InitialTable()
    ensures TableInv(Initial())
  {
  }

  /** Everything a table invariant talks about, apart from the queue. */
  predicate SameTable(s: State, t: State) {
    t.pending == s.pending && t.stale == s.stale && t.issued == s.issued && t.resent == s.resent
    && t.timedOut == s.timedOut
  }

  lemma EnqueueKeepsTable(s: State, requests: seq<Request>)
    requires TableInv(s) && forall r :: r in requests ==> Sendable(r)
    ensures TableInv(Enqueue(s, requests)) && SameTable(s, Enqueue(s, requests))
  {
  }

  lemma NotifyKeepsTable(s: State, note: Notification)
    requires TableInv(s) && !note.RequestTimeoutNote?
    ensures TableInv(Notify(s, note))
  {
    TimeoutsOfNotify(s, note);
  }

  lemma {:induction false} FetchesAreSendable(users: map<Uuid, User>, wallets: map<Uuid, Wallet>,
                                              editors: seq<Option<Uuid>>, ids: seq<Uuid>)
    ensures forall r :: r in UserFetches(users, editors) ==> r.FetchUser?
    ensures forall r :: r in MissingUsers(users, ids) ==> r.FetchUser?
    ensures forall r :: r in MissingWallets(wallets, ids) ==> r.FetchWallet?
    decreases |editors| + |ids|
  {
    if editors != [] {
      FetchesAreSendable(users, wallets, editors[1..], ids);
    } else if ids != [] {
      FetchesAreSendable(users, wallets, editors, ids[1..]);
    }
  }

  lemma HandleReplyKeepsTable(s: State, response: Response)
    requires TableInv(s)
    ensures TableInv(HandleReply(s, response))
    ensures SameTable(s, HandleReply(s, response))
  {
    hide TableInv;
    match response
    case OrgReply(org) =>
      FetchesAreSendable(s.users, s.wallets, [], SortedIds(org.users));
      FetchesAreSendable(s.users, s.wallets, [], SortedIds(org.wallets));
      var s1 := Enqueue(s, UserFetch(s.users, org.lastEditor));
      EnqueueKeepsTable(s, UserFetch(s.users, org.lastEditor));
      var s2 := s1.(orgs := s1.orgs[org.id := org]);
      CachesKeepTable(s1, s2);
      EnqueueKeepsTable(s2, MissingUsers(s2.users, SortedIds(org.users)));
      var s3 := Enqueue(s2, MissingUsers(s2.users, SortedIds(org.users)));
      EnqueueKeepsTable(s3, MissingWallets(s3.wallets, SortedIds(org.wallets)));
      var s4 := Enqueue(s3, MissingWallets(s3.wallets, SortedIds(org.wallets)));
      NotifyKeepsTable(s4, OrgNote(org.id));
    case WalletReply(w) =>
      FetchesAreSendable(s.users, s.wallets, Editors(w), []);
      var s1 := Enqueue(s, UserFetches(s.users, Editors(w)));
      EnqueueKeepsTable(s, UserFetches(s.users, Editors(w)));
      var s2 := s1.(wallets := s1.wallets[w.id := w], orgs := WithWallet(s1.orgs, w));
      CachesKeepTable(s1, s2);
      EnqueueKeepsTable(s2, UserFetch(s2.users, Some(w.owner)));
      NotifyKeepsTable(Enqueue(s2, UserFetch(s2.users, Some(w.owner))), WalletNote(w.id));
    case UserReply(user) =>
      var s1 := Enqueue(s, UserFetch(s.users, user.lastEditor));
      EnqueueKeepsTable(s, UserFetch(s.users, user.lastEditor));
      var s2 := s1.(users := s1.users[user.uuid := user]);
      CachesKeepTable(s1, s2);
      NotifyKeepsTable(s2, UserNote(user.uuid));
    case DeleteUserOrg(user, org) =>
      CachesKeepTable(s, s.(orgs := s.orgs - {org}));
      NotifyKeepsTable(s.(orgs := s.orgs - {org}), UpdateNote);
    case Connected(_, _) => NotifyKeepsTable(s, ConnectedNote);
    case Pong => CachesKeepTable(s, s.(awaitingPong := false));
    case Error(_) =>
  }

  /** The table invariant does not look at the caches. */
  lemma CachesKeepTable(s: State, t: State)
    requires TableInv(s) && SameTable(s, t) && t.queue == s.queue && t.notes == s.notes
    ensures TableInv(t)
  {
  }

  lemma RemovalKeepsTable(s: State, id: RequestId)
    requires TableInv(s)
    ensures TableInv(s.(pending := s.pending - {id}))
  {
  }

  lemma ReceiveKeepsTable(s: State, msg: Incoming)
    requires TableInv(s)
    ensures TableInv(Receive(s, msg))
  {
    hide TableInv;
    match msg
    case Undecodable => NotifyKeepsTable(s, MessageErrorNote);
    case Decoded(None, None) =>
    case Decoded(None, Some(id)) =>
      if id in s.pending {
        GiveUpKeepsTable(s, id);
      }
    case Decoded(Some(response), requestId) =>
      if response.Error? {
        ErrorKeepsTable(s, response.code, requestId);
      } else if Mismatched(s, response, requestId) {
        NotifyKeepsTable(s, MessageErrorNote);
      } else {
        if requestId.Some? {
          RemovalKeepsTable(s, requestId.value);
        }
        HandleReplyKeepsTable(if requestId.Some? then s.(pending := s.pending - {requestId.value}) else s, response);
      }
  }

  lemma GiveUpKeepsTable(s: State, id: RequestId)
    requires TableInv(s) && id in s.pending
    ensures TableInv(GiveUp(s, id))
  {
    RemovalKeepsTable(s, id);
    CachesKeepTable(s.(pending := s.pending - {id}), GiveUp(s, id));
  }

  lemma CacheUnknownKeepsTable(s: State, id: RequestId)
    requires TableInv(s) && id in s.pending && s.pending[id].request.FetchUser?
    ensures TableInv(CacheUnknown(s, id))
  {
    RemovalKeepsTable(s, id);
    CachesKeepTable(s.(pending := s.pending - {id}), CacheUnknown(s, id));
  }

  lemma ErrorKeepsTable(s: State, code: string, requestId: Option<RequestId>)
    requires TableInv(s)
    ensures TableInv(HandleError(s, code, requestId))
  {
    hide TableInv, GiveUp, CacheUnknown, Notify;
    if requestId.None? || requestId.value !in s.pending {
      NotifyKeepsTable(s, MessageErrorNote);
    } else {
      var id, request := requestId.value, s.pending[requestId.value].request;
      if code == "UNAUTHORIZED" && request.FetchUser? {
        CacheUnknownKeepsTable(s, id);
        NotifyKeepsTable(CacheUnknown(s, id), UserNote(request.id));
      } else {
        GiveUpKeepsTable(s, id);
        NotifyKeepsTable(GiveUp(s, id), MessageErrorNote);
      }
    }
  }

  /** A change of queue and connection state, the table left alone. */
  lemma QueueChangeKeepsTable(s: State, t: State)
    requires TableInv(s) && SameTable(s, t) && t.notes == s.notes && QueueInv(t.queue)
    ensures TableInv(t)
  {
  }

  lemma SentKeepsTable(s: State, newId: RequestId, request: Request)
    requires TableInv(s) && newId !in s.issued && MayAsk(request)
    ensures TableInv(Sent(s, newId, request))
  {
    var t := Sent(s, newId, request);
    hide Timeouts;
    forall i | 0 <= i < |t.stale| ensures FreshCopy(t, t.stale[i]) {
      assert FreshCopy(s, s.stale[i]);
    }
    hide FreshCopy;
  }

  lemma UnsentKeepsTable(s: State, newId: RequestId, request: Request)
    requires TableInv(s) && newId !in s.pending
    ensures TableInv(Unsent(s, newId, request))
  {
    var t := Unsent(s, newId, request);
    assert s.pending - {newId} == s.pending;
    hide Timeouts;
    forall i | 0 <= i < |t.stale| ensures FreshCopy(t, t.stale[i]) {
      assert FreshCopy(s, s.stale[i]);
    }
    hide FreshCopy;
  }

  lemma TakeKeepsTable(s: State, newId: RequestId)
    requires TableInv(s) && s.queue != [] && newId !in s.issued
    ensures TableInv(s.(queue := s.queue[1..])) && Sendable(s.queue[0]) && newId !in s.pending
  {
    assert s.queue[0] in s.queue;
    assert QueueInv(s.queue[1..]);
    hide StaleInv, HistoryInv;
    QueueChangeKeepsTable(s, s.(queue := s.queue[1..]));
  }

  lemma StoppedKeepsTable(s: State)
    requires TableInv(s)
    ensures TableInv(Stopped(s)) && TableInv(Stopped(s).(connected := false))
  {
    QueueChangeKeepsTable(s, Stopped(s));
    QueueChangeKeepsTable(s, Stopped(s).(connected := false));
  }

  lemma SendKeepsTable(s: State, newId: RequestId, ok: bool)
    requires TableInv(s) && s.queue != [] && newId !in s.issued
    ensures TableInv(SendNext(s, newId, ok))
  {
    TakeKeepsTable(s, newId);
    hide TableInv, Sent, Unsent, Stopped, Notify;
    var request, s1 := s.queue[0], s.(queue := s.queue[1..]);
    if request.Close? {
      StoppedKeepsTable(s1);
    } else if ok {
      SentKeepsTable(s1, newId, request);
    } else {
      UnsentKeepsTable(s1, newId, request);
      StoppedKeepsTable(Unsent(s1, newId, request));
      NotifyKeepsTable(Stopped(Unsent(s1, newId, request)), ConnectionErrorNote);
    }
  }

  /** What writing the next request changes. */
  lemma SentFields(s: State, newId: RequestId)
    requires s.queue != [] && !s.queue[0].Close?
    ensures var t := SendNext(s, newId, true);
            t.pending == s.pending[newId := Pending(s.queue[0], 0, s.clock)] && t.queue == s.queue[1..]
            && t.issued == s.issued + {newId} && t.stale == s.stale && t.clock == s.clock && t.notes == s.notes
            && t.running == s.running && t.connected == s.connected && t.users == s.users
  {
  }

  /** What taking a request to close changes. */
  lemma ClosedFields(s: State, newId: RequestId)
    requires s.queue != [] && s.queue[0].Close?
    ensures var t := SendNext(s, newId, true);
            t.pending == s.pending && t.queue == [] && t.issued == s.issued && t.users == s.users && !t.running
  {
  }

  /** The checker holds a copy of the entry of an id. */
  ghost predicate HasCopy(stale: seq<Stale>, id: RequestId) {
    exists i :: 0 <= i < |stale| && stale[i].id == id
  }

  predicate IsCopyOf(e: Stale, pending: map<RequestId, Pending>) {
    e.id in pending && e == Stale(e.id, pending[e.id].request, pending[e.id].retries)
  }

  ghost predicate DistinctCopies(stale: seq<Stale>) {
    forall i, j :: 0 <= i < j < |stale| ==> stale[i].id != stale[j].id
  }

  /** Every copy is of an entry that is too old, under one of the ids. */
  ghost predicate CopiesOld(stale: seq<Stale>, pending: map<RequestId, Pending>, clock: nat, ids: seq<RequestId>) {
    forall i :: 0 <= i < |stale| ==>
      IsCopyOf(stale[i], pending) && TooOld(pending[stale[i].id], clock) && stale[i].id in ids
  }

  lemma {:induction false} StaleAreOld(pending: map<RequestId, Pending>, clock: nat, ids: seq<RequestId>)
    requires forall id :: id in ids ==> id in pending
    ensures CopiesOld(StaleEntries(pending, clock, ids), pending, clock, ids)
  {
    if ids != [] {
      StaleAreOld(pending, clock, ids[1..]);
    }
  }

  lemma PrependCopy(e: Stale, stale: seq<Stale>, pending: map<RequestId, Pending>, clock: nat, ids: seq<RequestId>)
    requires DistinctCopies(stale) && CopiesOld(stale, pending, clock, ids) && e.id !in ids
    ensures DistinctCopies([e] + stale)
  {
  }

  lemma {:induction false} StaleAreDistinct(pending: map<RequestId, Pending>, clock: nat, ids: seq<RequestId>)
    requires Distinct(ids) && forall id :: id in ids ==> id in pending
    ensures DistinctCopies(StaleEntries(pending, clock, ids))
  {
    if ids != [] {
      assert forall i :: 0 < i < |ids| ==> ids[i] == ids[1..][i - 1];
      assert Distinct(ids[1..]);
      StaleAreDistinct(pending, clock, ids[1..]);
      StaleAreOld(pending, clock, ids[1..]);
      var entry, rest := pending[ids[0]], StaleEntries(pending, clock, ids[1..]);
      hide DistinctCopies, CopiesOld, Distinct;
      PrependCopy(Stale(ids[0], entry.request, entry.retries), rest, pending, clock, ids[1..]);
      assert [] + rest == rest;
    }
  }

  lemma {:induction false} OldAreCopied(pending: map<RequestId, Pending>, clock: nat, ids: seq<RequestId>,
                                        id: RequestId)
    requires forall x :: x in ids ==> x in pending
    requires id in ids && TooOld(pending[id], clock)
    ensures HasCopy(StaleEntries(pending, clock, ids), id)
  {
    var r, rest := StaleEntries(pending, clock, ids), StaleEntries(pending, clock, ids[1..]);
    if ids[0] == id {
      assert r[0].id == id;
    } else {
      OldAreCopied(pending, clock, ids[1..], id);
      var i :| 0 <= i < |rest| && rest[i].id == id;
      assert r[i + |r| - |rest|].id == id;
    }
  }

  /** The checker copies exactly the entries that are too old, one copy each. */
  ghost predicate CopiesExactly(stale: seq<Stale>, s: State) {
    (forall i :: 0 <= i < |stale| ==> IsCopyOf(stale[i], s.pending))
    && DistinctCopies(stale)
    && forall id :: id in s.pending ==> (HasCopy(stale, id) <==> TooOld(s.pending[id], s.clock))
  }

  lemma CheckLaw(s: State)
    ensures CopiesExactly(CheckTimeouts(s).stale, s)
    ensures CheckTimeouts(s) == s.(stale := CheckTimeouts(s).stale)
  {
    var ids := SortedIds(s.pending.Keys);
    var r := StaleEntries(s.pending, s.clock, ids);
    StaleAreOld(s.pending, s.clock, ids);
    StaleAreDistinct(s.pending, s.clock, ids);
    hide StaleEntries, DistinctCopies;
    forall id | id in s.pending ensures HasCopy(r, id) <==> TooOld(s.pending[id], s.clock) {
      if TooOld(s.pending[id], s.clock) {
        OldAreCopied(s.pending, s.clock, ids, id);
      }
    }
  }

  lemma CheckKeepsTable(s: State)
    requires TableInv(s)
    ensures TableInv(CheckTimeouts(s))
  {
    CheckLaw(s);
    hide CheckTimeouts, Timeouts;
    var t := CheckTimeouts(s);
    forall i | 0 <= i < |t.stale| ensures FreshCopy(t, t.stale[i]) {
      assert IsCopyOf(t.stale[i], s.pending);
    }
  }

  /** The snapshot without its first entry. */
  lemma PopKeepsTable(s: State)
    requires TableInv(s) && s.stale != []
    ensures TableInv(s.(stale := s.stale[1..])) && FreshCopy(s, s.stale[0])
    ensures NotCopied(s.(stale := s.stale[1..]), s.stale[0].id)
  {
    var t := s.(stale := s.stale[1..]);
    hide Timeouts;
    forall i | 0 <= i < |t.stale| ensures FreshCopy(t, t.stale[i]) && t.stale[i].id != s.stale[0].id {
      assert t.stale[i] == s.stale[i + 1] && FreshCopy(s, s.stale[i + 1]);
      assert s.stale[0].id != s.stale[i + 1].id;
    }
    forall i, j | 0 <= i < j < |t.stale| ensures t.stale[i].id != t.stale[j].id {
      assert s.stale[i + 1].id != s.stale[j + 1].id;
    }
  }

  ghost predicate NotCopied(s: State, id: RequestId) {
    forall i :: 0 <= i < |s.stale| ==> s.stale[i].id != id
  }

  /** Dropping an id after its last retry. */
  lemma DropKeepsTable(s: State, e: Stale)
    requires TableInv(s) && NotCopied(s, e.id)
    requires e.id in s.resent && s.resent[e.id] == MAX_RETRIES && e.id !in s.timedOut
    ensures TableInv(Notify(Dropped(s, e), RequestTimeoutNote))
  {
    var t := Notify(Dropped(s, e), RequestTimeoutNote);
    TimeoutsOfNotify(Dropped(s, e), RequestTimeoutNote);
    hide Timeouts;
    assert HistoryInv(t) by {
      hide StaleInv, PendingInv;
    }
    forall i | 0 <= i < |t.stale| ensures FreshCopy(t, t.stale[i]) {
      assert FreshCopy(s, s.stale[i]) && s.stale[i].id != e.id;
    }
    hide FreshCopy, HistoryInv;
  }

  /** What a retry changes: one count in the table and one in the history. */
  lemma BumpFields(s: State, id: RequestId)
    ensures var t := Bumped(s, id);
            t == s.(pending := t.pending, resent := t.resent)
            && t.resent == s.resent[id := Resends(s, id) + 1]
            && t.pending.Keys == s.pending.Keys
            && (forall other :: other in s.pending && other != id ==> t.pending[other] == s.pending[other])
            && (id in s.pending ==>
                  t.pending[id] == Pending(s.pending[id].request, s.pending[id].retries + 1, s.clock))
  {
  }

  lemma BumpKeepsTable(s: State, id: RequestId)
    requires TableInv(s) && NotCopied(s, id)
    requires id in s.resent && s.resent[id] < MAX_RETRIES
    ensures TableInv(Bumped(s, id))
  {
    var t := Bumped(s, id);
    hide Timeouts;
    BumpFields(s, id);
    hide Bumped;
    forall i | 0 <= i < |t.stale| ensures FreshCopy(t, t.stale[i]) {
      assert FreshCopy(s, s.stale[i]) && s.stale[i].id != id;
    }
    hide FreshCopy;
  }

  lemma RetryKeepsTable(s: State)
    requires TableInv(s) && s.stale != []
    ensures TableInv(RetryNext(s))
  {
    var e, s1 := s.stale[0], s.(stale := s.stale[1..]);
    PopKeepsTable(s);
    RetriesWithin(s1, e);
    hide TableInv, NotCopied, FreshCopy, Dropped, Bumped;
    if e.retries >= MAX_RETRIES {
      DropKeepsTable(s1, e);
    } else {
      BumpKeepsTable(s1, e.id);
      EnqueueKeepsTable(Bumped(s1, e.id), [e.request]);
    }
  }

  lemma RetriesWithin(s: State, e: Stale)
    requires TableInv(s) && FreshCopy(s, e)
    ensures e.retries <= MAX_RETRIES && MayAsk(e.request)
    ensures e.id in s.resent && s.resent[e.id] == e.retries && e.id !in s.timedOut
  {
  }

  lemma OpenKeepsTable(s: State, user: Uuid)
    requires TableInv(s)
    ensures TableInv(Open(s, user))
  {
    TimeoutsOfNotify(s, ConnectedNote);
  }

  lemma AskKeepsTable(s: State, request: Request)
    requires TableInv(s) && Sendable(request)
    ensures TableInv(Ask(s, request))
  {
    hide TableInv;
    if s.connected {
      EnqueueKeepsTable(s, [request]);
      var s1 := Enqueue(s, [request]);
      CachesKeepTable(s1, s1.(awaitingPong := true));
    } else {
      NotifyKeepsTable(s, DisconnectedNote);
    }
  }

  lemma CloseKeepsTable(s: State)
    requires TableInv(s)
    ensures TableInv(CloseConnection(s))
  {
    hide TableInv;
    EnqueueKeepsTable(s, [Close]);
    CachesKeepTable(Enqueue(s, [Close]), Enqueue(s, [Close]).(connected := false));
  }

  lemma OthersKeepTable(s: State, a: Action)
    requires TableInv(s) && Enabled(s, a)
    requires a.Losing? || a.Asking? || a.LosingPing? || a.Closing? || a.LoggingOut? || a.Opening?
    ensures TableInv(Apply(s, a))
  {
    match a
    case Losing =>
      StoppedKeepsTable(s);
      hide TableInv;
      NotifyKeepsTable(Stopped(s), DisconnectedNote);
    case Asking(request) => AskKeepsTable(s, request);
    case LosingPing =>
      CachesKeepTable(s, s.(connected := false));
      hide TableInv;
      NotifyKeepsTable(s.(connected := false), DisconnectedNote);
    case Closing => CloseKeepsTable(s);
    case LoggingOut =>
      CloseKeepsTable(s);
      CachesKeepTable(CloseConnection(s), Logout(s));
    case Opening(user) => OpenKeepsTable(s, user);
  }

  lemma StepKeepsTable(s: State, a: Action)
    requires TableInv(s) && Enabled(s, a)
    ensures TableInv(Apply(s, a))
  {
    hide TableInv;
    match a
    case Send(newId, ok) => SendKeepsTable(s, newId, ok);
    case Receiving(msg) => ReceiveKeepsTable(s, msg);
    case CheckingTimeouts => CheckKeepsTable(s);
    case Ticking(duration) => CachesKeepTable(s, Tick(s, duration));
    case Retrying => RetryKeepsTable(s);
    case _ => OthersKeepTable(s, a);
  }

  lemma {:induction false} RunKeepsTable(s: State, actions: seq<Action>)
    requires TableInv(s) && IsRun(s, actions)
    ensures TableInv(After(s, actions))
    decreases |actions|
  {
    if actions != [] {
      StepKeepsTable(s, actions[0]);
      RunKeepsTable(Apply(s, actions[0]), actions[1..]);
    }
  }

  /**
   In every run from the start: no connection request or closing is ever pending, retry
   counts stay within three, no id is sent again more than three times, and an id is
   reported as timed out at most once, after its three retries, and is then no longer pending.
   */
  lemma RetryBounds(actions: seq<Action>)
    requires IsRun(Initial(), actions)
    ensures var s := After(Initial(), actions);
            (forall id :: id in s.pending ==>
               s.pending[id].retries <= MAX_RETRIES && !s.pending[id].request.Close? && !s.pending[id].request.Connect?)
            && (forall id :: id in s.resent ==> s.resent[id] <= MAX_RETRIES)
            && (forall id :: id in s.timedOut ==> id in s.resent && s.resent[id] == MAX_RETRIES && id !in s.pending)
            && Timeouts(s.notes) == |s.timedOut|
  {
    InitialTable();
    RunKeepsTable(Initial(), actions);
  }

  /**
   A request stays pending exactly when the reply to it is of the wrong type, and then only the
   user hears of it: caches, queue and table stay as they were. Any other reply is the last one.
   */
  lemma MismatchChangesNothing(s: State, response: Response, id: RequestId)
    requires id in s.pending
    ensures var t := Receive(s, Decoded(Some(response), Some(id)));
            (id in t.pending <==> !Matches(response, ExpectedReply(s.pending[id].request)))
            && (id in t.pending ==> t == s.(notes := s.notes + [MessageErrorNote]))
            && (id !in t.pending ==> t.pending == s.pending - {id})
  {
    hide HandleReply, HandleError;
    ReplyKeepsPending(s.(pending := s.pending - {id}), response);
    if response.Error? {
      ErrorRemoves(s, response.code, id);
    }
  }

  lemma ErrorRemoves(s: State, code: string, id: RequestId)
    requires id in s.pending
    ensures HandleError(s, code, Some(id)).pending == s.pending - {id}
  {
    hide Notify;
    NotePending(GiveUp(s, id), MessageErrorNote);
    if s.pending[id].request.FetchUser? {
      NotePending(CacheUnknown(s, id), UserNote(s.pending[id].request.id));
    }
  }

  lemma NotePending(s: State, note: Notification)
    ensures Notify(s, note).pending == s.pending
  {
  }

  lemma ReplyKeepsPending(s: State, response: Response)
    ensures HandleReply(s, response).pending == s.pending
  {
    hide SortedIds, MissingUsers, MissingWallets, UserFetches, UserFetch, Editors, WithWallet;
  }

  /** Ids never run out. */
  lemma {:induction false} FreshBelow(issued: set<RequestId>, below: nat) returns (id: RequestId)
    requires |issued| < below
    ensures id < below && id !in issued
    decreases below
  {
    id := below - 1;
    if id in issued {
      id := FreshBelow(issued - {below - 1}, below - 1);
    }
  }

  lemma Smaller<T>(a: set<T>, b: set<T>)
    requires a <= b
    ensures |a| <= |b|
  {
    assert b == a + (b - a);
  }
}
