/**
 What becomes of a request that is never answered while the connection lasts: it is never
 given up, whatever the checker says of the ids it was written under.
 */
module WsWaiting {
  import opened Wrappers
  import opened WsModel
  import opened WsRuns
  import opened WsRetries

  /** A message that settles a pending request: an accepted reply, an error, or one that cannot be decoded. */
  predicate Answers(s: State, msg: Incoming, request: Request) {
    msg.Decoded? && msg.requestId.Some? && msg.requestId.value in s.pending
    && s.pending[msg.requestId.value].request == request
    && (msg.response.Some? ==> Matches(msg.response.value, ExpectedReply(request)))
  }

  /** The connection lasts, and no message answers the request; anything else may happen. */
  predicate LeavesUnanswered(s: State, a: Action, request: Request) {
    match a
    case Send(_, ok) => ok
    case Receiving(msg) => !Answers(s, msg, request)
    case CheckingTimeouts => true
    case Retrying => true
    case Ticking(_) => true
    case Asking(_) => true
    case LosingPing => true
    case _ => false
  }

  ghost predicate IsUnansweredRun(s: State, actions: seq<Action>, request: Request)
    requires IsRun(s, actions)
    decreases |actions|
  {
    actions == []
    || (LeavesUnanswered(s, actions[0], request) && IsUnansweredRun(Apply(s, actions[0]), actions[1..], request))
  }

  ghost predicate Lasts(s: State) {
    TableInv(s) && s.running && Close !in s.queue
  }

  /** An id under which a request waits that was never retried. */
  ghost predicate WaitsUnder(s: State, request: Request, id: RequestId) {
    id in s.pending && s.pending[id].request == request && s.pending[id].retries == 0
  }

  /** A request is about to be written, or was written and not retried yet. */
  ghost predicate StillWaits(s: State, request: Request) {
    request in s.queue || exists id :: WaitsUnder(s, request, id)
  }

  lemma SendWaits(s: State, request: Request, newId: RequestId)
    requires Lasts(s) && StillWaits(s, request) && s.queue != [] && newId !in s.issued
    ensures Lasts(SendNext(s, newId, true)) && StillWaits(SendNext(s, newId, true), request)
  {
    var t := SendNext(s, newId, true);
    assert s.queue == [s.queue[0]] + s.queue[1..] && s.queue[0] in s.queue;
    SendKeepsTable(s, newId, true);
    SentFields(s, newId);
    NotPending(s, newId);
    hide TableInv, SendNext;
    if request in s.queue {
      if request !in t.queue {
        assert WaitsUnder(t, request, newId);
      }
    } else {
      var id :| WaitsUnder(s, request, id);
      assert WaitsUnder(t, request, id);
    }
  }

  lemma CopyMatches(s: State, e: Stale)
    requires TableInv(s) && e in s.stale
    ensures MayAsk(e.request)
    ensures e.id in s.pending ==> s.pending[e.id].request == e.request && s.pending[e.id].retries == e.retries
  {
    var i :| 0 <= i < |s.stale| && s.stale[i] == e;
    assert FreshCopy(s, s.stale[i]);
  }

  /** What handling a copied entry changes: the count of its id, which may go, and the queue. */
  lemma RetryFields(s: State)
    requires TableInv(s) && s.running && s.stale != []
    ensures var t, e := RetryNext(s), s.stale[0];
            t.running
            && (forall id :: id in s.pending && id != e.id ==> id in t.pending && t.pending[id] == s.pending[id])
            && t.queue == s.queue + (if e.retries < MAX_RETRIES then [e.request] else [])
            && MayAsk(e.request)
            && (e.id in s.pending ==> s.pending[e.id].request == e.request && s.pending[e.id].retries == e.retries)
  {
    var e := s.stale[0];
    CopyMatches(s, e);
    if e.retries < MAX_RETRIES {
      RetryChanges(s);
    } else {
      LastRetryChanges(s);
    }
    hide TableInv, RetryNext;
  }

  lemma RetryWaits(s: State, request: Request)
    requires Lasts(s) && StillWaits(s, request) && s.stale != []
    ensures Lasts(RetryNext(s)) && StillWaits(RetryNext(s), request)
  {
    var t := RetryNext(s);
    RetryKeepsTable(s);
    RetryFields(s);
    hide TableInv, RetryNext;
    if request !in t.queue {
      var id :| WaitsUnder(s, request, id);
      assert WaitsUnder(t, request, id);
    }
  }

  /** Nothing of an entry changes, and the queue grows by requests other than a closing. */
  ghost predicate Extends(s: State, t: State, kept: set<RequestId>) {
    t.running == s.running && s.queue <= t.queue && (Close !in s.queue ==> Close !in t.queue)
    && forall id :: id in s.pending && id in kept ==> id in t.pending && t.pending[id] == s.pending[id]
  }

  lemma ExtendsWaits(s: State, t: State, request: Request, kept: set<RequestId>)
    requires Lasts(s) && StillWaits(s, request) && Extends(s, t, kept) && TableInv(t)
    requires forall id :: WaitsUnder(s, request, id) ==> id in kept
    ensures Lasts(t) && StillWaits(t, request)
  {
    hide TableInv;
    if request !in t.queue {
      var id :| WaitsUnder(s, request, id);
      assert WaitsUnder(t, request, id);
    }
  }

  lemma ReplyExtends(s: State, response: Response)
    ensures Extends(s, HandleReply(s, response), s.pending.Keys) && HandleReply(s, response).pending == s.pending
  {
    hide Extends, UserFetches, MissingUsers, MissingWallets, SortedIds, Editors, WithWallet;
    match response
    case OrgReply(org) =>
      FetchesAreSendable(s.users, s.wallets, [], SortedIds(org.users));
      FetchesAreSendable(s.users, s.wallets, [], SortedIds(org.wallets));
      OrgExtends(s, org);
    case WalletReply(wallet) =>
      FetchesAreSendable(s.users, s.wallets, Editors(wallet), []);
      WalletExtends(s, wallet);
    case UserReply(user) => UserExtends(s, user);
    case _ => OtherReplyExtends(s, response);
  }

  lemma OrgExtends(s: State, org: Org)
    requires forall r :: r in MissingUsers(s.users, SortedIds(org.users)) ==> r.FetchUser?
    requires forall r :: r in MissingWallets(s.wallets, SortedIds(org.wallets)) ==> r.FetchWallet?
    ensures Extends(s, HandleOrg(s, org), s.pending.Keys) && HandleOrg(s, org).pending == s.pending
  {
    hide MissingUsers, MissingWallets, SortedIds;
  }

  lemma WalletExtends(s: State, wallet: Wallet)
    requires forall r :: r in UserFetches(s.users, Editors(wallet)) ==> r.FetchUser?
    ensures Extends(s, HandleWallet(s, wallet), s.pending.Keys) && HandleWallet(s, wallet).pending == s.pending
  {
    hide UserFetches, Editors, WithWallet;
  }

  lemma UserExtends(s: State, user: User)
    ensures Extends(s, HandleUser(s, user), s.pending.Keys) && HandleUser(s, user).pending == s.pending
  {
  }

  lemma OtherReplyExtends(s: State, response: Response)
    requires !response.OrgReply? && !response.WalletReply? && !response.UserReply?
    ensures Extends(s, HandleReply(s, response), s.pending.Keys) && HandleReply(s, response).pending == s.pending
  {
    hide Notify;
    NoteExtends(s, ConnectedNote);
    if response.DeleteUserOrg? {
      NoteExtends(s.(orgs := s.orgs - {response.orgId}), UpdateNote);
    }
  }

  lemma SameExtends(s: State)
    ensures Extends(s, s, s.pending.Keys)
  {
  }

  lemma ExtendsLess(s: State, t: State, id: RequestId)
    requires Extends(s, t, s.pending.Keys)
    ensures Extends(s, t, s.pending.Keys - {id})
    ensures id in s.pending ==> id in t.pending && t.pending[id] == s.pending[id]
  {
  }

  lemma NoteExtends(s: State, note: Notification)
    ensures Extends(s, Notify(s, note), s.pending.Keys) && Notify(s, note).pending == s.pending
  {
  }

  lemma RemovalExtends(s: State, id: RequestId)
    ensures Extends(s, Receive(s, Decoded(None, Some(id))), s.pending.Keys - {id})
  {
  }

  lemma ErrorExtends(s: State, code: string, requestId: Option<RequestId>)
    ensures var settled := if requestId.Some? then {requestId.value} else {};
            Extends(s, HandleError(s, code, requestId), s.pending.Keys - settled)
  {
    hide Notify, GiveUp, CacheUnknown;
    if requestId.None? || requestId.value !in s.pending {
      NoteExtends(s, MessageErrorNote);
    } else {
      var id, request := requestId.value, s.pending[requestId.value].request;
      RemovalFields(s, id);
      if code == "UNAUTHORIZED" && request.FetchUser? {
        NoteExtends(CacheUnknown(s, id), UserNote(request.id));
      } else {
        NoteExtends(GiveUp(s, id), MessageErrorNote);
      }
    }
  }

  lemma RemovalFields(s: State, id: RequestId)
    requires id in s.pending
    ensures GiveUp(s, id).pending == s.pending - {id} && GiveUp(s, id).queue == s.queue
            && GiveUp(s, id).running == s.running
    ensures s.pending[id].request.FetchUser? ==>
              CacheUnknown(s, id).pending == s.pending - {id} && CacheUnknown(s, id).queue == s.queue
              && CacheUnknown(s, id).running == s.running
  {
  }

  lemma AfterRemoval(s: State, t: State, requestId: Option<RequestId>)
    requires var u := if requestId.Some? then s.(pending := s.pending - {requestId.value}) else s;
             Extends(u, t, u.pending.Keys)
    ensures Extends(s, t, s.pending.Keys - if requestId.Some? then {requestId.value} else {})
  {
  }

  /** A message touches the entry it names at most, and that only if it answers it. */
  lemma ReceiveExtends(s: State, msg: Incoming)
    ensures var settled := if msg.Decoded? && msg.requestId.Some? then {msg.requestId.value} else {};
            Extends(s, Receive(s, msg), s.pending.Keys - settled)
            && (forall id :: id in settled && id in s.pending && !Answers(s, msg, s.pending[id].request) ==>
                  id in Receive(s, msg).pending && Receive(s, msg).pending[id] == s.pending[id])
  {
    hide HandleReply, HandleError, Extends, ExpectedReply;
    assert s.pending.Keys - {} == s.pending.Keys;
    match msg
    case Decoded(Some(response), requestId) =>
      if response.Error? {
        ErrorExtends(s, response.code, requestId);
      } else if Mismatched(s, response, requestId) {
        NoteExtends(s, MessageErrorNote);
        ExtendsLess(s, Receive(s, msg), requestId.value);
      } else {
        var u := if requestId.Some? then s.(pending := s.pending - {requestId.value}) else s;
        ReplyExtends(u, response);
        AfterRemoval(s, HandleReply(u, response), requestId);
      }
    case Undecodable => NoteExtends(s, MessageErrorNote);
    case Decoded(None, Some(id)) => RemovalExtends(s, id);
    case Decoded(None, None) => SameExtends(s);
  }

  lemma ReceiveWaits(s: State, request: Request, msg: Incoming)
    requires Lasts(s) && StillWaits(s, request) && !Answers(s, msg, request)
    ensures Lasts(Receive(s, msg)) && StillWaits(Receive(s, msg), request)
  {
    var t := Receive(s, msg);
    ReceiveKeepsTable(s, msg);
    ReceiveExtends(s, msg);
    hide TableInv, Receive, Answers;
    var kept := set id | id in s.pending && id in t.pending && t.pending[id] == s.pending[id];
    ExtendsWaits(s, t, request, kept);
  }

  lemma AskWaits(s: State, request: Request, asked: Request)
    requires Lasts(s) && StillWaits(s, request) && MayAsk(asked)
    ensures Lasts(Ask(s, asked)) && StillWaits(Ask(s, asked), request)
  {
    AskKeepsTable(s, asked);
    hide TableInv, StillWaits;
    ExtendsWaits(s, Ask(s, asked), request, s.pending.Keys);
  }

  lemma OthersWait(s: State, request: Request, a: Action)
    requires Lasts(s) && StillWaits(s, request) && Enabled(s, a)
    requires a.Ticking? || a.CheckingTimeouts? || a.LosingPing?
    ensures Lasts(Apply(s, a)) && StillWaits(Apply(s, a), request)
  {
    StepKeepsTable(s, a);
    CheckLaw(s);
    hide StillWaits, TableInv, CheckTimeouts;
    ExtendsWaits(s, Apply(s, a), request, s.pending.Keys);
  }

  lemma StepWaits(s: State, request: Request, a: Action)
    requires Lasts(s) && StillWaits(s, request) && Enabled(s, a) && LeavesUnanswered(s, a, request)
    ensures Lasts(Apply(s, a)) && StillWaits(Apply(s, a), request)
  {
    hide StillWaits, TableInv, SendNext, RetryNext, Receive, Ask, CheckTimeouts;
    match a
    case Send(newId, _) => SendWaits(s, request, newId);
    case Retrying => RetryWaits(s, request);
    case Receiving(msg) => ReceiveWaits(s, request, msg);
    case Asking(asked) => AskWaits(s, request, asked);
    case Ticking(_) => OthersWait(s, request, a);
    case CheckingTimeouts => OthersWait(s, request, a);
    case LosingPing => OthersWait(s, request, a);
    case _ => assert false;
  }

  /**
   The comment on the checker says that it aborts a request after three retries. It does so with
   ids only: in every run in which the connection lasts and no message answers a request, with
   any other requests and replies under way, that request stays queued or pending under an id
   that was not retried yet.
   */
  lemma {:induction false} NeverAborted(s: State, request: Request, actions: seq<Action>)
    requires Lasts(s) && StillWaits(s, request)
    requires IsRun(s, actions) && IsUnansweredRun(s, actions, request)
    ensures Lasts(After(s, actions)) && StillWaits(After(s, actions), request)
    decreases |actions|
  {
    hide Lasts, StillWaits, Apply, Enabled;
    if actions != [] {
      StepWaits(s, request, actions[0]);
      NeverAborted(Apply(s, actions[0]), request, actions[1..]);
    }
  }
}
