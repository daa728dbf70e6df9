/**
 Nothing a cached object mentions is forgotten: in every run with a server that answers
 what was asked, each user or wallet mentioned by the caches is cached, or being
 fetched, or was given up on.
 */
module WsClosure {
  import opened Wrappers
  import opened WsModel
  import opened WsRuns

  /** A request that is queued, waits for its reply, or was given up on. */
  ghost predicate Outstanding(s: State, r: Request) {
    r in s.queue || (exists id :: id in s.pending && s.pending[id].request == r) || r in s.abandoned
  }

  ghost predicate UserCovered(s: State, u: Uuid) {
    u in s.users || Outstanding(s, FetchUser(u))
  }

  ghost predicate WalletCovered(s: State, w: Uuid) {
    w in s.wallets || Outstanding(s, FetchWallet(w))
  }

  /** The nil user is never asked for. */
  ghost predicate EditorCovered(s: State, editor: Option<Uuid>) {
    editor.None? || editor.value == NIL || UserCovered(s, editor.value)
  }

  ghost predicate OrgCovered(s: State, org: Org) {
    (forall u :: u in org.users ==> UserCovered(s, u))
    && (forall w :: w in org.wallets ==> WalletCovered(s, w))
    && EditorCovered(s, org.lastEditor)
  }

  ghost predicate WalletDetailsCovered(s: State, wallet: Wallet) {
    (forall e :: e in Editors(wallet) ==> EditorCovered(s, e)) && EditorCovered(s, Some(wallet.owner))
  }

  /** Everything the caches mention is covered. */
  ghost predicate Closed(s: State) {
    (forall id :: id in s.orgs ==> OrgCovered(s, s.orgs[id]))
    && (forall id :: id in s.wallets ==> WalletDetailsCovered(s, s.wallets[id]))
    && (forall id :: id in s.users ==> EditorCovered(s, s.users[id].lastEditor))
  }

  /** Whatever is covered in `s` is covered in `t`. */
  ghost predicate Covers(t: State, s: State) {
    (forall u :: UserCovered(s, u) ==> UserCovered(t, u)) && forall w :: WalletCovered(s, w) ==> WalletCovered(t, w)
  }

  lemma CoversTransitive(a: State, b: State, c: State)
    requires Covers(b, a) && Covers(c, b)
    ensures Covers(c, a)
  {
  }

  /** Coverage only depends on the caches' keys and the requests that are about. */
  lemma CoversByParts(s: State, t: State)
    requires s.users.Keys <= t.users.Keys && s.wallets.Keys <= t.wallets.Keys
    requires forall r :: Outstanding(s, r) ==>
               Outstanding(t, r) || (r.FetchUser? && r.id in t.users) || (r.FetchWallet? && r.id in t.wallets)
               || (!r.FetchUser? && !r.FetchWallet?)
    ensures Covers(t, s)
  {
    forall u | UserCovered(s, u) ensures UserCovered(t, u) {
      assert u in s.users || Outstanding(s, FetchUser(u));
    }
    forall w | WalletCovered(s, w) ensures WalletCovered(t, w) {
      assert w in s.wallets || Outstanding(s, FetchWallet(w));
    }
  }

  /** A step that leaves the caches alone and loses nothing keeps them closed. */
  lemma SameCachesStayClosed(s: State, t: State)
    requires Closed(s) && Covers(t, s)
    requires t.orgs == s.orgs && t.wallets == s.wallets && t.users == s.users
    ensures Closed(t)
  {
    hide OrgCovered, WalletDetailsCovered, EditorCovered, Covers;
    forall id | id in t.orgs ensures OrgCovered(t, t.orgs[id]) {
      CoveredAlways(s, t);
    }
    forall id | id in t.wallets ensures WalletDetailsCovered(t, t.wallets[id]) {
      CoveredAlways(s, t);
    }
    forall id | id in t.users ensures EditorCovered(t, t.users[id].lastEditor) {
      CoveredAlways(s, t);
    }
  }

  lemma CoveredAlways(s: State, t: State)
    requires Covers(t, s)
    ensures forall org: Org :: OrgCovered(s, org) ==> OrgCovered(t, org)
    ensures forall wallet: Wallet :: WalletDetailsCovered(s, wallet) ==> WalletDetailsCovered(t, wallet)
    ensures forall editor: Option<Uuid> :: EditorCovered(s, editor) ==> EditorCovered(t, editor)
  {
    hide UserCovered, WalletCovered, Editors;
  }

  // ----- sending requests -----

  lemma EnqueueCovers(s: State, requests: seq<Request>)
    ensures Covers(Enqueue(s, requests), s)
    ensures s.running ==> forall r :: r in requests ==> Outstanding(Enqueue(s, requests), r)
  {
    var t := Enqueue(s, requests);
    forall r | Outstanding(s, r) ensures Outstanding(t, r) {
      if exists id :: id in s.pending && s.pending[id].request == r {
        var id :| id in s.pending && s.pending[id].request == r;
        assert t.pending[id].request == r;
      }
    }
    CoversByParts(s, t);
  }

  lemma UserFetchCovers(s: State, user: Option<Uuid>)
    requires s.running
    ensures EditorCovered(Enqueue(s, UserFetch(s.users, user)), user)
  {
    EnqueueCovers(s, UserFetch(s.users, user));
    if user.Some? && user.value != NIL && user.value !in s.users {
      assert FetchUser(user.value) in UserFetch(s.users, user);
    }
  }

  lemma {:induction false} UserFetchesLaw(users: map<Uuid, User>, editors: seq<Option<Uuid>>, e: Option<Uuid>)
    requires e in editors
    ensures e.None? || e.value == NIL || e.value in users || FetchUser(e.value) in UserFetches(users, editors)
  {
    if editors[0] != e {
      UserFetchesLaw(users, editors[1..], e);
    }
  }

  lemma {:induction false} MissingUsersLaw(users: map<Uuid, User>, ids: seq<Uuid>, u: Uuid)
    requires u in ids
    ensures u in users || FetchUser(u) in MissingUsers(users, ids)
  {
    if ids[0] != u {
      MissingUsersLaw(users, ids[1..], u);
    }
  }

  lemma {:induction false} MissingWalletsLaw(wallets: map<Uuid, Wallet>, ids: seq<Uuid>, w: Uuid)
    requires w in ids
    ensures w in wallets || FetchWallet(w) in MissingWallets(wallets, ids)
  {
    if ids[0] != w {
      MissingWalletsLaw(wallets, ids[1..], w);
    }
  }

  lemma MissingUsersCover(s: State, ids: set<Uuid>)
    requires s.running
    ensures forall u :: u in ids ==> UserCovered(Enqueue(s, MissingUsers(s.users, SortedIds(ids))), u)
  {
    var requests := MissingUsers(s.users, SortedIds(ids));
    EnqueueCovers(s, requests);
    forall u | u in ids ensures UserCovered(Enqueue(s, requests), u) {
      MissingUsersLaw(s.users, SortedIds(ids), u);
    }
  }

  lemma MissingWalletsCover(s: State, ids: set<Uuid>)
    requires s.running
    ensures forall w :: w in ids ==> WalletCovered(Enqueue(s, MissingWallets(s.wallets, SortedIds(ids))), w)
  {
    var requests := MissingWallets(s.wallets, SortedIds(ids));
    EnqueueCovers(s, requests);
    forall w | w in ids ensures WalletCovered(Enqueue(s, requests), w) {
      MissingWalletsLaw(s.wallets, SortedIds(ids), w);
    }
  }

  // ----- the handlers -----

  lemma EnqueueStaysClosed(s: State, requests: seq<Request>)
    requires Closed(s)
    ensures Closed(Enqueue(s, requests)) && Covers(Enqueue(s, requests), s)
  {
    EnqueueCovers(s, requests);
    SameCachesStayClosed(s, Enqueue(s, requests));
  }

  /** States with the same caches, queue and table cover the same. */
  predicate SameReach(s: State, t: State) {
    t.users.Keys == s.users.Keys && t.wallets.Keys == s.wallets.Keys && t.queue == s.queue && t.pending == s.pending
    && t.abandoned == s.abandoned
  }

  lemma SameReachCovers(s: State, t: State)
    requires SameReach(s, t)
    ensures Covers(t, s)
  {
  }

  lemma OrgStaysClosed(s: State, org: Org)
    requires Closed(s) && s.running
    ensures Closed(HandleOrg(s, org))
  {
    hide Closed, Covers, OrgCovered, EditorCovered, UserFetch, MissingUsers, MissingWallets;
    var a := Enqueue(s, UserFetch(s.users, org.lastEditor));
    var b := Enqueue(a, MissingUsers(s.users, SortedIds(org.users)));
    var c := Enqueue(b, MissingWallets(s.wallets, SortedIds(org.wallets)));
    EnqueueStaysClosed(s, UserFetch(s.users, org.lastEditor));
    UserFetchCovers(s, org.lastEditor);
    EnqueueStaysClosed(a, MissingUsers(s.users, SortedIds(org.users)));
    MissingUsersCover(a, org.users);
    EnqueueStaysClosed(b, MissingWallets(s.wallets, SortedIds(org.wallets)));
    MissingWalletsCover(b, org.wallets);
    OrgIsCovered(a, b, c, org);
    var t := c.(orgs := c.orgs[org.id := org]);
    OrgAdded(c, t, org);
    NoteStaysClosed(t, OrgNote(org.id));
    assert HandleOrg(s, org) == Notify(t, OrgNote(org.id));
  }

  lemma OrgIsCovered(a: State, b: State, c: State, org: Org)
    requires Covers(b, a) && Covers(c, b)
    requires EditorCovered(a, org.lastEditor)
    requires forall u :: u in org.users ==> UserCovered(b, u)
    requires forall w :: w in org.wallets ==> WalletCovered(c, w)
    ensures OrgCovered(c, org)
  {
    hide UserCovered, WalletCovered;
  }

  /** Caching a covered org, in place of an older one or not. */
  lemma OrgAdded(s: State, t: State, org: Org)
    requires Closed(s) && OrgCovered(s, org) && t == s.(orgs := s.orgs[org.id := org])
    ensures Closed(t)
  {
    SameReachCovers(s, t);
    CoveredAlways(s, t);
    hide OrgCovered, EditorCovered, WalletDetailsCovered, Covers;
  }

  lemma NoteStaysClosed(s: State, note: Notification)
    requires Closed(s)
    ensures Closed(Notify(s, note))
  {
    SameReachCovers(s, Notify(s, note));
    SameCachesStayClosed(s, Notify(s, note));
  }

  lemma UserStaysClosed(s: State, user: User)
    requires Closed(s) && s.running
    ensures Closed(HandleUser(s, user))
    ensures Covers(HandleUser(s, user), s) && user.uuid in HandleUser(s, user).users
  {
    var a := Enqueue(s, UserFetch(s.users, user.lastEditor));
    EnqueueStaysClosed(s, UserFetch(s.users, user.lastEditor));
    UserFetchCovers(s, user.lastEditor);
    UserAdded(a, user);
    var t := a.(users := a.users[user.uuid := user]);
    hide Closed, Covers, EditorCovered, UserFetch;
    NoteStaysClosed(t, UserNote(user.uuid));
    SameReachCovers(t, Notify(t, UserNote(user.uuid)));
    CoversTransitive(s, a, t);
    CoversTransitive(s, t, Notify(t, UserNote(user.uuid)));
  }

  lemma UserAdded(s: State, user: User)
    requires Closed(s) && EditorCovered(s, user.lastEditor)
    ensures Closed(s.(users := s.users[user.uuid := user])) && Covers(s.(users := s.users[user.uuid := user]), s)
  {
    var t := s.(users := s.users[user.uuid := user]);
    assert forall r :: Outstanding(s, r) ==> Outstanding(t, r);
    CoversByParts(s, t);
    CoveredAlways(s, t);
    hide OrgCovered, EditorCovered, WalletDetailsCovered, Covers;
  }

  lemma WalletStaysClosed(s: State, wallet: Wallet)
    requires Closed(s) && s.running
    ensures Closed(HandleWallet(s, wallet))
    ensures Covers(HandleWallet(s, wallet), s) && wallet.id in HandleWallet(s, wallet).wallets
  {
    var editors := UserFetches(s.users, Editors(wallet));
    var a := Enqueue(s, editors);
    var b := Enqueue(a, UserFetch(s.users, Some(wallet.owner)));
    EnqueueStaysClosed(s, editors);
    EnqueueCovers(s, editors);
    forall e | e in Editors(wallet) ensures EditorCovered(a, e) {
      UserFetchesLaw(s.users, Editors(wallet), e);
    }
    EnqueueStaysClosed(a, UserFetch(s.users, Some(wallet.owner)));
    UserFetchCovers(a, Some(wallet.owner));
    hide Closed, Editors, UserFetches, UserFetch, UserCovered, WalletCovered, WithWallet;
    assert WalletDetailsCovered(b, wallet);
    WalletAdded(b, wallet);
    var t := b.(wallets := b.wallets[wallet.id := wallet], orgs := WithWallet(b.orgs, wallet));
    NoteStaysClosed(t, WalletNote(wallet.id));
    SameReachCovers(t, Notify(t, WalletNote(wallet.id)));
    assert HandleWallet(s, wallet) == Notify(t, WalletNote(wallet.id));
  }

  /** Caching a wallet whose people are covered, and listing it in its org. */
  lemma WalletAdded(s: State, wallet: Wallet)
    requires Closed(s) && WalletDetailsCovered(s, wallet)
    ensures var t := s.(wallets := s.wallets[wallet.id := wallet], orgs := WithWallet(s.orgs, wallet));
            Closed(t) && Covers(t, s)
  {
    var t := s.(wallets := s.wallets[wallet.id := wallet], orgs := WithWallet(s.orgs, wallet));
    assert forall r :: Outstanding(s, r) ==> Outstanding(t, r);
    CoversByParts(s, t);
    CoveredAlways(s, t);
    hide EditorCovered, WalletDetailsCovered, Covers, UserCovered;
    forall id | id in t.orgs ensures OrgCovered(t, t.orgs[id]) {
      assert OrgCovered(t, s.orgs[id]);
      assert WalletCovered(t, wallet.id);
    }
  }

  lemma DeleteStaysClosed(s: State, user: Uuid, org: Uuid)
    requires Closed(s)
    ensures Closed(HandleDeleteUserOrg(s, user, org))
  {
    var t := s.(orgs := s.orgs - {org});
    SameReachCovers(s, t);
    CoveredAlways(s, t);
    hide OrgCovered, EditorCovered, WalletDetailsCovered, Covers;
    assert Closed(t);
    hide Closed;
    NoteStaysClosed(t, UpdateNote);
  }

  // ----- whole events -----

  lemma GivenUpCovers(s: State, id: RequestId)
    requires id in s.pending
    ensures Covers(GiveUp(s, id), s)
  {
    var t := GiveUp(s, id);
    forall r | Outstanding(s, r) ensures Outstanding(t, r) {
      if other :| other in s.pending && s.pending[other].request == r {
        assert other == id || other in t.pending;
      }
    }
    CoversByParts(s, t);
  }

  /** Taking an answered request out of the table only matters for what it asked for. */
  lemma AnsweredCovers(s: State, id: RequestId, t: State)
    requires id in s.pending
    requires var request := s.pending[id].request;
             (request.FetchUser? ==> request.id in t.users) && (request.FetchWallet? ==> request.id in t.wallets)
    requires Covers(t, s.(pending := s.pending - {id}))
    ensures Covers(t, s)
  {
    var a := s.(pending := s.pending - {id});
    forall u | UserCovered(s, u) ensures UserCovered(t, u) {
      if Outstanding(s, FetchUser(u)) && s.pending[id].request != FetchUser(u) {
        if other :| other in s.pending && s.pending[other].request == FetchUser(u) {
          assert a.pending[other].request == FetchUser(u);
        }
        assert UserCovered(a, u);
      }
    }
    forall w | WalletCovered(s, w) ensures WalletCovered(t, w) {
      if Outstanding(s, FetchWallet(w)) && s.pending[id].request != FetchWallet(w) {
        if other :| other in s.pending && s.pending[other].request == FetchWallet(w) {
          assert a.pending[other].request == FetchWallet(w);
        }
        assert WalletCovered(a, w);
      }
    }
  }

  lemma HandleErrorStaysClosed(s: State, code: string, requestId: Option<RequestId>)
    requires Closed(s)
    ensures Closed(HandleError(s, code, requestId))
  {
    if requestId.None? || requestId.value !in s.pending {
      NoteStaysClosed(s, MessageErrorNote);
    } else {
      var id := requestId.value;
      var request := s.pending[id].request;
      hide Closed, Covers, GiveUp, CacheUnknown, Notify;
      if code == "UNAUTHORIZED" && request.FetchUser? {
        CacheUnknownStaysClosed(s, id);
        NoteStaysClosed(CacheUnknown(s, id), UserNote(request.id));
      } else {
        GiveUpStaysClosed(s, id);
        NoteStaysClosed(GiveUp(s, id), MessageErrorNote);
      }
    }
  }

  lemma GiveUpStaysClosed(s: State, id: RequestId)
    requires Closed(s) && id in s.pending
    ensures Closed(GiveUp(s, id)) && Covers(GiveUp(s, id), s)
  {
    GivenUpCovers(s, id);
    SameCachesStayClosed(s, GiveUp(s, id));
  }

  /** A user the server refuses to show is cached as unknown, and covered. */
  lemma CacheUnknownStaysClosed(s: State, id: RequestId)
    requires Closed(s) && id in s.pending && s.pending[id].request.FetchUser?
    ensures Closed(CacheUnknown(s, id)) && Covers(CacheUnknown(s, id), s)
  {
    var a, t := s.(pending := s.pending - {id}), CacheUnknown(s, id);
    assert forall r :: Outstanding(a, r) ==> Outstanding(t, r);
    CoversByParts(a, t);
    AnsweredCovers(s, id, t);
    CoveredAlways(s, t);
    hide OrgCovered, WalletDetailsCovered, Covers, UserCovered;
  }

  /** Replies handled with nothing taken out of the table. */
  lemma ReplyStaysClosed(s: State, response: Response)
    requires Closed(s) && s.running
    ensures Closed(HandleReply(s, response))
  {
    hide Closed;
    match response
    case Connected(_, _) => NoteStaysClosed(s, ConnectedNote);
    case Pong =>
      SameReachCovers(s, s.(awaitingPong := false));
      SameCachesStayClosed(s, s.(awaitingPong := false));
    case OrgReply(org) => OrgStaysClosed(s, org);
    case WalletReply(wallet) => WalletStaysClosed(s, wallet);
    case UserReply(user) => UserStaysClosed(s, user);
    case DeleteUserOrg(user, org) => DeleteStaysClosed(s, user, org);
    case Error(_) =>
  }

  /**
   A matching reply: what the handler needs is closedness before it runs, with the answered
   request still counted, so the request is put aside as given up and then found answered.
   */
  lemma MatchedStaysClosed(s: State, response: Response, id: RequestId)
    requires Closed(s) && s.running && id in s.pending && !response.Error?
    requires Matches(response, ExpectedReply(s.pending[id].request))
    requires Honest(s, Decoded(Some(response), Some(id)))
    ensures Closed(HandleReply(s.(pending := s.pending - {id}), response))
  {
    var request := s.pending[id].request;
    var a := GiveUp(s, id);
    var t := HandleReply(s.(pending := s.pending - {id}), response);
    var t' := HandleReply(a, response);
    GiveUpStaysClosed(s, id);
    ReplyStaysClosed(a, response);
    ReplyIgnoresAbandoned(s.(pending := s.pending - {id}), response, s.abandoned + {request});
    assert t == t'.(abandoned := s.abandoned);
    ReplyCachesAnswer(s.(pending := s.pending - {id}), response);
    hide Closed, HandleReply;
    ForgettingStaysClosed(t', t, request);
  }

  lemma OrgFrame(s: State, org: Org, abandoned: set<Request>)
    ensures HandleOrg(s.(abandoned := abandoned), org) == HandleOrg(s, org).(abandoned := abandoned)
    ensures HandleOrg(s, org).abandoned == s.abandoned && HandleOrg(s, org).running == s.running
  {
    hide SortedIds, MissingUsers, MissingWallets, UserFetch;
  }

  lemma WalletFrame(s: State, wallet: Wallet, abandoned: set<Request>)
    ensures HandleWallet(s.(abandoned := abandoned), wallet) == HandleWallet(s, wallet).(abandoned := abandoned)
    ensures HandleWallet(s, wallet).abandoned == s.abandoned && HandleWallet(s, wallet).running == s.running
  {
    hide UserFetches, UserFetch, Editors, WithWallet;
  }

  lemma UserFrame(s: State, user: User, abandoned: set<Request>)
    ensures HandleUser(s.(abandoned := abandoned), user) == HandleUser(s, user).(abandoned := abandoned)
    ensures HandleUser(s, user).abandoned == s.abandoned && HandleUser(s, user).running == s.running
  {
    hide UserFetch;
  }

  lemma DeleteFrame(s: State, user: Uuid, org: Uuid, abandoned: set<Request>)
    ensures HandleDeleteUserOrg(s.(abandoned := abandoned), user, org)
         == HandleDeleteUserOrg(s, user, org).(abandoned := abandoned)
    ensures HandleDeleteUserOrg(s, user, org).abandoned == s.abandoned
    ensures HandleDeleteUserOrg(s, user, org).running == s.running
  {
    hide Notify;
    if s.userId == Some(user) {
      NoteFrame(s.(orgs := s.orgs - {org}), UpdateNote, abandoned);
    }
  }

  lemma NoteFrame(s: State, note: Notification, abandoned: set<Request>)
    ensures Notify(s.(abandoned := abandoned), note) == Notify(s, note).(abandoned := abandoned)
    ensures Notify(s, note).abandoned == s.abandoned && Notify(s, note).running == s.running
  {
  }

  lemma ReplyIgnoresAbandoned(s: State, response: Response, abandoned: set<Request>)
    ensures HandleReply(s.(abandoned := abandoned), response) == HandleReply(s, response).(abandoned := abandoned)
    ensures HandleReply(s, response).abandoned == s.abandoned && HandleReply(s, response).running == s.running
  {
    hide HandleOrg, HandleWallet, HandleUser, HandleDeleteUserOrg, Notify;
    match response
    case OrgReply(org) => OrgFrame(s, org, abandoned);
    case WalletReply(wallet) => WalletFrame(s, wallet, abandoned);
    case UserReply(user) => UserFrame(s, user, abandoned);
    case DeleteUserOrg(user, org) => DeleteFrame(s, user, org, abandoned);
    case Connected(_, _) => NoteFrame(s, ConnectedNote, abandoned);
    case Pong =>
    case Error(_) =>
  }

  lemma ReplyCachesAnswer(s: State, response: Response)
    ensures response.UserReply? ==> response.user.uuid in HandleReply(s, response).users
    ensures response.WalletReply? ==> response.wallet.id in HandleReply(s, response).wallets
  {
    hide SortedIds, MissingUsers, MissingWallets, UserFetches, UserFetch, Editors, WithWallet;
  }

  /** A request whose answer is cached need not be remembered as given up. */
  lemma ForgettingStaysClosed(s: State, t: State, request: Request)
    requires Closed(s) && s.abandoned == t.abandoned + {request} && s == t.(abandoned := s.abandoned)
    requires (request.FetchUser? ==> request.id in t.users) && (request.FetchWallet? ==> request.id in t.wallets)
    ensures Closed(t)
  {
    assert forall r :: Outstanding(s, r) ==> Outstanding(t, r) || r == request;
    CoversByParts(s, t);
    SameCachesStayClosed(s, t);
  }

  lemma ReceiveStaysClosed(s: State, msg: Incoming)
    requires Closed(s) && s.running && Honest(s, msg)
    ensures Closed(Receive(s, msg))
  {
    hide Closed, HandleReply, HandleError, GiveUp, Covers;
    match msg
    case Undecodable => NoteStaysClosed(s, MessageErrorNote);
    case Decoded(None, None) =>
    case Decoded(None, Some(id)) =>
      if id in s.pending {
        GiveUpStaysClosed(s, id);
      }
    case Decoded(Some(response), requestId) =>
      if response.Error? {
        HandleErrorStaysClosed(s, response.code, requestId);
      } else if Mismatched(s, response, requestId) {
        NoteStaysClosed(s, MessageErrorNote);
      } else if requestId.Some? && requestId.value in s.pending {
        MatchedStaysClosed(s, response, requestId.value);
      } else {
        assert requestId.Some? ==> s.pending - {requestId.value} == s.pending;
        ReplyStaysClosed(s, response);
      }
  }

  lemma StoppedCovers(s: State)
    ensures Covers(Stopped(s), s)
  {
    assert forall r :: Outstanding(s, r) ==> Outstanding(Stopped(s), r);
    CoversByParts(s, Stopped(s));
  }

  /** Putting the first request of the queue aside as given up loses nothing. */
  lemma TakenCovers(s: State, t: State)
    requires s.queue != [] && t == s.(queue := s.queue[1..], abandoned := s.abandoned + {s.queue[0]})
    ensures Covers(t, s)
  {
    assert s.queue == [s.queue[0]] + s.queue[1..];
    forall r | Outstanding(s, r) ensures Outstanding(t, r) {
      assert r in s.queue ==> r == s.queue[0] || r in s.queue[1..];
    }
    CoversByParts(s, t);
  }

  lemma SentCovers(s: State, newId: RequestId, request: Request)
    requires newId !in s.pending
    ensures Covers(Sent(s, newId, request), s.(abandoned := s.abandoned + {request}))
  {
    var a, t := s.(abandoned := s.abandoned + {request}), Sent(s, newId, request);
    assert t.pending[newId].request == request;
    forall r | Outstanding(a, r) ensures Outstanding(t, r) {
      if id :| id in a.pending && a.pending[id].request == r {
        assert id in t.pending && t.pending[id].request == r;
      }
    }
    CoversByParts(a, t);
  }

  lemma CloseSentStaysClosed(s: State, request: Request)
    requires Closed(s.(abandoned := s.abandoned + {request})) && request.Close?
    ensures Closed(Stopped(s).(connected := false))
  {
    hide Closed, Covers;
    ForgetClose(s.(abandoned := s.abandoned + {request}), s);
    StoppedCovers(s);
    SameCachesStayClosed(s, Stopped(s));
    SameReachCovers(Stopped(s), Stopped(s).(connected := false));
    SameCachesStayClosed(Stopped(s), Stopped(s).(connected := false));
  }

  lemma UnsentStaysClosed(s: State, newId: RequestId, request: Request)
    requires Closed(s.(abandoned := s.abandoned + {request})) && newId !in s.pending
    ensures Closed(Notify(Stopped(Unsent(s, newId, request)), ConnectionErrorNote))
  {
    hide Closed, Covers, Stopped;
    var a, t := s.(abandoned := s.abandoned + {request}), Unsent(s, newId, request);
    assert s.pending - {newId} == s.pending;
    SameReachCovers(a, t);
    SameCachesStayClosed(a, t);
    hide Unsent;
    StoppedCovers(t);
    StoppedCaches(t);
    SameCachesStayClosed(t, Stopped(t));
    NoteStaysClosed(Stopped(t), ConnectionErrorNote);
  }

  lemma StoppedCaches(s: State)
    ensures var t := Stopped(s); t.orgs == s.orgs && t.wallets == s.wallets && t.users == s.users
  {
  }

  lemma SendStaysClosed(s: State, newId: RequestId, ok: bool)
    requires Closed(s) && s.queue != [] && newId !in s.pending
    ensures Closed(SendNext(s, newId, ok))
  {
    var request, s1 := s.queue[0], s.(queue := s.queue[1..]);
    var a := s1.(abandoned := s1.abandoned + {request});
    TakenCovers(s, a);
    hide Closed, Covers, Stopped, Unsent, Notify;
    SameCachesStayClosed(s, a);
    if request.Close? {
      CloseSentStaysClosed(s1, request);
    } else if ok {
      SentCovers(s1, newId, request);
      SameCachesStayClosed(a, Sent(s1, newId, request));
    } else {
      UnsentStaysClosed(s1, newId, request);
    }
  }

  /** Nothing fetched depends on a closing request. */
  lemma ForgetClose(a: State, s: State)
    requires Closed(a) && a == s.(abandoned := s.abandoned + {Close})
    ensures Closed(s)
  {
    assert forall r :: Outstanding(a, r) ==> Outstanding(s, r) || r.Close?;
    CoversByParts(a, s);
    SameCachesStayClosed(a, s);
  }

  lemma BumpCovers(s: State, id: RequestId)
    ensures Covers(Bumped(s, id), s)
  {
    var t := Bumped(s, id);
    BumpFields(s, id);
    hide Bumped;
    forall r | Outstanding(s, r) ensures Outstanding(t, r) {
      if other :| other in s.pending && s.pending[other].request == r {
        assert t.pending[other].request == r;
      }
    }
    hide Outstanding;
    CoversByParts(s, t);
  }

  lemma DroppedStaysClosed(s: State, e: Stale)
    requires Closed(s) && (e.id in s.pending ==> s.pending[e.id].request == e.request)
    ensures Closed(Dropped(s, e))
  {
    hide Closed, Covers;
    var t := Dropped(s, e);
    if e.id in s.pending {
      GiveUpStaysClosed(s, e.id);
      SameReachCovers(GiveUp(s, e.id), t);
      SameCachesStayClosed(GiveUp(s, e.id), t);
    } else {
      assert s.pending - {e.id} == s.pending;
      SameReachCovers(s, t);
      SameCachesStayClosed(s, t);
    }
  }

  lemma RetryStaysClosed(s: State)
    requires Closed(s) && s.stale != []
    requires s.stale[0].id in s.pending ==> s.pending[s.stale[0].id].request == s.stale[0].request
    ensures Closed(RetryNext(s))
  {
    var e, s1 := s.stale[0], s.(stale := s.stale[1..]);
    hide Closed, Covers, Notify, Dropped, Bumped;
    SameReachCovers(s, s1);
    SameCachesStayClosed(s, s1);
    if e.retries < MAX_RETRIES {
      BumpFields(s1, e.id);
      BumpCovers(s1, e.id);
      SameCachesStayClosed(s1, Bumped(s1, e.id));
      EnqueueStaysClosed(Bumped(s1, e.id), [e.request]);
    } else {
      DroppedStaysClosed(s1, e);
      NoteStaysClosed(Dropped(s1, e), RequestTimeoutNote);
    }
  }

  lemma OpenStaysClosed(s: State, user: Uuid)
    requires Closed(s) && !s.running && s.queue == []
    ensures Closed(Open(s, user))
  {
    var t := Open(s, user);
    forall r | Outstanding(s, r) ensures Outstanding(t, r) {
      if id :| id in s.pending && s.pending[id].request == r {
        assert r in t.abandoned;
      }
    }
    CoversByParts(s, t);
    SameCachesStayClosed(s, t);
  }

  /** A connection that is not running has no queue. */
  ghost predicate LinkInv(s: State) {
    (!s.running ==> s.queue == []) && TableInv(s)
  }

  lemma StepKeepsLink(s: State, a: Action)
    requires LinkInv(s) && Enabled(s, a)
    ensures LinkInv(Apply(s, a))
  {
    StepKeepsTable(s, a);
    hide TableInv;
    if a.Receiving? {
      hide Receive;
      ReceiveKeepsRunning(s, a.msg);
    } else {
      hide Receive, CheckTimeouts;
      OtherStepsKeepQueue(s, a);
    }
  }

  lemma AskKeepsQueue(s: State, request: Request)
    requires !s.running ==> s.queue == []
    ensures var t := Ask(s, request); !t.running ==> t.queue == []
  {
  }

  lemma SendKeepsQueue(s: State, newId: RequestId, ok: bool)
    requires s.running && s.queue != []
    ensures var t := SendNext(s, newId, ok); !t.running ==> t.queue == []
  {
    hide Stopped, Notify, Sent, Unsent;
    var request, s1 := s.queue[0], s.(queue := s.queue[1..]);
    StoppedQueue(s1);
    StoppedQueue(Unsent(s1, newId, request));
    NoteQueue(Stopped(Unsent(s1, newId, request)), ConnectionErrorNote);
    SentRunning(s1, newId, request);
  }

  lemma SentRunning(s: State, newId: RequestId, request: Request)
    ensures Sent(s, newId, request).running == s.running
  {
  }

  lemma StoppedQueue(s: State)
    ensures Stopped(s).queue == [] && !Stopped(s).running
  {
  }

  lemma NoteQueue(s: State, note: Notification)
    ensures Notify(s, note).queue == s.queue && Notify(s, note).running == s.running
  {
  }

  lemma RetryKeepsQueue(s: State)
    requires (!s.running ==> s.queue == []) && s.stale != []
    ensures var t := RetryNext(s); !t.running ==> t.queue == []
  {
    hide Bumped, Dropped, Notify;
    var e, s1 := s.stale[0], s.(stale := s.stale[1..]);
    BumpFields(s1, e.id);
    DroppedQueue(s1, e);
    NoteQueue(Dropped(s1, e), RequestTimeoutNote);
  }

  lemma DroppedQueue(s: State, e: Stale)
    ensures Dropped(s, e).queue == s.queue && Dropped(s, e).running == s.running
  {
  }

  lemma OtherStepsKeepQueue(s: State, a: Action)
    requires (!s.running ==> s.queue == []) && Enabled(s, a) && !a.Receiving?
    ensures var t := Apply(s, a); !t.running ==> t.queue == []
  {
    hide Receive, SendNext, RetryNext, Ask, StaleEntries;
    match a
    case Send(newId, ok) => SendKeepsQueue(s, newId, ok);
    case Retrying => RetryKeepsQueue(s);
    case Asking(request) => AskKeepsQueue(s, request);
    case _ =>
  }

  lemma ErrorKeepsRunning(s: State, code: string, requestId: Option<RequestId>)
    ensures HandleError(s, code, requestId).running == s.running
  {
    hide Notify;
    NoteQueue(s, MessageErrorNote);
    if requestId.Some? && requestId.value in s.pending {
      var id := requestId.value;
      NoteQueue(GiveUp(s, id), MessageErrorNote);
      if s.pending[id].request.FetchUser? {
        NoteQueue(CacheUnknown(s, id), UserNote(s.pending[id].request.id));
      }
    }
  }

  lemma GiveUpRunning(s: State, id: RequestId)
    requires id in s.pending
    ensures GiveUp(s, id).running == s.running
  {
  }

  lemma ReplyRunning(s: State, response: Response, requestId: Option<RequestId>)
    ensures HandleReply(if requestId.Some? then s.(pending := s.pending - {requestId.value}) else s, response).running
         == s.running
  {
    hide HandleReply;
    ReplyIgnoresAbandoned(if requestId.Some? then s.(pending := s.pending - {requestId.value}) else s, response, {});
  }

  lemma ReceiveKeepsRunning(s: State, msg: Incoming)
    ensures Receive(s, msg).running == s.running
  {
    hide HandleReply, HandleError, Mismatched, Notify, GiveUp;
    NoteQueue(s, MessageErrorNote);
    match msg
    case Undecodable =>
    case Decoded(Some(response), requestId) =>
      if response.Error? {
        ErrorKeepsRunning(s, response.code, requestId);
      } else {
        ReplyRunning(s, response, requestId);
      }
    case Decoded(None, requestId) =>
      if requestId.Some? && requestId.value in s.pending {
        GiveUpRunning(s, requestId.value);
      }
  }

  lemma StepStaysClosed(s: State, a: Action)
    requires Closed(s) && LinkInv(s) && Enabled(s, a)
    requires a.Receiving? ==> Honest(s, a.msg)
    ensures Closed(Apply(s, a))
  {
    match a
    case Send(newId, ok) =>
      assert newId !in s.pending;
      SendStaysClosed(s, newId, ok);
    case Receiving(msg) => ReceiveStaysClosed(s, msg);
    case Losing =>
      StoppedCovers(s);
      SameCachesStayClosed(s, Stopped(s));
      NoteStaysClosed(Stopped(s), DisconnectedNote);
    case CheckingTimeouts =>
      SameReachCovers(s, CheckTimeouts(s));
      SameCachesStayClosed(s, CheckTimeouts(s));
    case Ticking(duration) =>
      SameReachCovers(s, Tick(s, duration));
      SameCachesStayClosed(s, Tick(s, duration));
    case Retrying => RetryStaysClosed(s);
    case Asking(request) => AskStaysClosed(s, request);
    case LosingPing =>
      SameReachCovers(s, PingTimeout(s));
      SameCachesStayClosed(s, PingTimeout(s));
    case Closing => CloseStaysClosed(s);
    case LoggingOut =>
    case Opening(user) => OpenStaysClosed(s, user);
  }

  lemma AskStaysClosed(s: State, request: Request)
    requires Closed(s)
    ensures Closed(Ask(s, request))
  {
    hide Closed;
    if s.connected {
      EnqueueStaysClosed(s, [request]);
      var a := Enqueue(s, [request]);
      SameReachCovers(a, Ask(s, request));
      SameCachesStayClosed(a, Ask(s, request));
    } else {
      NoteStaysClosed(s, DisconnectedNote);
    }
  }

  lemma CloseStaysClosed(s: State)
    requires Closed(s)
    ensures Closed(CloseConnection(s))
  {
    hide Closed;
    EnqueueStaysClosed(s, [Close]);
    if s.connected {
      SameReachCovers(Enqueue(s, [Close]), CloseConnection(s));
      SameCachesStayClosed(Enqueue(s, [Close]), CloseConnection(s));
    }
  }

  lemma {:induction false} RunStaysClosed(s: State, actions: seq<Action>)
    requires Closed(s) && LinkInv(s) && IsRun(s, actions) && IsHonestRun(s, actions)
    ensures Closed(After(s, actions)) && LinkInv(After(s, actions))
    decreases |actions|
  {
    hide Closed, LinkInv, Apply, Enabled;
    if actions != [] {
      StepStaysClosed(s, actions[0]);
      StepKeepsLink(s, actions[0]);
      RunStaysClosed(Apply(s, actions[0]), actions[1..]);
    }
  }

  lemma InitialIsClosed()
    ensures Closed(Initial()) && LinkInv(Initial())
  {
    InitialTable();
  }

  /**
   In every run with honest replies, reconnections included: everything the caches mention is
   cached, being fetched, or was given up on since the last logout.
   */
  lemma NothingForgotten(actions: seq<Action>)
    requires IsRun(Initial(), actions) && IsHonestRun(Initial(), actions)
    ensures Closed(After(Initial(), actions))
  {
    InitialIsClosed();
    RunStaysClosed(Initial(), actions);
  }

  /**
   Every wallet of an org that is not cached has no fetch outstanding, and none was given up
   on since the last logout.
   */
  ghost predicate WalletsSettled(s: State, id: Uuid)
    requires id in s.orgs
  {
    forall w :: w in s.orgs[id].wallets ==> w in s.wallets || !Outstanding(s, FetchWallet(w))
  }

  /** Once no fetch of a wallet of an org is outstanding or given up on, the user interface sees all its wallets. */
  lemma OrgIsComplete(actions: seq<Action>, id: Uuid)
    requires IsRun(Initial(), actions) && IsHonestRun(Initial(), actions)
    requires id in After(Initial(), actions).orgs
    ensures var s := After(Initial(), actions);
            GetOrg(s, id) == Some(s.orgs[id].(lastEdited := None, lastEditor := None)) <==> WalletsSettled(s, id)
  {
    NothingForgotten(actions);
    OrgCompleteIff(After(Initial(), actions), id);
  }

  lemma OrgCompleteIff(s: State, id: Uuid)
    requires Closed(s) && id in s.orgs
    ensures GetOrg(s, id) == Some(s.orgs[id].(lastEdited := None, lastEditor := None)) <==> WalletsSettled(s, id)
  {
    var org := s.orgs[id];
    assert OrgCovered(s, org);
    var seen := set w | w in org.wallets && w in s.wallets;
    if WalletsSettled(s, id) {
      forall w | w in org.wallets ensures w in s.wallets {
        assert WalletCovered(s, w);
      }
      assert seen == org.wallets;
    }
    assert GetOrg(s, id).value.wallets == seen;
    if seen == org.wallets {
      assert forall w :: w in org.wallets ==> w in seen;
    }
  }

  // ----- logging out -----

  predicate NothingCached(s: State) {
    s.orgs == map[] && s.wallets == map[] && s.users == map[]
  }

  /** The object of a reply is cached as it was sent. */
  predicate Caches(s: State, response: Response) {
    match response
    case OrgReply(org) => org.id in s.orgs && s.orgs[org.id] == org
    case WalletReply(wallet) => wallet.id in s.wallets && s.wallets[wallet.id] == wallet
    case UserReply(user) => user.uuid in s.users && s.users[user.uuid] == user
    case _ => true
  }

  /**
   Logging out empties the caches and starts the account of fetches given up on afresh, but the
   table keeps its requests: the object of any reply that comes before the connection closes is
   cached again.
   */
  lemma LateReplyRefills(s: State, id: RequestId, response: Response)
    requires id in s.pending && Matches(response, ExpectedReply(s.pending[id].request))
    ensures var t := Logout(s);
            NothingCached(t) && t.abandoned == {} && t.pending == s.pending
            && Caches(Receive(t, Decoded(Some(response), Some(id))), response)
  {
    hide SortedIds, UserFetches, UserFetch, Editors, WithWallet, Enqueue;
    LogoutFields(s);
    hide Logout, HandleReply, HandleError;
    ReplyIsCached(Logout(s).(pending := Logout(s).pending - {id}), response);
  }

  lemma ReplyIsCached(s: State, response: Response)
    ensures Caches(HandleReply(s, response), response)
  {
    hide SortedIds, MissingUsers, MissingWallets, UserFetches, UserFetch, Editors;
  }

  lemma LogoutFields(s: State)
    ensures var t := Logout(s); NothingCached(t) && t.abandoned == {} && t.pending == s.pending
  {
  }

  /** Once the connection is closed the caches stay empty until the next one. */
  lemma {:induction false} EmptyUntilReconnected(s: State, actions: seq<Action>)
    requires NothingCached(s) && !s.running && IsRun(s, actions) && forall a :: a in actions ==> !a.Opening?
    ensures NothingCached(After(s, actions)) && !After(s, actions).running
    decreases |actions|
  {
    hide Apply, Enabled;
    if actions != [] {
      ClosedStep(s, actions[0]);
      EmptyUntilReconnected(Apply(s, actions[0]), actions[1..]);
    }
  }

  lemma ClosedStep(s: State, a: Action)
    requires NothingCached(s) && !s.running && Enabled(s, a) && !a.Opening?
    ensures NothingCached(Apply(s, a)) && !Apply(s, a).running
  {
    hide Receive, SendNext, StaleEntries, Notify, RetryNext;
    match a
    case Retrying => RetryCaches(s);
    case Asking(request) =>
      NoteCaches(s, DisconnectedNote);
    case LosingPing => NoteCaches(s.(connected := false), DisconnectedNote);
    case _ =>
  }

  lemma NoteCaches(s: State, note: Notification)
    ensures var t := Notify(s, note);
            t.orgs == s.orgs && t.wallets == s.wallets && t.users == s.users && t.running == s.running
  {
  }

  lemma RetryCaches(s: State)
    requires s.stale != []
    ensures var t := RetryNext(s);
            t.orgs == s.orgs && t.wallets == s.wallets && t.users == s.users && t.running == s.running
  {
    hide Bumped, Dropped, Notify;
    var e, s1 := s.stale[0], s.(stale := s.stale[1..]);
    BumpFields(s1, e.id);
    DroppedCaches(s1, e);
    NoteCaches(Dropped(s1, e), RequestTimeoutNote);
  }

  lemma DroppedCaches(s: State, e: Stale)
    ensures var t := Dropped(s, e);
            t.orgs == s.orgs && t.wallets == s.wallets && t.users == s.users && t.running == s.running
  {
  }
}
