/**
 The cascade of fetches a message starts always ends: against fixed server data, every run
 that only sends what is queued and receives the replies to fetches is finite, whatever was
 outstanding when it began, and where it ends every object the caches mention is cached.
 */
module WsCascade {
  import opened Wrappers
  import opened WsModel
  import opened WsRuns
  import opened WsClosure

  /** What the server holds; each object is filed under its own id. */
  datatype Server = Server(users: map<Uuid, User>, wallets: map<Uuid, Wallet>)

  ghost predicate WellFiled(server: Server) {
    (forall u :: u in server.users ==> server.users[u].uuid == u)
    && forall w :: w in server.wallets ==> server.wallets[w].id == w
  }

  predicate IsFetch(r: Request) {
    r.FetchUser? || r.FetchWallet?
  }

  /** The server's reply to a fetch: the object, or an error for an id it does not show. */
  ghost predicate Answers(server: Server, request: Request, response: Response) {
    match request
    case FetchUser(id) => if id in server.users then response == UserReply(server.users[id]) else response.Error?
    case FetchWallet(id) =>
      if id in server.wallets then response == WalletReply(server.wallets[id]) else response.Error?
    case _ => false
  }

  /** One step: the next fetch is written, or a pending one answered. */
  ghost predicate CascadeStep(server: Server, s: State, t: State) {
    (exists newId :: CanSend(s, newId) && t == SendNext(s, newId, true))
    || exists id, response :: CanAnswer(server, s, id, response) && t == Receive(s, Decoded(Some(response), Some(id)))
  }

  ghost predicate CanSend(s: State, newId: RequestId) {
    s.running && s.queue != [] && newId !in s.issued
  }

  ghost predicate CanAnswer(server: Server, s: State, id: RequestId, response: Response) {
    s.running && id in s.pending && Answers(server, s.pending[id].request, response)
  }

  // ----- counting what is outstanding -----

  /** How many of the queued requests satisfy `p`. */
  function CountQueue(queue: seq<Request>, p: Request -> bool): nat {
    if queue == [] then 0 else (if p(queue[0]) then 1 else 0) + CountQueue(queue[1..], p)
  }

  function PendingIds(pending: map<RequestId, Pending>, p: Request -> bool): set<RequestId> {
    set id | id in pending && p(pending[id].request)
  }

  function Count(s: State, p: Request -> bool): nat {
    CountQueue(s.queue, p) + |PendingIds(s.pending, p)|
  }

  lemma {:induction false} CountQueueConcat(a: seq<Request>, b: seq<Request>, p: Request -> bool)
    ensures CountQueue(a + b, p) == CountQueue(a, p) + CountQueue(b, p)
  {
    if a == [] {
      assert a + b == b;
    } else {
      assert (a + b)[1..] == a[1..] + b;
      CountQueueConcat(a[1..], b, p);
    }
  }

  lemma {:induction false} CountQueueNone(queue: seq<Request>, p: Request -> bool)
    requires forall r :: r in queue ==> !p(r)
    ensures CountQueue(queue, p) == 0
  {
    if queue != [] {
      CountQueueNone(queue[1..], p);
    }
  }

  lemma PendingAdded(pending: map<RequestId, Pending>, id: RequestId, entry: Pending, p: Request -> bool)
    requires id !in pending
    ensures |PendingIds(pending[id := entry], p)| == |PendingIds(pending, p)| + if p(entry.request) then 1 else 0
  {
    var after := pending[id := entry];
    var less, more := PendingIds(pending, p), PendingIds(after, p);
    var expected := if p(entry.request) then less + {id} else less;
    forall x ensures x in more <==> x in expected {
      assert x in after && x != id ==> after[x] == pending[x];
    }
    assert more == expected;
    hide PendingIds;
  }

  lemma PendingRemoved(pending: map<RequestId, Pending>, id: RequestId, p: Request -> bool)
    requires id in pending
    ensures |PendingIds(pending - {id}, p)|
         == |PendingIds(pending, p)| - if p(pending[id].request) then 1 else 0
  {
    var less := PendingIds(pending - {id}, p);
    if p(pending[id].request) {
      assert PendingIds(pending, p) == less + {id};
    } else {
      assert PendingIds(pending, p) == less;
    }
  }

  predicate IsWalletFetch(r: Request) {
    r.FetchWallet?
  }

  function CachedFetch(users: set<Uuid>): Request -> bool {
    (r: Request) => r.FetchUser? && r.id in users
  }

  function UncachedFetch(users: set<Uuid>): Request -> bool {
    (r: Request) => r.FetchUser? && r.id !in users
  }

  // ----- the measure -----

  datatype Measure = Measure(wallets: nat, uncached: nat, refetches: nat, fetches: nat, queued: nat)

  /**
   Outstanding wallet fetches; users of the universe not cached yet; fetches of users that
   are cached already; fetches of users that are not; requests still queued.
   */
  function MeasureOf(s: State, universe: set<Uuid>): Measure {
    Measure(Count(s, IsWalletFetch),
            |universe - s.users.Keys|,
            Count(s, CachedFetch(s.users.Keys)),
            Count(s, UncachedFetch(s.users.Keys)),
            |s.queue|)
  }

  predicate Below(a: Measure, b: Measure) {
    a.wallets < b.wallets
    || (a.wallets == b.wallets
        && (a.uncached < b.uncached
            || (a.uncached == b.uncached
                && (a.refetches < b.refetches
                    || (a.refetches == b.refetches
                        && (a.fetches < b.fetches || (a.fetches == b.fetches && a.queued < b.queued)))))))
  }

  /** Every user fetch outstanding is of a user in the universe, and the universe knows every editor. */
  ghost predicate CascadeInv(server: Server, s: State, universe: set<Uuid>) {
    s.pending.Keys <= s.issued
    && (forall r :: r in s.queue ==> AsksWithin(r, universe))
    && (forall id :: id in s.pending ==> AsksWithin(s.pending[id].request, universe))
    && (forall u :: u in server.users ==> EditorIn(server.users[u].lastEditor, universe))
    && (forall w :: w in server.wallets ==> WalletPeopleIn(server.wallets[w], universe))
  }

  predicate AsksWithin(r: Request, universe: set<Uuid>) {
    r.FetchUser? ==> r.id in universe
  }

  predicate EditorIn(editor: Option<Uuid>, universe: set<Uuid>) {
    editor.Some? ==> editor.value in universe
  }

  predicate WalletPeopleIn(w: Wallet, universe: set<Uuid>) {
    w.owner in universe && forall e :: e in Editors(w) ==> EditorIn(e, universe)
  }

  // ----- sending -----

  lemma SentCount(s: State, newId: RequestId, p: Request -> bool)
    requires CanSend(s, newId) && newId !in s.pending && !s.queue[0].Close?
    ensures Count(SendNext(s, newId, true), p) == Count(s, p)
  {
    assert s.queue == [s.queue[0]] + s.queue[1..];
    PendingAdded(s.pending, newId, Pending(s.queue[0], 0, s.clock), p);
  }

  lemma SendDecreases(s: State, newId: RequestId, universe: set<Uuid>)
    requires CanSend(s, newId) && newId !in s.pending && !s.queue[0].Close?
    ensures Below(MeasureOf(SendNext(s, newId, true), universe), MeasureOf(s, universe))
  {
    SentCount(s, newId, IsWalletFetch);
    SentCount(s, newId, CachedFetch(s.users.Keys));
    SentCount(s, newId, UncachedFetch(s.users.Keys));
    hide Count;
  }

  // ----- being answered -----

  /** What an answer leaves: the request gone from the table, more user fetches queued, users and wallets cached. */
  ghost predicate Answered(s: State, t: State, id: RequestId, more: seq<Request>) {
    id in s.pending
    && t.pending == s.pending - {id}
    && t.queue == s.queue + more
    && (forall r :: r in more ==> r.FetchUser? && r.id !in s.users)
    && s.users.Keys <= t.users.Keys
    && t.running
  }

  lemma {:induction false} UserFetchesAreUncached(users: map<Uuid, User>, editors: seq<Option<Uuid>>,
                                                  universe: set<Uuid>)
    requires forall e :: e in editors ==> EditorIn(e, universe)
    ensures forall r :: r in UserFetches(users, editors) ==> r.FetchUser? && r.id !in users && r.id in universe
  {
    if editors != [] {
      assert editors[0] in editors;
      UserFetchesAreUncached(users, editors[1..], universe);
    }
  }

  lemma AnsweredCount(s: State, t: State, id: RequestId, more: seq<Request>, p: Request -> bool)
    requires Answered(s, t, id, more)
    ensures Count(t, p) == Count(s, p) + CountQueue(more, p) - if p(s.pending[id].request) then 1 else 0
  {
    CountQueueConcat(s.queue, more, p);
    PendingRemoved(s.pending, id, p);
  }

  /** An answer to a wallet fetch. */
  lemma WalletAnswerDecreases(s: State, t: State, id: RequestId, more: seq<Request>, universe: set<Uuid>)
    requires Answered(s, t, id, more) && s.pending[id].request.FetchWallet?
    ensures Below(MeasureOf(t, universe), MeasureOf(s, universe))
  {
    AnsweredCount(s, t, id, more, IsWalletFetch);
    CountQueueNone(more, IsWalletFetch);
    hide Count, CountQueue;
  }

  /** An answer to a user fetch that caches nobody new. */
  lemma RefetchAnswerDecreases(s: State, t: State, id: RequestId, more: seq<Request>, universe: set<Uuid>)
    requires Answered(s, t, id, more) && s.pending[id].request.FetchUser? && t.users.Keys == s.users.Keys
    requires s.pending[id].request.id in s.users || more == []
    ensures Below(MeasureOf(t, universe), MeasureOf(s, universe))
  {
    var cached, uncached := CachedFetch(s.users.Keys), UncachedFetch(s.users.Keys);
    AnsweredCount(s, t, id, more, IsWalletFetch);
    CountQueueNone(more, IsWalletFetch);
    AnsweredCount(s, t, id, more, cached);
    CountQueueNone(more, cached);
    AnsweredCount(s, t, id, more, uncached);
    hide Count;
  }

  /** An answer that caches a user of the universe. */
  lemma NewUserAnswerDecreases(s: State, t: State, id: RequestId, more: seq<Request>, universe: set<Uuid>)
    requires Answered(s, t, id, more) && s.pending[id].request.FetchUser?
    requires var u := s.pending[id].request.id; u in universe && u !in s.users && u in t.users
    ensures Below(MeasureOf(t, universe), MeasureOf(s, universe))
  {
    AnsweredCount(s, t, id, more, IsWalletFetch);
    CountQueueNone(more, IsWalletFetch);
    var u := s.pending[id].request.id;
    hide Count, CountQueue;
    Smaller(universe - t.users.Keys, (universe - s.users.Keys) - {u});
  }

  // ----- the steps of the cascade -----

  ghost predicate GoodStep(server: Server, s: State, t: State, universe: set<Uuid>) {
    Below(MeasureOf(t, universe), MeasureOf(s, universe)) && CascadeInv(server, t, universe)
  }

  lemma AnsweredKeepsInv(server: Server, s: State, t: State, id: RequestId, more: seq<Request>, universe: set<Uuid>)
    requires CascadeInv(server, s, universe) && Answered(s, t, id, more) && t.issued == s.issued
    requires forall r :: r in more ==> r.FetchUser? && r.id in universe
    ensures CascadeInv(server, t, universe)
  {
    hide EditorIn, WalletPeopleIn;
  }

  lemma UserAnswer(server: Server, s: State, id: RequestId, user: User, universe: set<Uuid>)
    requires CascadeInv(server, s, universe) && s.running && id in s.pending
    requires s.pending[id].request == FetchUser(user.uuid) && EditorIn(user.lastEditor, universe)
    ensures GoodStep(server, s, HandleUser(s.(pending := s.pending - {id}), user), universe)
  {
    var t, more := HandleUser(s.(pending := s.pending - {id}), user), UserFetch(s.users, user.lastEditor);
    assert Answered(s, t, id, more);
    assert t.users.Keys == s.users.Keys + {user.uuid};
    assert user.uuid in universe;
    AnsweredKeepsInv(server, s, t, id, more, universe);
    hide CascadeInv, Answered, MeasureOf, HandleUser, UserFetch, Below;
    if user.uuid in s.users {
      RefetchAnswerDecreases(s, t, id, more, universe);
    } else {
      NewUserAnswerDecreases(s, t, id, more, universe);
    }
  }

  lemma WalletAnswer(server: Server, s: State, id: RequestId, wallet: Wallet, universe: set<Uuid>)
    requires CascadeInv(server, s, universe) && s.running && id in s.pending
    requires s.pending[id].request == FetchWallet(wallet.id) && WalletPeopleIn(wallet, universe)
    ensures GoodStep(server, s, HandleWallet(s.(pending := s.pending - {id}), wallet), universe)
  {
    var t := HandleWallet(s.(pending := s.pending - {id}), wallet);
    var editors, owner := UserFetches(s.users, Editors(wallet)), UserFetch(s.users, Some(wallet.owner));
    UserFetchesAreUncached(s.users, Editors(wallet), universe);
    hide Editors, UserFetches, WithWallet;
    assert s.queue + editors + owner == s.queue + (editors + owner);
    assert Answered(s, t, id, editors + owner);
    AnsweredKeepsInv(server, s, t, id, editors + owner, universe);
    hide CascadeInv, Answered, MeasureOf, HandleWallet, UserFetch, Below;
    WalletAnswerDecreases(s, t, id, editors + owner, universe);
  }

  lemma ErrorAnswer(server: Server, s: State, id: RequestId, code: string, universe: set<Uuid>)
    requires CascadeInv(server, s, universe) && s.running && id in s.pending && IsFetch(s.pending[id].request)
    ensures GoodStep(server, s, HandleError(s, code, Some(id)), universe)
  {
    var t, request := HandleError(s, code, Some(id)), s.pending[id].request;
    assert AsksWithin(request, universe);
    ErrorIsAnswer(s, id, code);
    AnsweredKeepsInv(server, s, t, id, [], universe);
    hide CascadeInv, Answered, MeasureOf, HandleError, Below;
    if request.FetchWallet? {
      WalletAnswerDecreases(s, t, id, [], universe);
    } else if request.id in s.users || request.id !in t.users {
      RefetchAnswerDecreases(s, t, id, [], universe);
    } else {
      NewUserAnswerDecreases(s, t, id, [], universe);
    }
  }

  lemma NoteFields(s: State, note: Notification)
    ensures var t := Notify(s, note);
            t.queue == s.queue && t.pending == s.pending && t.users == s.users && t.running == s.running
            && t.issued == s.issued
  {
  }

  lemma ErrorIsAnswer(s: State, id: RequestId, code: string)
    requires s.running && id in s.pending
    ensures var t := HandleError(s, code, Some(id)); var request := s.pending[id].request;
            Answered(s, t, id, []) && t.issued == s.issued
            && (t.users.Keys == s.users.Keys || (request.FetchUser? && t.users.Keys == s.users.Keys + {request.id}))
  {
    hide Notify;
    assert s.queue + [] == s.queue;
    NoteFields(GiveUp(s, id), MessageErrorNote);
    if s.pending[id].request.FetchUser? {
      NoteFields(CacheUnknown(s, id), UserNote(s.pending[id].request.id));
    }
  }

  lemma SendStep(server: Server, s: State, newId: RequestId, universe: set<Uuid>)
    requires CascadeInv(server, s, universe) && CanSend(s, newId)
    ensures GoodStep(server, s, SendNext(s, newId, true), universe)
  {
    SendKeepsInv(server, s, newId, universe);
    assert newId !in s.pending;
    hide MeasureOf, Below, CascadeInv, SendNext;
    if s.queue[0].Close? {
      CloseDecreases(s, newId, universe);
    } else {
      SendDecreases(s, newId, universe);
    }
  }

  lemma SendKeepsInv(server: Server, s: State, newId: RequestId, universe: set<Uuid>)
    requires CascadeInv(server, s, universe) && CanSend(s, newId)
    ensures CascadeInv(server, SendNext(s, newId, true), universe)
  {
    hide SendNext, EditorIn, WalletPeopleIn, AsksWithin;
    assert s.queue[0] in s.queue;
    if s.queue[0].Close? {
      ClosedFields(s, newId);
    } else {
      SentFields(s, newId);
    }
  }

  /** Closing the connection drops the queue. */
  lemma CloseDecreases(s: State, newId: RequestId, universe: set<Uuid>)
    requires CanSend(s, newId) && s.queue[0].Close?
    ensures Below(MeasureOf(SendNext(s, newId, true), universe), MeasureOf(s, universe))
  {
    ClosedFields(s, newId);
    var t := SendNext(s, newId, true);
    hide SendNext, PendingIds;
    assert forall p :: Count(t, p) <= Count(s, p);
  }

  lemma ReceiveAnswer(server: Server, s: State, id: RequestId, response: Response)
    requires CanAnswer(server, s, id, response)
    ensures Receive(s, Decoded(Some(response), Some(id)))
         == if response.Error? then HandleError(s, response.code, Some(id))
            else HandleReply(s.(pending := s.pending - {id}), response)
  {
    hide HandleReply, HandleError;
  }

  lemma AnswerStep(server: Server, s: State, id: RequestId, response: Response, universe: set<Uuid>)
    requires WellFiled(server) && CascadeInv(server, s, universe) && CanAnswer(server, s, id, response)
    ensures GoodStep(server, s, Receive(s, Decoded(Some(response), Some(id))), universe)
  {
    ReceiveAnswer(server, s, id, response);
    hide Receive, HandleUser, HandleWallet, HandleError, GoodStep;
    match response
    case Error(code) => ErrorAnswer(server, s, id, code, universe);
    case UserReply(user) => UserAnswer(server, s, id, user, universe);
    case WalletReply(wallet) => WalletAnswer(server, s, id, wallet, universe);
  }

  /** Every step of a cascade lowers the measure. */
  lemma StepDecreases(server: Server, s: State, t: State, universe: set<Uuid>)
    requires WellFiled(server) && CascadeInv(server, s, universe) && CascadeStep(server, s, t)
    ensures Below(MeasureOf(t, universe), MeasureOf(s, universe)) && CascadeInv(server, t, universe)
  {
    hide CascadeInv, MeasureOf, Below, SendNext, Receive, CanAnswer;
    if newId :| CanSend(s, newId) && t == SendNext(s, newId, true) {
      SendStep(server, s, newId, universe);
    } else {
      var id, response :| CanAnswer(server, s, id, response) && t == Receive(s, Decoded(Some(response), Some(id)));
      AnswerStep(server, s, id, response, universe);
    }
  }

  lemma {:induction false} NoEndlessCascade(server: Server, run: nat -> State, i: nat, universe: set<Uuid>)
    requires WellFiled(server) && CascadeInv(server, run(i), universe)
    ensures exists k :: k >= i && !CascadeStep(server, run(k), run(k + 1))
    decreases MeasureOf(run(i), universe).wallets, MeasureOf(run(i), universe).uncached,
              MeasureOf(run(i), universe).refetches, MeasureOf(run(i), universe).fetches,
              MeasureOf(run(i), universe).queued
  {
    hide MeasureOf, CascadeInv, CascadeStep;
    if CascadeStep(server, run(i), run(i + 1)) {
      StepDecreases(server, run(i), run(i + 1), universe);
      NoEndlessCascade(server, run, i + 1, universe);
    }
  }

  // ----- where a cascade begins -----

  /** Everyone a server mentions. */
  function People(server: Server): set<Uuid> {
    (set u, v | u in server.users && v in EditorSet(server.users[u].lastEditor) :: v)
    + (set w, v | w in server.wallets && v in WalletPeople(server.wallets[w]) :: v)
  }

  function AskedIn(r: Request): set<Uuid> {
    if r.FetchUser? then {r.id} else {}
  }

  /** Everyone a queued or pending request asks for. */
  function Asked(s: State): set<Uuid> {
    (set r, u | r in s.queue && u in AskedIn(r) :: u)
    + (set id, u | id in s.pending && u in AskedIn(s.pending[id].request) :: u)
  }

  function EditorSet(editor: Option<Uuid>): set<Uuid> {
    if editor.Some? then {editor.value} else {}
  }

  function EditorsSet(editors: seq<Option<Uuid>>): (r: set<Uuid>)
    ensures forall e :: e in editors ==> EditorIn(e, r)
  {
    if editors == [] then {}
    else
      var rest := EditorsSet(editors[1..]);
      assert forall e :: e in editors ==> e == editors[0] || e in editors[1..];
      EditorSet(editors[0]) + rest
  }

  function WalletPeople(w: Wallet): set<Uuid> {
    {w.owner} + EditorsSet(Editors(w))
  }

  lemma PeopleLaw(server: Server, universe: set<Uuid>)
    requires People(server) <= universe
    ensures forall u :: u in server.users ==> EditorIn(server.users[u].lastEditor, universe)
    ensures forall w :: w in server.wallets ==> WalletPeopleIn(server.wallets[w], universe)
  {
    hide Editors;
    forall w | w in server.wallets ensures WalletPeopleIn(server.wallets[w], universe) {
      assert WalletPeople(server.wallets[w]) <= People(server);
    }
    forall u | u in server.users ensures EditorIn(server.users[u].lastEditor, universe) {
      assert EditorSet(server.users[u].lastEditor) <= People(server);
    }
  }

  lemma AskedLaw(s: State, universe: set<Uuid>)
    requires Asked(s) <= universe
    ensures forall r :: r in s.queue ==> AsksWithin(r, universe)
    ensures forall id :: id in s.pending ==> AsksWithin(s.pending[id].request, universe)
  {
    forall r | r in s.queue ensures AsksWithin(r, universe) {
      assert AskedIn(r) <= Asked(s);
    }
    forall id | id in s.pending ensures AsksWithin(s.pending[id].request, universe) {
      assert AskedIn(s.pending[id].request) <= Asked(s);
    }
  }

  function Universe(server: Server, s: State): set<Uuid> {
    People(server) + Asked(s)
  }

  lemma AnyStateStarts(server: Server, s: State)
    requires s.pending.Keys <= s.issued
    ensures CascadeInv(server, s, Universe(server, s))
  {
    PeopleLaw(server, Universe(server, s));
    AskedLaw(s, Universe(server, s));
    hide People, Asked, AsksWithin, EditorIn, WalletPeopleIn;
  }

  /**
   Against any fixed server data, no run that only sends what is queued and answers fetches is
   infinite, whatever is queued and pending at its beginning and even when users are their own
   last editors.
   */
  lemma CascadeEnds(server: Server, run: nat -> State)
    requires WellFiled(server) && run(0).pending.Keys <= run(0).issued
    ensures exists k: nat :: !CascadeStep(server, run(k), run(k + 1))
  {
    AnyStateStarts(server, run(0));
    hide CascadeInv, CascadeStep, Universe;
    NoEndlessCascade(server, run, 0, Universe(server, run(0)));
  }

  /** In particular the cascade an org message starts ends, in whatever state of whatever run it arrives. */
  lemma OrgCascadeEnds(server: Server, actions: seq<Action>, org: Org, run: nat -> State)
    requires WellFiled(server) && IsRun(Initial(), actions)
    requires run(0) == HandleOrg(After(Initial(), actions), org)
    ensures exists k: nat :: !CascadeStep(server, run(k), run(k + 1))
  {
    hide HandleOrg, CascadeStep, TableInv, IsRun, After, Initial, WellFiled;
    InitialTable();
    RunKeepsTable(Initial(), actions);
    PendingIssued(After(Initial(), actions));
    OrgKeepsTable(After(Initial(), actions), org);
    CascadeEnds(server, run);
  }

  lemma OrgKeepsTable(s: State, org: Org)
    ensures HandleOrg(s, org).pending == s.pending && HandleOrg(s, org).issued == s.issued
  {
    hide MissingUsers, MissingWallets, SortedIds, UserFetch;
  }

  lemma PendingIssued(s: State)
    requires TableInv(s)
    ensures s.pending.Keys <= s.issued
  {
  }

  // ----- where a cascade ends -----

  ghost predicate Stuck(server: Server, s: State) {
    forall t :: !CascadeStep(server, s, t)
  }

  /** Nothing is queued and no fetch waits for its reply. */
  ghost predicate FetchesDone(s: State) {
    s.queue == [] && forall id :: id in s.pending ==> !IsFetch(s.pending[id].request)
  }

  /** A connection on which no step of the cascade is possible has no fetch outstanding. */
  lemma StuckIsDone(server: Server, s: State)
    requires WellFiled(server) && s.running && Stuck(server, s)
    ensures FetchesDone(s)
  {
    if s.queue != [] {
      var newId := FreshBelow(s.issued, |s.issued| + 1);
      assert CanSend(s, newId);
      assert CascadeStep(server, s, SendNext(s, newId, true));
    }
    forall id | id in s.pending ensures !IsFetch(s.pending[id].request) {
      var request := s.pending[id].request;
      if IsFetch(request) {
        var response := if request.FetchUser? && request.id in server.users then UserReply(server.users[request.id])
                        else if request.FetchWallet? && request.id in server.wallets then
                          WalletReply(server.wallets[request.id])
                        else Error("");
        assert CanAnswer(server, s, id, response);
        assert CascadeStep(server, s, Receive(s, Decoded(Some(response), Some(id))));
      }
    }
  }

  /** Everyone and everything the caches mention is cached. */
  ghost predicate AllCached(s: State) {
    (forall o :: o in s.orgs ==>
       s.orgs[o].users <= s.users.Keys && s.orgs[o].wallets <= s.wallets.Keys && EditorCached(s, s.orgs[o].lastEditor))
    && (forall w :: w in s.wallets ==>
          EditorCached(s, Some(s.wallets[w].owner)) && forall e :: e in Editors(s.wallets[w]) ==> EditorCached(s, e))
    && (forall u :: u in s.users ==> EditorCached(s, s.users[u].lastEditor))
  }

  predicate EditorCached(s: State, editor: Option<Uuid>) {
    editor.None? || editor.value == NIL || editor.value in s.users
  }

  /** What was given up on since the last logout is cached by now. */
  ghost predicate GivenUpCached(s: State) {
    forall r :: r in s.abandoned ==>
      (r.FetchUser? ==> r.id in s.users) && (r.FetchWallet? ==> r.id in s.wallets)
  }

  /** Closed caches with no fetch outstanding, and none given up on that is still missing, are complete. */
  lemma DoneIsComplete(s: State)
    requires Closed(s) && FetchesDone(s) && GivenUpCached(s)
    ensures AllCached(s)
  {
    forall u | UserCovered(s, u) ensures u in s.users {
      assert u in s.users || FetchUser(u) in s.abandoned;
    }
    forall w | WalletCovered(s, w) ensures w in s.wallets {
      assert w in s.wallets || FetchWallet(w) in s.abandoned;
    }
    hide UserCovered, WalletCovered, Editors;
    forall o | o in s.orgs
      ensures s.orgs[o].users <= s.users.Keys && s.orgs[o].wallets <= s.wallets.Keys
              && EditorCached(s, s.orgs[o].lastEditor)
    {
      assert OrgCovered(s, s.orgs[o]);
    }
    forall w | w in s.wallets
      ensures EditorCached(s, Some(s.wallets[w].owner)) && forall e :: e in Editors(s.wallets[w]) ==> EditorCached(s, e)
    {
      assert WalletDetailsCovered(s, s.wallets[w]);
    }
    forall u | u in s.users ensures EditorCached(s, s.users[u].lastEditor) {
      assert EditorCovered(s, s.users[u].lastEditor);
    }
  }

  /** The server has everyone and everything its own data mentions. */
  ghost predicate SelfContained(server: Server) {
    WellFiled(server)
    && (forall u :: u in server.users ==> KnownEditor(server, server.users[u].lastEditor))
    && (forall w :: w in server.wallets ==>
          KnownEditor(server, Some(server.wallets[w].owner))
          && forall e :: e in Editors(server.wallets[w]) ==> KnownEditor(server, e))
  }

  predicate KnownEditor(server: Server, editor: Option<Uuid>) {
    editor.None? || editor.value == NIL || editor.value in server.users
  }

  /** A request that does not close the connection and, if it is a fetch, is of something the server has. */
  predicate Known(server: Server, r: Request) {
    !r.Close? && (r.FetchUser? ==> r.id in server.users) && (r.FetchWallet? ==> r.id in server.wallets)
  }

  /** What holds at every state of a cascade against such a server. */
  ghost predicate Settling(server: Server, s: State) {
    s.running && Closed(s) && s.pending.Keys <= s.issued && GivenUpCached(s)
    && (forall r :: r in s.queue ==> Known(server, r))
    && (forall id :: id in s.pending ==> Known(server, s.pending[id].request))
  }

  lemma {:induction false} UserFetchesKnown(server: Server, users: map<Uuid, User>, editors: seq<Option<Uuid>>)
    requires forall e :: e in editors ==> KnownEditor(server, e)
    ensures forall r :: r in UserFetches(users, editors) ==> Known(server, r)
  {
    if editors != [] {
      assert editors[0] in editors;
      UserFetchesKnown(server, users, editors[1..]);
    }
  }

  lemma SendSettling(server: Server, s: State, newId: RequestId)
    requires Settling(server, s) && CanSend(s, newId)
    ensures Settling(server, SendNext(s, newId, true))
  {
    assert s.queue[0] in s.queue;
    SendStaysClosed(s, newId, true);
    hide Closed;
  }

  lemma UserAnswerSettles(server: Server, s: State, id: RequestId, user: User)
    requires Settling(server, s) && id in s.pending && KnownEditor(server, user.lastEditor)
    requires var t := HandleUser(s.(pending := s.pending - {id}), user); Closed(t)
    ensures Settling(server, HandleUser(s.(pending := s.pending - {id}), user))
  {
    hide Closed;
  }

  lemma WalletAnswerSettles(server: Server, s: State, id: RequestId, wallet: Wallet)
    requires Settling(server, s) && id in s.pending
    requires KnownEditor(server, Some(wallet.owner)) && forall e :: e in Editors(wallet) ==> KnownEditor(server, e)
    requires var t := HandleWallet(s.(pending := s.pending - {id}), wallet); Closed(t)
    ensures Settling(server, HandleWallet(s.(pending := s.pending - {id}), wallet))
  {
    UserFetchesKnown(server, s.users, Editors(wallet));
    hide Closed, Editors, UserFetches, WithWallet;
  }

  lemma AnswerSettling(server: Server, s: State, id: RequestId, response: Response)
    requires SelfContained(server) && Settling(server, s) && CanAnswer(server, s, id, response)
    ensures Settling(server, Receive(s, Decoded(Some(response), Some(id))))
  {
    assert Known(server, s.pending[id].request);
    ReceiveStaysClosed(s, Decoded(Some(response), Some(id)));
    ReceiveAnswer(server, s, id, response);
    hide Receive, Closed, Editors, Settling, HandleUser, HandleWallet;
    if response.UserReply? {
      UserAnswerSettles(server, s, id, response.user);
    } else {
      WalletAnswerSettles(server, s, id, response.wallet);
    }
  }

  lemma StepSettling(server: Server, s: State, t: State)
    requires SelfContained(server) && Settling(server, s) && CascadeStep(server, s, t)
    ensures Settling(server, t)
  {
    hide Settling, SendNext, Receive, CanAnswer, SelfContained;
    if newId :| CanSend(s, newId) && t == SendNext(s, newId, true) {
      SendSettling(server, s, newId);
    } else {
      var id, response :| CanAnswer(server, s, id, response) && t == Receive(s, Decoded(Some(response), Some(id)));
      AnswerSettling(server, s, id, response);
    }
  }

  lemma {:induction false} MissingAreKnown(server: Server, users: map<Uuid, User>, wallets: map<Uuid, Wallet>,
                                           ids: seq<Uuid>)
    ensures (forall u :: u in ids ==> u in users || u in server.users) ==>
              forall r :: r in MissingUsers(users, ids) ==> Known(server, r)
    ensures (forall w :: w in ids ==> w in wallets || w in server.wallets) ==>
              forall r :: r in MissingWallets(wallets, ids) ==> Known(server, r)
  {
    if ids != [] {
      MissingAreKnown(server, users, wallets, ids[1..]);
      assert ids[0] in ids;
    }
  }

  /** The server has everyone and everything an org mentions that is not cached. */
  predicate OrgKnown(server: Server, s: State, org: Org) {
    KnownEditor(server, org.lastEditor)
    && (forall u :: u in org.users ==> u in s.users || u in server.users)
    && (forall w :: w in org.wallets ==> w in s.wallets || w in server.wallets)
  }

  lemma OrgRequests(s: State, org: Org)
    requires s.running
    ensures var t := HandleOrg(s, org);
            t.queue == s.queue + UserFetch(s.users, org.lastEditor) + MissingUsers(s.users, SortedIds(org.users))
                       + MissingWallets(s.wallets, SortedIds(org.wallets))
            && t.pending == s.pending && t.issued == s.issued && t.abandoned == s.abandoned && t.running
            && t.users == s.users && t.wallets == s.wallets
  {
    hide MissingUsers, MissingWallets, SortedIds, UserFetch;
  }

  lemma OrgQueueKnown(server: Server, s: State, org: Org)
    requires s.running && OrgKnown(server, s, org) && forall r :: r in s.queue ==> Known(server, r)
    ensures forall r :: r in HandleOrg(s, org).queue ==> Known(server, r)
  {
    var a, b, c := UserFetch(s.users, org.lastEditor), MissingUsers(s.users, SortedIds(org.users)),
                   MissingWallets(s.wallets, SortedIds(org.wallets));
    assert forall r :: r in a ==> Known(server, r);
    MissingAreKnown(server, s.users, s.wallets, SortedIds(org.users));
    MissingAreKnown(server, s.users, s.wallets, SortedIds(org.wallets));
    OrgRequests(s, org);
    hide MissingUsers, MissingWallets, SortedIds, HandleOrg, UserFetch, Known, KnownEditor;
    forall r | r in HandleOrg(s, org).queue ensures Known(server, r) {
      assert r in s.queue || r in a || r in b || r in c;
    }
  }

  lemma OrgSettling(server: Server, s: State, org: Org)
    requires Settling(server, s) && OrgKnown(server, s, org)
    ensures Settling(server, HandleOrg(s, org))
  {
    OrgStaysClosed(s, org);
    hide Closed, Known, OrgKnown;
    OrgQueueKnown(server, s, org);
    OrgRequests(s, org);
    hide HandleOrg, MissingUsers, MissingWallets, SortedIds, UserFetch;
  }

  /** A finite cascade that cannot go on. */
  ghost predicate IsFullCascade(server: Server, states: seq<State>) {
    states != []
    && (forall k :: 0 <= k < |states| - 1 ==> CascadeStep(server, states[k], states[k + 1]))
    && Stuck(server, states[|states| - 1])
  }

  lemma {:induction false} CascadeKeeps(server: Server, states: seq<State>, k: nat)
    requires SelfContained(server) && IsFullCascade(server, states) && k < |states|
    requires Settling(server, states[0])
    ensures Settling(server, states[k])
  {
    hide Settling, CascadeStep;
    if k > 0 {
      CascadeKeeps(server, states, k - 1);
      StepSettling(server, states[k - 1], states[k]);
    }
  }

  /**
   With closed caches, a server that has everyone and everything mentioned or asked for, and
   nothing given up on that is still missing: wherever a cascade ends, in whatever order the
   replies came, no fetch is outstanding and everyone and everything the caches mention is cached.
   */
  lemma CascadeCompletes(server: Server, states: seq<State>)
    requires SelfContained(server) && IsFullCascade(server, states) && Settling(server, states[0])
    ensures var last := states[|states| - 1]; FetchesDone(last) && AllCached(last)
  {
    var last := states[|states| - 1];
    CascadeKeeps(server, states, |states| - 1);
    hide CascadeStep, Closed;
    StuckIsDone(server, last);
    DoneIsComplete(last);
  }

  /** In particular the cascade of an org message, whatever fetches were on their way when it came. */
  lemma OrgCascadeCompletes(server: Server, s: State, org: Org, states: seq<State>)
    requires SelfContained(server) && Settling(server, s) && OrgKnown(server, s, org)
    requires IsFullCascade(server, states) && states[0] == HandleOrg(s, org)
    ensures var last := states[|states| - 1]; FetchesDone(last) && AllCached(last)
  {
    OrgSettling(server, s, org);
    hide Settling, HandleOrg, IsFullCascade;
    CascadeCompletes(server, states);
  }
}
