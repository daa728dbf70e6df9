/**
 The business WebSocket client (liana-business/business-installer/src/client.rs):
 its data and what each event does to it.

 A state holds the shared caches, the request queue of the running connection, the
 table of requests that wait for a reply, the snapshot the timeout checker is working
 through, the time, and the notifications sent so far. `issued`, `abandoned`, `resent` and
 `timedOut` are history: they record what happened and influence nothing. `abandoned` holds
 the requests given up on since the last logout.
 */
module WsModel {
  import opened Wrappers

  type Uuid = nat
  type RequestId = nat

  const NIL: Uuid := 0

  datatype Org = Org(
    name: string,
    id: Uuid,
    wallets: set<Uuid>,
    users: set<Uuid>,
    owners: seq<Uuid>,
    lastEdited: Option<nat>,
    lastEditor: Option<Uuid>)

  datatype Key = Key(id: nat, lastEditor: Option<Uuid>)

  datatype SpendingPath = SpendingPath(threshold: nat, keyIds: seq<nat>, lastEditor: Option<Uuid>)

  /** `keys` lists the key map in key order. */
  datatype Template = Template(keys: seq<Key>, primary: SpendingPath, secondary: seq<SpendingPath>)

  datatype Wallet = Wallet(
    id: Uuid,
    alias: string,
    org: Uuid,
    owner: Uuid,
    template: Option<Template>,
    lastEditor: Option<Uuid>)

  datatype UserRole = WizardSardineAdmin | WalletManager | Participant

  datatype User = User(uuid: Uuid, name: string, email: string, role: UserRole, lastEditor: Option<Uuid>)

  datatype Request =
    | Connect(version: nat)
    | Ping
    | Close
    | FetchOrg(id: Uuid)
    | EditWallet(wallet: Wallet)
    | FetchWallet(id: Uuid)
    | EditXpub(walletId: Uuid, keyId: nat)
    | FetchUser(id: Uuid)
    | DeviceRegistered(walletId: Uuid)

  datatype Response =
    | Connected(version: nat, userId: Uuid)
    | Pong
    | OrgReply(org: Org)
    | WalletReply(wallet: Wallet)
    | UserReply(user: User)
    | Error(code: string)
    | DeleteUserOrg(userId: Uuid, orgId: Uuid)

  /** A text message: not decodable at all, or decoded to a reply (None when unknown) and an id. */
  datatype Incoming = Undecodable | Decoded(response: Option<Response>, requestId: Option<RequestId>)

  datatype Notification =
    | ConnectedNote
    | DisconnectedNote
    | OrgNote(id: Uuid)
    | WalletNote(id: Uuid)
    | UserNote(id: Uuid)
    | UpdateNote
    | RequestTimeoutNote
    | ConnectionErrorNote
    | MessageErrorNote

  /** A request that waits for its reply since it was last sent or retried. */
  datatype Pending = Pending(request: Request, retries: nat, since: nat)

  /** What the timeout checker copied out of the table: an entry it found too old. */
  datatype Stale = Stale(id: RequestId, request: Request, retries: nat)

  datatype State = State(
    orgs: map<Uuid, Org>,
    wallets: map<Uuid, Wallet>,
    users: map<Uuid, User>,
    userId: Option<Uuid>,
    connected: bool,
    running: bool,
    awaitingPong: bool,
    queue: seq<Request>,
    pending: map<RequestId, Pending>,
    stale: seq<Stale>,
    clock: nat,
    notes: seq<Notification>,
    issued: set<RequestId>,
    abandoned: set<Request>,
    resent: map<RequestId, nat>,
    timedOut: set<RequestId>)

  const MAX_RETRIES := 3

  /** How long a request may wait before the checker finds it too old, in milliseconds. */
  const MAX_WAIT := 30_000

  datatype ReplyType = ConnectedType | PongType | OrgType | WalletType | UserType | NoType

  function ExpectedReply(request: Request): ReplyType {
    match request
    case Connect(_) => ConnectedType
    case Ping => PongType
    case Close => NoType
    case FetchOrg(_) => OrgType
    case EditWallet(_) => WalletType
    case FetchWallet(_) => WalletType
    case EditXpub(_, _) => WalletType
    case DeviceRegistered(_) => WalletType
    case FetchUser(_) => UserType
  }

  predicate Matches(response: Response, expected: ReplyType) {
    match (response, expected)
    case (Connected(_, _), ConnectedType) => true
    case (Pong, PongType) => true
    case (OrgReply(_), OrgType) => true
    case (WalletReply(_), WalletType) => true
    case (UserReply(_), UserType) => true
    case (Error(_), _) => true
    case _ => false
  }

  // ----- small updates -----

  /** A request sent on the channel; nobody receives it once the connection loop has ended. */
  function Enqueue(s: State, requests: seq<Request>): State {
    if s.running then s.(queue := s.queue + requests) else s
  }

  function Notify(s: State, note: Notification): State {
    s.(notes := s.notes + [note])
  }

  lemma {:induction false} LeastExists(ids: set<Uuid>, x: Uuid)
    requires x in ids
    ensures exists least :: least in ids && forall y :: y in ids ==> least <= y
    decreases x
  {
    if y :| y in ids && y < x {
      LeastExists(ids, y);
    } else {
      assert forall y :: y in ids ==> x <= y;
    }
  }

  function Least(ids: set<Uuid>): (least: Uuid)
    requires ids != {}
    ensures least in ids && forall x :: x in ids ==> least <= x
  {
    assert exists least :: least in ids && forall x :: x in ids ==> least <= x by {
      var x :| x in ids;
      LeastExists(ids, x);
    }
    var least :| least in ids && forall x :: x in ids ==> least <= x;
    least
  }

  /** The ids of a set in ascending order, the order a B-tree set is iterated in. */
  function SortedIds(ids: set<Uuid>): (r: seq<Uuid>)
    ensures forall x :: x in r <==> x in ids
    ensures forall i, j :: 0 <= i < j < |r| ==> r[i] < r[j]
  {
    if ids == {} then []
    else
      var least := Least(ids);
      var rest := SortedIds(ids - {least});
      assert forall i :: 0 <= i < |rest| ==> rest[i] in rest && rest[i] in ids - {least};
      [least] + rest
  }

  /** The fetch an id needs, unless it is nil or cached. */
  function UserFetch(users: map<Uuid, User>, user: Option<Uuid>): seq<Request> {
    if user.None? || user.value == NIL || user.value in users then [] else [FetchUser(user.value)]
  }

  function UserFetches(users: map<Uuid, User>, editors: seq<Option<Uuid>>): seq<Request> {
    if editors == [] then [] else UserFetch(users, editors[0]) + UserFetches(users, editors[1..])
  }

  function MissingUsers(users: map<Uuid, User>, ids: seq<Uuid>): seq<Request> {
    if ids == [] then []
    else (if ids[0] in users then [] else [FetchUser(ids[0])]) + MissingUsers(users, ids[1..])
  }

  function MissingWallets(wallets: map<Uuid, Wallet>, ids: seq<Uuid>): seq<Request> {
    if ids == [] then []
    else (if ids[0] in wallets then [] else [FetchWallet(ids[0])]) + MissingWallets(wallets, ids[1..])
  }

  // ----- the handlers -----

  function HandleOrg(s: State, org: Org): State {
    var s1 := Enqueue(s, UserFetch(s.users, org.lastEditor));
    var s2 := s1.(orgs := s1.orgs[org.id := org]);
    var s3 := Enqueue(s2, MissingUsers(s2.users, SortedIds(org.users)));
    var s4 := Enqueue(s3, MissingWallets(s3.wallets, SortedIds(org.wallets)));
    Notify(s4, OrgNote(org.id))
  }

  function KeyEditors(keys: seq<Key>): (r: seq<Option<Uuid>>)
    ensures |r| == |keys| && forall i :: 0 <= i < |r| ==> r[i] == keys[i].lastEditor
  {
    if keys == [] then [] else [keys[0].lastEditor] + KeyEditors(keys[1..])
  }

  function PathEditors(paths: seq<SpendingPath>): (r: seq<Option<Uuid>>)
    ensures |r| == |paths| && forall i :: 0 <= i < |r| ==> r[i] == paths[i].lastEditor
  {
    if paths == [] then [] else [paths[0].lastEditor] + PathEditors(paths[1..])
  }

  /** Everyone who edited a wallet or a part of its template, in the order they are asked for. */
  function Editors(w: Wallet): seq<Option<Uuid>> {
    [w.lastEditor] +
    match w.template
    case None => []
    case Some(t) => KeyEditors(t.keys) + [t.primary.lastEditor] + PathEditors(t.secondary)
  }

  /** A cached org learns about a wallet of its own. */
  function WithWallet(orgs: map<Uuid, Org>, wallet: Wallet): map<Uuid, Org> {
    if wallet.org in orgs then
      var org := orgs[wallet.org];
      orgs[wallet.org := org.(wallets := org.wallets + {wallet.id})]
    else orgs
  }

  function HandleWallet(s: State, wallet: Wallet): State {
    var s1 := Enqueue(s, UserFetches(s.users, Editors(wallet)));
    var s2 := s1.(wallets := s1.wallets[wallet.id := wallet], orgs := WithWallet(s1.orgs, wallet));
    var s3 := Enqueue(s2, UserFetch(s2.users, Some(wallet.owner)));
    Notify(s3, WalletNote(wallet.id))
  }

  function HandleUser(s: State, user: User): State {
    var s1 := Enqueue(s, UserFetch(s.users, user.lastEditor));
    Notify(s1.(users := s1.users[user.uuid := user]), UserNote(user.uuid))
  }

  function HandleDeleteUserOrg(s: State, user: Uuid, org: Uuid): State {
    if s.userId != Some(user) then s else Notify(s.(orgs := s.orgs - {org}), UpdateNote)
  }

  function UnknownUser(id: Uuid): User {
    User(id, "Unknown", "", Participant, None)
  }

  /** A request leaves the table with nothing to show for it. */
  function GiveUp(s: State, id: RequestId): State
    requires id in s.pending
  {
    s.(pending := s.pending - {id}, abandoned := s.abandoned + {s.pending[id].request})
  }

  /** A user the server does not show is cached as unknown. */
  function CacheUnknown(s: State, id: RequestId): State
    requires id in s.pending && s.pending[id].request.FetchUser?
  {
    var user := s.pending[id].request.id;
    s.(pending := s.pending - {id}, users := s.users[user := UnknownUser(user)])
  }

  /** A reply that fails the request it answers. */
  function HandleError(s: State, code: string, requestId: Option<RequestId>): State {
    if requestId.None? || requestId.value !in s.pending then Notify(s, MessageErrorNote)
    else
      var id, request := requestId.value, s.pending[requestId.value].request;
      if code == "UNAUTHORIZED" && request.FetchUser? then Notify(CacheUnknown(s, id), UserNote(request.id))
      else Notify(GiveUp(s, id), MessageErrorNote)
  }

  /** What an accepted reply does. */
  function HandleReply(s: State, response: Response): State {
    match response
    case Connected(_, _) => Notify(s, ConnectedNote)
    case Pong => s.(awaitingPong := false)
    case OrgReply(org) => HandleOrg(s, org)
    case WalletReply(wallet) => HandleWallet(s, wallet)
    case UserReply(user) => HandleUser(s, user)
    case DeleteUserOrg(user, org) => HandleDeleteUserOrg(s, user, org)
    case Error(_) => s
  }

  /** A message whose id is pending for a request that expects another type of reply. */
  predicate Mismatched(s: State, response: Response, requestId: Option<RequestId>) {
    requestId.Some? && requestId.value in s.pending
    && !Matches(response, ExpectedReply(s.pending[requestId.value].request))
  }

  function Receive(s: State, msg: Incoming): State {
    match msg
    case Undecodable => Notify(s, MessageErrorNote)
    case Decoded(None, None) => s
    case Decoded(None, Some(id)) =>
      if id in s.pending then GiveUp(s, id) else s
    case Decoded(Some(Error(code)), requestId) => HandleError(s, code, requestId)
    case Decoded(Some(response), requestId) =>
      if Mismatched(s, response, requestId) then Notify(s, MessageErrorNote)
      else HandleReply(if requestId.Some? then s.(pending := s.pending - {requestId.value}) else s, response)
  }

  // ----- the other events -----

  /** The connection loop ends: what is still queued is never sent. */
  function Stopped(s: State): State {
    s.(running := false, queue := [], abandoned := s.abandoned + (set r | r in s.queue))
  }

  /** A request was written and waits for its reply. */
  function Sent(s: State, newId: RequestId, request: Request): State {
    s.(issued := s.issued + {newId}, pending := s.pending[newId := Pending(request, 0, s.clock)],
       resent := s.resent[newId := 0])
  }

  /** A request could not be written. */
  function Unsent(s: State, newId: RequestId, request: Request): State {
    s.(issued := s.issued + {newId}, pending := s.pending - {newId}, abandoned := s.abandoned + {request})
  }

  /** The loop takes the next request; `newId` is the id drawn for it, `ok` whether it could be written. */
  function SendNext(s: State, newId: RequestId, ok: bool): State
    requires s.queue != []
  {
    var request, s1 := s.queue[0], s.(queue := s.queue[1..]);
    if request.Close? then Stopped(s1).(connected := false)
    else if ok then Sent(s1, newId, request)
    else Notify(Stopped(Unsent(s1, newId, request)), ConnectionErrorNote)
  }

  /** The server closes, or reading fails. */
  function ConnectionLost(s: State): State {
    Notify(Stopped(s), DisconnectedNote)
  }

  predicate TooOld(entry: Pending, clock: nat) {
    clock > entry.since + MAX_WAIT
  }

  /** Copies of those entries that are too old. */
  function StaleEntries(pending: map<RequestId, Pending>, clock: nat, ids: seq<RequestId>): seq<Stale>
    requires forall id :: id in ids ==> id in pending
  {
    if ids == [] then []
    else
      var entry := pending[ids[0]];
      (if TooOld(entry, clock) then [Stale(ids[0], entry.request, entry.retries)] else [])
      + StaleEntries(pending, clock, ids[1..])
  }

  /** The checker copies out the entries that are too old, all of them, in the order of the table. */
  function CheckTimeouts(s: State): State {
    s.(stale := StaleEntries(s.pending, s.clock, SortedIds(s.pending.Keys)))
  }

  function Tick(s: State, duration: nat): State {
    s.(clock := s.clock + duration)
  }

  /** How often an id was sent again. */
  function Resends(s: State, id: RequestId): nat {
    if id in s.resent then s.resent[id] else 0
  }

  /** One more retry counted for an id, whose wait starts over if it is still pending. */
  function Bumped(s: State, id: RequestId): State {
    var s1 := if id in s.pending then
                var entry := s.pending[id];
                s.(pending := s.pending[id := entry.(retries := entry.retries + 1, since := s.clock)])
              else s;
    s1.(resent := s1.resent[id := Resends(s, id) + 1])
  }

  /** An id that is not retried any more. */
  function Dropped(s: State, entry: Stale): State {
    s.(pending := s.pending - {entry.id},
       abandoned := s.abandoned + (if entry.id in s.pending then {entry.request} else {}),
       timedOut := s.timedOut + {entry.id})
  }

  /** The checker handles the next entry it copied, which may have been answered since. */
  function RetryNext(s: State): State
    requires s.stale != []
  {
    var entry, s1 := s.stale[0], s.(stale := s.stale[1..]);
    if entry.retries >= MAX_RETRIES then
      Notify(Dropped(s1, entry), RequestTimeoutNote)
    else
      Enqueue(Bumped(s1, entry.id), [entry.request])
  }

  /** A request from the user interface or the ping thread. */
  function Ask(s: State, request: Request): State {
    if !s.connected then (if request.Ping? then s else Notify(s, DisconnectedNote))
    else
      var s1 := Enqueue(s, [request]);
      if request.Ping? then s1.(awaitingPong := true) else s1
  }

  /** The ping checker gives up on the connection; the loop does not notice. */
  function PingTimeout(s: State): State {
    Notify(s.(connected := false), DisconnectedNote)
  }

  function CloseConnection(s: State): State {
    if s.connected then Enqueue(s, [Close]).(connected := false) else s
  }

  /** The caches are emptied, and what was given up on no longer matters; the table stays as it is. */
  function Logout(s: State): State {
    CloseConnection(s).(orgs := map[], wallets := map[], users := map[], abandoned := {})
  }

  /** A new connection after its handshake: a new queue, a new table, and a fetch of the user itself. */
  function Open(s: State, user: Uuid): State {
    Notify(s.(userId := Some(user), connected := true, running := true, awaitingPong := false,
              queue := [FetchUser(user)], pending := map[], stale := [],
              abandoned := s.abandoned + (set id | id in s.pending :: s.pending[id].request)),
           ConnectedNote)
  }

  function DummyUser(): User {
    User(NIL, "None", "contact@lianawallet.com", WizardSardineAdmin, None)
  }

  /** A client that never connected; the nil user is prefilled. */
  function Initial(): State {
    State(map[], map[], map[NIL := DummyUser()], None, false, false, false, [], map[], [], 0, [], {}, {}, map[], {})
  }

  /** The org as the user interface sees it: with the wallets that are cached. */
  function GetOrg(s: State, id: Uuid): Option<Org> {
    if id !in s.orgs then None
    else
      var org := s.orgs[id];
      Some(org.(wallets := (set w | w in org.wallets && w in s.wallets), lastEdited := None, lastEditor := None))
  }
}
