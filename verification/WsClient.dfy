/**
 The WebSocket client as an object: its fields are updated in place, and each method is
 proved to do to the state what the function of the same name in `WsModel` says.
 */
module WsClient {
  import opened Wrappers
  import opened WsModel

  lemma EnqueueTwice(s: State, a: seq<Request>, b: seq<Request>)
    ensures Enqueue(Enqueue(s, a), b) == Enqueue(s, a + b)
  {
    assert s.queue + a + b == s.queue + (a + b);
  }

  lemma {:induction false} UserFetchesConcat(users: map<Uuid, User>, a: seq<Option<Uuid>>, b: seq<Option<Uuid>>)
    ensures UserFetches(users, a + b) == UserFetches(users, a) + UserFetches(users, b)
  {
    if a == [] {
      assert a + b == b;
    } else {
      assert (a + b)[1..] == a[1..] + b;
      UserFetchesConcat(users, a[1..], b);
    }
  }

  lemma UserFetchesOne(users: map<Uuid, User>, e: Option<Uuid>)
    ensures UserFetches(users, [e]) == UserFetch(users, e)
  {
    assert [e][1..] == [];
  }

  lemma MissingUsersStep(s: State, users: map<Uuid, User>, ids: seq<Uuid>)
    requires ids != []
    ensures Enqueue(s, MissingUsers(users, ids))
         == Enqueue(if ids[0] in users then s else Enqueue(s, [FetchUser(ids[0])]), MissingUsers(users, ids[1..]))
  {
    var rest := MissingUsers(users, ids[1..]);
    if ids[0] in users {
      assert [] + rest == rest;
    } else {
      EnqueueTwice(s, [FetchUser(ids[0])], rest);
    }
  }

  lemma MissingUsersDone(s: State, users: map<Uuid, User>)
    ensures Enqueue(s, MissingUsers(users, [])) == s
  {
    assert s.queue + [] == s.queue;
  }

  lemma MissingWalletsStep(s: State, wallets: map<Uuid, Wallet>, ids: seq<Uuid>)
    requires ids != []
    ensures Enqueue(s, MissingWallets(wallets, ids))
         == Enqueue(if ids[0] in wallets then s else Enqueue(s, [FetchWallet(ids[0])]),
                    MissingWallets(wallets, ids[1..]))
  {
    var rest := MissingWallets(wallets, ids[1..]);
    if ids[0] in wallets {
      assert [] + rest == rest;
    } else {
      EnqueueTwice(s, [FetchWallet(ids[0])], rest);
    }
  }

  lemma MissingWalletsDone(s: State, wallets: map<Uuid, Wallet>)
    ensures Enqueue(s, MissingWallets(wallets, [])) == s
  {
    assert s.queue + [] == s.queue;
  }

  /** The copies made so far and those to come, one entry further. */
  lemma StaleStep(done: seq<Stale>, pending: map<RequestId, Pending>, clock: nat, ids: seq<RequestId>, i: nat)
    requires i < |ids| && forall id :: id in ids ==> id in pending
    ensures ids[i] in pending
    ensures var entry := pending[ids[i]];
            done + StaleEntries(pending, clock, ids[i..])
            == done + (if TooOld(entry, clock) then [Stale(ids[i], entry.request, entry.retries)] else [])
               + StaleEntries(pending, clock, ids[i + 1..])
  {
    assert ids[i] in ids;
    assert ids[i..][0] == ids[i] && ids[i..][1..] == ids[i + 1..];
  }

  lemma NoneLeft(pending: map<RequestId, Pending>, clock: nat)
    ensures StaleEntries(pending, clock, []) == []
  {
  }

  class Client {
    var orgs: map<Uuid, Org>
    var wallets: map<Uuid, Wallet>
    var users: map<Uuid, User>
    var userId: Option<Uuid>
    var connected: bool
    var running: bool
    var awaitingPong: bool
    var queue: seq<Request>
    var sentRequests: map<RequestId, Pending>
    var stale: seq<Stale>
    var clock: nat
    var notes: seq<Notification>
    ghost var issued: set<RequestId>
    ghost var abandoned: set<Request>
    ghost var resent: map<RequestId, nat>
    ghost var timedOut: set<RequestId>

    ghost function View(): State
      reads this
    {
      State(orgs, wallets, users, userId, connected, running, awaitingPong, queue, sentRequests, stale, clock, notes,
            issued, abandoned, resent, timedOut)
    }

    constructor ()
      ensures View() == Initial()
    {
      orgs, wallets, users := map[], map[], map[NIL := DummyUser()];
      userId, connected, running, awaitingPong := None, false, false, false;
      queue, sentRequests, stale, clock, notes := [], map[], [], 0, [];
      issued, abandoned, resent, timedOut := {}, {}, map[], {};
    }

    /** Time passes. */
    method Wait(duration: nat)
      modifies this`clock
      ensures View() == Tick(old(View()), duration)
    {
      clock := clock + duration;
    }

    method SendNotif(note: Notification)
      modifies this`notes
      ensures View() == Notify(old(View()), note)
    {
      notes := notes + [note];
    }

    /** Sending on the request channel. */
    method SendRequest(request: Request)
      modifies this`queue
      ensures View() == Enqueue(old(View()), [request])
    {
      if running {
        queue := queue + [request];
      }
    }

    method FetchUserMaybe(user: Option<Uuid>)
      modifies this`queue
      ensures View() == Enqueue(old(View()), UserFetch(old(users), user))
    {
      if user.Some? {
        if user.value == NIL {
          return;
        }
        if user.value !in users {
          SendRequest(FetchUser(user.value));
        }
      }
    }

    method FetchMissingUsers(ids: set<Uuid>)
      modifies this`queue
      ensures View() == Enqueue(old(View()), MissingUsers(old(users), SortedIds(ids)))
    {
      hide MissingUsers, Enqueue, SortedIds;
      var sorted := SortedIds(ids);
      ghost var goal := Enqueue(View(), MissingUsers(users, sorted));
      assert sorted[0..] == sorted;
      for i := 0 to |sorted|
        invariant users == old(users)
        invariant View() == old(View()).(queue := queue)
        invariant Enqueue(View(), MissingUsers(users, sorted[i..])) == goal
      {
        assert sorted[i..][0] == sorted[i] && sorted[i..][1..] == sorted[i + 1..];
        MissingUsersStep(View(), users, sorted[i..]);
        if sorted[i] !in users {
          SendRequest(FetchUser(sorted[i]));
        }
      }
      MissingUsersDone(View(), users);
    }

    method FetchMissingWallets(ids: set<Uuid>)
      modifies this`queue
      ensures View() == Enqueue(old(View()), MissingWallets(old(wallets), SortedIds(ids)))
    {
      hide MissingWallets, Enqueue, SortedIds;
      var sorted := SortedIds(ids);
      ghost var goal := Enqueue(View(), MissingWallets(wallets, sorted));
      assert sorted[0..] == sorted;
      for i := 0 to |sorted|
        invariant wallets == old(wallets)
        invariant View() == old(View()).(queue := queue)
        invariant Enqueue(View(), MissingWallets(wallets, sorted[i..])) == goal
      {
        assert sorted[i..][0] == sorted[i] && sorted[i..][1..] == sorted[i + 1..];
        MissingWalletsStep(View(), wallets, sorted[i..]);
        if sorted[i] !in wallets {
          SendRequest(FetchWallet(sorted[i]));
        }
      }
      MissingWalletsDone(View(), wallets);
    }

    method HandleOrg(org: Org)
      modifies this
      ensures View() == WsModel.HandleOrg(old(View()), org)
    {
      FetchUserMaybe(org.lastEditor);
      orgs := orgs[org.id := org];
      FetchMissingUsers(org.users);
      FetchMissingWallets(org.wallets);
      SendNotif(OrgNote(org.id));
    }

    /** Asks for everyone on a list of editors who is neither nil nor cached. */
    method FetchEditors(editors: seq<Option<Uuid>>)
      modifies this`queue
      ensures View() == Enqueue(old(View()), UserFetches(old(users), editors))
    {
      ghost var goal := Enqueue(View(), UserFetches(users, editors));
      assert editors[0..] == editors;
      for i := 0 to |editors|
        invariant View() == old(View()).(queue := queue)
        invariant Enqueue(View(), UserFetches(users, editors[i..])) == goal
      {
        assert editors[i..][1..] == editors[i + 1..];
        EnqueueTwice(View(), UserFetch(users, editors[i]), UserFetches(users, editors[i + 1..]));
        FetchUserMaybe(editors[i]);
      }
    }

    /** The people of a wallet's template: its keys', its primary path's and its secondary paths' editors. */
    method FetchWalletEditors(wallet: Wallet)
      modifies this`queue
      ensures View() == Enqueue(old(View()), UserFetches(old(users), Editors(wallet)))
    {
      ghost var start := View();
      UserFetchesOne(users, wallet.lastEditor);
      FetchUserMaybe(wallet.lastEditor);
      if wallet.template.Some? {
        var t := wallet.template.value;
        FetchEditors(KeyEditors(t.keys));
        FetchUserMaybe(t.primary.lastEditor);
        FetchEditors(PathEditors(t.secondary));
        JoinEditors(start, wallet);
      } else {
        assert Editors(wallet) == [wallet.lastEditor];
      }
    }

    method HandleWallet(wallet: Wallet)
      modifies this
      ensures View() == WsModel.HandleWallet(old(View()), wallet)
    {
      FetchWalletEditors(wallet);
      wallets := wallets[wallet.id := wallet];
      if wallet.org in orgs {
        var org := orgs[wallet.org];
        orgs := orgs[wallet.org := org.(wallets := org.wallets + {wallet.id})];
      }
      if wallet.owner !in users && wallet.owner != NIL {
        SendRequest(FetchUser(wallet.owner));
      }
      SendNotif(WalletNote(wallet.id));
    }

    method HandleUser(user: User)
      modifies this
      ensures View() == WsModel.HandleUser(old(View()), user)
    {
      FetchUserMaybe(user.lastEditor);
      users := users[user.uuid := user];
      SendNotif(UserNote(user.uuid));
    }

    method HandleDeleteUserOrg(user: Uuid, org: Uuid)
      modifies this
      ensures View() == WsModel.HandleDeleteUserOrg(old(View()), user, org)
    {
      if userId.Some? {
        if user != userId.value {
          return;
        }
        orgs := orgs - {org};
        SendNotif(UpdateNote);
      }
    }

    method HandleError(code: string, requestId: Option<RequestId>)
      modifies this
      ensures View() == WsModel.HandleError(old(View()), code, requestId)
    {
      if requestId.Some? && requestId.value in sentRequests {
        var original := sentRequests[requestId.value].request;
        sentRequests := sentRequests - {requestId.value};
        if code == "UNAUTHORIZED" {
          if original.FetchUser? {
            users := users[original.id := UnknownUser(original.id)];
            SendNotif(UserNote(original.id));
            return;
          }
        }
        abandoned := abandoned + {original};
      }
      SendNotif(MessageErrorNote);
    }

    /** `handle_wss_message`, and the warning its caller shows when it fails. */
    method HandleMessage(msg: Incoming)
      modifies this
      ensures View() == Receive(old(View()), msg)
    {
      hide WsModel.HandleOrg, WsModel.HandleWallet, WsModel.HandleUser, WsModel.HandleError;
      if msg.Undecodable? {
        SendNotif(MessageErrorNote);
        return;
      }
      var requestId := msg.requestId;
      if msg.response.None? {
        if requestId.Some? && requestId.value in sentRequests {
          abandoned := abandoned + {sentRequests[requestId.value].request};
          sentRequests := sentRequests - {requestId.value};
        }
        return;
      }
      var response := msg.response.value;
      if response.Error? {
        HandleError(response.code, requestId);
        return;
      }
      if requestId.Some? {
        if requestId.value in sentRequests {
          if !Matches(response, ExpectedReply(sentRequests[requestId.value].request)) {
            SendNotif(MessageErrorNote);
            return;
          }
        }
        sentRequests := sentRequests - {requestId.value};
      }
      match response
      case Connected(_, _) => SendNotif(ConnectedNote);
      case Pong => awaitingPong := false;
      case OrgReply(org) => HandleOrg(org);
      case WalletReply(wallet) => HandleWallet(wallet);
      case UserReply(user) => HandleUser(user);
      case DeleteUserOrg(user, org) => HandleDeleteUserOrg(user, org);
    }

    /** The loop ends; only the record of what was given up on knows about the lost queue. */
    method Stop()
      modifies this`running, this`queue, this`abandoned
      ensures View() == Stopped(old(View()))
    {
      abandoned := abandoned + (set r | r in queue);
      running, queue := false, [];
    }

    /** The loop takes a request from the channel; `ok` is whether writing it succeeds. */
    method SendNextRequest(newId: RequestId, ok: bool)
      requires queue != []
      modifies this
      ensures View() == SendNext(old(View()), newId, ok)
    {
      hide Notify, Stopped, Sent, Unsent;
      var request := queue[0];
      queue := queue[1..];
      if request.Close? {
        Stop();
        connected := false;
        return;
      }
      WriteRequest(newId, request, ok);
      if !ok {
        Stop();
        SendNotif(ConnectionErrorNote);
      }
    }

    /** A request is filed in the table before it is written, and taken out again when that fails. */
    method WriteRequest(newId: RequestId, request: Request, ok: bool)
      modifies this`sentRequests, this`issued, this`resent, this`abandoned
      ensures View() == if ok then Sent(old(View()), newId, request) else Unsent(old(View()), newId, request)
    {
      issued := issued + {newId};
      sentRequests := sentRequests[newId := Pending(request, 0, clock)];
      if ok {
        resent := resent[newId := 0];
      } else {
        sentRequests := sentRequests - {newId};
        assert sentRequests == old(sentRequests) - {newId};
        abandoned := abandoned + {request};
      }
    }

    /** The checker copies out the entries that wait for too long. */
    method CollectStale()
      modifies this`stale
      ensures View() == CheckTimeouts(old(View()))
    {
      var ids := SortedIds(sentRequests.Keys);
      hide SortedIds, StaleEntries;
      stale := [];
      assert ids[0..] == ids;
      for i := 0 to |ids|
        invariant View() == old(View()).(stale := stale)
        invariant stale + StaleEntries(sentRequests, clock, ids[i..]) == StaleEntries(sentRequests, clock, ids)
      {
        assert ids[i] in ids;
        StaleStep(stale, sentRequests, clock, ids, i);
        var entry := sentRequests[ids[i]];
        if clock > entry.since + MAX_WAIT {
          stale := stale + [Stale(ids[i], entry.request, entry.retries)];
        }
      }
      NoneLeft(sentRequests, clock);
      assert ids[|ids|..] == [];
    }

    /** The checker handles one entry it copied. */
    method HandleStale()
      requires stale != []
      modifies this
      ensures View() == RetryNext(old(View()))
    {
      hide Enqueue, Notify, Bumped, Dropped;
      var entry := stale[0];
      stale := stale[1..];
      if entry.retries >= MAX_RETRIES {
        DropRequest(entry);
        SendNotif(RequestTimeoutNote);
      } else {
        BumpRequest(entry.id);
        SendRequest(entry.request);
      }
    }

    /** One more retry: the wait starts over. */
    method BumpRequest(id: RequestId)
      modifies this`sentRequests, this`resent
      ensures View() == Bumped(old(View()), id)
    {
      resent := resent[id := (if id in resent then resent[id] else 0) + 1];
      if id in sentRequests {
        var entry := sentRequests[id];
        sentRequests := sentRequests[id := entry.(retries := entry.retries + 1, since := clock)];
      }
    }

    /** No more retries: the entry leaves the table. */
    method DropRequest(entry: Stale)
      modifies this`sentRequests, this`abandoned, this`timedOut
      ensures View() == Dropped(old(View()), entry)
    {
      abandoned := abandoned + (if entry.id in sentRequests then {entry.request} else {});
      timedOut := timedOut + {entry.id};
      sentRequests := sentRequests - {entry.id};
    }

    method Close()
      modifies this
      ensures View() == CloseConnection(old(View()))
    {
      if !connected {
        return;
      }
      SendRequest(Request.Close);
      connected := false;
    }

    method LogOut()
      modifies this
      ensures View() == Logout(old(View()))
    {
      Close();
      orgs := map[];
      wallets := map[];
      users := map[];
      abandoned := {};
    }

    /** The org with the wallets the cache holds. */
    method GetOrg(id: Uuid) returns (org: Option<Org>)
      ensures org == WsModel.GetOrg(View(), id)
    {
      if id !in orgs {
        return None;
      }
      var cached := {};
      var ids := SortedIds(orgs[id].wallets);
      for i := 0 to |ids|
        invariant cached == set w | w in ids[..i] && w in wallets
      {
        assert ids[..i + 1] == ids[..i] + [ids[i]];
        if ids[i] in wallets {
          cached := cached + {ids[i]};
        }
      }
      assert ids[..|ids|] == ids;
      assert WsModel.GetOrg(View(), id).value.wallets == cached;
      return Some(orgs[id].(wallets := cached, lastEdited := None, lastEditor := None));
    }
  }

  lemma JoinEditors(s: State, wallet: Wallet)
    requires wallet.template.Some?
    ensures var t := wallet.template.value; var users := s.users;
            Enqueue(Enqueue(Enqueue(Enqueue(s, UserFetch(users, wallet.lastEditor)),
                                    UserFetches(users, KeyEditors(t.keys))),
                            UserFetch(users, t.primary.lastEditor)),
                    UserFetches(users, PathEditors(t.secondary)))
            == Enqueue(s, UserFetches(users, Editors(wallet)))
  {
    var t, users := wallet.template.value, s.users;
    var a, b := [wallet.lastEditor], KeyEditors(t.keys);
    var c, d := [t.primary.lastEditor], PathEditors(t.secondary);
    assert Editors(wallet) == a + (b + c + d) == a + b + c + d;
    UserFetchesOne(users, wallet.lastEditor);
    UserFetchesOne(users, t.primary.lastEditor);
    UserFetchesConcat(users, a, b);
    UserFetchesConcat(users, a + b, c);
    UserFetchesConcat(users, a + b + c, d);
    hide UserFetches, UserFetch, KeyEditors, PathEditors, Editors, Enqueue;
    EnqueueTwice(s, UserFetches(users, a), UserFetches(users, b));
    EnqueueTwice(s, UserFetches(users, a + b), UserFetches(users, c));
    EnqueueTwice(s, UserFetches(users, a + b + c), UserFetches(users, d));
  }
}
