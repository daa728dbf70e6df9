/**
 Runs against a server that never answers: the bounds on what is written before the first
 timeout are reached, and what is written after it has no bound.
 */
module WsResends {
  import opened Wrappers
  import opened WsModel
  import opened WsRuns
  import opened WsRetries

  /**
   A retry is a new request: the id it came from waits on with its own count, and whenever the
   loop comes to the request it waits under a fresh id with no retries behind it.
   */
  lemma RetryStartsOver(s: State)
    requires s.running && s.stale != [] && s.stale[0].retries < MAX_RETRIES && IsCopyOf(s.stale[0], s.pending)
    ensures var e, t := s.stale[0], RetryNext(s);
            t.queue == s.queue + [e.request]
            && t.pending == s.pending[e.id := Pending(e.request, e.retries + 1, s.clock)]
    ensures forall u: State, newId :: u.queue != [] && u.queue[0] == s.stale[0].request && !u.queue[0].Close? ==>
              SendNext(u, newId, true).pending == u.pending[newId := Pending(u.queue[0], 0, u.clock)]
  {
    RetriedFields(s);
    hide RetryNext;
    forall u: State, newId | u.queue != [] && u.queue[0] == s.stale[0].request && !u.queue[0].Close?
      ensures SendNext(u, newId, true).pending == u.pending[newId := Pending(u.queue[0], 0, u.clock)]
    {
      SentFields(u, newId);
    }
  }

  // ----- reaching states -----

  ghost predicate Reaches(s: State, t: State) {
    exists actions :: IsRun(s, actions) && IsSilentRun(s, actions) && After(s, actions) == t
  }

  lemma ReachesItself(s: State)
    ensures Reaches(s, s)
  {
    assert IsRun(s, []) && IsSilentRun(s, []) && After(s, []) == s;
  }

  lemma {:induction false} SilentRunsCompose(s: State, a: seq<Action>, b: seq<Action>)
    requires IsRun(s, a) && IsSilentRun(s, a) && IsRun(After(s, a), b) && IsSilentRun(After(s, a), b)
    ensures IsRun(s, a + b) && IsSilentRun(s, a + b) && After(s, a + b) == After(After(s, a), b)
    decreases |a|
  {
    hide Apply, Enabled;
    if a == [] {
      assert a + b == b;
    } else {
      assert (a + b)[1..] == a[1..] + b;
      SilentRunsCompose(Apply(s, a[0]), a[1..], b);
    }
  }

  lemma ReachesFurther(s: State, t: State, u: State)
    requires Reaches(s, t) && Reaches(t, u)
    ensures Reaches(s, u)
  {
    var a :| IsRun(s, a) && IsSilentRun(s, a) && After(s, a) == t;
    var b :| IsRun(t, b) && IsSilentRun(t, b) && After(t, b) == u;
    SilentRunsCompose(s, a, b);
  }

  lemma ReachesNext(s: State, a: Action)
    requires Enabled(s, a) && IsSilent(a) && (a.Ticking? ==> s.stale == [])
    ensures Reaches(s, Apply(s, a))
  {
    hide Apply, Enabled;
    assert [a][1..] == [];
    assert IsRun(s, [a]) && IsSilentRun(s, [a]) && After(s, [a]) == Apply(s, a);
  }

  /** One request and its copies are all there is. */
  ghost predicate Alone(s: State, request: Request) {
    TableInv(s) && s.running && s.connected && MayAsk(request)
    && (forall i :: 0 <= i < |s.queue| ==> s.queue[i] == request)
    && (forall id :: id in s.pending ==> s.pending[id].request == request && s.pending[id].since <= s.clock)
    && (forall i :: 0 <= i < |s.stale| ==> IsCopyOf(s.stale[i], s.pending))
  }

  /** Nothing is queued and the checker rests. */
  ghost predicate Rests(s: State, request: Request) {
    Alone(s, request) && s.queue == [] && s.stale == []
  }

  // ----- writing what is queued -----

  lemma SendOne(s: State, request: Request, newId: RequestId)
    requires Alone(s, request) && s.queue != [] && newId !in s.issued
    ensures Alone(SendNext(s, newId, true), request) && Reaches(s, SendNext(s, newId, true))
  {
    assert s.queue[0] == request;
    NotPending(s, newId);
    SentFields(s, newId);
    SendKeepsTable(s, newId, true);
    ReachesNext(s, Send(newId, true));
    hide SendNext, TableInv, Reaches;
  }

  /** What writing everything queued leaves, with new ids below a bound. */
  ghost predicate AllSent(s: State, t: State, below: nat) {
    t.queue == [] && t.stale == s.stale && t.clock == s.clock && t.notes == s.notes
    && |t.issued| == |s.issued| + |s.queue| && |t.pending.Keys| == |s.pending.Keys| + |s.queue|
    && (forall id :: id in s.pending ==> id in t.pending && t.pending[id] == s.pending[id])
    && (forall id :: id in t.pending && id !in s.pending ==>
          t.pending[id].retries == 0 && t.pending[id].since == s.clock && id < below)
  }

  /** Writing one request and then the rest is writing all. */
  lemma SentMore(s: State, u: State, t: State, newId: RequestId, below: nat)
    requires s.queue != [] && newId !in s.pending && newId !in s.issued && newId < below
    requires u.pending == s.pending[newId := Pending(s.queue[0], 0, s.clock)] && u.queue == s.queue[1..]
    requires u.issued == s.issued + {newId} && u.stale == s.stale && u.clock == s.clock && u.notes == s.notes
    requires AllSent(u, t, below)
    ensures AllSent(s, t, below)
  {
    assert u.pending.Keys == s.pending.Keys + {newId};
    assert |u.pending.Keys| == |s.pending.Keys| + 1;
    forall id | id in s.pending ensures id in t.pending && t.pending[id] == s.pending[id] {
      assert id in u.pending && u.pending[id] == s.pending[id];
    }
  }

  lemma {:induction false} SendAll(s: State, request: Request, below: nat) returns (t: State)
    requires Alone(s, request) && |s.issued| + |s.queue| <= below
    ensures Reaches(s, t) && Alone(t, request) && AllSent(s, t, below)
    decreases |s.queue|
  {
    if s.queue == [] {
      ReachesItself(s);
      t := s;
      hide Alone, Reaches;
    } else {
      var newId := FreshBelow(s.issued, below);
      var u := SendNext(s, newId, true);
      assert s.queue[0] == request;
      NotPending(s, newId);
      SendOne(s, request, newId);
      hide Alone, Reaches, AllSent;
      SentFields(s, newId);
      hide SendNext;
      t := SendAll(u, request, below);
      ReachesFurther(s, u, t);
      SentMore(s, u, t, newId, below);
    }
  }

  // ----- handling copies -----

  /** What retrying the first `j` copies leaves. */
  ghost predicate Retried(s: State, t: State, j: nat)
    requires j <= |s.stale|
  {
    t.stale == s.stale[j..] && |t.queue| == |s.queue| + j && t.clock == s.clock && t.notes == s.notes
    && t.issued == s.issued && t.pending.Keys == s.pending.Keys
    && forall id :: id in s.pending ==>
         t.pending[id].retries == s.pending[id].retries + (if HasCopy(s.stale[..j], id) then 1 else 0)
         && t.pending[id].since == if HasCopy(s.stale[..j], id) then s.clock else s.pending[id].since
  }

  lemma RetryOne(s: State, request: Request)
    requires Alone(s, request) && s.stale != [] && s.stale[0].retries < MAX_RETRIES
    ensures Alone(RetryNext(s), request) && Reaches(s, RetryNext(s))
  {
    assert IsCopyOf(s.stale[0], s.pending);
    RetriedFields(s);
    RetryKeepsTable(s);
    ReachesNext(s, Retrying);
    CopyCounts(s);
    var t := RetryNext(s);
    hide RetryNext, TableInv, Reaches;
    forall i | 0 <= i < |t.stale| ensures IsCopyOf(t.stale[i], t.pending) {
      assert IsCopyOf(s.stale[i + 1], s.pending) && s.stale[0].id != s.stale[i + 1].id;
    }
  }

  lemma CopiesSplit(stale: seq<Stale>, j: nat, id: RequestId)
    requires DistinctCopies(stale) && 0 < j <= |stale|
    ensures HasCopy(stale[..j], id) <==> id == stale[0].id || HasCopy(stale[1..][..j - 1], id)
    ensures !HasCopy(stale[1..][..j - 1], stale[0].id)
  {
    assert stale[..j][0] == stale[0];
    if HasCopy(stale[..j], id) && id != stale[0].id {
      var i :| 0 <= i < j && stale[..j][i].id == id;
      assert stale[1..][..j - 1][i - 1].id == id;
    }
    if HasCopy(stale[1..][..j - 1], id) {
      var i :| 0 <= i < j - 1 && stale[1..][..j - 1][i].id == id;
      assert stale[..j][i + 1].id == id;
      assert stale[0].id != stale[i + 1].id;
    }
  }

  lemma RetriedNone(s: State)
    ensures Retried(s, s, 0)
  {
    assert s.stale[..0] == [];
  }

  lemma {:induction false} RetrySome(s: State, request: Request, j: nat) returns (t: State)
    requires Alone(s, request) && j <= |s.stale| && forall i :: 0 <= i < j ==> s.stale[i].retries < MAX_RETRIES
    ensures Reaches(s, t) && Alone(t, request) && Retried(s, t, j)
    decreases j
  {
    hide Reaches, Retried;
    if j == 0 {
      ReachesItself(s);
      RetriedNone(s);
      t := s;
    } else {
      assert IsCopyOf(s.stale[0], s.pending);
      var u := RetryNext(s);
      RetryOne(s, request);
      CopyCounts(s);
      hide Alone;
      RetriedFields(s);
      hide RetryNext;
      t := RetrySome(u, request, j - 1);
      ReachesFurther(s, u, t);
      RetriedMore(s, u, t, j);
    }
  }

  lemma RetriedMore(s: State, u: State, t: State, j: nat)
    requires 0 < j <= |s.stale| && DistinctCopies(s.stale) && s.stale[0].id in s.pending
    requires u.stale == s.stale[1..] && |u.queue| == |s.queue| + 1 && u.clock == s.clock && u.notes == s.notes
    requires u.issued == s.issued && u.pending.Keys == s.pending.Keys
    requires forall id :: id in s.pending && id != s.stale[0].id ==> u.pending[id] == s.pending[id]
    requires u.pending[s.stale[0].id].retries == s.pending[s.stale[0].id].retries + 1
    requires u.pending[s.stale[0].id].since == s.clock
    requires Retried(u, t, j - 1)
    ensures Retried(s, t, j)
  {
    assert s.stale[1..][j - 1..] == s.stale[j..];
    forall id | id in s.pending
      ensures t.pending[id].retries == s.pending[id].retries + (if HasCopy(s.stale[..j], id) then 1 else 0)
      ensures t.pending[id].since == if HasCopy(s.stale[..j], id) then s.clock else s.pending[id].since
    {
      CopiesSplit(s.stale, j, id);
    }
  }

  // ----- rounds -----

  lemma TickAlone(s: State, request: Request, duration: nat)
    requires Alone(s, request) && s.stale == []
    ensures Alone(Tick(s, duration), request) && Reaches(s, Tick(s, duration))
  {
    CachesKeepTable(s, Tick(s, duration));
    ReachesNext(s, Ticking(duration));
    hide TableInv, Reaches;
  }

  lemma CheckAlone(s: State, request: Request)
    requires Alone(s, request) && s.stale == []
    ensures Alone(CheckTimeouts(s), request) && Reaches(s, CheckTimeouts(s))
  {
    CheckKeepsTable(s);
    CheckLaw(s);
    ReachesNext(s, CheckingTimeouts);
    hide TableInv, Reaches, CheckTimeouts, HasCopy, DistinctCopies;
  }

  /** Time passes until every id is too old, and the checker copies them all. */
  lemma AllCopied(s: State, request: Request) returns (t: State)
    requires Rests(s, request)
    ensures Reaches(s, t) && Alone(t, request)
    ensures t == s.(clock := s.clock + MAX_WAIT + 1, stale := t.stale)
    ensures |t.stale| == |s.pending.Keys| && forall id :: id in s.pending ==> HasCopy(t.stale, id)
    ensures t.stale == StaleEntries(t.pending, t.clock, SortedIds(t.pending.Keys))
  {
    var u := Tick(s, MAX_WAIT + 1);
    t := CheckTimeouts(u);
    TickAlone(s, request, MAX_WAIT + 1);
    CheckAlone(u, request);
    assert forall id :: id in s.pending ==> TooOld(u.pending[id], u.clock);
    CheckLaw(u);
    hide Alone, CheckTimeouts, Reaches;
    ReachesFurther(s, u, t);
    CopiesAre(u, t.stale);
    CopiesCount(t.stale, s.pending.Keys);
    CheckDefinition(u);
  }

  lemma CopiesAre(s: State, stale: seq<Stale>)
    requires CopiesExactly(stale, s)
    ensures forall i :: 0 <= i < |stale| ==> stale[i].id in s.pending
  {
    hide DistinctCopies, HasCopy;
    assert forall i :: 0 <= i < |stale| ==> IsCopyOf(stale[i], s.pending);
  }

  lemma CheckDefinition(s: State)
    ensures CheckTimeouts(s).stale == StaleEntries(s.pending, s.clock, SortedIds(s.pending.Keys))
  {
  }

  /** As many copies as ids, when every id has one. */
  lemma {:induction false} CopiesCount(stale: seq<Stale>, ids: set<RequestId>)
    requires DistinctCopies(stale)
    requires forall i :: 0 <= i < |stale| ==> stale[i].id in ids
    requires forall id :: id in ids ==> HasCopy(stale, id)
    ensures |stale| == |ids|
    decreases |stale|
  {
    if stale == [] {
      assert ids == {};
    } else {
      var rest := ids - {stale[0].id};
      forall i | 0 <= i < |stale[1..]| ensures stale[1..][i].id in rest {
        assert stale[0].id != stale[i + 1].id;
      }
      forall id | id in rest ensures HasCopy(stale[1..], id) {
        var i :| 0 <= i < |stale| && stale[i].id == id;
        assert stale[1..][i - 1].id == id;
      }
      forall i, j | 0 <= i < j < |stale[1..]| ensures stale[1..][i].id != stale[1..][j].id {
        assert stale[i + 1].id != stale[j + 1].id;
      }
      CopiesCount(stale[1..], rest);
      assert ids == rest + {stale[0].id};
    }
  }

  /** Every id was retried `k` times at most, the first one `k` times, and every other is below it. */
  ghost predicate Rounds(s: State, first: RequestId, k: nat) {
    first in s.pending && s.pending[first].retries == k
    && forall id :: id in s.pending && id != first ==> id < first && s.pending[id].retries < k
  }

  lemma RoundsRetry(s: State, u: State, first: RequestId, k: nat)
    requires Rounds(s, first, k) && k < MAX_RETRIES && u.pending == s.pending
    requires forall i :: 0 <= i < |u.stale| ==> IsCopyOf(u.stale[i], u.pending)
    ensures forall i :: 0 <= i < |u.stale| ==> u.stale[i].retries < MAX_RETRIES
  {
    forall i | 0 <= i < |u.stale| ensures u.stale[i].retries < MAX_RETRIES {
      assert IsCopyOf(u.stale[i], u.pending);
    }
  }

  lemma RoundsOnceMore(s: State, u: State, v: State, t: State, first: RequestId, k: nat)
    requires Rounds(s, first, k) && u.pending == s.pending && forall id :: id in s.pending ==> HasCopy(u.stale, id)
    requires Retried(u, v, |u.stale|) && AllSent(v, t, first)
    ensures Rounds(t, first, k + 1)
  {
    assert u.stale[..|u.stale|] == u.stale;
    hide HasCopy;
    assert forall id :: id in s.pending ==> t.pending[id].retries == s.pending[id].retries + 1;
    assert forall id :: id in t.pending && id !in s.pending ==> t.pending[id].retries == 0 && id < first;
  }

  /** Retrying the first `j` copies and writing the new ones. */
  lemma RetryAndSend(s: State, request: Request, j: nat, below: nat) returns (v: State, t: State)
    requires Alone(s, request) && s.queue == [] && j <= |s.stale| && |s.issued| + j <= below
    requires forall i :: 0 <= i < j ==> s.stale[i].retries < MAX_RETRIES
    ensures Reaches(s, t) && Alone(t, request) && Retried(s, v, j) && AllSent(v, t, below)
    ensures t.queue == [] && t.stale == s.stale[j..] && t.notes == s.notes
    ensures |t.issued| == |s.issued| + j && |t.pending.Keys| == |s.pending.Keys| + j
  {
    hide Alone, Reaches;
    v := RetrySome(s, request, j);
    t := SendAll(v, request, below);
    ReachesFurther(s, v, t);
  }

  /** A round in which every id is retried doubles what is pending. */
  lemma DoubleRound(s: State, request: Request, first: RequestId, k: nat) returns (t: State)
    requires Rests(s, request) && Rounds(s, first, k) && k < MAX_RETRIES
    requires |s.issued| + |s.pending.Keys| <= first
    ensures Reaches(s, t) && Rests(t, request) && Rounds(t, first, k + 1) && t.notes == s.notes
    ensures |t.pending.Keys| == 2 * |s.pending.Keys| && |t.issued| == |s.issued| + |s.pending.Keys|
  {
    var u := AllCopied(s, request);
    RoundsRetry(s, u, first, k);
    hide Alone, Rounds, Reaches, Retried, AllSent, HasCopy;
    var v;
    v, t := RetryAndSend(u, request, |u.stale|, first);
    ReachesFurther(s, u, t);
    RoundsOnceMore(s, u, v, t, first, k);
  }

  /** The first request written on a new connection. */
  lemma FirstWritten(user: Uuid, first: RequestId) returns (t: State)
    ensures OneQueued(Open(Initial(), user), FetchUser(user)) && Reaches(Open(Initial(), user), t)
    ensures Rests(t, FetchUser(user)) && Rounds(t, first, 0) && t.notes == Open(Initial(), user).notes
    ensures |t.pending.Keys| == |t.issued| == 1 && Open(Initial(), user).issued == {}
  {
    var s := Open(Initial(), user);
    InitialTable();
    OpenKeepsTable(Initial(), user);
    assert s.pending == map[] && s.queue == [FetchUser(user)] && s.stale == [] && s.issued == {};
    assert s.running && s.connected;
    hide Open, Initial, TableInv, SendNext, Reaches;
    t := SendNext(s, first, true);
    SendKeepsTable(s, first, true);
    SentFields(s, first);
    ReachesNext(s, Send(first, true));
    assert t.pending == map[first := Pending(FetchUser(user), 0, t.clock)];
    assert t.pending.Keys == {first} && t.issued == {first};
  }

  /** Eight copies can be on their way with no timeout reported and no last check under way. */
  lemma EightCopies(user: Uuid) returns (t: State)
    ensures var s := Open(Initial(), user);
            OneQueued(s, FetchUser(user)) && Reaches(s, t) && t.notes == s.notes && !LastCheck(t)
            && s.issued == {} && |t.issued| == |t.pending.Keys| == 8
    ensures Rests(t, FetchUser(user)) && Rounds(t, 100, MAX_RETRIES)
  {
    var s := Open(Initial(), user);
    hide Open, Reaches, OneQueued, Rests, Rounds;
    var a := FirstWritten(user, 100);
    var b := DoubleRound(a, FetchUser(user), 100, 0);
    var c := DoubleRound(b, FetchUser(user), 100, 1);
    t := DoubleRound(c, FetchUser(user), 100, 2);
    ReachesFurther(s, a, b);
    ReachesFurther(s, b, c);
    ReachesFurther(s, c, t);
    NoLastCheck(t, FetchUser(user));
  }

  lemma NoLastCheck(s: State, request: Request)
    requires Rests(s, request)
    ensures !LastCheck(s)
  {
  }

  ghost predicate Ascending(stale: seq<Stale>) {
    forall i, j :: 0 <= i < j < |stale| ==> stale[i].id < stale[j].id
  }

  lemma {:induction false} StaleAscend(pending: map<RequestId, Pending>, clock: nat, ids: seq<RequestId>)
    requires forall id :: id in ids ==> id in pending
    requires forall i, j :: 0 <= i < j < |ids| ==> ids[i] < ids[j]
    ensures Ascending(StaleEntries(pending, clock, ids))
  {
    if ids != [] {
      StaleAscend(pending, clock, ids[1..]);
      StaleAreOld(pending, clock, ids[1..]);
      var entry, rest := pending[ids[0]], StaleEntries(pending, clock, ids[1..]);
      forall i | 0 <= i < |rest| ensures ids[0] < rest[i].id {
        assert rest[i].id in ids[1..];
      }
      assert [] + rest == rest;
    }
  }

  /** The checker comes to the greatest id last. */
  lemma GreatestLast(s: State, first: RequestId)
    requires s.stale == StaleEntries(s.pending, s.clock, SortedIds(s.pending.Keys))
    requires HasCopy(s.stale, first) && Rounds(s, first, MAX_RETRIES)
    requires forall i :: 0 <= i < |s.stale| ==> IsCopyOf(s.stale[i], s.pending)
    ensures forall i :: 0 <= i < |s.stale| - 1 ==> s.stale[i].retries < MAX_RETRIES
  {
    StaleAscend(s.pending, s.clock, SortedIds(s.pending.Keys));
    hide StaleEntries, SortedIds;
    var k :| 0 <= k < |s.stale| && s.stale[k].id == first;
    forall i | 0 <= i < |s.stale| - 1 ensures s.stale[i].retries < MAX_RETRIES {
      assert IsCopyOf(s.stale[i], s.pending) && IsCopyOf(s.stale[i + 1], s.pending);
      assert s.stale[i].id < s.stale[i + 1].id;
    }
  }

  /** Fifteen copies can be on their way with no timeout reported yet: the bound is exact. */
  lemma FifteenCopies(user: Uuid) returns (t: State)
    ensures var s := Open(Initial(), user);
            OneQueued(s, FetchUser(user)) && Reaches(s, t) && t.notes == s.notes
            && s.issued == {} && |t.issued| == |t.pending.Keys| == 15
  {
    var s := Open(Initial(), user);
    hide Open, OneQueued, LastCheck;
    var a := EightCopies(user);
    var b := AllCopied(a, FetchUser(user));
    EightHaveFirst(a, b);
    GreatestLast(b, 100);
    hide Alone, Rounds, Reaches, Retried, AllSent, HasCopy, StaleEntries;
    var c;
    c, t := RetryAndSend(b, FetchUser(user), 7, 100);
    ReachesFurther(s, a, b);
    ReachesFurther(s, b, t);
  }

  lemma EightHaveFirst(a: State, b: State)
    requires Rounds(a, 100, MAX_RETRIES) && b.pending == a.pending
    requires forall id :: id in a.pending ==> HasCopy(b.stale, id)
    ensures HasCopy(b.stale, 100) && Rounds(b, 100, MAX_RETRIES)
  {
  }

  // ----- no bound once timeouts are reported -----

  /** Handling the next copy, whether it is retried or given up on. */
  lemma HandleOne(s: State, request: Request)
    requires Alone(s, request) && s.stale != []
    ensures var t := RetryNext(s);
            Alone(t, request) && Reaches(s, t) && t.stale == s.stale[1..] && t.issued == s.issued
            && |t.queue| == |s.queue| + if s.stale[0].retries < MAX_RETRIES then 1 else 0
  {
    assert IsCopyOf(s.stale[0], s.pending);
    if s.stale[0].retries < MAX_RETRIES {
      RetriedFields(s);
      RetryOne(s, request);
      hide RetryNext, Alone, Reaches;
    } else {
      RetryKeepsTable(s);
      ReachesNext(s, Retrying);
      CopyCounts(s);
      var t := RetryNext(s);
      hide TableInv, Reaches;
      forall i | 0 <= i < |t.stale| ensures IsCopyOf(t.stale[i], t.pending) {
        assert IsCopyOf(s.stale[i + 1], s.pending) && s.stale[0].id != s.stale[i + 1].id;
      }
    }
  }

  lemma {:induction false} HandleAll(s: State, request: Request) returns (t: State)
    requires Alone(s, request)
    ensures Reaches(s, t) && Alone(t, request) && t.stale == [] && t.issued == s.issued && |s.queue| <= |t.queue|
    ensures (exists i :: 0 <= i < |s.stale| && s.stale[i].retries < MAX_RETRIES) ==> |s.queue| < |t.queue|
    decreases |s.stale|
  {
    hide Reaches;
    if s.stale == [] {
      ReachesItself(s);
      t := s;
    } else {
      HandleOne(s, request);
      var u := RetryNext(s);
      hide Alone, RetryNext;
      t := HandleAll(u, request);
      ReachesFurther(s, u, t);
      if i :| 0 < i < |s.stale| && s.stale[i].retries < MAX_RETRIES {
        assert u.stale[i - 1] == s.stale[i];
      }
    }
  }

  /** Some id was never retried, so that the next round writes it again. */
  ghost predicate HasFresh(s: State) {
    exists id :: id in s.pending && s.pending[id].retries == 0
  }

  lemma FreshIsRetried(s: State, u: State)
    requires HasFresh(s) && u.pending == s.pending && forall id :: id in s.pending ==> HasCopy(u.stale, id)
    requires forall i :: 0 <= i < |u.stale| ==> IsCopyOf(u.stale[i], u.pending)
    ensures exists i :: 0 <= i < |u.stale| && u.stale[i].retries < MAX_RETRIES
  {
    var id :| id in s.pending && s.pending[id].retries == 0;
    var i :| 0 <= i < |u.stale| && u.stale[i].id == id;
    assert IsCopyOf(u.stale[i], u.pending);
  }

  lemma SentAreFresh(s: State, t: State, below: nat)
    requires AllSent(s, t, below) && s.queue != []
    ensures HasFresh(t)
  {
    if t.pending.Keys <= s.pending.Keys {
      Smaller(t.pending.Keys, s.pending.Keys);
    }
    var id :| id in t.pending && id !in s.pending;
    assert t.pending[id].retries == 0;
  }

  /** A further round, in which some ids may be given up on, writes the request at least once more. */
  lemma Round(s: State, request: Request) returns (t: State)
    requires Rests(s, request) && HasFresh(s)
    ensures Reaches(s, t) && Rests(t, request) && HasFresh(t) && |s.issued| < |t.issued|
  {
    var u := AllCopied(s, request);
    FreshIsRetried(s, u);
    hide Alone, Reaches, HasFresh;
    var v := HandleAll(u, request);
    t := SendAll(v, request, |v.issued| + |v.queue|);
    SentAreFresh(v, t, |v.issued| + |v.queue|);
    ReachesFurther(s, u, v);
    ReachesFurther(s, v, t);
  }

  lemma {:induction false} ManyRounds(s: State, request: Request, n: nat) returns (t: State)
    requires Rests(s, request) && HasFresh(s)
    ensures Reaches(s, t) && Rests(t, request) && HasFresh(t) && |s.issued| + n <= |t.issued|
    decreases n
  {
    hide Rests, Reaches, HasFresh;
    if n == 0 {
      ReachesItself(s);
      t := s;
    } else {
      var u := Round(s, request);
      t := ManyRounds(u, request, n - 1);
      ReachesFurther(s, u, t);
    }
  }

  /**
   The comment on the checker says that it aborts after three retries. It does so with each id,
   not with the request: a fetch that is never answered is written any number of times, and
   never stops waiting for an answer under some id.
   */
  lemma ResendsAreUnbounded(user: Uuid, n: nat) returns (t: State)
    ensures var s := Open(Initial(), user);
            OneQueued(s, FetchUser(user)) && Reaches(s, t) && n <= |t.issued - s.issued|
    ensures t.pending != map[] && forall id :: id in t.pending ==> t.pending[id].request == FetchUser(user)
  {
    var s := Open(Initial(), user);
    var a := FirstWritten(user, 0);
    assert HasFresh(a);
    hide Open, Reaches, OneQueued;
    t := ManyRounds(a, FetchUser(user), n);
    ReachesFurther(s, a, t);
    assert t.issued - s.issued == t.issued;
  }
}
