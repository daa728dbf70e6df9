/**
 A run against a server that never answers in which time passes while the checker handles its
 copies. It shows that the clock matters: 37 copies of one request are on their way and no
 timeout was reported, where a clock that rests allows fifteen.
 */
module WsMovingClock {
  import opened Wrappers
  import opened WsModel
  import opened WsRuns
  import opened WsRetries
  import opened WsResends

  // ----- reaching states, whatever the clock -----

  ghost predicate ReachesAnyhow(s: State, t: State) {
    exists actions :: IsRun(s, actions) && (forall a :: a in actions ==> IsSilent(a)) && After(s, actions) == t
  }

  lemma {:induction false} AnyRunsCompose(s: State, a: seq<Action>, b: seq<Action>)
    requires IsRun(s, a) && IsRun(After(s, a), b)
    ensures IsRun(s, a + b) && After(s, a + b) == After(After(s, a), b)
    decreases |a|
  {
    hide Apply, Enabled;
    if a == [] {
      assert a + b == b;
    } else {
      assert (a + b)[1..] == a[1..] + b;
      AnyRunsCompose(Apply(s, a[0]), a[1..], b);
    }
  }

  lemma AnyhowFurther(s: State, t: State, u: State)
    requires ReachesAnyhow(s, t) && ReachesAnyhow(t, u)
    ensures ReachesAnyhow(s, u)
  {
    hide IsSilent;
    var a :| IsRun(s, a) && (forall x :: x in a ==> IsSilent(x)) && After(s, a) == t;
    var b :| IsRun(t, b) && (forall x :: x in b ==> IsSilent(x)) && After(t, b) == u;
    AnyRunsCompose(s, a, b);
    assert forall x :: x in a + b ==> IsSilent(x);
  }

  lemma ReachesIsAnyhow(s: State, t: State)
    requires Reaches(s, t)
    ensures ReachesAnyhow(s, t)
  {
    var a :| IsRun(s, a) && IsSilentRun(s, a) && After(s, a) == t;
    AllSilent(s, a);
    hide IsSilent, IsSilentRun;
  }

  /** First anyhow, then by a run in which the clock rests. */
  lemma AnyhowThenReaches(s: State, t: State, u: State)
    requires ReachesAnyhow(s, t) && Reaches(t, u)
    ensures ReachesAnyhow(s, u)
  {
    hide ReachesAnyhow, Reaches;
    ReachesIsAnyhow(t, u);
    AnyhowFurther(s, t, u);
  }

  lemma TickAnyhow(s: State, request: Request, duration: nat)
    requires Alone(s, request)
    ensures Alone(Tick(s, duration), request) && ReachesAnyhow(s, Tick(s, duration))
  {
    var a := [Ticking(duration)];
    CachesKeepTable(s, Tick(s, duration));
    hide TableInv;
    assert a[1..] == [];
    forall x | x in a ensures IsSilent(x) {
      assert x == a[0];
    }
    assert IsRun(Tick(s, duration), []) && After(Tick(s, duration), []) == Tick(s, duration);
    assert IsRun(s, a) && After(s, a) == Tick(s, duration);
    hide IsSilent;
  }

  // ----- the rest of a round in which time passes once -----

  /** The ids that the checker does not hold a copy of. */
  ghost function Early(s: State): set<RequestId> {
    set id | id in s.pending && !HasCopy(s.stale, id)
  }

  /** Every id of a state once more retried, and fresh copies with ids below a bound. */
  ghost predicate RetriedAll(s: State, t: State, written: nat, below: nat) {
    t.notes == s.notes && |t.issued| == |s.issued| + written && |t.pending.Keys| == |s.pending.Keys| + written
    && (forall id :: id in s.pending ==> id in t.pending && t.pending[id].retries == s.pending[id].retries + 1)
    && (forall id :: id in t.pending && id !in s.pending ==> t.pending[id].retries == 0 && id < below)
  }

  /** What handling all copies leaves, and what it leaves alone. */
  ghost predicate Handled(v: State, x: State, below: nat) {
    |x.issued| == |v.issued| + |v.stale| && |x.pending.Keys| == |v.pending.Keys| + |v.stale|
    && (forall id :: id in v.pending ==>
          id in x.pending
          && x.pending[id].retries == v.pending[id].retries + (if HasCopy(v.stale, id) then 1 else 0)
          && x.pending[id].since == if HasCopy(v.stale, id) then x.clock else v.pending[id].since)
    && forall id :: id in x.pending && id !in v.pending ==>
         x.pending[id].retries == 0 && x.pending[id].since == x.clock && id < below
  }

  /** All copies are handled a moment later than the ids without one were written or retried. */
  lemma HandleRest(v: State, request: Request, below: nat) returns (u: State, x: State)
    requires Alone(v, request) && v.queue == [] && |v.issued| + |v.stale| <= below
    requires forall i :: 0 <= i < |v.stale| ==> v.stale[i].retries < MAX_RETRIES
    ensures ReachesAnyhow(v, x) && Rests(x, request) && x.clock == v.clock + 1 && x.notes == v.notes
    ensures Handled(v, x, below)
  {
    var w := Tick(v, 1);
    TickAnyhow(v, request, 1);
    hide Alone, Reaches, ReachesAnyhow, HasCopy, Handled, Rests, Retried, AllSent;
    u, x := RetryAndSend(w, request, |w.stale|, below);
    AnyhowThenReaches(v, w, x);
    SentIsAlone(x, request);
    HandledBy(v, w, u, x, below);
  }

  lemma HandledBy(v: State, w: State, u: State, x: State, below: nat)
    requires w == Tick(v, 1) && v.queue == [] && Retried(w, u, |w.stale|) && AllSent(u, x, below)
    ensures Handled(v, x, below) && x.clock == v.clock + 1 && x.notes == v.notes
  {
    assert w.stale[..|w.stale|] == w.stale;
    hide HasCopy;
  }

  lemma SentIsAlone(s: State, request: Request)
    requires Alone(s, request) && s.queue == [] && s.stale == []
    ensures Rests(s, request)
  {
  }

  ghost predicate CopiedEarly(x: State, stale: seq<Stale>, early: set<RequestId>) {
    |stale| == |early| && (forall id :: id in x.pending ==> (HasCopy(stale, id) <==> id in early))
    && forall i :: 0 <= i < |stale| ==> IsCopyOf(stale[i], x.pending) && stale[i].id in early
  }

  /** Later the ids without a copy are too old, and the others are not. */
  lemma CopyEarly(x: State, request: Request, early: set<RequestId>) returns (y: State)
    requires Rests(x, request) && early <= x.pending.Keys
    requires forall id :: id in x.pending ==> (id in early <==> x.pending[id].since < x.clock)
    ensures ReachesAnyhow(x, y) && Alone(y, request) && y.queue == []
    ensures y == x.(clock := x.clock + MAX_WAIT, stale := y.stale)
    ensures CopiedEarly(x, y.stale, early)
  {
    hide Alone, Rests, CheckTimeouts, Reaches, ReachesAnyhow, HasCopy, CopiedEarly, CopiesExactly, TooOld;
    var w := Tick(x, MAX_WAIT);
    y := CheckTimeouts(w);
    RestingIsAlone(x, request);
    TickAnyhow(x, request, MAX_WAIT);
    CheckAlone(w, request);
    OldIffEarly(x, w, request, early);
    CheckLaw(w);
    AnyhowThenReaches(x, w, y);
    CopiesAreEarly(w, y.stale, early);
    EarlyIsCopied(x, w, y.stale, early);
  }

  lemma EarlyIsCopied(x: State, w: State, stale: seq<Stale>, early: set<RequestId>)
    requires w.pending == x.pending && early <= x.pending.Keys && CopiesExactly(stale, w)
    requires forall i :: 0 <= i < |stale| ==> IsCopyOf(stale[i], w.pending) && stale[i].id in early
    requires forall id :: id in early ==> HasCopy(stale, id)
    ensures CopiedEarly(x, stale, early)
  {
    forall id | HasCopy(stale, id) ensures id in early {
      var i :| 0 <= i < |stale| && stale[i].id == id;
    }
    hide HasCopy;
    CopiesCount(stale, early);
  }

  lemma RestingIsAlone(s: State, request: Request)
    requires Rests(s, request)
    ensures Alone(s, request) && s.queue == [] && s.stale == []
    ensures forall id :: id in s.pending ==> s.pending[id].since <= s.clock
  {
  }

  lemma OldIffEarly(x: State, w: State, request: Request, early: set<RequestId>)
    requires Rests(x, request) && w == Tick(x, MAX_WAIT)
    requires forall id :: id in x.pending ==> (id in early <==> x.pending[id].since < x.clock)
    ensures forall id :: id in x.pending ==> (TooOld(w.pending[id], w.clock) <==> id in early)
  {
  }

  lemma CopiesAreEarly(w: State, stale: seq<Stale>, early: set<RequestId>)
    requires CopiesExactly(stale, w) && early <= w.pending.Keys
    requires forall id :: id in w.pending ==> (TooOld(w.pending[id], w.clock) <==> id in early)
    ensures forall i :: 0 <= i < |stale| ==> IsCopyOf(stale[i], w.pending) && stale[i].id in early
    ensures forall id :: id in early ==> HasCopy(stale, id)
  {
    forall i | 0 <= i < |stale| ensures IsCopyOf(stale[i], w.pending) && stale[i].id in early {
      assert IsCopyOf(stale[i], w.pending);
      assert HasCopy(stale, stale[i].id);
    }
    hide HasCopy;
  }

  /**
   Some copies are handled already. Time passes, the others are handled, time passes again, and
   the first ones are found too old alone: in the end every id was retried once more.
   */
  lemma SecondHalf(v: State, request: Request, below: nat) returns (t: State)
    requires Alone(v, request) && v.queue == [] && |v.issued| + |v.pending.Keys| <= below
    requires |v.stale| + |Early(v)| == |v.pending.Keys|
    requires forall id :: id in v.pending ==> v.pending[id].retries < MAX_RETRIES
    ensures ReachesAnyhow(v, t) && Rests(t, request) && RetriedAll(v, t, |v.pending.Keys|, below)
  {
    hide Alone, Rests, HasCopy, Reaches, ReachesAnyhow, CopiedEarly, Handled, RetriedAll, Retried, AllSent, Early;
    var x, y := UntilCopied(v, request, below);
    HandledSizes(v, x, below);
    CopiedSizes(x, y.stale, Early(v));
    var w;
    w, t := RetryAndSend(y, request, |y.stale|, below);
    AnyhowThenReaches(v, y, t);
    SentIsAlone(t, request);
    BothHalves(v, x, y, w, t, below);
  }

  /** Up to where the checker holds copies of the early ids. */
  lemma UntilCopied(v: State, request: Request, below: nat) returns (x: State, y: State)
    requires Alone(v, request) && v.queue == [] && |v.issued| + |v.stale| <= below
    requires forall id :: id in v.pending ==> v.pending[id].retries < MAX_RETRIES
    ensures ReachesAnyhow(v, y) && Alone(y, request) && y.queue == []
    ensures Handled(v, x, below) && CopiedEarly(x, y.stale, Early(v))
    ensures y.pending == x.pending && y.issued == x.issued && y.notes == x.notes == v.notes
    ensures forall i :: 0 <= i < |y.stale| ==> y.stale[i].retries < MAX_RETRIES
  {
    AloneBounds(v, request);
    hide Alone, Rests, HasCopy, Reaches, ReachesAnyhow, CopiedEarly, Handled, Early;
    var u;
    u, x := HandleRest(v, request, below);
    EarlyAreOlder(v, x, below);
    y := CopyEarly(x, request, Early(v));
    EarlyCopies(v, x, y, below);
    AnyhowFurther(v, x, y);
  }

  lemma HandledSizes(v: State, x: State, below: nat)
    requires Handled(v, x, below)
    ensures |x.issued| == |v.issued| + |v.stale| && |x.pending.Keys| == |v.pending.Keys| + |v.stale|
  {
  }

  lemma CopiedSizes(x: State, stale: seq<Stale>, early: set<RequestId>)
    requires CopiedEarly(x, stale, early)
    ensures |stale| == |early|
  {
  }

  lemma EarlyAreOlder(v: State, x: State, below: nat)
    requires Handled(v, x, below) && x.clock == v.clock + 1
    requires forall id :: id in v.pending ==> v.pending[id].since <= v.clock
    ensures Early(v) <= x.pending.Keys
    ensures forall id :: id in x.pending ==> (id in Early(v) <==> x.pending[id].since < x.clock)
  {
    hide HasCopy;
  }

  lemma BothHalves(v: State, x: State, y: State, w: State, t: State, below: nat)
    requires Handled(v, x, below) && CopiedEarly(x, y.stale, Early(v))
    requires y.pending == x.pending && y.issued == x.issued && y.notes == x.notes == v.notes && y.queue == []
    requires Retried(y, w, |y.stale|) && AllSent(w, t, below)
    requires |v.stale| + |Early(v)| == |v.pending.Keys|
    ensures RetriedAll(v, t, |v.pending.Keys|, below)
  {
    assert y.stale[..|y.stale|] == y.stale;
    hide HasCopy;
    forall id | id in v.pending ensures id in t.pending && t.pending[id].retries == v.pending[id].retries + 1 {
      assert id in x.pending && id in w.pending;
      assert id in Early(v) <==> !HasCopy(v.stale, id);
    }
    forall id | id in t.pending && id !in v.pending ensures t.pending[id].retries == 0 && id < below {
      assert id in x.pending ==> id !in Early(v) && !HasCopy(y.stale, id);
    }
  }

  lemma AloneBounds(s: State, request: Request)
    requires Alone(s, request)
    ensures forall id :: id in s.pending ==> s.pending[id].since <= s.clock
    ensures (forall id :: id in s.pending ==> s.pending[id].retries < MAX_RETRIES) ==>
              forall i :: 0 <= i < |s.stale| ==> s.stale[i].retries < MAX_RETRIES
  {
    assert forall i :: 0 <= i < |s.stale| ==> IsCopyOf(s.stale[i], s.pending);
  }

  lemma EarlyCopies(v: State, x: State, y: State, below: nat)
    requires Handled(v, x, below) && CopiedEarly(x, y.stale, Early(v))
    requires forall id :: id in v.pending ==> v.pending[id].retries < MAX_RETRIES
    ensures forall i :: 0 <= i < |y.stale| ==> y.stale[i].retries < MAX_RETRIES
  {
    hide HasCopy;
    forall i | 0 <= i < |y.stale| ensures y.stale[i].retries < MAX_RETRIES {
      assert IsCopyOf(y.stale[i], x.pending) && y.stale[i].id in v.pending;
      assert y.stale[i].id in Early(v);
    }
  }

  // ----- the order in which the checker comes to its copies -----

  lemma LastIs(stale: seq<Stale>, id: RequestId)
    requires Ascending(stale) && HasCopy(stale, id) && forall i :: 0 <= i < |stale| ==> stale[i].id <= id
    ensures stale != [] && stale[|stale| - 1].id == id
  {
    var k :| 0 <= k < |stale| && stale[k].id == id;
  }

  /** Without the last one. */
  lemma InitialCopies(stale: seq<Stale>)
    requires Ascending(stale) && stale != []
    ensures var n := |stale| - 1;
            Ascending(stale[..n])
            && (forall i :: 0 <= i < n ==> stale[..n][i].id < stale[n].id)
            && forall id :: HasCopy(stale, id) && id != stale[n].id ==> HasCopy(stale[..n], id)
  {
    var n := |stale| - 1;
    forall id | HasCopy(stale, id) && id != stale[n].id ensures HasCopy(stale[..n], id) {
      var i :| 0 <= i < |stale| && stale[i].id == id;
      assert stale[..n][i].id == id;
    }
  }

  /** The copies before a place are those of the lower ids. */
  lemma LowCopies(stale: seq<Stale>, j: nat)
    requires Ascending(stale) && j < |stale|
    ensures forall id: RequestId :: HasCopy(stale[..j], id) <==> HasCopy(stale, id) && id < stale[j].id
  {
    forall id: RequestId ensures HasCopy(stale[..j], id) <==> HasCopy(stale, id) && id < stale[j].id {
      if HasCopy(stale[..j], id) {
        var i :| 0 <= i < j && stale[..j][i].id == id;
        assert stale[i].id == id;
      }
      if HasCopy(stale, id) && id < stale[j].id {
        var i :| 0 <= i < |stale| && stale[i].id == id;
        assert stale[..j][i].id == id;
      }
    }
  }

  /** The copies from a place on are those of the other ids. */
  lemma HighCopies(stale: seq<Stale>, j: nat)
    requires Ascending(stale) && j < |stale|
    ensures forall id: RequestId :: HasCopy(stale[j..], id) <==> HasCopy(stale, id) && id >= stale[j].id
  {
    forall id: RequestId ensures HasCopy(stale[j..], id) <==> HasCopy(stale, id) && id >= stale[j].id {
      if HasCopy(stale[j..], id) {
        var i :| 0 <= i < |stale[j..]| && stale[j..][i].id == id;
        assert stale[j + i].id == id;
      }
      if HasCopy(stale, id) && id >= stale[j].id {
        var i :| 0 <= i < |stale| && stale[i].id == id;
        assert stale[j..][i - j].id == id;
      }
    }
  }

  lemma TopTwo(stale: seq<Stale>)
    requires Ascending(stale) && HasCopy(stale, 100) && HasCopy(stale, 99)
    requires forall i :: 0 <= i < |stale| ==> stale[i].id <= 100
    ensures |stale| >= 2 && stale[|stale| - 2].id == 99 && stale[|stale| - 1].id == 100
  {
    LastIs(stale, 100);
    InitialCopies(stale);
    LastIs(stale[..|stale| - 1], 99);
  }

  lemma TopThree(stale: seq<Stale>)
    requires Ascending(stale) && HasCopy(stale, 100) && HasCopy(stale, 99) && HasCopy(stale, 98)
    requires forall i :: 0 <= i < |stale| ==> stale[i].id <= 100
    ensures |stale| >= 3 && stale[|stale| - 3].id == 98 && stale[|stale| - 2].id == 99
  {
    TopTwo(stale);
    InitialCopies(stale);
    var rest := stale[..|stale| - 1];
    InitialCopies(rest);
    LastIs(rest[..|rest| - 1], 98);
  }

  /** Everything is copied, in ascending order. */
  ghost predicate AllCopiedFrom(s: State, u: State) {
    u == s.(clock := u.clock, stale := u.stale) && Ascending(u.stale) && |u.stale| == |s.pending.Keys|
    && (forall id: RequestId :: HasCopy(u.stale, id) <==> id in s.pending)
    && forall i :: 0 <= i < |u.stale| ==> IsCopyOf(u.stale[i], u.pending)
  }

  lemma CopyAll(s: State, request: Request) returns (u: State)
    requires Rests(s, request)
    ensures Reaches(s, u) && Alone(u, request) && u.queue == [] && AllCopiedFrom(s, u)
  {
    hide Alone, Rests, Reaches, HasCopy, AllCopiedFrom;
    u := AllCopied(s, request);
    StaleAscend(u.pending, u.clock, SortedIds(u.pending.Keys));
    RestingIsAlone(s, request);
    AloneCopies(u, request);
    CopiedFrom(s, u);
  }

  lemma CopiedFrom(s: State, u: State)
    requires u == s.(clock := u.clock, stale := u.stale) && Ascending(u.stale) && |u.stale| == |s.pending.Keys|
    requires forall id :: id in s.pending ==> HasCopy(u.stale, id)
    requires forall i :: 0 <= i < |u.stale| ==> IsCopyOf(u.stale[i], u.pending)
    ensures AllCopiedFrom(s, u)
  {
    forall id: RequestId | HasCopy(u.stale, id) ensures id in s.pending {
      var i :| 0 <= i < |u.stale| && u.stale[i].id == id;
      assert IsCopyOf(u.stale[i], u.pending);
    }
  }

  lemma AloneCopies(s: State, request: Request)
    requires Alone(s, request)
    ensures forall i :: 0 <= i < |s.stale| ==> IsCopyOf(s.stale[i], s.pending)
    ensures DistinctCopies(s.stale)
  {
  }

  // ----- the run -----

  /** Retrying one copy and writing the new one under a chosen id. */
  lemma RetryAndWrite(s: State, request: Request, newId: RequestId) returns (t: State)
    requires Alone(s, request) && s.queue == [] && s.stale != [] && s.stale[0].retries < MAX_RETRIES
    requires newId !in s.issued
    ensures Reaches(s, t) && Alone(t, request) && t.queue == [] && t.stale == s.stale[1..] && t.notes == s.notes
    ensures s.stale[0].id in s.pending && newId !in s.pending && s.stale[0].id != newId
    ensures t.issued == s.issued + {newId}
    ensures t.pending == s.pending[s.stale[0].id := Pending(request, s.stale[0].retries + 1, s.clock)]
                                  [newId := Pending(request, 0, s.clock)]
  {
    hide Alone, Reaches, RetryNext, SendNext;
    AloneCopies(s, request);
    assert IsCopyOf(s.stale[0], s.pending);
    AloneAsks(s, request);
    RetryOne(s, request);
    RetriedFields(s);
    var u := RetryNext(s);
    SendOne(u, request, newId);
    SentFields(u, newId);
    t := SendNext(u, newId, true);
    ReachesFurther(s, u, t);
  }

  lemma AloneAsks(s: State, request: Request)
    requires Alone(s, request)
    ensures s.running && MayAsk(request)
    ensures forall id :: id in s.pending ==> s.pending[id].request == request && id in s.issued
  {
  }

  /** Two copies, the first one retried once. */
  ghost predicate Two(s: State) {
    s.pending.Keys == s.issued == {99, 100} && s.pending[100].retries == 1 && s.pending[99].retries == 0
  }

  lemma StartWithTwo(user: Uuid) returns (b: State)
    ensures var s := Open(Initial(), user);
            OneQueued(s, FetchUser(user)) && Reaches(s, b) && b.notes == s.notes && s.issued == {}
            && Rests(b, FetchUser(user)) && Two(b)
  {
    var s, request := Open(Initial(), user), FetchUser(user);
    hide Open, Initial, OneQueued, Reaches, Alone, TableInv;
    var a := FirstWritten(user, 100);
    RestingIsAlone(a, request);
    AloneAsks(a, request);
    OnlyId(a);
    var u := CopyAll(a, request);
    assert HasCopy(u.stale, 100);
    OneCopy(u.stale, 100);
    assert IsCopyOf(u.stale[0], u.pending);
    b := RetryAndWrite(u, request, 99);
    ReachesFurther(s, a, u);
    ReachesFurther(s, u, b);
    SentIsAlone(b, request);
    hide Rests;
    assert b.pending.Keys == {99, 100};
  }

  lemma OnlyId(a: State)
    requires Rounds(a, 100, 0) && |a.pending.Keys| == |a.issued| == 1 && a.pending.Keys <= a.issued
    ensures a.pending.Keys == a.issued == {100} && a.pending[100].retries == 0
  {
    assert 100 in a.issued;
    Single(a.pending.Keys, 100);
    Single(a.issued, 100);
  }

  lemma Single(ids: set<RequestId>, id: RequestId)
    requires id in ids && |ids| == 1
    ensures ids == {id}
  {
    var rest := ids - {id};
    assert |rest| == 0;
    assert ids == rest + {id};
  }

  lemma OneCopy(stale: seq<Stale>, id: RequestId)
    requires |stale| == 1 && HasCopy(stale, id)
    ensures stale[0].id == id
  {
  }

  /** Six copies: two retried twice, one once, and three not yet. */
  ghost predicate Six(s: State) {
    |s.pending.Keys| == |s.issued| == 6 && {98, 99, 100} <= s.pending.Keys
    && s.pending[100].retries == 2 && s.pending[99].retries == 2 && s.pending[98].retries == 1
    && forall id :: id in s.pending && id !in {98, 99, 100} ==> id < 98 && s.pending[id].retries == 0
  }

  lemma CountOf(ids: set<RequestId>, without: set<RequestId>)
    requires without <= ids
    ensures |ids - without| == |ids| - |without|
  {
    assert ids == (ids - without) + without;
  }

  /** With a copy of the last id left, the other two are early. */
  lemma ThreeEarly(v: State)
    requires v.pending.Keys == {98, 99, 100} && |v.stale| == 1 && v.stale[0].id == 100
    ensures Early(v) == {98, 99} && |v.pending.Keys| == 3
  {
    assert HasCopy(v.stale, 100);
  }

  lemma TwoAreCopied(b: State, u: State)
    requires Two(b) && AllCopiedFrom(b, u)
    ensures |u.stale| == 2 && u.stale[0] == Stale(99, b.pending[99].request, 0)
            && u.stale[1] == Stale(100, b.pending[100].request, 1)
  {
    assert |b.pending.Keys| == 2;
    assert forall i :: 0 <= i < |u.stale| ==> IsCopyOf(u.stale[i], u.pending);
    TopTwo(u.stale);
  }

  lemma SixFromThree(v: State, t: State)
    requires v.pending.Keys == v.issued == {98, 99, 100} && RetriedAll(v, t, 3, 98)
    requires v.pending[100].retries == 1 && v.pending[99].retries == 1 && v.pending[98].retries == 0
    ensures Six(t)
  {
    assert |v.pending.Keys| == 3;
    assert 98 in v.pending && 99 in v.pending && 100 in v.pending;
  }

  lemma SixCopies(b: State, request: Request) returns (t: State)
    requires Rests(b, request) && Two(b)
    ensures ReachesAnyhow(b, t) && Rests(t, request) && Six(t) && t.notes == b.notes
  {
    hide Reaches, ReachesAnyhow, Alone, Rests, AllCopiedFrom, Six, HasCopy, RetriedAll, Early;
    var u := CopyAll(b, request);
    TwoAreCopied(b, u);
    FromCopy(b, u);
    var v := RetryAndWrite(u, request, 98);
    assert v.pending.Keys == {98, 99, 100};
    ThreeEarly(v);
    assert |{98, 99}| == 2;
    t := SecondHalf(v, request, 98);
    ReachesIsAnyhow(b, u);
    AnyhowThenReaches(b, u, v);
    AnyhowFurther(b, v, t);
    SixFromThree(v, t);
    NotesOf(v, t, 3, 98);
  }

  lemma FromCopy(s: State, u: State)
    requires AllCopiedFrom(s, u)
    ensures u.pending == s.pending && u.issued == s.issued && u.notes == s.notes && |u.stale| == |s.pending.Keys|
  {
  }

  lemma NotesOf(s: State, t: State, written: nat, below: nat)
    requires RetriedAll(s, t, written, below)
    ensures t.notes == s.notes
  {
  }

  /** Twenty copies, three of them retried three times. */
  ghost predicate Twenty(s: State) {
    |s.pending.Keys| == |s.issued| == 20 && {98, 99, 100} <= s.pending.Keys
    && forall id :: id in s.pending && id !in {98, 99, 100} ==> id < 98 && s.pending[id].retries < MAX_RETRIES
  }

  lemma SixAreCopied(s: State, u: State)
    requires Six(s) && AllCopiedFrom(s, u)
    ensures |u.stale| == 6 && Ascending(u.stale) && u.stale[4].id == 99
    ensures forall i :: 0 <= i < |u.stale| ==> u.stale[i].retries < MAX_RETRIES
    ensures forall id: RequestId :: HasCopy(u.stale, id) <==> id in s.pending
  {
    hide HasCopy, Ascending;
    forall i | 0 <= i < |u.stale| ensures u.stale[i].id <= 100 && u.stale[i].retries < MAX_RETRIES {
      assert IsCopyOf(u.stale[i], u.pending);
    }
    TopTwo(u.stale);
  }

  /** The first four of the six handled: ten copies, and all but two of them early. */
  ghost predicate Ten(v: State) {
    |v.pending.Keys| == |v.issued| == 10 && {98, 99, 100} <= v.pending.Keys
    && v.pending[100].retries == 2 && v.pending[99].retries == 2 && v.pending[98].retries == 2
    && (forall id :: id in v.pending && id !in {98, 99, 100} ==> id < 98 && v.pending[id].retries <= 1)
    && |v.stale| == 2 && Early(v) == v.pending.Keys - {99, 100}
  }

  /** The four lowest of the six were retried. */
  lemma FourRetried(s: State, u: State, w: State, v: State)
    requires Six(s) && AllCopiedFrom(s, u) && |u.stale| == 6 && u.queue == []
    requires Retried(u, w, 4) && AllSent(w, v, 98)
    ensures v.stale == u.stale[4..] && |v.pending.Keys| == |v.issued| == 10
    ensures forall id :: id in s.pending ==>
              id in v.pending && v.pending[id].retries == s.pending[id].retries + (if id < 99 then 1 else 0)
    ensures forall id :: id in v.pending && id !in s.pending ==> id < 98 && v.pending[id].retries == 0
  {
    SixAreCopied(s, u);
    LowCopies(u.stale, 4);
    hide HasCopy, Ascending;
  }

  lemma LastTwoStay(s: State, u: State, v: State)
    requires Six(s) && AllCopiedFrom(s, u) && v.stale == u.stale[4..] && s.pending.Keys <= v.pending.Keys
    ensures |v.stale| == 2 && Early(v) == v.pending.Keys - {99, 100}
  {
    SixAreCopied(s, u);
    HighCopies(u.stale, 4);
    hide HasCopy, Ascending;
    forall id | id in v.pending ensures id in Early(v) <==> id !in {99, 100} {
      assert HasCopy(v.stale, id) <==> id in s.pending && id >= 99;
    }
  }

  lemma TenFromSix(s: State, u: State, w: State, v: State)
    requires Six(s) && AllCopiedFrom(s, u) && |u.stale| == 6 && u.queue == []
    requires Retried(u, w, 4) && AllSent(w, v, 98)
    ensures Ten(v)
  {
    FourRetried(s, u, w, v);
    LastTwoStay(s, u, v);
    hide AllCopiedFrom, Retried, AllSent, Early;
    assert 98 in s.pending && 99 in s.pending && 100 in s.pending;
  }

  lemma TwentyFromTen(v: State, t: State)
    requires Ten(v) && RetriedAll(v, t, 10, 98)
    ensures Twenty(t)
  {
    hide Early;
    assert 98 in v.pending && 99 in v.pending && 100 in v.pending;
  }

  lemma TenSizes(v: State)
    requires Ten(v)
    ensures |v.stale| + |Early(v)| == |v.pending.Keys| == |v.issued| == 10
    ensures forall id :: id in v.pending ==> v.pending[id].retries < MAX_RETRIES
  {
    CountOf(v.pending.Keys, {99, 100});
    hide Early;
    assert |{99, 100}| == 2;
  }

  lemma TwentyCopies(s: State, request: Request) returns (t: State)
    requires Rests(s, request) && Six(s)
    ensures ReachesAnyhow(s, t) && Rests(t, request) && Twenty(t) && t.notes == s.notes
  {
    hide Reaches, ReachesAnyhow, Alone, Rests, AllCopiedFrom, HasCopy, RetriedAll;
    hide Early, Ten, Twenty, Retried, AllSent, Ascending;
    var u := CopyAll(s, request);
    SixAreCopied(s, u);
    FromCopy(s, u);
    hide Six;
    var w, v := RetryAndSend(u, request, 4, 98);
    TenFromSix(s, u, w, v);
    TenSizes(v);
    t := SecondHalf(v, request, 98);
    ReachesIsAnyhow(s, u);
    AnyhowThenReaches(s, u, v);
    AnyhowFurther(s, v, t);
    TwentyFromTen(v, t);
    NotesOf(v, t, 10, 98);
  }

  lemma TwentyAreCopied(s: State, u: State)
    requires Twenty(s) && AllCopiedFrom(s, u)
    ensures |u.stale| == 20 && forall i :: 0 <= i < 17 ==> u.stale[i].retries < MAX_RETRIES
  {
    hide HasCopy;
    forall i | 0 <= i < |u.stale| ensures u.stale[i].id <= 100 {
      assert IsCopyOf(u.stale[i], u.pending);
    }
    assert 98 in s.pending && 99 in s.pending && 100 in s.pending;
    TopThree(u.stale);
    forall i | 0 <= i < 17 ensures u.stale[i].retries < MAX_RETRIES {
      assert IsCopyOf(u.stale[i], u.pending) && u.stale[i].id < u.stale[17].id == 98;
    }
  }

  /**
   If time passes while the checker handles its copies, 37 copies of a request can be on their
   way with no timeout reported.
   */
  lemma ThirtySevenCopies(user: Uuid) returns (t: State)
    ensures var s := Open(Initial(), user);
            OneQueued(s, FetchUser(user)) && ReachesAnyhow(s, t) && t.notes == s.notes
            && s.issued == {} && |t.issued| == |t.pending.Keys| == 37
  {
    var s, request := Open(Initial(), user), FetchUser(user);
    hide Open, OneQueued, Reaches, ReachesAnyhow, Alone, Rests, Two, Six, Twenty, AllCopiedFrom, Retried, AllSent;
    var b := StartWithTwo(user);
    var c := SixCopies(b, request);
    var d := TwentyCopies(c, request);
    var u := CopyAll(d, request);
    TwentyAreCopied(d, u);
    FromCopy(d, u);
    TwentySizes(d);
    var w;
    w, t := RetryAndSend(u, request, 17, 98);
    ReachesIsAnyhow(s, b);
    AnyhowFurther(s, b, c);
    AnyhowFurther(s, c, d);
    AnyhowThenReaches(s, d, u);
    AnyhowThenReaches(s, u, t);
  }

  lemma TwentySizes(s: State)
    requires Twenty(s)
    ensures |s.pending.Keys| == |s.issued| == 20
  {
  }
}
