/**
 How often a request is written when the server never answers, whatever the clock does. If
 time passes while the checker handles its copies, a copy of a request can be found too old
 before the first one is, and more copies than in `WsRetries` are possible: 37, and no more.
 `WsMovingClock` shows a run with as many.
 */
module WsAnyClock {
  import opened Wrappers
  import opened WsModel
  import opened WsRuns
  import opened WsRetries
  import opened Sums

  type Table = map<RequestId, Pending>

  // ----- what a copy may become -----

  // How many copies one with `done` retries behind it may become, itself counted, before the
  // checker comes to the first copy for the last time. What follows looks at it from the end.

  /** The last check is under way, or is the only one to come. */
  function InLastCheck(done: nat): nat {
    if done < MAX_RETRIES then 2 else 1
  }

  /** Another check comes before the last one. */
  function BeforeLastCheck(done: nat): nat {
    if done < MAX_RETRIES then InLastCheck(done + 1) + InLastCheck(0) else 1
  }

  /** The third check of the first copy: a copy with no retry left holds up those that wait no longer than it. */
  function InThirdCheck(done: nat): nat {
    if done + 1 < MAX_RETRIES then BeforeLastCheck(done + 1) + BeforeLastCheck(0)
    else if done < MAX_RETRIES then InLastCheck(done + 1) + InLastCheck(0)
    else 1
  }

  /** Another check comes before the third one. */
  function BeforeThirdCheck(done: nat): nat {
    if done < MAX_RETRIES then InThirdCheck(done + 1) + InThirdCheck(0) else 1
  }

  function InSecondCheck(done: nat): nat {
    if done < MAX_RETRIES then BeforeThirdCheck(done + 1) + BeforeThirdCheck(0) else 1
  }

  /** The first copy itself, by its retries. */
  function OfFirst(done: nat): nat
    decreases MAX_RETRIES - done
  {
    if done >= MAX_RETRIES then 1
    else if done == 2 then 1 + InLastCheck(0)
    else if done == 1 then OfFirst(2) + InThirdCheck(0)
    else OfFirst(1) + InSecondCheck(0)
  }

  lemma Values()
    ensures InLastCheck(0) == InLastCheck(1) == InLastCheck(2) == 2 && InLastCheck(3) == 1
    ensures BeforeLastCheck(0) == BeforeLastCheck(1) == 4 && BeforeLastCheck(2) == 3 && BeforeLastCheck(3) == 1
    ensures InThirdCheck(0) == 8 && InThirdCheck(1) == 7 && InThirdCheck(2) == 3 && InThirdCheck(3) == 1
    ensures BeforeThirdCheck(0) == 15 && BeforeThirdCheck(1) == 11 && BeforeThirdCheck(2) == 9
            && BeforeThirdCheck(3) == 1
    ensures InSecondCheck(0) == 26 && InSecondCheck(1) == 24 && InSecondCheck(2) == 16 && InSecondCheck(3) == 1
    ensures OfFirst(0) == 37 && OfFirst(1) == 11 && OfFirst(2) == 3 && OfFirst(3) == 1
  {
  }

  // ----- what all copies may become -----

  datatype Stage = Early | Second | Between | Third | Last

  /** How far the checks of the first copy have come. */
  ghost function StageOf(pending: Table, stale: seq<Stale>, first: RequestId): Stage
    requires first in pending
  {
    var done, copied := pending[first].retries, HasCopy(stale, first);
    if IsLast(stale) then Last
    else if done >= 3 || (done == 2 && copied) then Third
    else if done == 2 then Between
    else if done == 1 && copied then Second
    else Early
  }

  /** A copy that was retried three times, and waits no shorter than the given one. */
  ghost predicate HoldsUp(pending: Table, x: RequestId, since: nat) {
    x in pending && pending[x].retries >= MAX_RETRIES && pending[x].since <= since
  }

  /** It cannot be found too old alone. */
  ghost predicate IsHeldUp(pending: Table, since: nat) {
    exists x :: HoldsUp(pending, x, since)
  }

  ghost predicate AnySpent(pending: Table) {
    exists x :: x in pending && pending[x].retries >= MAX_RETRIES
  }

  ghost function Value(pending: Table, stale: seq<Stale>, first: RequestId, id: RequestId): nat
    requires first in pending && id in pending
  {
    var done, copied := pending[id].retries, HasCopy(stale, id);
    match StageOf(pending, stale, first)
    case Last => if copied then InLastCheck(done) else 1
    case _ => if id == first then OfFirst(done) else OtherValue(pending, stale, first, id)
  }

  ghost function OtherValue(pending: Table, stale: seq<Stale>, first: RequestId, id: RequestId): nat
    requires first in pending && id in pending
  {
    var done, copied := pending[id].retries, HasCopy(stale, id);
    match StageOf(pending, stale, first)
    case Last => 1
    case Third =>
      if copied then if AnySpent(pending) then BeforeLastCheck(done) else InThirdCheck(done)
      else if IsHeldUp(pending, pending[id].since) then InLastCheck(done)
      else BeforeLastCheck(done)
    case Between =>
      if copied || pending[id].since < pending[first].since then BeforeThirdCheck(done) else InThirdCheck(done)
    case Second => if copied then InSecondCheck(done) else BeforeThirdCheck(done)
    case Early => InSecondCheck(done)
  }

  /** What a copy may become that is about to be written. */
  ghost function QueuedValue(pending: Table, stale: seq<Stale>, first: RequestId): nat
    requires first in pending
  {
    match StageOf(pending, stale, first)
    case Last => 1
    case Third => if AnySpent(pending) then InLastCheck(0) else BeforeLastCheck(0)
    case Between => InThirdCheck(0)
    case Second => BeforeThirdCheck(0)
    case Early => InSecondCheck(0)
  }

  /** Before the second check of the first copy there is little else. */
  ghost predicate StartsSlowly(s: State, first: RequestId)
    requires first in s.pending
  {
    (s.pending[first].retries == 0 ==> s.pending.Keys == {first} && s.queue == [])
    && (s.pending[first].retries == 1 && !HasCopy(s.stale, first) ==>
          s.stale == []
          && forall id :: id in s.pending && id != first ==>
               s.pending[id].retries == 0 && s.pending[id].since >= s.pending[first].since)
  }

  /** The value of an id, for the sum over all. */
  ghost function ValueIn(pending: Table, stale: seq<Stale>, first: RequestId): nat -> int {
    (id: nat) => if first in pending && id in pending then Value(pending, stale, first, id) else 1
  }

  ghost function Total(s: State, first: RequestId): int
    requires first in s.pending
  {
    Sum(ValueIn(s.pending, s.stale, first), s.pending.Keys) + |s.queue| * QueuedValue(s.pending, s.stale, first)
  }

  /** One request and its copies, the first of them pending. */
  ghost predicate Copies(s: State, first: RequestId, request: Request, start: set<RequestId>) {
    MayAsk(request) && s.running && first in s.pending
    && s.issued == start + s.pending.Keys
    && (forall i :: 0 <= i < |s.queue| ==> s.queue[i] == request)
    && (forall id :: id in s.pending ==>
          s.pending[id].since <= s.clock && s.pending[id].request == request && s.pending[id].retries <= MAX_RETRIES)
    && (forall i :: 0 <= i < |s.stale| ==> IsCopyOf(s.stale[i], s.pending))
    && DistinctCopies(s.stale)
  }

  ghost predicate Bounded(s: State, first: RequestId, request: Request, start: set<RequestId>) {
    TableInv(s) && Copies(s, first, request, start) && StartsSlowly(s, first) && Total(s, first) <= 37
  }

  // ----- a total that does not grow -----

  /** No value grows. */
  ghost predicate NoneGrows(s: State, t: State, first: RequestId, except: set<RequestId>)
    requires first in s.pending && first in t.pending
  {
    (forall id :: id in s.pending && id in t.pending && id !in except ==>
       Value(t.pending, t.stale, first, id) <= Value(s.pending, s.stale, first, id))
    && QueuedValue(t.pending, t.stale, first) <= QueuedValue(s.pending, s.stale, first)
  }

  lemma Product(n: nat, a: nat, b: nat)
    requires a <= b
    ensures n * a <= n * b
  {
  }

  lemma TotalStays(s: State, t: State, first: RequestId)
    requires first in s.pending && t.pending.Keys == s.pending.Keys && |t.queue| == |s.queue|
    requires NoneGrows(s, t, first, {})
    ensures Total(t, first) <= Total(s, first)
  {
    hide Value, QueuedValue;
    SumAtMost(ValueIn(t.pending, t.stale, first), ValueIn(s.pending, s.stale, first), s.pending.Keys);
    Product(|s.queue|, QueuedValue(t.pending, t.stale, first), QueuedValue(s.pending, s.stale, first));
  }

  lemma TotalAfterWrite(s: State, t: State, first: RequestId, newId: RequestId)
    requires first in s.pending && newId !in s.pending && t.pending.Keys == s.pending.Keys + {newId}
    requires |s.queue| == |t.queue| + 1 && NoneGrows(s, t, first, {})
    requires Value(t.pending, t.stale, first, newId) <= QueuedValue(s.pending, s.stale, first)
    ensures Total(t, first) <= Total(s, first)
  {
    hide Value, QueuedValue;
    var f := ValueIn(t.pending, t.stale, first);
    SumTakes(f, t.pending.Keys, newId);
    assert t.pending.Keys - {newId} == s.pending.Keys;
    SumAtMost(f, ValueIn(s.pending, s.stale, first), s.pending.Keys);
    Product(|t.queue|, QueuedValue(t.pending, t.stale, first), QueuedValue(s.pending, s.stale, first));
    Product2(|t.queue|, QueuedValue(s.pending, s.stale, first));
  }

  lemma Product2(n: nat, a: nat)
    ensures (n + 1) * a == n * a + a
  {
  }

  lemma TotalAfterRetry(s: State, t: State, first: RequestId, id: RequestId)
    requires first in s.pending && id in s.pending && t.pending.Keys == s.pending.Keys
    requires |t.queue| == |s.queue| + 1 && NoneGrows(s, t, first, {id})
    requires Value(t.pending, t.stale, first, id) + QueuedValue(t.pending, t.stale, first)
          <= Value(s.pending, s.stale, first, id)
    ensures Total(t, first) <= Total(s, first)
  {
    hide Value, QueuedValue;
    var f, g := ValueIn(t.pending, t.stale, first), ValueIn(s.pending, s.stale, first);
    SumTakes(f, s.pending.Keys, id);
    SumTakes(g, s.pending.Keys, id);
    SumAtMost(f, g, s.pending.Keys - {id});
    Product(|s.queue|, QueuedValue(t.pending, t.stale, first), QueuedValue(s.pending, s.stale, first));
    Product2(|s.queue|, QueuedValue(t.pending, t.stale, first));
  }

  /** The later the stage, the less a copy may become. */
  lemma Orders(done: nat)
    requires done <= MAX_RETRIES
    ensures 1 <= InLastCheck(done) <= BeforeLastCheck(done) <= InThirdCheck(done) <= BeforeThirdCheck(done)
              <= InSecondCheck(done)
    ensures InLastCheck(done) <= OfFirst(done)
  {
    Values();
  }

  // ----- writing -----

  /** What is written waits no longer than anything else. */
  lemma WriteValues(pending: Table, stale: seq<Stale>, first: RequestId, newId: RequestId, entry: Pending)
    requires first in pending && newId !in pending && entry.retries == 0
    requires forall id :: id in pending ==> pending[id].since <= entry.since
    requires forall i :: 0 <= i < |stale| ==> stale[i].id in pending
    ensures var after := pending[newId := entry];
            (forall id :: id in pending ==> Value(after, stale, first, id) == Value(pending, stale, first, id))
            && QueuedValue(after, stale, first) == QueuedValue(pending, stale, first)
            && Value(after, stale, first, newId) <= QueuedValue(pending, stale, first)
  {
    var after := pending[newId := entry];
    hide InLastCheck, BeforeLastCheck, InThirdCheck, BeforeThirdCheck, InSecondCheck, OfFirst, IsLast;
    assert !HasCopy(stale, newId);
    hide HasCopy;
    SpentAfterWrite(pending, newId, entry);
    hide AnySpent, IsHeldUp;
    assert StageOf(after, stale, first) == StageOf(pending, stale, first);
    Values();
  }

  lemma SpentAfterWrite(pending: Table, newId: RequestId, entry: Pending)
    requires newId !in pending && entry.retries == 0
    requires forall id :: id in pending ==> pending[id].since <= entry.since
    ensures var after := pending[newId := entry];
            (AnySpent(after) <==> AnySpent(pending))
            && (forall since :: IsHeldUp(after, since) <==> IsHeldUp(pending, since))
            && (AnySpent(pending) ==> IsHeldUp(after, entry.since))
  {
    var after := pending[newId := entry];
    forall x, since: nat ensures HoldsUp(after, x, since) <==> HoldsUp(pending, x, since) {
    }
    if AnySpent(pending) {
      var x :| x in pending && pending[x].retries >= MAX_RETRIES;
      assert x in after && HoldsUp(after, x, entry.since);
    }
  }

  // ----- the checker copies -----

  /** What the checker copies when it holds no copy: exactly what is too old. */
  ghost predicate CopiesTooOld(pending: Table, clock: nat, stale: seq<Stale>) {
    (forall i :: 0 <= i < |stale| ==> IsCopyOf(stale[i], pending))
    && forall id :: id in pending ==> (HasCopy(stale, id) <==> TooOld(pending[id], clock))
  }

  /** A copy that waits longer is too old as well. */
  lemma OldTogether(pending: Table, clock: nat, stale: seq<Stale>, a: RequestId, b: RequestId)
    requires CopiesTooOld(pending, clock, stale) && a in pending && b in pending
    requires HasCopy(stale, a) && !HasCopy(stale, b)
    ensures pending[a].since < pending[b].since
  {
  }

  lemma LastIffSpentCopied(pending: Table, clock: nat, stale: seq<Stale>)
    requires CopiesTooOld(pending, clock, stale)
    ensures IsLast(stale) <==> exists x :: x in pending && pending[x].retries >= MAX_RETRIES && HasCopy(stale, x)
  {
    if IsLast(stale) {
      var i :| 0 <= i < |stale| && stale[i].retries >= MAX_RETRIES;
      assert IsCopyOf(stale[i], pending) && HasCopy(stale, stale[i].id);
    }
    if x :| x in pending && pending[x].retries >= MAX_RETRIES && HasCopy(stale, x) {
      var i :| 0 <= i < |stale| && stale[i].id == x;
      assert IsCopyOf(stale[i], pending);
    }
  }

  /** Unless a copy is copied for the last time, none that is held up is copied. */
  lemma HeldUpIsNotCopied(pending: Table, clock: nat, stale: seq<Stale>, id: RequestId)
    requires CopiesTooOld(pending, clock, stale) && !IsLast(stale) && id in pending && HasCopy(stale, id)
    ensures !IsHeldUp(pending, pending[id].since)
  {
    LastIffSpentCopied(pending, clock, stale);
    if x :| HoldsUp(pending, x, pending[id].since) {
      OldTogether(pending, clock, stale, id, x);
    }
  }

  lemma NoCopies(id: RequestId)
    ensures !HasCopy([], id) && !IsLast([])
  {
  }

  ghost predicate OthersAreNew(pending: Table, first: RequestId)
    requires first in pending
  {
    forall id :: id in pending && id != first ==>
      pending[id].retries == 0 && pending[id].since >= pending[first].since
  }

  /** A check does not raise the value of a copy. */
  lemma CheckValue(pending: Table, clock: nat, stale: seq<Stale>, first: RequestId, id: RequestId)
    requires first in pending && id in pending && CopiesTooOld(pending, clock, stale)
    requires forall x :: x in pending ==> pending[x].retries <= MAX_RETRIES
    requires pending[first].retries == 1 ==> OthersAreNew(pending, first)
    requires pending[first].retries == 0 ==> pending.Keys == {first}
    ensures Value(pending, stale, first, id) <= Value(pending, [], first, id)
  {
    hide InLastCheck, BeforeLastCheck, InThirdCheck, BeforeThirdCheck, InSecondCheck, OfFirst, HasCopy, IsLast;
    Values();
    NoCopies(id);
    NoCopies(first);
    Orders(pending[id].retries);
    if IsLast(stale) {
      hide IsHeldUp, AnySpent;
    } else if pending[first].retries == 3 {
      if HasCopy(stale, id) {
        HeldUpIsNotCopied(pending, clock, stale, id);
      }
      hide IsHeldUp, CopiesTooOld;
      assert AnySpent(pending);
    } else {
      if HasCopy(stale, id) && !HasCopy(stale, first) {
        OldTogether(pending, clock, stale, id, first);
      }
      LastIffSpentCopied(pending, clock, stale);
      hide IsHeldUp, AnySpent, CopiesTooOld;
    }
  }

  lemma CheckQueued(pending: Table, clock: nat, stale: seq<Stale>, first: RequestId)
    requires first in pending && CopiesTooOld(pending, clock, stale) && pending[first].retries <= MAX_RETRIES
    ensures QueuedValue(pending, stale, first) <= QueuedValue(pending, [], first)
  {
    hide InLastCheck, BeforeLastCheck, InThirdCheck, BeforeThirdCheck, InSecondCheck;
    hide OfFirst, HasCopy, IsLast, AnySpent;
    Values();
    NoCopies(first);
  }

  // ----- the checker retries -----

  /** One entry retried: its count goes up, it waits from now on, and its copy is gone. */
  ghost predicate Retries(before: Table, after: Table, clock: nat, stale: seq<Stale>, rest: seq<Stale>) {
    stale != [] && rest == stale[1..] && DistinctCopies(stale)
    && (forall i :: 0 <= i < |stale| ==> IsCopyOf(stale[i], before))
    && (forall x :: x in before ==> before[x].since <= clock && before[x].retries <= MAX_RETRIES)
    && stale[0].retries < MAX_RETRIES
    && var e := stale[0];
       after == before[e.id := before[e.id].(retries := before[e.id].retries + 1, since := clock)]
  }

  lemma CopiesAfterRetry(before: Table, after: Table, clock: nat, stale: seq<Stale>, rest: seq<Stale>, id: RequestId)
    requires Retries(before, after, clock, stale, rest)
    ensures HasCopy(rest, id) <==> HasCopy(stale, id) && id != stale[0].id
    ensures HasCopy(stale, stale[0].id) && stale[0].id in before && before[stale[0].id].retries == stale[0].retries
    ensures IsLast(rest) <==> IsLast(stale)
  {
    assert IsCopyOf(stale[0], before);
    if HasCopy(stale, id) && id != stale[0].id {
      var i :| 0 <= i < |stale| && stale[i].id == id;
      assert rest[i - 1].id == id;
    }
    if HasCopy(rest, id) {
      var i :| 0 <= i < |rest| && rest[i].id == id;
      assert stale[i + 1].id == id;
    }
    if i :| 0 <= i < |stale| && stale[i].retries >= MAX_RETRIES {
      assert rest[i - 1].retries >= MAX_RETRIES;
    }
    if i :| 0 <= i < |rest| && rest[i].retries >= MAX_RETRIES {
      assert stale[i + 1].retries >= MAX_RETRIES;
    }
  }

  /** Who was held up stays so, and if any copy has no retry left, what is retried now is held up. */
  lemma SpentAfterRetry(before: Table, after: Table, clock: nat, stale: seq<Stale>, rest: seq<Stale>)
    requires Retries(before, after, clock, stale, rest) && stale[0].id in before
    requires before[stale[0].id].retries == stale[0].retries
    ensures AnySpent(before) ==> AnySpent(after)
    ensures after[stale[0].id].retries >= MAX_RETRIES ==> AnySpent(after)
    ensures !AnySpent(before) && after[stale[0].id].retries < MAX_RETRIES ==> !AnySpent(after)
    ensures IsHeldUp(after, clock) <==> AnySpent(after)
    ensures forall since :: IsHeldUp(before, since) ==> IsHeldUp(after, since)
  {
    var id := stale[0].id;
    if AnySpent(before) {
      var x :| x in before && before[x].retries >= MAX_RETRIES;
      assert x in after && after[x] == before[x];
    }
    if AnySpent(after) {
      var x :| x in after && after[x].retries >= MAX_RETRIES;
      assert HoldsUp(after, x, clock);
    }
    forall since | IsHeldUp(before, since) ensures IsHeldUp(after, since) {
      var x :| HoldsUp(before, x, since);
      assert HoldsUp(after, x, since);
    }
  }

  /** A retry does not raise the value of another copy. */
  lemma RetryOtherValue(before: Table, after: Table, clock: nat, stale: seq<Stale>, rest: seq<Stale>,
                        first: RequestId, id: RequestId)
    requires Retries(before, after, clock, stale, rest) && first in before && id in before && id != stale[0].id
    requires before[first].retries == 1 && !HasCopy(stale, first) ==> stale == []
    requires before[first].retries == 0 ==> before.Keys == {first}
    ensures Value(after, rest, first, id) <= Value(before, stale, first, id)
  {
    hide InLastCheck, BeforeLastCheck, InThirdCheck, BeforeThirdCheck, InSecondCheck, OfFirst, HasCopy, IsLast;
    CopiesAfterRetry(before, after, clock, stale, rest, id);
    CopiesAfterRetry(before, after, clock, stale, rest, first);
    SpentAfterRetry(before, after, clock, stale, rest);
    Values();
    Orders(before[id].retries);
    hide IsHeldUp, AnySpent, DistinctCopies;
  }

  /** A retried copy and what is queued for it are worth no more than it was. */
  lemma RetriedValue(before: Table, after: Table, clock: nat, stale: seq<Stale>, rest: seq<Stale>, first: RequestId)
    requires Retries(before, after, clock, stale, rest) && first in before && stale[0].id in before
    requires before[first].retries == 1 && !HasCopy(stale, first) ==> stale == []
    requires before[first].retries == 0 ==> before.Keys == {first}
    ensures Value(after, rest, first, stale[0].id) + QueuedValue(after, rest, first)
         <= Value(before, stale, first, stale[0].id)
  {
    var id := stale[0].id;
    hide InLastCheck, BeforeLastCheck, InThirdCheck, BeforeThirdCheck, InSecondCheck, OfFirst, HasCopy, IsLast;
    CopiesAfterRetry(before, after, clock, stale, rest, id);
    CopiesAfterRetry(before, after, clock, stale, rest, first);
    SpentAfterRetry(before, after, clock, stale, rest);
    Values();
    Orders(before[id].retries);
    hide IsHeldUp, AnySpent, DistinctCopies;
  }

  lemma RetryQueued(before: Table, after: Table, clock: nat, stale: seq<Stale>, rest: seq<Stale>, first: RequestId)
    requires Retries(before, after, clock, stale, rest) && first in before && stale[0].id in before
    requires before[first].retries == 1 && !HasCopy(stale, first) ==> stale == []
    requires before[first].retries == 0 ==> before.Keys == {first}
    ensures QueuedValue(after, rest, first) <= QueuedValue(before, stale, first)
  {
    hide InLastCheck, BeforeLastCheck, InThirdCheck, BeforeThirdCheck, InSecondCheck, OfFirst, HasCopy, IsLast;
    CopiesAfterRetry(before, after, clock, stale, rest, first);
    SpentAfterRetry(before, after, clock, stale, rest);
    Values();
    hide IsHeldUp, AnySpent, DistinctCopies;
  }

  // ----- one event after the other -----

  lemma TickBounded(s: State, first: RequestId, request: Request, start: set<RequestId>, duration: nat)
    requires Bounded(s, first, request, start)
    ensures Bounded(Tick(s, duration), first, request, start)
  {
    CachesKeepTable(s, Tick(s, duration));
    hide TableInv, ValueIn, QueuedValue, DistinctCopies;
  }

  lemma WriteTotal(s: State, first: RequestId, newId: RequestId)
    requires s.queue != [] && !s.queue[0].Close? && newId !in s.pending && first in s.pending
    requires forall id :: id in s.pending ==> s.pending[id].since <= s.clock
    requires forall i :: 0 <= i < |s.stale| ==> s.stale[i].id in s.pending
    ensures first in SendNext(s, newId, true).pending && Total(SendNext(s, newId, true), first) <= Total(s, first)
  {
    var t := SendNext(s, newId, true);
    SentFields(s, newId);
    hide SendNext, Value, QueuedValue, Total;
    WriteValues(s.pending, s.stale, first, newId, Pending(s.queue[0], 0, s.clock));
    assert t.pending.Keys == s.pending.Keys + {newId};
    TotalAfterWrite(s, t, first, newId);
  }

  lemma WriteCopies(s: State, first: RequestId, request: Request, start: set<RequestId>, newId: RequestId)
    requires Copies(s, first, request, start) && s.queue != [] && newId !in s.pending && StartsSlowly(s, first)
    ensures Copies(SendNext(s, newId, true), first, request, start) && StartsSlowly(SendNext(s, newId, true), first)
  {
    SentFields(s, newId);
    hide SendNext, HasCopy, DistinctCopies;
  }

  lemma SendBounded(s: State, first: RequestId, request: Request, start: set<RequestId>, newId: RequestId)
    requires Bounded(s, first, request, start) && s.queue != [] && newId !in s.issued
    ensures Bounded(SendNext(s, newId, true), first, request, start)
  {
    hide TableInv, SendNext, Total, StartsSlowly, DistinctCopies;
    assert s.queue[0] == request;
    NotPending(s, newId);
    SendKeepsTable(s, newId, true);
    WriteTotal(s, first, newId);
    WriteCopies(s, first, request, start, newId);
  }

  lemma CheckTotal(s: State, first: RequestId)
    requires s.stale == [] && first in s.pending && StartsSlowly(s, first)
    requires forall id :: id in s.pending ==> s.pending[id].retries <= MAX_RETRIES
    ensures first in CheckTimeouts(s).pending && Total(CheckTimeouts(s), first) <= Total(s, first)
  {
    var t := CheckTimeouts(s);
    CheckLaw(s);
    NoCopies(first);
    hide CheckTimeouts, Value, QueuedValue, Total, HasCopy, DistinctCopies, TooOld;
    assert CopiesTooOld(s.pending, s.clock, t.stale);
    forall id | id in s.pending
      ensures Value(t.pending, t.stale, first, id) <= Value(s.pending, s.stale, first, id)
    {
      CheckValue(s.pending, s.clock, t.stale, first, id);
    }
    CheckQueued(s.pending, s.clock, t.stale, first);
    TotalStays(s, t, first);
  }

  lemma CheckCopies(s: State, first: RequestId, request: Request, start: set<RequestId>)
    requires s.stale == [] && Copies(s, first, request, start) && StartsSlowly(s, first)
    ensures Copies(CheckTimeouts(s), first, request, start) && StartsSlowly(CheckTimeouts(s), first)
  {
    var t := CheckTimeouts(s);
    CheckLaw(s);
    NoCopies(first);
    hide CheckTimeouts, HasCopy, DistinctCopies, TooOld;
    if s.pending[first].retries == 1 && !HasCopy(t.stale, first) && t.stale != [] {
      var id := t.stale[0].id;
      assert IsCopyOf(t.stale[0], s.pending);
      FirstIsCopied(t.stale);
      OldTogether(s.pending, s.clock, t.stale, id, first);
    }
  }

  lemma FirstIsCopied(stale: seq<Stale>)
    requires stale != []
    ensures HasCopy(stale, stale[0].id)
  {
  }

  lemma CheckBounded(s: State, first: RequestId, request: Request, start: set<RequestId>)
    requires Bounded(s, first, request, start) && s.stale == []
    ensures Bounded(CheckTimeouts(s), first, request, start)
  {
    hide TableInv, CheckTimeouts, Total, StartsSlowly, DistinctCopies;
    CheckKeepsTable(s);
    CheckTotal(s, first);
    CheckCopies(s, first, request, start);
  }

  /** What is left of the slow start when a copy is handled. */
  lemma SlowStart(s: State, first: RequestId)
    requires first in s.pending && StartsSlowly(s, first) && s.stale != []
    ensures s.pending[first].retries == 1 && !HasCopy(s.stale, first) ==> s.stale == []
    ensures s.pending[first].retries == 0 ==> s.pending.Keys == {first}
  {
  }

  lemma RetryTotal(s: State, first: RequestId)
    requires s.running && s.stale != [] && s.stale[0].retries < MAX_RETRIES && s.stale[0].id in s.pending
    requires first in s.pending && StartsSlowly(s, first) && DistinctCopies(s.stale)
    requires forall i :: 0 <= i < |s.stale| ==> IsCopyOf(s.stale[i], s.pending)
    requires forall id :: id in s.pending ==> s.pending[id].since <= s.clock && s.pending[id].retries <= MAX_RETRIES
    ensures first in RetryNext(s).pending && Total(RetryNext(s), first) <= Total(s, first)
  {
    var t, id := RetryNext(s), s.stale[0].id;
    RetriedFields(s);
    SlowStart(s, first);
    hide RetryNext, Value, QueuedValue, Total, HasCopy, DistinctCopies, StartsSlowly;
    assert t.pending == s.pending[id := s.pending[id].(retries := s.pending[id].retries + 1, since := s.clock)];
    assert Retries(s.pending, t.pending, s.clock, s.stale, t.stale);
    hide Retries;
    forall x | x in s.pending && x != id
      ensures Value(t.pending, t.stale, first, x) <= Value(s.pending, s.stale, first, x)
    {
      RetryOtherValue(s.pending, t.pending, s.clock, s.stale, t.stale, first, x);
    }
    RetryQueued(s.pending, t.pending, s.clock, s.stale, t.stale, first);
    RetriedValue(s.pending, t.pending, s.clock, s.stale, t.stale, first);
    TotalAfterRetry(s, t, first, id);
  }

  lemma RetryCopies(s: State, first: RequestId, request: Request, start: set<RequestId>)
    requires Copies(s, first, request, start) && s.stale != [] && s.stale[0].retries < MAX_RETRIES
    ensures Copies(RetryNext(s), first, request, start)
  {
    var t := RetryNext(s);
    assert IsCopyOf(s.stale[0], s.pending);
    RetriedFields(s);
    hide RetryNext;
    forall i | 0 <= i < |t.stale| ensures IsCopyOf(t.stale[i], t.pending) {
      assert IsCopyOf(s.stale[i + 1], s.pending) && s.stale[0].id != s.stale[i + 1].id;
    }
    forall i, j | 0 <= i < j < |t.stale| ensures t.stale[i].id != t.stale[j].id {
      assert s.stale[i + 1].id != s.stale[j + 1].id;
    }
  }

  lemma RetryStartsSlowly(s: State, first: RequestId, request: Request, start: set<RequestId>)
    requires Copies(s, first, request, start) && StartsSlowly(s, first)
    requires s.stale != [] && s.stale[0].retries < MAX_RETRIES
    ensures first in RetryNext(s).pending && StartsSlowly(RetryNext(s), first)
  {
    var t, e := RetryNext(s), s.stale[0];
    assert IsCopyOf(e, s.pending);
    RetriedFields(s);
    PoppedCopies(s, first);
    SlowStart(s, first);
    hide RetryNext, HasCopy;
    assert |s.stale| > 1 ==> IsCopyOf(s.stale[1], s.pending) && s.stale[0].id != s.stale[1].id;
    assert s.pending[first].retries == 0 ==> t.stale == [];
  }

  lemma RetryBounded(s: State, first: RequestId, request: Request, start: set<RequestId>)
    requires Bounded(s, first, request, start) && s.stale != [] && s.stale[0].retries < MAX_RETRIES
    ensures Bounded(RetryNext(s), first, request, start)
  {
    hide TableInv, RetryNext, Total, StartsSlowly, DistinctCopies;
    assert IsCopyOf(s.stale[0], s.pending);
    RetryKeepsTable(s);
    RetryTotal(s, first);
    RetryCopies(s, first, request, start);
    RetryStartsSlowly(s, first, request, start);
  }

  // ----- runs -----

  lemma StepBounded(s: State, first: RequestId, request: Request, start: set<RequestId>, a: Action)
    requires Bounded(s, first, request, start) && Enabled(s, a) && IsSilent(a)
    requires a.Retrying? ==> s.stale[0].retries < MAX_RETRIES
    ensures Bounded(Apply(s, a), first, request, start)
  {
    hide Bounded, SendNext, RetryNext, CheckTimeouts;
    match a
    case Ticking(duration) => TickBounded(s, first, request, start, duration);
    case CheckingTimeouts => CheckBounded(s, first, request, start);
    case Retrying => RetryBounded(s, first, request, start);
    case Send(newId, _) => SendBounded(s, first, request, start, newId);
  }

  lemma {:induction false} RunBounded(s: State, first: RequestId, request: Request, start: set<RequestId>,
                                      actions: seq<Action>)
    requires Bounded(s, first, request, start) && IsRun(s, actions) && forall a :: a in actions ==> IsSilent(a)
    requires Timeouts(After(s, actions).notes) == Timeouts(s.notes)
    ensures Bounded(After(s, actions), first, request, start)
    decreases |actions|
  {
    hide Bounded, Apply, Enabled, Timeouts;
    if actions != [] {
      var a := actions[0];
      StepTimeouts(s, a);
      TimeoutsGrow(Apply(s, a), actions[1..]);
      StepBounded(s, first, request, start, a);
      RunBounded(Apply(s, a), first, request, start, actions[1..]);
    }
  }

  lemma ValuesAreCounts(pending: Table, stale: seq<Stale>, first: RequestId, id: RequestId)
    requires first in pending && id in pending && pending[id].retries <= MAX_RETRIES
    ensures Value(pending, stale, first, id) >= 1
  {
    Orders(pending[id].retries);
    hide InLastCheck, BeforeLastCheck, InThirdCheck, BeforeThirdCheck, InSecondCheck;
    hide OfFirst, HasCopy, IsLast, IsHeldUp;
  }

  lemma BoundedCounts(s: State, first: RequestId, request: Request, start: set<RequestId>)
    requires Bounded(s, first, request, start)
    ensures |s.issued - start| <= 37
  {
    var f := ValueIn(s.pending, s.stale, first);
    forall id | id in s.pending ensures f(id) >= 1 {
      ValuesAreCounts(s.pending, s.stale, first, id);
    }
    SumCounts(f, s.pending.Keys);
    hide TableInv, Value, QueuedValue, StartsSlowly, DistinctCopies;
    Smaller(s.issued - start, s.pending.Keys);
    Product(|s.queue|, 0, QueuedValue(s.pending, s.stale, first));
  }

  lemma FirstTotal(t: State, first: RequestId)
    requires t.pending.Keys == {first} && t.pending[first].retries == 0 && t.queue == [] && t.stale == []
    ensures Total(t, first) == 37
  {
    var f := ValueIn(t.pending, t.stale, first);
    SumTakes(f, t.pending.Keys, first);
    assert t.pending.Keys - {first} == {};
    NoCopies(first);
    Values();
    assert first in t.pending;
    hide InLastCheck, BeforeLastCheck, InThirdCheck, BeforeThirdCheck, InSecondCheck, OfFirst, HasCopy, IsLast;
    assert Sum(f, t.pending.Keys) == f(first) == 37;
  }

  lemma FirstCopies(t: State, first: RequestId, request: Request, start: set<RequestId>)
    requires t.pending == map[first := Pending(request, 0, t.clock)] && t.pending.Keys == {first}
    requires MayAsk(request) && t.running && t.queue == [] && t.stale == [] && t.issued == start + {first}
    ensures Copies(t, first, request, start) && StartsSlowly(t, first)
  {
  }

  lemma FirstWrite(s: State, request: Request, newId: RequestId)
    requires OneQueued(s, request) && newId !in s.issued
    ensures Bounded(SendNext(s, newId, true), newId, request, s.issued)
    ensures SendNext(s, newId, true).notes == s.notes
  {
    var t := SendNext(s, newId, true);
    SendKeepsTable(s, newId, true);
    SentFields(s, newId);
    hide TableInv, SendNext, Total, Copies, StartsSlowly;
    assert t.pending == map[newId := Pending(request, 0, s.clock)];
    assert t.pending.Keys == {newId};
    FirstTotal(t, newId);
    FirstCopies(t, newId, request, s.issued);
  }

  /** Before anything is written, checks find nothing and time only passes. */
  lemma BeforeFirstWrite(s: State, request: Request, a: Action)
    requires OneQueued(s, request) && Enabled(s, a) && IsSilent(a) && !a.Send?
    ensures OneQueued(Apply(s, a), request) && Apply(s, a).issued == s.issued && Apply(s, a).notes == s.notes
  {
    EmptyCheck(s);
    hide CheckTimeouts;
    if a.Ticking? {
      CachesKeepTable(s, Tick(s, a.duration));
      hide TableInv;
    }
  }

  /**
   A server that never answers, and a clock that may move at any moment: before the first timeout
   is reported one request is written at most 37 times.
   */
  lemma {:induction false} CopiesWhateverTheClock(s: State, request: Request, actions: seq<Action>)
    requires OneQueued(s, request) && IsRun(s, actions) && forall a :: a in actions ==> IsSilent(a)
    requires Timeouts(After(s, actions).notes) == Timeouts(s.notes)
    ensures |After(s, actions).issued - s.issued| <= 37
    decreases |actions|
  {
    hide OneQueued, Bounded, SendNext, Timeouts, CheckTimeouts, RetryNext;
    if actions != [] {
      var a := actions[0];
      assert a in actions;
      if a.Send? {
        FirstWrite(s, request, a.newId);
        RunBounded(Apply(s, a), a.newId, request, s.issued, actions[1..]);
        BoundedCounts(After(s, actions), a.newId, request, s.issued);
      } else {
        BeforeFirstWrite(s, request, a);
        CopiesWhateverTheClock(Apply(s, a), request, actions[1..]);
      }
    }
  }
}
