/** A mutex per key, built from a chain of promises. */
module ProxyLock {
  /** A promise is resolved from the start, when call `n` releases it, or when both of its parts are. */
  datatype Promise = Ready | Link(prev: Promise, n: nat)

  predicate Resolved(p: Promise, released: set<nat>) {
    match p
    case Ready => true
    case Link(prev, n) => Resolved(prev, released) && n in released
  }

  /** A call waits for its turn, runs its body, or is over; a body that throws before it returns a promise
      never gets its release attached. */
  datatype Phase = Waiting | InBody | Settled | Thrown

  datatype Call = Call(key: string, prev: Promise, phase: Phase)

  datatype Locks = Locks(tail: map<string, Promise>, calls: seq<Call>, released: set<nat>)

  /** `ok` tells a fulfilled body from a rejected one. */
  datatype Event = Acquire(key: string) | Enter(n: nat) | Settle(n: nat, ok: bool) | Throw(n: nat)

  function Tail(s: Locks, key: string): Promise {
    if key in s.tail then s.tail[key] else Ready
  }

  predicate CanEnter(s: Locks, n: nat) {
    n < |s.calls| && s.calls[n].phase == Waiting && Resolved(s.calls[n].prev, s.released)
  }

  function Moved(s: Locks, n: nat, p: Phase): Locks
    requires n < |s.calls|
  {
    s.(calls := s.calls[n := s.calls[n].(phase := p)])
  }

  function Step(s: Locks, e: Event): Locks {
    match e
    case Acquire(key) =>
      s.(tail := s.tail[key := Link(Tail(s, key), |s.calls|)], calls := s.calls + [Call(key, Tail(s, key), Waiting)])
    case Enter(n) => if CanEnter(s, n) then Moved(s, n, InBody) else s
    case Throw(n) => if CanEnter(s, n) then Moved(s, n, Thrown) else s
    case Settle(n, _) =>
      if n < |s.calls| && s.calls[n].phase == InBody then Moved(s, n, Settled).(released := s.released + {n}) else s
  }

  function Run(s: Locks, es: seq<Event>): Locks
    decreases |es|
  {
    if es == [] then s else Step(Run(s, es[..|es| - 1]), es[|es| - 1])
  }

  const NO_LOCKS := Locks(map[], [], {})

  // ---- The chain of a key ----------------------------------------------------------------

  function ChainOf(calls: seq<Call>, key: string): Promise {
    if calls == [] then Ready
    else
      var n := |calls| - 1;
      if calls[n].key == key then Link(ChainOf(calls[..n], key), n) else ChainOf(calls[..n], key)
  }

  predicate AllReleased(calls: seq<Call>, key: string, released: set<nat>) {
    forall m :: 0 <= m < |calls| && calls[m].key == key ==> m in released
  }

  lemma {:induction false} ChainWaitsForAll(calls: seq<Call>, key: string, released: set<nat>)
    ensures Resolved(ChainOf(calls, key), released) <==> AllReleased(calls, key, released)
    decreases |calls|
  {
    if calls != [] {
      var n := |calls| - 1;
      ChainWaitsForAll(calls[..n], key, released);
      assert forall m :: 0 <= m < n ==> calls[..n][m] == calls[m];
    }
  }

  /** A chain depends on the keys of the calls only. */
  lemma {:induction false} ChainIgnoresPhases(a: seq<Call>, b: seq<Call>, key: string)
    requires |a| == |b| && forall m :: 0 <= m < |a| ==> a[m].key == b[m].key
    ensures ChainOf(a, key) == ChainOf(b, key)
    decreases |a|
  {
    if a != [] { ChainIgnoresPhases(a[..|a| - 1], b[..|b| - 1], key); }
  }

  // ---- What every run keeps --------------------------------------------------------------

  ghost predicate Linked(s: Locks) {
    && (forall key :: Tail(s, key) == ChainOf(s.calls, key))
    && (forall n :: 0 <= n < |s.calls| ==> s.calls[n].prev == ChainOf(s.calls[..n], s.calls[n].key))
  }

  /** Whoever is past waiting saw all earlier calls of its key released, and only settled calls are. */
  ghost predicate Ordered(s: Locks) {
    && (forall n: nat :: n in s.released <==> n < |s.calls| && s.calls[n].phase == Settled)
    && (forall n :: 0 <= n < |s.calls| && s.calls[n].phase != Waiting ==> Resolved(s.calls[n].prev, s.released))
  }

  lemma MoveKeepsLinked(s: Locks, n: nat, p: Phase)
    requires Linked(s) && n < |s.calls|
    ensures Linked(Moved(s, n, p))
  {
    var t := Moved(s, n, p);
    forall key ensures Tail(t, key) == ChainOf(t.calls, key) { ChainIgnoresPhases(s.calls, t.calls, key); }
    forall m | 0 <= m < |t.calls| ensures t.calls[m].prev == ChainOf(t.calls[..m], t.calls[m].key) {
      ChainIgnoresPhases(s.calls[..m], t.calls[..m], t.calls[m].key);
    }
  }

  lemma AcquireKeepsLinked(s: Locks, key: string)
    requires Linked(s)
    ensures Linked(Step(s, Acquire(key)))
  {
    var t := Step(s, Acquire(key));
    assert t.calls[..|s.calls|] == s.calls;
    forall m | 0 <= m < |t.calls| ensures t.calls[m].prev == ChainOf(t.calls[..m], t.calls[m].key) {
      if m < |s.calls| { assert t.calls[..m] == s.calls[..m]; }
    }
  }

  lemma {:induction false} MoreReleased(p: Promise, a: set<nat>, b: set<nat>)
    requires a <= b && Resolved(p, a)
    ensures Resolved(p, b)
  {
    if p.Link? { MoreReleased(p.prev, a, b); }
  }

  lemma StepKeepsOrdered(s: Locks, e: Event)
    requires Ordered(s)
    ensures Ordered(Step(s, e))
  {
    var t := Step(s, e);
    forall n | 0 <= n < |t.calls| && t.calls[n].phase != Waiting ensures Resolved(t.calls[n].prev, t.released) {
      assert n < |s.calls| && t.calls[n].prev == s.calls[n].prev;
      MoreReleased(s.calls[n].prev, s.released, t.released);
    }
  }

  /** What holds in every state of a run. */
  ghost predicate Good(s: Locks) { Linked(s) && Ordered(s) }

  lemma StepKeepsGood(s: Locks, e: Event)
    requires Good(s)
    ensures Good(Step(s, e))
  {
    StepKeepsOrdered(s, e);
    match e
    case Acquire(key) => AcquireKeepsLinked(s, key);
    case Enter(n) => if CanEnter(s, n) { MoveKeepsLinked(s, n, InBody); }
    case Throw(n) => if CanEnter(s, n) { MoveKeepsLinked(s, n, Thrown); }
    case Settle(n, _) => if n < |s.calls| && s.calls[n].phase == InBody { MoveKeepsLinked(s, n, Settled); }
  }

  lemma {:induction false} RunKeepsGood(s: Locks, es: seq<Event>)
    requires Good(s)
    ensures Good(Run(s, es))
    decreases |es|
  {
    if es != [] {
      RunKeepsGood(s, es[..|es| - 1]);
      StepKeepsGood(Run(s, es[..|es| - 1]), es[|es| - 1]);
    }
  }

  lemma NoLocksIsGood()
    ensures Good(NO_LOCKS)
  {}

  // ---- Main results ----------------------------------------------------------------------

  /** All earlier calls of the same key have settled. */
  predicate MyTurn(s: Locks, n: nat) {
    n < |s.calls| && forall m :: 0 <= m < n && s.calls[m].key == s.calls[n].key ==> s.calls[m].phase == Settled
  }

  lemma ResolvedInTurn(s: Locks, n: nat)
    requires Good(s) && n < |s.calls|
    ensures Resolved(s.calls[n].prev, s.released) <==> MyTurn(s, n)
  {
    ChainWaitsForAll(s.calls[..n], s.calls[n].key, s.released);
    assert forall m :: 0 <= m < n ==> s.calls[..n][m] == s.calls[m];
  }

  /** In every run: a waiting call can start exactly when all earlier calls of its key have settled,
      fulfilled or rejected; calls of other keys play no part. */
  lemma EntersExactlyInTurn(es: seq<Event>, n: nat)
    ensures var s := Run(NO_LOCKS, es);
            CanEnter(s, n) <==> MyTurn(s, n) && s.calls[n].phase == Waiting
  {
    NoLocksIsGood();
    RunKeepsGood(NO_LOCKS, es);
    if n < |Run(NO_LOCKS, es).calls| { ResolvedInTurn(Run(NO_LOCKS, es), n); }
  }

  /** First come, first served: when a call has started, every earlier call of its key has settled. */
  lemma StartedInTurn(es: seq<Event>, n: nat)
    requires n < |Run(NO_LOCKS, es).calls| && Run(NO_LOCKS, es).calls[n].phase != Waiting
    ensures MyTurn(Run(NO_LOCKS, es), n)
  {
    NoLocksIsGood();
    RunKeepsGood(NO_LOCKS, es);
    ResolvedInTurn(Run(NO_LOCKS, es), n);
  }

  /** So no two calls of one key are ever in their bodies together. */
  lemma NeverTwoInBody(es: seq<Event>, m: nat, n: nat)
    requires m < |Run(NO_LOCKS, es).calls| && n < |Run(NO_LOCKS, es).calls|
    requires Run(NO_LOCKS, es).calls[m].phase == InBody && Run(NO_LOCKS, es).calls[n].phase == InBody
    requires Run(NO_LOCKS, es).calls[m].key == Run(NO_LOCKS, es).calls[n].key
    ensures m == n
  {
    StartedInTurn(es, m);
    StartedInTurn(es, n);
  }

  /** No earlier call of the same key threw before it returned a promise. */
  predicate NoneThrew(s: Locks, n: nat) {
    n < |s.calls| && forall m :: 0 <= m < n && s.calls[m].key == s.calls[n].key ==> s.calls[m].phase != Thrown
  }

  /** The earlier calls of the same key that have not settled. */
  function Ahead(calls: seq<Call>, key: string): nat {
    if calls == [] then 0
    else
      var last := calls[|calls| - 1];
      Ahead(calls[..|calls| - 1], key) + (if last.key == key && last.phase != Settled then 1 else 0)
  }

  function Queue(s: Locks, n: nat): nat
    requires n < |s.calls|
  {
    Ahead(s.calls[..n], s.calls[n].key)
  }

  lemma {:induction false} AheadDrops(calls: seq<Call>, m: nat, key: string)
    requires m < |calls| && calls[m].key == key && calls[m].phase != Settled
    ensures Ahead(calls[m := calls[m].(phase := Settled)], key) == Ahead(calls, key) - 1
    decreases |calls|
  {
    var n := |calls| - 1;
    var moved := calls[m := calls[m].(phase := Settled)];
    if m < n {
      assert moved[..n] == calls[..n][m := calls[m].(phase := Settled)];
      AheadDrops(calls[..n], m, key);
    } else {
      assert moved[..n] == calls[..n];
    }
  }

  /** The first earlier call of the key that has not settled. */
  lemma {:induction false} FirstAhead(s: Locks, n: nat, from: nat) returns (m: nat)
    requires n < |s.calls| && !MyTurn(s, n) && from <= n
    requires forall k :: 0 <= k < from && s.calls[k].key == s.calls[n].key ==> s.calls[k].phase == Settled
    ensures m < n && s.calls[m].key == s.calls[n].key && s.calls[m].phase != Settled && MyTurn(s, m)
    decreases n - from
  {
    if s.calls[from].key == s.calls[n].key && s.calls[from].phase != Settled { m := from; }
    else { m := FirstAhead(s, n, from + 1); }
  }

  /** Call `m` starts, unless it has, and its body is fulfilled or rejected. */
  function Served(s: Locks, m: nat, ok: bool): Locks { Step(Step(s, Enter(m)), Settle(m, ok)) }

  lemma ServedSettles(s: Locks, m: nat, n: nat, ok: bool)
    requires m < n < |s.calls| && s.calls[m].phase != Settled && s.calls[m].phase != Thrown
    requires s.calls[m].phase == Waiting ==> CanEnter(s, m)
    ensures var t := Served(s, m, ok);
      && |t.calls| == |s.calls| && t.calls[n] == s.calls[n]
      && t.calls[..n] == s.calls[..n][m := s.calls[m].(phase := Settled)]
  {}

  lemma NoneThrewAfter(s: Locks, t: Locks, m: nat, n: nat)
    requires NoneThrew(s, n) && m < n < |t.calls| && t.calls[n] == s.calls[n]
    requires t.calls[..n] == s.calls[..n][m := s.calls[m].(phase := Settled)]
    ensures NoneThrew(t, n)
  {
    forall k | 0 <= k < n && t.calls[k].key == t.calls[n].key ensures t.calls[k].phase != Thrown {
      assert t.calls[k] == t.calls[..n][k];
      assert k != m ==> t.calls[k] == s.calls[k];
    }
  }

  lemma OneNearer(s: Locks, n: nat, ok: nat -> bool) returns (m: nat)
    requires Good(s) && NoneThrew(s, n) && s.calls[n].phase == Waiting && !MyTurn(s, n)
    ensures var t := Served(s, m, ok(m));
      && Good(t) && NoneThrew(t, n) && t.calls[n].phase == Waiting && Queue(t, n) < Queue(s, n)
  {
    m := FirstAhead(s, n, 0);
    ResolvedInTurn(s, m);
    ServedSettles(s, m, n, ok(m));
    NoneThrewAfter(s, Served(s, m, ok(m)), m, n);
    AheadDrops(s.calls[..n], m, s.calls[n].key);
    StepKeepsGood(s, Enter(m));
    StepKeepsGood(Step(s, Enter(m)), Settle(m, ok(m)));
  }

  lemma {:induction false} RunMore(s: Locks, a: seq<Event>, b: seq<Event>)
    ensures Run(s, a + b) == Run(Run(s, a), b)
    decreases |b|
  {
    if b == [] {
      assert a + b == a;
    } else {
      assert (a + b)[..|a + b| - 1] == a + b[..|b| - 1];
      RunMore(s, a, b[..|b| - 1]);
    }
  }

  lemma ServedRuns(s: Locks, m: nat, ok: bool)
    ensures Run(s, [Enter(m), Settle(m, ok)]) == Served(s, m, ok)
  {
    var es := [Enter(m), Settle(m, ok)];
    assert es[..|es| - 1] == [Enter(m)] && es[|es| - 1] == Settle(m, ok);
    assert [Enter(m)][..0] == [];
    assert Run(s, [Enter(m)]) == Step(Run(s, []), Enter(m));
  }

  /** Nothing happens but that calls start and settle, each as `ok` says. */
  predicate GoesOn(more: seq<Event>, ok: nat -> bool) {
    forall e <- more :: e.Enter? || (e.Settle? && e.ok == ok(e.n))
  }

  /** Unless an earlier body threw at once, the calls ahead can start and settle in turn, and then it is
      the waiting call's turn, whichever of the bodies ahead are fulfilled and whichever rejected. */
  lemma {:induction false} TurnComes(s: Locks, n: nat, ok: nat -> bool) returns (more: seq<Event>)
    requires Good(s) && NoneThrew(s, n) && s.calls[n].phase == Waiting
    ensures CanEnter(Run(s, more), n) && GoesOn(more, ok)
    decreases Queue(s, n)
  {
    if MyTurn(s, n) {
      more := [];
      ResolvedInTurn(s, n);
    } else {
      var m := OneNearer(s, n, ok);
      var rest := TurnComes(Served(s, m, ok(m)), n, ok);
      more := [Enter(m), Settle(m, ok(m))] + rest;
      ServedRuns(s, m, ok(m));
      RunMore(s, [Enter(m), Settle(m, ok(m))], rest);
    }
  }

  /** No call of the key lies between the two. */
  predicate NextOfKey(s: Locks, n: nat, m: nat) {
    && n < m < |s.calls| && s.calls[m].key == s.calls[n].key
    && forall k :: n < k < m ==> s.calls[k].key != s.calls[n].key
  }

  /** When a body settles, fulfilled or rejected, its call is over and the next waiting call of the key can
      start, which it could not before. */
  lemma SettlingLetsNextIn(s: Locks, n: nat, m: nat, ok: bool)
    requires Good(s) && NextOfKey(s, n, m) && s.calls[n].phase == InBody && s.calls[m].phase == Waiting
    ensures !CanEnter(s, m)
    ensures var t := Step(s, Settle(n, ok)); t.calls[n].phase == Settled && CanEnter(t, m)
  {
    var t := Step(s, Settle(n, ok));
    StepKeepsGood(s, Settle(n, ok));
    ResolvedInTurn(s, n);
    ResolvedInTurn(s, m);
    ResolvedInTurn(t, m);
  }

  /** In this run the call started: it asked to when it could. */
  ghost predicate Began(s: Locks, es: seq<Event>, n: nat, i: nat) {
    i < |es| && es[i] == Enter(n) && CanEnter(Run(s, es[..i]), n)
  }

  /** A settlement of the call, of either kind, comes after its start. */
  ghost predicate BeganAndSettled(s: Locks, es: seq<Event>, n: nat) {
    exists i: nat, j: nat :: i < j < |es| && Began(s, es, n, i) && es[j].Settle? && es[j].n == n
  }

  ghost predicate HasBegun(s: Locks, es: seq<Event>, n: nat) {
    exists i: nat :: Began(s, es, n, i)
  }

  lemma BeganSnoc(s: Locks, es: seq<Event>, e: Event, n: nat)
    ensures HasBegun(s, es + [e], n) <==> HasBegun(s, es, n) || (e == Enter(n) && CanEnter(Run(s, es), n))
    ensures BeganAndSettled(s, es + [e], n)
            <==> BeganAndSettled(s, es, n) || (HasBegun(s, es, n) && e.Settle? && e.n == n)
  {
    var all := es + [e];
    assert forall i: nat :: i < |es| ==> all[..i] == es[..i] && all[i] == es[i];
    assert all[..|es|] == es && all[|es|] == e;
    assert forall i: nat :: i < |es| ==> (Began(s, all, n, i) <==> Began(s, es, n, i));
    if HasBegun(s, es, n) {
      var i: nat :| Began(s, es, n, i);
      assert Began(s, all, n, i);
    }
    if e == Enter(n) && CanEnter(Run(s, es), n) { assert Began(s, all, n, |es|); }
    if BeganAndSettled(s, es, n) {
      var i: nat, j: nat :| i < j < |es| && Began(s, es, n, i) && es[j].Settle? && es[j].n == n;
      assert Began(s, all, n, i) && all[j] == es[j];
    }
  }

  /** Over every run: a call is over exactly if some settlement of it, fulfilled or rejected, came after it
      started, and it has started and is not over exactly while it is in its body. */
  lemma {:induction false} SettledExactly(es: seq<Event>, n: nat)
    ensures var s := Run(NO_LOCKS, es);
      && (n < |s.calls| && s.calls[n].phase == Settled <==> BeganAndSettled(NO_LOCKS, es, n))
      && (n < |s.calls| && (s.calls[n].phase == InBody || s.calls[n].phase == Settled) <==> HasBegun(NO_LOCKS, es, n))
    decreases |es|
  {
    if es != [] {
      var init, e := es[..|es| - 1], es[|es| - 1];
      assert es == init + [e];
      SettledExactly(init, n);
      BeganSnoc(NO_LOCKS, init, e, n);
    }
  }

  /** But a body that throws at once blocks its key for good. */
  lemma ThrownBlocks(s: Locks, more: seq<Event>, m: nat, n: nat)
    requires Good(s) && m < n < |s.calls| && s.calls[m].key == s.calls[n].key && s.calls[m].phase == Thrown
    ensures !CanEnter(Run(s, more), n)
  {
    StaysThrown(s, more, m, n);
    RunKeepsGood(s, more);
    ResolvedInTurn(Run(s, more), n);
  }

  lemma {:induction false} StaysThrown(s: Locks, more: seq<Event>, m: nat, n: nat)
    requires m < n < |s.calls| && s.calls[m].phase == Thrown
    ensures var t := Run(s, more);
      && n < |t.calls| && t.calls[m].phase == Thrown
      && t.calls[m].key == s.calls[m].key && t.calls[n].key == s.calls[n].key
    decreases |more|
  {
    if more != [] { StaysThrown(s, more[..|more| - 1], m, n); }
  }

  // ---- The lock table --------------------------------------------------------------------

  class LockTable {
    var tail: map<string, Promise>
    var calls: seq<Call>
    var released: set<nat>

    constructor ()
      ensures View() == NO_LOCKS
    {
      tail, calls, released := map[], [], {};
    }

    ghost function View(): Locks
      reads this
    {
      Locks(tail, calls, released)
    }

    /** Queues a call; its number stands for the promise it gets. */
    method WithProxyLock(key: string) returns (n: nat)
      modifies this
      ensures n == |old(calls)| && View() == Step(old(View()), Acquire(key))
    {
      n := |calls|;
      var prev := if key in tail then tail[key] else Ready;
      tail := tail[key := Link(prev, n)];
      calls := calls + [Call(key, prev, Waiting)];
    }

    /** The body starts once the promise of all earlier calls has resolved. */
    method TryStart(n: nat) returns (started: bool)
      requires n < |calls| && calls[n].phase == Waiting
      modifies this
      ensures started == CanEnter(old(View()), n)
      ensures View() == Step(old(View()), Enter(n))
    {
      started := Resolved(calls[n].prev, released);
      if started { calls := calls[n := calls[n].(phase := InBody)]; }
    }

    /** The body's promise settles, one way or the other, and the latch opens. */
    method Finally(n: nat, ok: bool)
      requires n < |calls| && calls[n].phase == InBody
      modifies this
      ensures calls == old(calls)[n := old(calls)[n].(phase := Settled)] && released == old(released) + {n}
      ensures View() == Step(old(View()), Settle(n, ok))
    {
      calls := calls[n := calls[n].(phase := Settled)];
      released := released + {n};
    }
  }
}
