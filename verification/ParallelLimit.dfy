/** Running tasks with a bounded number in flight: drains share a cursor and each stores what its task
    returned at the task's own index. Drains only interleave where they await. */
module ParallelLimit {
  import opened Options

  /** A drain that has not begun, waits out the stagger before task `i`, awaits task `i`, or is through. */
  datatype Drain = Idle | Waiting(i: nat) | Running(i: nat) | Stopped

  /** `started` logs the calls of tasks. */
  datatype Pool<T> = Pool(cursor: nat, drains: seq<Drain>, results: seq<Option<T>>, started: seq<nat>)

  function Min(a: nat, b: nat): nat { if a < b then a else b }

  function Init<T>(n: nat, limit: nat): Pool<T> {
    Pool(0, seq(Min(limit, n), _ => Idle), seq(n, _ => None), [])
  }

  /** The head of a drain's loop. */
  function Claim<T>(s: Pool<T>, d: nat, stagger: bool): Pool<T>
    requires d < |s.drains|
  {
    if s.cursor >= |s.results| then s.(drains := s.drains[d := Stopped])
    else if stagger && s.cursor > 0 then s.(cursor := s.cursor + 1, drains := s.drains[d := Waiting(s.cursor)])
    else s.(cursor := s.cursor + 1, drains := s.drains[d := Running(s.cursor)], started := s.started + [s.cursor])
  }

  /** Drain `d` goes on to its next await. `values` are what the tasks return. */
  function Step<T>(s: Pool<T>, d: nat, stagger: bool, values: seq<T>): Pool<T>
    requires |values| == |s.results|
  {
    if d >= |s.drains| then s
    else
      match s.drains[d]
      case Idle => Claim(s, d, stagger)
      case Waiting(i) => s.(drains := s.drains[d := Running(i)], started := s.started + [i])
      case Running(i) =>
        if i < |s.results| then Claim(s.(results := s.results[i := Some(values[i])]), d, stagger) else s
      case Stopped => s
  }

  function Run<T>(s: Pool<T>, schedule: seq<nat>, stagger: bool, values: seq<T>): (t: Pool<T>)
    requires |values| == |s.results|
    ensures |t.results| == |s.results|
    decreases |schedule|
  {
    if schedule == [] then s
    else Step(Run(s, schedule[..|schedule| - 1], stagger, values), schedule[|schedule| - 1], stagger, values)
  }

  // ---- Staggered starts ------------------------------------------------------------------

  /** A drain waits only with the stagger on, and not for the first task. */
  predicate WaitsRight<T>(s: Pool<T>, stagger: bool) {
    forall d :: 0 <= d < |s.drains| && s.drains[d].Waiting? ==> stagger && 0 < s.drains[d].i
  }

  /** A task that is started has waited in its drain exactly if the stagger is on and it is not the first. */
  predicate StartedRight<T>(s: Pool<T>, t: Pool<T>, d: nat, stagger: bool) {
    t.started != s.started ==>
      && |t.started| == |s.started| + 1 && d < |s.drains|
      && var i := t.started[|s.started|]; (s.drains[d] == Waiting(i) <==> stagger && 0 < i)
  }

  lemma StepStaggers<T>(s: Pool<T>, d: nat, stagger: bool, values: seq<T>)
    requires |values| == |s.results| && WaitsRight(s, stagger)
    ensures WaitsRight(Step(s, d, stagger, values), stagger)
    ensures StartedRight(s, Step(s, d, stagger, values), d, stagger)
  {}

  /** Over every interleaving: exactly the tasks after the first are held back, and only if the stagger is on. */
  lemma {:induction false} StaggersExactly<T>(limit: nat, schedule: seq<nat>, d: nat, stagger: bool, values: seq<T>)
    ensures var s := Run(Init(|values|, limit), schedule, stagger, values);
            WaitsRight(s, stagger) && StartedRight(s, Step(s, d, stagger, values), d, stagger)
    decreases |schedule|
  {
    if schedule != [] {
      var n := |schedule| - 1;
      StaggersExactly(limit, schedule[..n], schedule[n], stagger, values);
      StepStaggers(Run(Init(|values|, limit), schedule[..n], stagger, values), schedule[n], stagger, values);
    }
    StepStaggers(Run(Init(|values|, limit), schedule, stagger, values), d, stagger, values);
  }

  // ---- Who has which task ----------------------------------------------------------------

  predicate Holds(d: Drain, i: nat) { (d.Waiting? || d.Running?) && d.i == i }

  function Holders(drains: seq<Drain>, i: nat): nat {
    if drains == [] then 0
    else Holders(drains[..|drains| - 1], i) + (if Holds(drains[|drains| - 1], i) then 1 else 0)
  }

  function Runners(drains: seq<Drain>, i: nat): nat {
    if drains == [] then 0
    else Runners(drains[..|drains| - 1], i) + (if drains[|drains| - 1] == Running(i) then 1 else 0)
  }

  lemma {:induction false} HoldersUpdate(drains: seq<Drain>, d: nat, v: Drain, i: nat)
    requires d < |drains|
    ensures Holders(drains[d := v], i)
            == Holders(drains, i) - (if Holds(drains[d], i) then 1 else 0) + (if Holds(v, i) then 1 else 0)
    ensures Runners(drains[d := v], i)
            == Runners(drains, i) - (if drains[d] == Running(i) then 1 else 0) + (if v == Running(i) then 1 else 0)
    decreases |drains|
  {
    var n := |drains| - 1;
    if d < n {
      assert drains[d := v][..n] == drains[..n][d := v];
      HoldersUpdate(drains[..n], d, v, i);
    } else {
      assert drains[d := v][..n] == drains[..n];
    }
  }

  function One(b: bool): nat { if b then 1 else 0 }

  /** Task `i` is in exactly one place: not claimed yet, with one drain, or stored; and it was started
      once if it is running or stored, and not at all otherwise. */
  ghost predicate Placed<T(!new)>(s: Pool<T>, i: nat, values: seq<T>) {
    && i < |s.results| == |values|
    && Holders(s.drains, i) + One(s.results[i].Some?) + One(i >= s.cursor) == 1
    && multiset(s.started)[i] == Runners(s.drains, i) + One(s.results[i].Some?)
    && (s.results[i].Some? ==> s.results[i].value == values[i])
  }

  ghost predicate Shape<T>(s: Pool<T>) {
    && s.cursor <= |s.results|
    && (forall d :: 0 <= d < |s.drains| ==>
          && (s.drains[d] == Stopped ==> s.cursor == |s.results|)
          && (s.drains[d].Waiting? || s.drains[d].Running? ==> s.drains[d].i < s.cursor))
  }

  lemma ClaimKeepsPlaced<T(!new)>(s: Pool<T>, d: nat, stagger: bool, values: seq<T>, i: nat)
    requires |values| == |s.results| && i < |values| && d < |s.drains|
    requires !s.drains[d].Waiting? && !s.drains[d].Running?
    requires Placed(s, i, values)
    ensures Placed(Claim(s, d, stagger), i, values)
  {
    HoldersUpdate(s.drains, d, Claim(s, d, stagger).drains[d], i);
  }

  lemma WakeKeepsPlaced<T(!new)>(s: Pool<T>, d: nat, stagger: bool, values: seq<T>, i: nat)
    requires |values| == |s.results| && i < |values| && d < |s.drains|
    requires s.drains[d].Waiting? && Placed(s, i, values)
    ensures Placed(Step(s, d, stagger, values), i, values)
  {
    HoldersUpdate(s.drains, d, Running(s.drains[d].i), i);
  }

  /** A drain whose task returned stores the result and is then like one that has not begun. */
  function Stored<T>(s: Pool<T>, d: nat, values: seq<T>): Pool<T>
    requires |values| == |s.results| && d < |s.drains| && s.drains[d].Running? && s.drains[d].i < |s.results|
  {
    var j := s.drains[d].i;
    s.(results := s.results[j := Some(values[j])], drains := s.drains[d := Idle])
  }

  lemma StoreKeepsPlaced<T(!new)>(s: Pool<T>, d: nat, values: seq<T>, i: nat)
    requires |values| == |s.results| && i < |values| && d < |s.drains|
    requires s.drains[d].Running? && s.drains[d].i < |s.results| && Placed(s, i, values)
    ensures Placed(Stored(s, d, values), i, values)
  {
    HoldersUpdate(s.drains, d, Idle, i);
    HoldsAtMostOne(s.drains, d, i);
  }

  lemma ReturnIsStoreAndClaim<T>(s: Pool<T>, d: nat, stagger: bool, values: seq<T>)
    requires |values| == |s.results| && d < |s.drains| && s.drains[d].Running? && s.drains[d].i < |s.results|
    ensures Step(s, d, stagger, values) == Claim(Stored(s, d, values), d, stagger)
  {
    var t := Claim(Stored(s, d, values), d, stagger);
    assert s.drains[d := Idle][d := t.drains[d]] == s.drains[d := t.drains[d]];
  }

  lemma StepKeepsPlaced<T(!new)>(s: Pool<T>, d: nat, stagger: bool, values: seq<T>, i: nat)
    requires |values| == |s.results| && i < |values|
    requires Shape(s) && Placed(s, i, values)
    ensures Placed(Step(s, d, stagger, values), i, values)
  {
    if d < |s.drains| {
      match s.drains[d]
      case Idle => ClaimKeepsPlaced(s, d, stagger, values, i);
      case Waiting(_) => WakeKeepsPlaced(s, d, stagger, values, i);
      case Running(_) =>
        StoreKeepsPlaced(s, d, values, i);
        ClaimKeepsPlaced(Stored(s, d, values), d, stagger, values, i);
        ReturnIsStoreAndClaim(s, d, stagger, values);
      case Stopped =>
    }
  }

  lemma {:induction false} HoldsAtMostOne(drains: seq<Drain>, d: nat, i: nat)
    requires d < |drains|
    ensures Holds(drains[d], i) ==> Holders(drains, i) >= 1
    ensures drains[d] == Running(i) ==> Runners(drains, i) >= 1
    decreases |drains|
  {
    if d < |drains| - 1 { HoldsAtMostOne(drains[..|drains| - 1], d, i); }
  }

  lemma StepKeepsShape<T>(s: Pool<T>, d: nat, stagger: bool, values: seq<T>)
    requires |values| == |s.results| && Shape(s)
    ensures Shape(Step(s, d, stagger, values)) && |Step(s, d, stagger, values).drains| == |s.drains|
  {}

  lemma {:induction false} NobodyAtFirst(k: nat, i: nat)
    ensures Holders(seq(k, _ => Idle), i) == 0 && Runners(seq(k, _ => Idle), i) == 0
  {
    if k > 0 {
      NobodyAtFirst(k - 1, i);
      assert seq(k, _ => Idle)[..k - 1] == seq(k - 1, _ => Idle);
    }
  }

  lemma {:induction false} RunKeepsPlaced<T(!new)>(limit: nat, schedule: seq<nat>, stagger: bool, values: seq<T>, i: nat)
    requires i < |values|
    ensures var s := Run(Init(|values|, limit), schedule, stagger, values);
            Placed(s, i, values)
    decreases |schedule|
  {
    if schedule == [] {
      NobodyAtFirst(Min(limit, |values|), i);
    } else {
      var init := schedule[..|schedule| - 1];
      RunKeepsPlaced(limit, init, stagger, values, i);
      RunKeepsShape(limit, init, stagger, values);
      StepKeepsPlaced(Run(Init(|values|, limit), init, stagger, values), schedule[|schedule| - 1], stagger, values, i);
    }
  }

  lemma {:induction false} RunKeepsShape<T>(limit: nat, schedule: seq<nat>, stagger: bool, values: seq<T>)
    ensures var s := Run(Init(|values|, limit), schedule, stagger, values);
            Shape(s) && |s.drains| == Min(limit, |values|)
    decreases |schedule|
  {
    if schedule != [] {
      var init := schedule[..|schedule| - 1];
      RunKeepsShape(limit, init, stagger, values);
      StepKeepsShape(Run(Init(|values|, limit), init, stagger, values), schedule[|schedule| - 1], stagger, values);
    }
  }

  // ---- Main results ----------------------------------------------------------------------

  lemma {:induction false} RunnersBelow(drains: seq<Drain>, n: nat)
    ensures InFlight(drains, n) <= |drains|
    decreases |drains|
  {
    if drains == [] {
      NoRunners(n);
    } else {
      RunnersBelow(drains[..|drains| - 1], n);
      OneRunnerMore(drains, n);
    }
  }

  /** How many of the tasks below `n` are in flight: called and not yet returned. */
  function InFlight(drains: seq<Drain>, n: nat): nat {
    if n == 0 then 0 else InFlight(drains, n - 1) + Runners(drains, n - 1)
  }

  lemma {:induction false} NoRunners(n: nat)
    ensures InFlight([], n) == 0
  {
    if n > 0 { NoRunners(n - 1); }
  }

  lemma {:induction false} OneRunnerMore(drains: seq<Drain>, n: nat)
    requires drains != []
    ensures var last := drains[|drains| - 1];
            InFlight(drains, n) == InFlight(drains[..|drains| - 1], n) + One(last.Running? && last.i < n)
    decreases n
  {
    if n > 0 { OneRunnerMore(drains, n - 1); }
  }

  /** Under every interleaving never more than `limit` tasks are in flight. */
  lemma AtMostLimitInFlight<T>(limit: nat, schedule: seq<nat>, stagger: bool, values: seq<T>)
    ensures InFlight(Run(Init(|values|, limit), schedule, stagger, values).drains, |values|) <= limit
  {
    RunKeepsShape(limit, schedule, stagger, values);
    RunnersBelow(Run(Init(|values|, limit), schedule, stagger, values).drains, |values|);
  }

  /** No task is called twice, and one that was called and is not in flight has its result stored. */
  lemma EachTaskOnce<T(!new)>(limit: nat, schedule: seq<nat>, stagger: bool, values: seq<T>, i: nat)
    requires i < |values|
    ensures var s := Run(Init(|values|, limit), schedule, stagger, values);
      && multiset(s.started)[i] == Runners(s.drains, i) + One(s.results[i].Some?) <= 1
      && (s.results[i].Some? ==> s.results[i] == Some(values[i]))
  {
    RunKeepsPlaced(limit, schedule, stagger, values, i);
    RunnersHold(Run(Init(|values|, limit), schedule, stagger, values).drains, i);
  }

  lemma {:induction false} RunnersHold(drains: seq<Drain>, i: nat)
    ensures Runners(drains, i) <= Holders(drains, i)
    decreases |drains|
  {
    if drains != [] { RunnersHold(drains[..|drains| - 1], i); }
  }

  predicate AllStopped(drains: seq<Drain>) {
    forall d :: 0 <= d < |drains| ==> drains[d] == Stopped
  }

  lemma {:induction false} StoppedHoldNothing(drains: seq<Drain>, i: nat)
    requires AllStopped(drains)
    ensures Holders(drains, i) == 0
    decreases |drains|
  {
    if drains != [] { StoppedHoldNothing(drains[..|drains| - 1], i); }
  }

  /** When all drains have returned, the results are those of calling the tasks one after the other,
      whatever the interleaving was, exactly when the limit is at least one (or there is no task). */
  lemma ResultsAreSequential<T(!new)>(limit: nat, schedule: seq<nat>, stagger: bool, values: seq<T>)
    requires AllStopped(Run(Init(|values|, limit), schedule, stagger, values).drains)
    ensures var s := Run(Init(|values|, limit), schedule, stagger, values);
            (forall i: nat :: i < |values| ==> s.results[i] == Some(values[i])) <==> limit >= 1 || values == []
  {
    var s := Run(Init(|values|, limit), schedule, stagger, values);
    RunKeepsShape(limit, schedule, stagger, values);
    if limit >= 1 && values != [] {
      assert s.drains[0] == Stopped;
      forall i: nat | i < |values| ensures s.results[i] == Some(values[i]) {
        RunKeepsPlaced(limit, schedule, stagger, values, i);
        StoppedHoldNothing(s.drains, i);
      }
    } else if values != [] {
      NothingWithoutDrains(schedule, stagger, values);
      assert s.results[0] == None;
    }
  }

  lemma {:induction false} NothingWithoutDrains<T>(schedule: seq<nat>, stagger: bool, values: seq<T>)
    ensures Run(Init(|values|, 0), schedule, stagger, values) == Init(|values|, 0)
    decreases |schedule|
  {
    if schedule != [] { NothingWithoutDrains(schedule[..|schedule| - 1], stagger, values); }
  }

  // ---- Termination -----------------------------------------------------------------------

  function Weight(d: Drain): nat {
    match d
    case Idle => 1
    case Waiting(_) => 2
    case Running(_) => 1
    case Stopped => 0
  }

  function Weights(drains: seq<Drain>): nat {
    if drains == [] then 0 else Weights(drains[..|drains| - 1]) + Weight(drains[|drains| - 1])
  }

  lemma {:induction false} WeightsUpdate(drains: seq<Drain>, d: nat, v: Drain)
    requires d < |drains|
    ensures Weights(drains[d := v]) == Weights(drains) - Weight(drains[d]) + Weight(v)
    decreases |drains|
  {
    var n := |drains| - 1;
    if d < n {
      assert drains[d := v][..n] == drains[..n][d := v];
      WeightsUpdate(drains[..n], d, v);
    } else {
      assert drains[d := v][..n] == drains[..n];
    }
  }

  function Work<T>(s: Pool<T>): int { 2 * (|s.results| - s.cursor) + Weights(s.drains) }

  /** A drain that has not returned can always go on, and going on brings the end nearer. */
  lemma Progress<T>(s: Pool<T>, d: nat, stagger: bool, values: seq<T>)
    requires |values| == |s.results| && Shape(s) && d < |s.drains| && s.drains[d] != Stopped
    ensures 0 <= Work(Step(s, d, stagger, values)) < Work(s)
  {
    WeightsUpdate(s.drains, d, Step(s, d, stagger, values).drains[d]);
    assert Step(s, d, stagger, values).drains == s.drains[d := Step(s, d, stagger, values).drains[d]];
  }

  // ---- The function itself ---------------------------------------------------------------

  class DrainPool<T(0)> {
    const values: seq<T>
    const limit: nat
    const stagger: bool
    var cursor: nat
    var drains: array<Drain>
    var results: array<Option<T>>
    ghost var started: seq<nat>

    constructor (values: seq<T>, limit: nat, stagger: bool)
      ensures View() == Init(|values|, limit) && fresh(drains) && fresh(results)
      ensures this.values == values && this.limit == limit && this.stagger == stagger
    {
      this.values, this.limit, this.stagger, cursor, started := values, limit, stagger, 0, [];
      drains := new Drain[Min(limit, |values|)](_ => Idle);
      results := new Option<T>[|values|](_ => None);
    }

    ghost function View(): Pool<T>
      reads this, drains, results
    {
      Pool(cursor, drains[..], results[..], started)
    }

    /** Runs drain `d` up to its next await. */
    method Advance(d: nat)
      requires d < drains.Length && results.Length == |values| && Shape(View()) && drains[d] != Stopped
      modifies this`cursor, this`started, drains, results
      ensures View() == Step(old(View()), d, stagger, values)
    {
      var here := drains[d];
      if here.Waiting? {
        drains[d] := Running(here.i);
        started := started + [here.i];
        return;
      }
      if here.Running? { results[here.i] := Some(values[here.i]); }
      if cursor < results.Length {
        var i := cursor;
        cursor := cursor + 1;
        if stagger && i > 0 {
          drains[d] := Waiting(i);
        } else {
          drains[d] := Running(i);
          started := started + [i];
        }
      } else {
        drains[d] := Stopped;
      }
    }
  }

  /** Lets the drains run, in whatever order, until all have returned. */
  method RunParallel<T(0,!new)>(values: seq<T>, limit: nat, stagger: bool) returns (results: seq<Option<T>>)
    requires limit >= 1
    ensures |results| == |values| && forall i: nat :: i < |values| ==> results[i] == Some(values[i])
  {
    var pool := new DrainPool<T>(values, limit, stagger);
    ghost var schedule: seq<nat> := [];
    RunKeepsShape(limit, schedule, stagger, values);
    while exists d :: 0 <= d < pool.drains.Length && pool.drains[d] != Stopped
      invariant fresh(pool.drains) && fresh(pool.results) && pool.results.Length == |values|
      invariant pool.View() == Run(Init(|values|, limit), schedule, stagger, values) && Shape(pool.View())
      decreases Work(pool.View())
    {
      var d :| 0 <= d < pool.drains.Length && pool.drains[d] != Stopped;
      Progress(pool.View(), d, stagger, values);
      pool.Advance(d);
      assert (schedule + [d])[..|schedule|] == schedule;
      schedule := schedule + [d];
      RunKeepsShape(limit, schedule, stagger, values);
    }
    ResultsAreSequential(limit, schedule, stagger, values);
    results := pool.results[..];
  }
}
