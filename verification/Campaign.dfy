/** Runs of a GROUP_ONLY userbot campaign. Any number of workers may hold a job for the same campaign;
    they meet only in the campaign row, through guarded updates. Time stamps are milliseconds. */
module Campaign {
  import opened Options

  datatype Status = Running | Completed | Failed

  datatype Row = Row(status: Status, next: Option<nat>, last: Option<nat>, sent: nat, failed: nat)
  {
    function Settled(): nat { sent + failed }
  }

  /** `repeat` is the interval of a recurring campaign. */
  datatype Plan = Plan(groups: nat, recurring: bool)

  // ---- Guarded updates of the row --------------------------------------------------------

  predicate OwnedBy(row: Row, stamp: nat) { row.status == Running && row.last == Some(stamp) }

  /** The tests between reading the row and trying to claim it. */
  predicate Claimable(row: Row, runAt: Option<nat>, now: nat) {
    && row.status == Running
    && (runAt.Some? ==>
          row.next.Some? && -1000 <= row.next.value - runAt.value <= 1000)
    && (row.next.Some? ==> row.next.value <= now)
  }

  predicate CanClaim(row: Row, seen: Row) {
    row.status == Running && row.next == seen.next && row.last == seen.last
  }

  function Claimed(row: Row, stamp: nat): Row { row.(next := None, last := Some(stamp)) }

  function WithSent(row: Row, stamp: nat, sent: nat): Row {
    if OwnedBy(row, stamp) then row.(sent := sent) else row
  }

  function WithFailed(row: Row, stamp: nat, failed: nat): Row {
    if OwnedBy(row, stamp) then row.(failed := failed) else row
  }

  function Deferred(row: Row, stamp: nat, resumeAt: nat): Row {
    if OwnedBy(row, stamp) then row.(next := Some(resumeAt)) else row
  }

  function Ended(plan: Plan, row: Row, stamp: nat, nextAt: nat): Row {
    if !OwnedBy(row, stamp) then row
    else if plan.recurring then row.(sent := 0, failed := 0, next := Some(nextAt))
    else row.(status := Completed, next := None)
  }

  function Aborted(row: Row, stamp: nat): Row {
    if OwnedBy(row, stamp) then row.(status := Failed, next := None) else row
  }

  /** The scheduler re-arms a running campaign that nothing is armed for. */
  function Recovered(row: Row, now: nat): Row {
    if row.status == Running && row.next == None then row.(next := Some(now)) else row
  }

  // ---- Workers ---------------------------------------------------------------------------

  /** Where a worker stands: it has read the row; it is at the top of the loop; its ownership test
      passed; its send was answered and its counter is not yet written; it was told to wait; it left
      the loop; it is gone. */
  datatype Phase = Fetched(seen: Row) | Looping(i: nat) | Checked(i: nat) | Tried(i: nat, ok: bool)
                 | Flooded(i: nat) | Ending | Gone

  datatype Worker = Worker(stamp: nat, sent: nat, failed: nat, phase: Phase)
  {
    predicate Past() { !phase.Fetched? && !phase.Gone? }
  }

  datatype Outcome = Delivered | Rejected | FloodWait

  datatype Action = Claim | Check | Send(outcome: Outcome) | Write | Defer(resumeAt: nat) | End(nextAt: nat)
                  | Abort | Crash

  /** What an action did besides moving the row and the worker. */
  datatype Note = Nothing | Claiming | Trying | Settling(group: nat) | Losing | CycleEnding

  datatype Effect = Effect(row: Row, me: Worker, note: Note)

  /** One atomic step of one worker. Steps that do not fit its phase do nothing. */
  function Act(plan: Plan, row: Row, me: Worker, a: Action): Effect {
    match (a, me.phase)
    case (Claim, Fetched(seen)) =>
      if CanClaim(row, seen)
      then Effect(Claimed(row, me.stamp),
                  Worker(me.stamp, seen.sent, seen.failed,
                         Looping(if seen.Settled() < plan.groups then seen.Settled() else plan.groups)),
                  Claiming)
      else Effect(row, me.(phase := Gone), Nothing)
    case (Check, Looping(i)) =>
      Effect(row, me.(phase := if i < plan.groups && OwnedBy(row, me.stamp) then Checked(i) else Ending), Nothing)
    case (Send(outcome), Checked(i)) =>
      Effect(row,
             match outcome
             case Delivered => me.(sent := me.sent + 1, phase := Tried(i, true))
             case Rejected => me.(failed := me.failed + 1, phase := Tried(i, false))
             case FloodWait => me.(phase := Flooded(i)),
             Trying)
    case (Write, Tried(i, ok)) =>
      Effect(if ok then WithSent(row, me.stamp, me.sent) else WithFailed(row, me.stamp, me.failed),
             me.(phase := Looping(i + 1)),
             if OwnedBy(row, me.stamp) then Settling(i) else Losing)
    case (Defer(resumeAt), Flooded(_)) =>
      Effect(Deferred(row, me.stamp, resumeAt), me.(phase := Gone), Losing)
    case (End(nextAt), Ending) =>
      Effect(Ended(plan, row, me.stamp, nextAt), me.(phase := Gone),
             if OwnedBy(row, me.stamp) then CycleEnding else Nothing)
    case (Abort, Looping(_)) => Effect(Aborted(row, me.stamp), me.(phase := Gone), Nothing)
    case (Abort, Checked(_)) => Effect(Aborted(row, me.stamp), me.(phase := Gone), Nothing)
    case (Crash, phase) =>
      Effect(row, me.(phase := Gone), if phase.Tried? || phase.Flooded? then Losing else Nothing)
    case _ => Effect(row, me, Nothing)
  }

  /** The row and the workers, with a record of what happened: stamps handed out, stamps that reached
      the row, groups settled in this cycle, and totals over all cycles. */
  datatype World = World(row: Row, workers: map<nat, Worker>, used: set<nat>, landed: set<nat>,
                         settled: seq<nat>, tally: Tally)

  datatype Tally = Tally(settled: nat, attempts: nat, lost: nat, claims: nat, ends: nat)
  {
    function Noting(n: Note): Tally {
      match n
      case Nothing => this
      case Claiming => this.(claims := claims + 1)
      case Trying => this.(attempts := attempts + 1)
      case Settling(_) => this.(settled := settled + 1)
      case Losing => this.(lost := lost + 1)
      case CycleEnding => this.(ends := ends + 1)
    }
  }

  datatype Event =
    | Fetch(w: nat, runAt: Option<nat>, now: nat, stamp: nat)
    | By(w: nat, action: Action)
    | Recover(now: nat)

  function Step(plan: Plan, s: World, e: Event): World {
    match e
    case Recover(now) => s.(row := Recovered(s.row, now))
    case Fetch(w, runAt, now, stamp) =>
      // Start stamps are taken to be distinct.
      if w in s.workers || stamp in s.used || !Claimable(s.row, runAt, now) then s
      else s.(workers := s.workers[w := Worker(stamp, 0, 0, Fetched(s.row))], used := s.used + {stamp})
    case By(w, a) =>
      if w !in s.workers then s else Apply(plan, s, w, Act(plan, s.row, s.workers[w], a))
  }

  function Apply(plan: Plan, s: World, w: nat, f: Effect): World {
    World(f.row, s.workers[w := f.me], s.used,
          if f.note.Claiming? then s.landed + {f.me.stamp} else s.landed,
          if f.note.Settling? then s.settled + [f.note.group]
          else if f.note.CycleEnding? && plan.recurring then [] else s.settled,
          s.tally.Noting(f.note))
  }

  function Run(plan: Plan, s: World, es: seq<Event>): World
    decreases |es|
  {
    if es == [] then s else Run(plan, Step(plan, s, es[0]), es[1..])
  }

  /** A campaign just started: armed, nothing counted, no worker. */
  function Armed(at: nat): World {
    World(Row(Running, Some(at), None, 0, 0), map[], {}, {}, [], Tally(0, 0, 0, 0, 0))
  }

  // ---- Ownership -------------------------------------------------------------------------

  predicate Owner(row: Row, me: Worker) { me.Past() && row.last == Some(me.stamp) }

  predicate Owns(s: World, w: nat) { w in s.workers && Owner(s.row, s.workers[w]) }

  /** Stamps of workers are pairwise distinct; those past their claim, and the one in the row, have
      landed; those of workers that have only read have not, and what they read in the row has. */
  ghost predicate StampOf(row: Row, used: set<nat>, landed: set<nat>, me: Worker) {
    && me.stamp in used
    && (me.phase.Fetched? ==>
          me.stamp !in landed && (me.phase.seen.last.Some? ==> me.phase.seen.last.value in landed))
    && (me.Past() ==> me.stamp in landed)
    && (Owner(row, me) ==> row.status == Running)
  }

  ghost predicate Stamps(s: World) {
    && s.landed <= s.used
    && (s.row.last.Some? ==> s.row.last.value in s.landed)
    && (forall w <- s.workers :: StampOf(s.row, s.used, s.landed, s.workers[w]))
    && (forall v, w | v in s.workers && w in s.workers && v != w :: s.workers[v].stamp != s.workers[w].stamp)
  }

  /** The local facts of one action. */
  lemma ActFrame(plan: Plan, row: Row, me: Worker, a: Action)
    ensures var f := Act(plan, row, me, a);
      && f.me.stamp == me.stamp
      && (f.note.Claiming? ==>
            && me.phase.Fetched? && CanClaim(row, me.phase.seen)
            && f.row == Claimed(row, me.stamp) && f.me.phase.Looping?)
      && (!f.note.Claiming? ==>
            && f.row.last == row.last
            && (f.me.phase.Fetched? ==> f.me == me && f.row == row)
            && (f.me.Past() ==> me.Past())
            && (!Owner(row, me) ==> f.row == row))
      && (f.row.status != row.status ==> Owner(row, me) && row.status == Running && f.me.phase == Gone)
  {}

  lemma StepKeepsStamps(plan: Plan, s: World, e: Event)
    requires Stamps(s)
    ensures Stamps(Step(plan, s, e))
  {
    if e.By? && e.w in s.workers {
      ActFrame(plan, s.row, s.workers[e.w], e.action);
      assert StampOf(s.row, s.used, s.landed, s.workers[e.w]);
    }
  }

  lemma {:induction false} RunKeepsStamps(plan: Plan, s: World, es: seq<Event>)
    requires Stamps(s)
    ensures Stamps(Run(plan, s, es))
    decreases |es|
  {
    if es != [] {
      StepKeepsStamps(plan, s, es[0]);
      RunKeepsStamps(plan, Step(plan, s, es[0]), es[1..]);
    }
  }

  /** Whether this event is a claim that lands. */
  predicate Lands(s: World, e: Event) {
    && e.By? && e.action.Claim? && e.w in s.workers
    && s.workers[e.w].phase.Fetched? && CanClaim(s.row, s.workers[e.w].phase.seen)
  }

  // ---- A start is claimed once, and who lost the row cannot write ------------------------

  /** The worker's start is no longer the one in the row. */
  ghost predicate Stale(s: World, w: nat) {
    w in s.workers && !s.workers[w].phase.Fetched? && s.workers[w].stamp in s.landed
    && s.row.last != Some(s.workers[w].stamp)
  }

  lemma StaleStep(plan: Plan, s: World, e: Event, w: nat)
    requires Stamps(s) && Stale(s, w)
    ensures Stale(Step(plan, s, e), w)
    ensures e.By? && e.w == w ==> Step(plan, s, e).row == s.row
  {
    if e.By? && e.w in s.workers {
      ActFrame(plan, s.row, s.workers[e.w], e.action);
      assert StampOf(s.row, s.used, s.landed, s.workers[e.w]);
    }
  }

  /** Once another start has replaced its own, a worker writes nothing to the row, ever. */
  lemma {:induction false} StaleForever(plan: Plan, s: World, es: seq<Event>, w: nat, a: Action)
    requires Stamps(s) && Stale(s, w)
    ensures var s2 := Run(plan, s, es); Step(plan, s2, By(w, a)).row == s2.row
    decreases |es|
  {
    StaleStep(plan, s, By(w, a), w);
    if es != [] {
      StaleStep(plan, s, es[0], w);
      StepKeepsStamps(plan, s, es[0]);
      StaleForever(plan, Step(plan, s, es[0]), es[1..], w, a);
    }
  }

  /** What the worker read is not what the row says any more, and never will be again. */
  ghost predicate Outdated(s: World, w: nat) {
    w in s.workers && (s.workers[w].phase.Fetched? ==> s.workers[w].phase.seen.last != s.row.last)
  }

  lemma OutdatedStep(plan: Plan, s: World, e: Event, w: nat)
    requires Stamps(s) && w in s.workers
    requires Outdated(s, w) || (Lands(s, e) && e.w != w)
    ensures Outdated(Step(plan, s, e), w)
  {
    assert StampOf(s.row, s.used, s.landed, s.workers[w]);
    if e.By? && e.w in s.workers {
      ActFrame(plan, s.row, s.workers[e.w], e.action);
      assert StampOf(s.row, s.used, s.landed, s.workers[e.w]);
    }
  }

  lemma {:induction false} OutdatedForever(plan: Plan, s: World, es: seq<Event>, w: nat)
    requires Stamps(s) && Outdated(s, w)
    ensures Outdated(Run(plan, s, es), w)
    decreases |es|
  {
    if es != [] {
      OutdatedStep(plan, s, es[0], w);
      StepKeepsStamps(plan, s, es[0]);
      OutdatedForever(plan, Step(plan, s, es[0]), es[1..], w);
    }
  }

  /** After one worker's claim lands, no worker that read the row before can claim that start, in any
      continuation: an armed time is claimed at most once. */
  lemma ClaimedOnce(plan: Plan, s: World, v: nat, w: nat, es: seq<Event>)
    requires Stamps(s) && Lands(s, By(v, Claim))
    requires w in s.workers && w != v
    ensures !Lands(Run(plan, Step(plan, s, By(v, Claim)), es), By(w, Claim))
  {
    OutdatedStep(plan, s, By(v, Claim), w);
    StepKeepsStamps(plan, s, By(v, Claim));
    OutdatedForever(plan, Step(plan, s, By(v, Claim)), es, w);
  }

  // ---- Groups settle in list order -------------------------------------------------------

  function UpTo(k: nat): seq<nat> { seq(k, i => i) }

  /** The owner's own counters and position are those of the row, up to the write it still owes. */
  predicate Agrees(plan: Plan, row: Row, me: Worker) {
    match me.phase
    case Looping(i) => me.sent == row.sent && me.failed == row.failed && i == row.Settled()
    case Checked(i) => me.sent == row.sent && me.failed == row.failed && i == row.Settled() < plan.groups
    case Flooded(i) => i == row.Settled() < plan.groups
    case Tried(i, ok) =>
      && i == row.Settled() < plan.groups
      && me.sent == row.sent + (if ok then 1 else 0)
      && me.failed == row.failed + (if ok then 0 else 1)
    case Ending => row.Settled() == plan.groups
    case _ => true
  }

  /** The two counters add up to the groups settled in this cycle, which are the first ones of the
      list, in order, each once. */
  ghost predicate Accounted(plan: Plan, s: World) {
    && s.row.Settled() <= plan.groups
    && s.settled == UpTo(s.row.Settled())
    && (forall w <- s.workers :: Owns(s, w) ==> Agrees(plan, s.row, s.workers[w]))
  }

  /** The counters a claiming worker starts from are read before the claim; the claim itself does not
      compare them. It is clean when they did not move in between. */
  predicate Clean(s: World, e: Event) {
    Lands(s, e) ==>
      var seen := s.workers[e.w].phase.seen;
      seen.sent == s.row.sent && seen.failed == s.row.failed
  }

  /** The local half: an owner's action keeps its agreement with the row and settles the next group. */
  lemma OwnerActs(plan: Plan, row: Row, me: Worker, a: Action)
    requires row.status == Running && Owner(row, me) && Agrees(plan, row, me) && row.Settled() <= plan.groups
    ensures var f := Act(plan, row, me, a);
      && f.row.Settled() <= plan.groups
      && (Owner(f.row, f.me) ==> Agrees(plan, f.row, f.me))
      && match f.note
         case Settling(g) => g == row.Settled() && f.row.Settled() == g + 1
         case CycleEnding => row.Settled() == plan.groups
                             && f.row.Settled() == (if plan.recurring then 0 else row.Settled())
         case Claiming => false
         case _ => f.row.Settled() == row.Settled()
  {}

  lemma AccountedStepExact(plan: Plan, s: World, e: Event)
    requires Stamps(s) && Accounted(plan, s)
    ensures Accounted(plan, Step(plan, s, e)) <==> Clean(s, e)
  {
    if e.By? && e.w in s.workers {
      var me, f := s.workers[e.w], Act(plan, s.row, s.workers[e.w], e.action);
      ActFrame(plan, s.row, me, e.action);
      assert StampOf(s.row, s.used, s.landed, me);
      if Owner(s.row, me) {
        OwnerActs(plan, s.row, me, e.action);
        if f.note.Settling? { assert UpTo(s.row.Settled()) + [f.note.group] == UpTo(f.row.Settled()); }
        assert Accounted(plan, Step(plan, s, e));
      } else if f.note.Claiming? {
        assert Owns(Step(plan, s, e), e.w);
      } else {
        assert f.note.Nothing? || f.note.Trying? || f.note.Losing?;
        assert Accounted(plan, Step(plan, s, e));
      }
    }
  }

  predicate AllClean(plan: Plan, s: World, es: seq<Event>)
    decreases |es|
  {
    es != [] ==> Clean(s, es[0]) && AllClean(plan, Step(plan, s, es[0]), es[1..])
  }

  ghost predicate AlwaysAccounted(plan: Plan, s: World, es: seq<Event>)
    decreases |es|
  {
    Accounted(plan, s) && (es != [] ==> AlwaysAccounted(plan, Step(plan, s, es[0]), es[1..]))
  }

  /** Over every run, whatever floods, duplicate jobs, takeovers and crashes it holds: the counters
      account for the settled groups throughout exactly when every claim that lands is clean. */
  lemma {:induction false} RunAccountedExactly(plan: Plan, s: World, es: seq<Event>)
    requires Stamps(s) && Accounted(plan, s)
    ensures AlwaysAccounted(plan, s, es) <==> AllClean(plan, s, es)
    ensures AllClean(plan, s, es) ==> Accounted(plan, Run(plan, s, es)) && Stamps(Run(plan, s, es))
    decreases |es|
  {
    if es != [] {
      AccountedStepExact(plan, s, es[0]);
      StepKeepsStamps(plan, s, es[0]);
      if Clean(s, es[0]) { RunAccountedExactly(plan, Step(plan, s, es[0]), es[1..]); }
    }
  }

  /** Then no group is skipped: an owner only ever sends to the first group not yet settled, and a
      cycle ends with every group settled, in list order. */
  lemma NothingSkipped(plan: Plan, at: nat, es: seq<Event>, w: nat)
    requires AllClean(plan, Armed(at), es)
    ensures var s := Run(plan, Armed(at), es);
            Owns(s, w) ==>
              && (s.workers[w].phase.Checked? ==> s.workers[w].phase.i == |s.settled| < plan.groups)
              && (s.workers[w].phase.Ending? ==> s.settled == UpTo(plan.groups))
  {
    RunAccountedExactly(plan, Armed(at), es);
  }

  // ---- When workers exclude each other, claims are clean ---------------------------------

  /** A worker reads the row only when all others are gone. */
  predicate Exclusive(s: World, e: Event) {
    e.Fetch? && e.w !in s.workers ==> forall w <- s.workers :: s.workers[w].phase.Gone?
  }

  ghost predicate AllExclusive(plan: Plan, s: World, es: seq<Event>)
    decreases |es|
  {
    es != [] ==> Exclusive(s, es[0]) && AllExclusive(plan, Step(plan, s, es[0]), es[1..])
  }

  /** At most one worker is not gone, and nobody has moved the counters that it read. */
  ghost predicate Alone(s: World) {
    && (forall v, w :: v in s.workers && w in s.workers && !s.workers[v].phase.Gone? && !s.workers[w].phase.Gone?
                       ==> v == w)
    && (forall v <- s.workers :: s.workers[v].phase.Fetched? ==>
          s.workers[v].phase.seen.sent == s.row.sent && s.workers[v].phase.seen.failed == s.row.failed)
  }

  lemma AloneStep(plan: Plan, s: World, e: Event)
    requires Alone(s) && Exclusive(s, e)
    ensures Clean(s, e) && Alone(Step(plan, s, e))
  {
    if e.By? && e.w in s.workers {
      ActFrame(plan, s.row, s.workers[e.w], e.action);
      GoneIsGone(plan, s.row, s.workers[e.w], e.action);
    }
  }

  lemma GoneIsGone(plan: Plan, row: Row, me: Worker, a: Action)
    ensures me.phase.Gone? ==> Act(plan, row, me, a).me.phase.Gone? && Act(plan, row, me, a).row == row
  {}

  /** Whatever recovery does, and whether or not jobs name a time. */
  lemma {:induction false} ExclusiveRunsAreClean(plan: Plan, s: World, es: seq<Event>)
    requires Alone(s) && AllExclusive(plan, s, es)
    ensures AllClean(plan, s, es)
    decreases |es|
  {
    if es != [] {
      AloneStep(plan, s, es[0]);
      ExclusiveRunsAreClean(plan, Step(plan, s, es[0]), es[1..]);
    }
  }

  // ---- The session lock ------------------------------------------------------------------

  /** The lock names its holder; `takers` are the workers that took it and have not given it back. */
  datatype Session = Session(world: World, holder: Option<nat>, takers: set<nat>)

  /** A worker takes the lock if it is free, and only then reads the row. It gives the lock back when it is
      gone, or without having read. The lock may also expire; reading the row and claiming it do not look at
      it again. */
  datatype Turn = Take(w: nat) | GiveBack(w: nat) | Expire | Do(e: Event)

  /** The worker is at work or about to read. */
  predicate Busy(s: Session, w: nat) { w in s.takers && (w in s.world.workers ==> !s.world.workers[w].phase.Gone?) }

  predicate Goes(s: Session, e: Event) { e.Fetch? ==> e.w in s.takers }

  function Turned(plan: Plan, s: Session, t: Turn): Session {
    match t
    case Take(w) => if s.holder == None then s.(holder := Some(w), takers := s.takers + {w}) else s
    case GiveBack(w) =>
      if w in s.world.workers && !s.world.workers[w].phase.Gone? then s
      else s.(holder := if s.holder == Some(w) then None else s.holder, takers := s.takers - {w})
    case Expire => s.(holder := None)
    case Do(e) => if Goes(s, e) then s.(world := Step(plan, s.world, e)) else s
  }

  function Turns(plan: Plan, s: Session, ts: seq<Turn>): Session
    decreases |ts|
  {
    if ts == [] then s else Turns(plan, Turned(plan, s, ts[0]), ts[1..])
  }

  /** The lock comes free again: whoever is gone, or turned away before it read, can give it back, and then any
      other worker can take it. */
  lemma LockComesFree(plan: Plan, s: Session, w: nat, v: nat)
    requires s.holder == Some(w) && (w in s.world.workers ==> s.world.workers[w].phase.Gone?)
    ensures var t := Turned(plan, Turned(plan, s, GiveBack(w)), Take(v));
            t.holder == Some(v) && v in t.takers && t.world == s.world
  {}

  /** What the turns do to the campaign. */
  function Events(plan: Plan, s: Session, ts: seq<Turn>): seq<Event>
    decreases |ts|
  {
    if ts == [] then []
    else
      var later := Events(plan, Turned(plan, s, ts[0]), ts[1..]);
      if ts[0].Do? && Goes(s, ts[0].e) then [ts[0].e] + later else later
  }

  /** The lock works: it does not expire under a busy holder. */
  predicate Works(plan: Plan, s: Session, ts: seq<Turn>)
    decreases |ts|
  {
    ts != [] ==>
      && (ts[0].Expire? && s.holder.Some? ==> !Busy(s, s.holder.value))
      && Works(plan, Turned(plan, s, ts[0]), ts[1..])
  }

  /** Whoever is busy holds the lock, and whoever is not gone has taken it. */
  ghost predicate Held(s: Session) {
    && (forall w <- s.takers :: Busy(s, w) ==> s.holder == Some(w))
    && (forall w <- s.world.workers :: !s.world.workers[w].phase.Gone? ==> w in s.takers)
  }

  lemma HeldStep(plan: Plan, s: Session, t: Turn)
    requires Held(s) && (t.Expire? && s.holder.Some? ==> !Busy(s, s.holder.value))
    ensures Held(Turned(plan, s, t))
    ensures t.Do? && Goes(s, t.e) ==> Exclusive(s.world, t.e)
  {
    if t.Do? && t.e.By? && t.e.w in s.world.workers {
      GoneIsGone(plan, s.world.row, s.world.workers[t.e.w], t.e.action);
    }
  }

  /** What the turns do to the campaign is a run of it, and with a working lock an exclusive one. */
  lemma {:induction false} TurnsAreARun(plan: Plan, s: Session, ts: seq<Turn>)
    ensures Run(plan, s.world, Events(plan, s, ts)) == Turns(plan, s, ts).world
    ensures Held(s) && Works(plan, s, ts) ==> AllExclusive(plan, s.world, Events(plan, s, ts))
    decreases |ts|
  {
    if ts != [] {
      var t := Turned(plan, s, ts[0]);
      TurnsAreARun(plan, t, ts[1..]);
      if Held(s) && Works(plan, s, ts) { HeldStep(plan, s, ts[0]); }
      if ts[0].Do? && Goes(s, ts[0].e) {
        var later := Events(plan, t, ts[1..]);
        assert Events(plan, s, ts)[0] == ts[0].e && Events(plan, s, ts)[1..] == later;
      }
    }
  }

  function Unlocked(at: nat): Session { Session(Armed(at), None, {}) }

  /** As long as the lock does not expire under a busy worker, every landing claim is clean: whatever
      recovery does, whether or not jobs name a time, and wherever workers crash. */
  lemma LockedRunsAreClean(plan: Plan, at: nat, ts: seq<Turn>)
    requires Works(plan, Unlocked(at), ts)
    ensures AllClean(plan, Armed(at), Events(plan, Unlocked(at), ts))
    ensures Run(plan, Armed(at), Events(plan, Unlocked(at), ts)) == Turns(plan, Unlocked(at), ts).world
  {
    TurnsAreARun(plan, Unlocked(at), ts);
    ExclusiveRunsAreClean(plan, Armed(at), Events(plan, Unlocked(at), ts));
  }

  /** So the counters account for the settled groups all along. */
  lemma LockedCampaignsAreAccounted(plan: Plan, at: nat, ts: seq<Turn>)
    requires Works(plan, Unlocked(at), ts)
    ensures AlwaysAccounted(plan, Armed(at), Events(plan, Unlocked(at), ts))
    ensures Accounted(plan, Turns(plan, Unlocked(at), ts).world)
  {
    LockedRunsAreClean(plan, at, ts);
    RunAccountedExactly(plan, Armed(at), Events(plan, Unlocked(at), ts));
  }

  /** The turns of a lock that expires whenever somebody wants it. */
  function Expiring(es: seq<Event>): seq<Turn> {
    if es == [] then []
    else (if es[0].Fetch? then [Expire, Take(es[0].w), Do(es[0])] else [Do(es[0])]) + Expiring(es[1..])
  }

  lemma TurnsAppend(plan: Plan, s: Session, a: seq<Turn>, b: seq<Turn>)
    ensures Turns(plan, s, a + b) == Turns(plan, Turns(plan, s, a), b)
    decreases |a|
  {
    if a == [] {
      assert a + b == b;
    } else {
      assert (a + b)[1..] == a[1..] + b;
      TurnsAppend(plan, Turned(plan, s, a[0]), a[1..], b);
    }
  }

  /** Without that, the lock excludes nothing: every run of the campaign is one of its turns. */
  lemma {:induction false} ExpiringLockExcludesNothing(plan: Plan, s: Session, es: seq<Event>)
    ensures Turns(plan, s, Expiring(es)).world == Run(plan, s.world, es)
    decreases |es|
  {
    if es != [] {
      var first := if es[0].Fetch? then [Expire, Take(es[0].w), Do(es[0])] else [Do(es[0])];
      TurnsAppend(plan, s, first, Expiring(es[1..]));
      FirstTurns(plan, s, es[0]);
      ExpiringLockExcludesNothing(plan, Turns(plan, s, first), es[1..]);
    }
  }

  lemma FirstTurns(plan: Plan, s: Session, e: Event)
    ensures var first := if e.Fetch? then [Expire, Take(e.w), Do(e)] else [Do(e)];
            Turns(plan, s, first).world == Step(plan, s.world, e)
  {
    if e.Fetch? {
      var t := s.(holder := Some(e.w), takers := s.takers + {e.w});
      assert Turned(plan, Turned(plan, s, Expire), Take(e.w)) == t;
      assert [Expire, Take(e.w), Do(e)][1..] == [Take(e.w), Do(e)] && [Take(e.w), Do(e)][1..] == [Do(e)];
      assert Turns(plan, t, [Do(e)]) == Turned(plan, t, Do(e));
    }
  }

  // ---- Without a lock, if recovery waits -------------------------------------------------

  /** Recovery re-arms only when the owner is gone, and every job names the time it was armed for. */
  ghost predicate Waits(s: World, e: Event) {
    && (e.Recover? ==> forall w <- s.workers :: !Owns(s, w))
    && (e.Fetch? ==> e.runAt.Some?)
  }

  ghost predicate AllWait(plan: Plan, s: World, es: seq<Event>)
    decreases |es|
  {
    es != [] ==> Waits(s, es[0]) && AllWait(plan, Step(plan, s, es[0]), es[1..])
  }

  /** Nothing is armed while somebody owns the row; so a worker that read an armed row, and could still
      claim it, read counters that nobody has moved. */
  ghost predicate Quiet(s: World) {
    && (s.row.next.Some? ==> forall w <- s.workers :: !Owns(s, w))
    && (forall v <- s.workers :: s.workers[v].phase.Fetched? ==>
          var seen := s.workers[v].phase.seen;
          && seen.next.Some?
          && (seen.last == s.row.last ==>
                && seen.sent == s.row.sent && seen.failed == s.row.failed
                && (forall w <- s.workers :: !Owns(s, w))))
  }

  lemma QuietStep(plan: Plan, s: World, e: Event)
    requires Stamps(s) && Quiet(s) && Waits(s, e)
    ensures Clean(s, e) && Quiet(Step(plan, s, e))
  {
    if e.By? && e.w in s.workers {
      var me, f := s.workers[e.w], Act(plan, s.row, s.workers[e.w], e.action);
      ActFrame(plan, s.row, me, e.action);
      OwnerLeavesNext(plan, s.row, me, e.action);
      forall w <- s.workers ensures StampOf(s.row, s.used, s.landed, s.workers[w]) {}
    }
  }

  /** Whoever arms a new time is gone from then on. */
  lemma OwnerLeavesNext(plan: Plan, row: Row, me: Worker, a: Action)
    ensures var f := Act(plan, row, me, a);
            f.row.next == row.next || f.row.next == None || (Owner(row, me) && f.me.phase == Gone)
  {}

  /** The claim's comparison of times is enough by itself when recovery waits: workers may overlap. */
  lemma {:induction false} WaitingRunsAreClean(plan: Plan, s: World, es: seq<Event>)
    requires Stamps(s) && Quiet(s) && AllWait(plan, s, es)
    ensures AllClean(plan, s, es)
    decreases |es|
  {
    if es != [] {
      QuietStep(plan, s, es[0]);
      StepKeepsStamps(plan, s, es[0]);
      WaitingRunsAreClean(plan, Step(plan, s, es[0]), es[1..]);
    }
  }

  // ---- When a claim may happen -----------------------------------------------------------

  /** The start armed for `next` may be taken at `now` by a job for `runAt`: the time has come, and if the job
      names a time, it is that one, give or take a second. */
  predicate Due(next: Option<nat>, runAt: Option<nat>, now: nat) {
    && (next.Some? ==> next.value <= now)
    && (runAt.Some? ==> next.Some? && next.value <= runAt.value + 1000 && runAt.value <= next.value + 1000)
  }

  /** The event with which worker `w` came in. */
  function CameBy(plan: Plan, s: World, es: seq<Event>, w: nat): Option<Event>
    decreases |es|
  {
    if es == [] then None
    else if w !in s.workers && w in Step(plan, s, es[0]).workers then Some(es[0])
    else CameBy(plan, Step(plan, s, es[0]), es[1..], w)
  }

  lemma {:induction false} FetchedStays(plan: Plan, s: World, es: seq<Event>, w: nat)
    requires w in s.workers
    ensures var t := Run(plan, s, es);
            w in t.workers && (t.workers[w].phase.Fetched? ==> t.workers[w] == s.workers[w])
    ensures CameBy(plan, s, es, w) == None
    decreases |es|
  {
    if es != [] {
      var t := Step(plan, s, es[0]);
      if es[0].By? && es[0].w == w { ActFrame(plan, s.row, s.workers[w], es[0].action); }
      FetchedStays(plan, t, es[1..], w);
    }
  }

  lemma {:induction false} FetchedWasDue(plan: Plan, s: World, es: seq<Event>, w: nat)
    requires w !in s.workers && w in Run(plan, s, es).workers && Run(plan, s, es).workers[w].phase.Fetched?
    ensures var e, me := CameBy(plan, s, es, w), Run(plan, s, es).workers[w];
      && e.Some? && e.value.Fetch? && e.value.w == w
      && me.phase.seen.status == Running && Due(me.phase.seen.next, e.value.runAt, e.value.now)
    decreases |es|
  {
    var t := Step(plan, s, es[0]);
    if w in t.workers {
      FetchedStays(plan, t, es[1..], w);
    } else {
      FetchedWasDue(plan, t, es[1..], w);
    }
  }

  /** Over every run: a claim that lands takes a time that had come when its worker read the row, and if the
      job names a time, the time taken is that one, give or take a second. */
  lemma ClaimsAreDue(plan: Plan, at: nat, es: seq<Event>, w: nat)
    requires Lands(Run(plan, Armed(at), es), By(w, Claim))
    ensures var e := CameBy(plan, Armed(at), es, w);
            e.Some? && e.value.Fetch? && Due(Run(plan, Armed(at), es).row.next, e.value.runAt, e.value.now)
  {
    FetchedWasDue(plan, Armed(at), es, w);
  }

  /** And a job that is due does claim, if nobody else moves the row in between. */
  lemma DueJobClaims(plan: Plan, s: World, w: nat, runAt: Option<nat>, now: nat, stamp: nat)
    requires s.row.status == Running && Due(s.row.next, runAt, now) && w !in s.workers && stamp !in s.used
    ensures var t := Step(plan, Step(plan, s, Fetch(w, runAt, now, stamp)), By(w, Claim));
      && Owns(t, w) && t.workers[w].phase.Looping?
      && t.row == Row.Row(Running, None, Some(stamp), s.row.sent, s.row.failed)
      && t.workers[w].phase.i == (if s.row.sent + s.row.failed < plan.groups then s.row.sent + s.row.failed
                                  else plan.groups)
  {}

  /** Nobody owns the row or could claim what it is armed for. */
  ghost predicate Asleep(s: World, t: nat) {
    && s.row.next == Some(t)
    && forall w <- s.workers :: !Owns(s, w) && (s.workers[w].phase.Fetched? ==> s.workers[w].phase.seen.next != Some(t))
  }

  /** The job comes too early for `t`, or is for another time. */
  predicate NotFor(e: Event, t: nat) {
    e.Fetch? ==> e.now < t || (e.runAt.Some? && (e.runAt.value + 1000 < t || t + 1000 < e.runAt.value))
  }

  /** A worker whose ownership test has passed. */
  predicate AboutToSend(s: World, w: nat) { w in s.workers && s.workers[w].phase.Checked? }

  lemma SleepStep(plan: Plan, s: World, e: Event, t: nat)
    requires Asleep(s, t) && NotFor(e, t)
    ensures var s2 := Step(plan, s, e);
      && Asleep(s2, t) && s2.row == s.row
      && (forall w <- s2.workers :: AboutToSend(s2, w) ==> AboutToSend(s, w))
      && ((forall w <- s.workers :: !AboutToSend(s, w)) ==> s2.tally.attempts == s.tally.attempts)
  {
    if e.By? && e.w in s.workers {
      var me := s.workers[e.w];
      ActFrame(plan, s.row, me, e.action);
      assert !Owns(s, e.w);
      NoOwnerNoCheck(plan, s.row, me, e.action);
    }
  }

  /** The owner's last writes: a campaign that repeats is armed for its next cycle with both counters at zero,
      one that does not is completed, and an aborted one has failed; none of the last two is armed. */
  lemma LastWrites(plan: Plan, row: Row, stamp: nat, nextAt: nat)
    requires row.status == Running && row.last == Some(stamp)
    ensures Ended(plan, row, stamp, nextAt)
            == if plan.recurring then Row.Row(Running, Some(nextAt), row.last, 0, 0)
               else Row.Row(Completed, None, row.last, row.sent, row.failed)
    ensures Aborted(row, stamp) == Row.Row(Failed, None, row.last, row.sent, row.failed)
  {}

  lemma NoOwnerNoCheck(plan: Plan, row: Row, me: Worker, a: Action)
    ensures var f := Act(plan, row, me, a);
      && (f.note.Trying? ==> me.phase.Checked?)
      && (f.me.phase.Checked? && !me.phase.Checked? ==> Owner(row, me) && row.status == Running)
  {}

  /** A row that is armed for `t` and owned by nobody stays as it is, through recoveries, late writers and jobs
      of other times, until a job reads it that is for `t` and comes when `t` has come. Only workers whose
      ownership test had passed before can still send. */
  lemma {:induction false} SleepsUntilDue(plan: Plan, s: World, es: seq<Event>, t: nat)
    requires Asleep(s, t) && forall e <- es :: NotFor(e, t)
    ensures var s2 := Run(plan, s, es);
      && Asleep(s2, t) && s2.row == s.row
      && (forall w <- s2.workers :: AboutToSend(s2, w) ==> AboutToSend(s, w))
      && ((forall w <- s.workers :: !AboutToSend(s, w)) ==> s2.tally.attempts == s.tally.attempts)
    decreases |es|
  {
    if es != [] {
      assert NotFor(es[0], t);
      SleepStep(plan, s, es[0], t);
      SleepsUntilDue(plan, Step(plan, s, es[0]), es[1..], t);
    }
  }

  /** What an owner does when it is told to wait, or at the end of a cycle. */
  predicate PutsOff(plan: Plan, s: World, w: nat, a: Action, t: nat) {
    Owns(s, w) && ((a == Defer(t) && s.workers[w].phase.Flooded?)
                   || (a == End(t) && s.workers[w].phase.Ending? && plan.recurring))
  }

  lemma {:induction false} AloneRun(plan: Plan, s: World, es: seq<Event>)
    requires Alone(s) && AllExclusive(plan, s, es)
    ensures Alone(Run(plan, s, es))
    decreases |es|
  {
    if es != [] {
      AloneStep(plan, s, es[0]);
      AloneRun(plan, Step(plan, s, es[0]), es[1..]);
    }
  }

  /** Under exclusion: after an owner's flood wait until `t`, or the end of a cycle whose next one is at `t`,
      the row is armed for `t` and nothing is sent, whatever happens, until a job reads the row that is for
      `t` and comes when `t` has come. */
  lemma NothingIsSentEarly(plan: Plan, at: nat, es: seq<Event>, w: nat, a: Action, t: nat, later: seq<Event>)
    requires AllExclusive(plan, Armed(at), es) && PutsOff(plan, Run(plan, Armed(at), es), w, a, t)
    requires forall e <- later :: NotFor(e, t)
    ensures var s := Step(plan, Run(plan, Armed(at), es), By(w, a));
            var s2 := Run(plan, s, later);
      && s.row.status == Running && s.row.next == Some(t)
      && s2.row == s.row && s2.tally.attempts == s.tally.attempts
  {
    var s := Run(plan, Armed(at), es);
    AloneRun(plan, Armed(at), es);
    RunKeepsStamps(plan, Armed(at), es);
    assert StampOf(s.row, s.used, s.landed, s.workers[w]);
    forall v <- s.workers ensures v != w ==> s.workers[v].phase.Gone? {}
    SleepsUntilDue(plan, Step(plan, s, By(w, a)), later, t);
  }

  // ---- Attempts --------------------------------------------------------------------------

  /** A worker with a send whose fate is not yet recorded. */
  predicate Flies(me: Worker) { me.phase.Tried? || me.phase.Flooded? }

  /** A worker that may still send, or settle, or end the cycle. */
  predicate Acts(row: Row, me: Worker) {
    match me.phase
    case Checked(_) => true
    case Tried(_, _) => true
    case Flooded(_) => true
    case Looping(_) => Owner(row, me)
    case Ending => Owner(row, me)
    case _ => false
  }

  function InFlight(s: World): set<nat> { set w <- s.workers | Flies(s.workers[w]) }

  function Active(s: World): set<nat> { set w <- s.workers | Acts(s.row, s.workers[w]) }

  function One(b: bool): nat { if b then 1 else 0 }

  lemma WithoutOne(a: set<nat>, b: set<nat>, x: nat)
    requires b - {x} <= a - {x}
    ensures |b| + One(x in a) <= |a| + One(x in b)
    ensures b - {x} == a - {x} ==> |b| + One(x in a) == |a| + One(x in b)
  {
    assert |b - {x}| <= |a - {x}| by { Subset(b - {x}, a - {x}); }
    assert x in a ==> |a - {x}| == |a| - 1;
    assert x in b ==> |b - {x}| == |b| - 1;
    assert x !in a ==> a - {x} == a;
    assert x !in b ==> b - {x} == b;
  }

  lemma Subset(a: set<nat>, b: set<nat>)
    requires a <= b
    ensures |a| <= |b|
  {
    assert a + (b - a) == b;
    assert |a + (b - a)| == |a| + |b - a|;
  }

  /** Every attempt settled a group, was lost, or is in flight; and every claim pays for at most one
      lost attempt, unless it ended its cycle. */
  ghost predicate Counted(s: World) {
    && s.tally.attempts == s.tally.settled + s.tally.lost + |InFlight(s)|
    && s.tally.lost + s.tally.ends + |Active(s)| <= s.tally.claims
  }

  /** The local half: what one action does to the tally is what it does to the worker's own state. */
  lemma OneActCounted(plan: Plan, row: Row, me: Worker, a: Action, t: Tally)
    requires Owner(row, me) ==> row.status == Running
    ensures var f := Act(plan, row, me, a);
      var t2 := t.Noting(f.note);
      && t2.attempts - t2.settled - t2.lost + One(Flies(me)) == t.attempts - t.settled - t.lost + One(Flies(f.me))
      && t2.lost + t2.ends - t2.claims + One(Acts(f.row, f.me)) <= t.lost + t.ends - t.claims + One(Acts(row, me))
  {}

  lemma CountedStep(plan: Plan, s: World, e: Event)
    requires Stamps(s) && Counted(s)
    ensures Counted(Step(plan, s, e))
  {
    var s2 := Step(plan, s, e);
    if e.By? && e.w in s.workers {
      var x, me := e.w, s.workers[e.w];
      ActFrame(plan, s.row, me, e.action);
      assert StampOf(s.row, s.used, s.landed, me);
      OneActCounted(plan, s.row, me, e.action, s.tally);
      WithoutOne(InFlight(s), InFlight(s2), x);
      forall w | w in Active(s2) - {x} ensures w in Active(s) {
        assert StampOf(s.row, s.used, s.landed, s.workers[w]);
      }
      WithoutOne(Active(s), Active(s2), x);
    } else {
      assert InFlight(s2) == InFlight(s) && Active(s2) == Active(s);
    }
  }

  lemma {:induction false} RunKeepsCounted(plan: Plan, s: World, es: seq<Event>)
    requires Stamps(s) && Counted(s)
    ensures Counted(Run(plan, s, es))
    decreases |es|
  {
    if es != [] {
      CountedStep(plan, s, es[0]);
      StepKeepsStamps(plan, s, es[0]);
      RunKeepsCounted(plan, Step(plan, s, es[0]), es[1..]);
    }
  }

  /** Over every run, clean or not: attempts exceed settled groups by at most the number of runs that
      claimed the campaign and did not end a cycle. */
  lemma AttemptsBounded(plan: Plan, at: nat, es: seq<Event>)
    ensures var s := Run(plan, Armed(at), es);
            s.tally.attempts <= s.tally.settled + (s.tally.claims - s.tally.ends)
  {
    var s0 := Armed(at);
    assert InFlight(s0) == {} && Active(s0) == {};
    RunKeepsCounted(plan, s0, es);
    var s := Run(plan, s0, es);
    RunKeepsStamps(plan, s0, es);
    Subset(InFlight(s), Active(s));
  }

  /** The groups settled in the cycles that have ended. */
  function PastCycles(plan: Plan, ends: nat): nat {
    if plan.recurring then ends * plan.groups else 0
  }

  ghost predicate Totalled(plan: Plan, s: World) {
    s.tally.settled == PastCycles(plan, s.tally.ends) + |s.settled|
  }

  lemma OneCycleMore(ends: nat, groups: nat)
    ensures (ends + 1) * groups == ends * groups + groups
  {}

  lemma TotalledStep(plan: Plan, s: World, e: Event)
    requires Stamps(s) && Accounted(plan, s) && Totalled(plan, s)
    ensures Totalled(plan, Step(plan, s, e))
  {
    if e.By? && Owns(s, e.w) {
      var me := s.workers[e.w];
      assert StampOf(s.row, s.used, s.landed, me);
      OwnerActs(plan, s.row, me, e.action);
      assert |s.settled| == s.row.Settled();
      OneCycleMore(s.tally.ends, plan.groups);
    } else if e.By? && e.w in s.workers {
      ActFrame(plan, s.row, s.workers[e.w], e.action);
    }
  }

  lemma {:induction false} RunKeepsTotalled(plan: Plan, s: World, es: seq<Event>)
    requires Stamps(s) && Accounted(plan, s) && Totalled(plan, s) && AllClean(plan, s, es)
    ensures Totalled(plan, Run(plan, s, es))
    decreases |es|
  {
    if es != [] {
      TotalledStep(plan, s, es[0]);
      StepKeepsStamps(plan, s, es[0]);
      AccountedStepExact(plan, s, es[0]);
      RunKeepsTotalled(plan, Step(plan, s, es[0]), es[1..]);
    }
  }

  /** With clean claims a campaign has sent at most once per group and cycle, plus once per interruption:
      over the cycles that have ended and the current one if it repeats, over its only cycle if not. */
  lemma AttemptsPerCycle(plan: Plan, at: nat, es: seq<Event>)
    requires AllClean(plan, Armed(at), es)
    ensures var s := Run(plan, Armed(at), es);
      && s.tally.attempts <= PastCycles(plan, s.tally.ends) + s.row.Settled() + (s.tally.claims - s.tally.ends)
      && s.row.Settled() <= plan.groups
      && (!plan.recurring ==> s.tally.attempts <= plan.groups + (s.tally.claims - s.tally.ends))
  {
    AttemptsBounded(plan, at, es);
    RunKeepsTotalled(plan, Armed(at), es);
    RunAccountedExactly(plan, Armed(at), es);
  }

  // ---- A claim that is not clean ---------------------------------------------------------

  function Pair(row: Row, me: Worker, you: Worker, settled: seq<nat>, landed: set<nat>, tally: Tally): World {
    World(row, map[1 := me, 2 := you], {me.stamp, you.stamp}, landed, settled, tally)
  }

  /** Worker 1 has sent to group 0 and not yet written its counter; its lock is lost, the scheduler has
      re-armed the campaign, and worker 2 has just read the row. */
  function Overtaken(x: nat, y: nat, t: nat): World {
    Pair(Row.Row(Running, Some(t), Some(x), 0, 0),
         Worker(x, 1, 0, Tried(0, true)), Worker(y, 0, 0, Fetched(Row.Row(Running, Some(t), Some(x), 0, 0))),
         [], {x}, Tally(0, 1, 0, 1, 0))
  }

  lemma OvertakenIsReachable(p: Plan, at: nat, x: nat, y: nat, t: nat)
    requires p.groups > 0 && x != y
    ensures var s1 := Step(p, Step(p, Armed(at), Fetch(1, Some(at), at, x)), By(1, Claim));
      var s2 := Step(p, Step(p, s1, By(1, Check)), By(1, Send(Delivered)));
      Step(p, Step(p, s2, Recover(t)), Fetch(2, Some(t), t, y)) == Overtaken(x, y, t)
  {
    var s1 := Step(p, Step(p, Armed(at), Fetch(1, Some(at), at, x)), By(1, Claim));
    assert s1 == World(Row.Row(Running, None, Some(x), 0, 0), map[1 := Worker(x, 0, 0, Looping(0))],
                       {x}, {x}, [], Tally(0, 0, 0, 1, 0));
    var s2 := Step(p, Step(p, s1, By(1, Check)), By(1, Send(Delivered)));
    assert s2 == World(Row.Row(Running, None, Some(x), 0, 0), map[1 := Worker(x, 1, 0, Tried(0, true))],
                       {x}, {x}, [], Tally(0, 1, 0, 1, 0));
  }

  /** Worker 1 writes, worker 2 claims with the counters it read before that, settles group 0 once more
      as a failure, and dies. */
  function Miscounted(x: nat, y: nat): World {
    Pair(Row.Row(Running, None, Some(y), 1, 1), Worker(x, 1, 0, Looping(1)), Worker(y, 0, 1, Gone),
         [0, 0], {x, y}, Tally(2, 2, 0, 2, 0))
  }

  lemma UncleanClaim(p: Plan, x: nat, y: nat, t: nat)
    requires p.groups > 0 && x != y
    ensures var s1 := Step(p, Overtaken(x, y, t), By(1, Write));
      !Clean(s1, By(2, Claim))
      && Step(p, Step(p, s1, By(2, Claim)), By(2, Check))
         == Pair(Row.Row(Running, None, Some(y), 1, 0), Worker(x, 1, 0, Looping(1)), Worker(y, 0, 0, Checked(0)),
                 [0], {x, y}, Tally(1, 1, 0, 2, 0))
  {
    var s1 := Step(p, Overtaken(x, y, t), By(1, Write));
    assert s1.row == Row.Row(Running, Some(t), Some(x), 1, 0) && s1.settled == [0];
    var s2 := Step(p, s1, By(2, Claim));
    assert s2.workers[2] == Worker(y, 0, 0, Looping(0)) && s2.workers[1] == Worker(x, 1, 0, Looping(1));
  }

  lemma UncleanClaimMiscounts(p: Plan, x: nat, y: nat, t: nat)
    requires p.groups > 0 && x != y
    ensures var s2 := Step(p, Step(p, Step(p, Overtaken(x, y, t), By(1, Write)), By(2, Claim)), By(2, Check));
      Step(p, Step(p, Step(p, s2, By(2, Send(Rejected))), By(2, Write)), By(2, Crash)) == Miscounted(x, y)
  {
    UncleanClaim(p, x, y, t);
    var s2 := Step(p, Step(p, Step(p, Overtaken(x, y, t), By(1, Write)), By(2, Claim)), By(2, Check));
    var s3 := Step(p, s2, By(2, Send(Rejected)));
    assert s3.workers[2] == Worker(y, 0, 1, Tried(0, false));
    var s4 := Step(p, s3, By(2, Write));
    assert s4.row == Row.Row(Running, None, Some(y), 1, 1) && s4.workers[2] == Worker(y, 0, 1, Looping(1));
    assert s4.settled == [0, 0];
  }

  /** The counters now add up to two although only group 0 was ever settled: the next worker to claim,
      even cleanly, starts at group 2 and never returns to group 1. */
  lemma MiscountSkipsAGroup(p: Plan, x: nat, y: nat, z: nat, t: nat)
    requires p.groups >= 2 && x != y && z != x && z != y
    ensures var s1 := Step(p, Step(p, Miscounted(x, y), Recover(t)), Fetch(3, Some(t), t, z));
      var s2 := Step(p, s1, By(3, Claim));
      Clean(s1, By(3, Claim)) && Owns(s2, 3) && s2.workers[3].phase == Looping(2) && s2.settled == [0, 0]
  {
    var s1 := Step(p, Step(p, Miscounted(x, y), Recover(t)), Fetch(3, Some(t), t, z));
    assert s1.workers[3] == Worker(z, 0, 0, Fetched(Row.Row(Running, Some(t), Some(y), 1, 1)));
  }
}
