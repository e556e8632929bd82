/** Who may end an automatic check. The job, the sweep of stuck checks and the queue's failure handler all
    write to one claim row, each in one guarded statement. Every job of a claim carries the same id, so the
    row does not tell one run of the check from another. */
module CheckRow {
  import opened Options

  datatype Status = NoCheck | Queued | Running | Completed | Failed | Overloaded | Cancelled

  datatype Row = Row(status: Status, jobId: Option<string>, attempts: nat)
  {
    predicate InFlight() { status == Queued || status == Running }

    predicate OwnedBy(job: string) { status == Running && jobId == Some(job) }
  }

  datatype Writer = Job(n: nat) | Sweeper | Handler(n: nat)

  /** What the row went through: opened for a check (created, queued or started), cleared for a recheck,
      taken out of the automatic check, ended. */
  datatype Mark =
    | Created | Enqueued(n: nat) | Started(n: nat) | Cleared | Diverted(to: Status)
    | Ended(writer: Writer, verdict: Status)
  {
    predicate Opening() { Created? || Enqueued? || Started? }

    predicate Opens(n: nat) { this == Enqueued(n) || this == Started(n) }
  }

  /** `job` is the id of all jobs of the claim. For each run that has started, `stamp` is the number of
      attempts that its start wrote; the runs in `live` have not made their last write. */
  datatype World = World(job: string, row: Row, log: seq<Mark>, callbacks: nat, stamp: map<nat, nat>, live: set<nat>)

  /** Writes of the queueing side, of a run of the job, of the sweep and of the handler for a failed job.
      Runs are numbered; the row knows nothing of the numbers. Every write may come arbitrarily late. */
  datatype Event =
    | Enqueue(n: nat) | Divert(to: Status) | Clear | Start(n: nat) | End(n: nat, ok: bool) | Throw(n: nat)
    | Sweep | JobFailed(n: nat)

  /** An overloaded queue, an error of the queue, and a claim resolved by hand. */
  predicate Diversion(to: Status) { to == Overloaded || to == Failed || to == Cancelled }

  function Opened(w: World, m: Mark, r: Row): World { w.(row := r, log := w.log + [m]) }

  /** A terminal write that landed, with its callback. */
  function EndedBy(w: World, writer: Writer, verdict: Status): World {
    w.(row := w.row.(status := verdict), log := w.log + [Ended(writer, verdict)], callbacks := w.callbacks + 1)
  }

  /** The last write of a run: guarded by id and status. */
  function Finished(w: World, n: nat, verdict: Status): World {
    if n !in w.live then w
    else
      var t := w.(live := w.live - {n});
      if w.row.OwnedBy(w.job) then EndedBy(t, Job(n), verdict) else t
  }

  function Step(w: World, e: Event): World {
    match e
    case Enqueue(n) => Opened(w, Enqueued(n), w.row.(status := Queued, jobId := Some(w.job)))
    case Divert(to) => if Diversion(to) then Opened(w, Diverted(to), w.row.(status := to)) else w
    case Clear => if w.row.InFlight() then w else Opened(w, Cleared, w.row.(status := NoCheck, jobId := None))
    case Start(n) =>
      if n in w.stamp then w
      else
        Opened(w, Started(n), Row(Running, Some(w.job), w.row.attempts + 1))
        .(stamp := w.stamp[n := w.row.attempts + 1], live := w.live + {n})
    case End(n, ok) => Finished(w, n, if ok then Completed else Failed)
    case Throw(n) => Finished(w, n, Failed)
    case Sweep => if w.row.InFlight() then EndedBy(w, Sweeper, Failed) else w
    case JobFailed(n) => if w.row.InFlight() then EndedBy(w, Handler(n), Failed) else w
  }

  function Run(w: World, es: seq<Event>): World
    decreases |es|
  {
    if es == [] then w else Step(Run(w, es[..|es| - 1]), es[|es| - 1])
  }

  /** A claim is created as queued, before its job is. */
  function NewClaim(job: string): World { World(job, Row(Queued, None, 0), [Created], 0, map[], {}) }

  function Endings(log: seq<Mark>): nat {
    if log == [] then 0 else Endings(log[..|log| - 1]) + (if log[|log| - 1].Ended? then 1 else 0)
  }

  // ---- One ending per opening ------------------------------------------------------------

  /** An ending directly follows an opening; that of a job follows a start. */
  predicate Follows(log: seq<Mark>, i: nat) {
    i < |log| && log[i].Ended? ==> i > 0 && log[i - 1].Opening() && (log[i].writer.Job? ==> log[i - 1].Started?)
  }

  function Last(w: World): Mark
    requires w.log != []
  {
    w.log[|w.log| - 1]
  }

  ghost predicate LogRight(w: World) {
    (forall i: nat :: i < |w.log| ==> Follows(w.log, i)) && w.callbacks == Endings(w.log)
  }

  /** Runs that have started are told apart by the number of attempts that their start wrote. */
  ghost predicate StampsRight(w: World) {
    && w.live <= w.stamp.Keys
    && (forall n <- w.stamp :: 1 <= w.stamp[n] <= w.row.attempts)
    && (forall n, m :: n in w.stamp && m in w.stamp && w.stamp[n] == w.stamp[m] ==> n == m)
  }

  /** The status tells what the row went through last. */
  predicate StatusRight(w: World) {
    w.log != [] &&
    match w.row.status
    case Queued => Last(w) == Created || (Last(w).Enqueued? && w.row.jobId == Some(w.job))
    case Running =>
      && Last(w).Started? && w.row.jobId == Some(w.job)
      && Last(w).n in w.stamp && w.stamp[Last(w).n] == w.row.attempts
    case _ => !Last(w).Opening()
  }

  ghost predicate Good(w: World) { LogRight(w) && StampsRight(w) && StatusRight(w) }

  lemma StepKeepsLog(w: World, e: Event)
    requires LogRight(w) && StatusRight(w)
    ensures LogRight(Step(w, e))
  {
    var t := Step(w, e);
    if t.log != w.log {
      assert t.log[..|w.log|] == w.log;
      forall i: nat | i < |t.log| ensures Follows(t.log, i) {
        if i < |w.log| { assert Follows(w.log, i); }
      }
    }
  }

  lemma StepKeepsStamps(w: World, e: Event)
    ensures StampsRight(w) ==> StampsRight(Step(w, e))
  {}

  lemma StepKeepsStatus(w: World, e: Event)
    ensures StatusRight(w) ==> StatusRight(Step(w, e))
  {}

  lemma StepKeepsGood(w: World, e: Event)
    requires Good(w)
    ensures Good(Step(w, e))
  {
    StepKeepsLog(w, e);
    StepKeepsStamps(w, e);
    StepKeepsStatus(w, e);
  }

  lemma {:induction false} RunKeepsGood(job: string, es: seq<Event>)
    ensures Good(Run(NewClaim(job), es))
    decreases |es|
  {
    if es != [] {
      RunKeepsGood(job, es[..|es| - 1]);
      StepKeepsGood(Run(NewClaim(job), es[..|es| - 1]), es[|es| - 1]);
    }
  }

  lemma EndingsApart(w: World, i: nat, j: nat)
    requires LogRight(w) && i < j < |w.log| && w.log[i].Ended? && w.log[j].Ended?
    ensures i < j - 1 && w.log[j - 1].Opening()
  {
    assert Follows(w.log, j);
  }

  /** In every interleaving at most one terminal write lands per opening of the row: between any two
      there is a new start or a new place in the queue. Callbacks are as many as such writes. */
  lemma OneEndingPerOpening(job: string, es: seq<Event>, i: nat, j: nat)
    requires i < j < |Run(NewClaim(job), es).log|
    requires Run(NewClaim(job), es).log[i].Ended? && Run(NewClaim(job), es).log[j].Ended?
    ensures i < j - 1 && Run(NewClaim(job), es).log[j - 1].Opening()
    ensures Run(NewClaim(job), es).callbacks == Endings(Run(NewClaim(job), es).log)
  {
    RunKeepsGood(job, es);
    EndingsApart(Run(NewClaim(job), es), i, j);
  }

  /** Once the row is not running under the claim's id, no last write of any run changes it until the claim
      is started again. */
  lemma {:induction false} StaleJobIsMute(w: World, es: seq<Event>, n: nat, ok: bool)
    requires !w.row.OwnedBy(w.job) && forall e <- es :: !e.Start?
    ensures var t := Run(w, es);
      && t.job == w.job && !t.row.OwnedBy(w.job)
      && Step(t, End(n, ok)).row == t.row && Step(t, Throw(n)).row == t.row
      && Step(t, End(n, ok)).callbacks == Step(t, Throw(n)).callbacks == t.callbacks
    decreases |es|
  {
    if es != [] {
      StaleJobIsMute(w, es[..|es| - 1], n, ok);
      assert !es[|es| - 1].Start?;
    }
  }

  // ---- What an ending says ---------------------------------------------------------------

  /** The event that an ending comes from. */
  predicate ComesFrom(m: Mark, es: seq<Event>) {
    m.Ended? ==>
      match m.writer
      case Sweeper => m.verdict == Failed && Sweep in es
      case Handler(n) => m.verdict == Failed && JobFailed(n) in es
      case Job(n) =>
        || (m.verdict == Completed && End(n, true) in es)
        || (m.verdict == Failed && (End(n, false) in es || Throw(n) in es))
  }

  /** A reset leaves no check and no job id on the row, but the count of attempts. */
  lemma ResetClears(w: World)
    requires w.row.status != Queued && w.row.status != Running
    ensures Step(w, Clear).row == Row(NoCheck, None, w.row.attempts) && Step(w, Clear).callbacks == w.callbacks
  {}

  lemma MoreEvents(m: Mark, es: seq<Event>, e: Event)
    requires ComesFrom(m, es) || ComesFrom(m, [e])
    ensures ComesFrom(m, es + [e])
  {}

  /** A step leaves the log as it is, or adds one mark that comes from it. */
  lemma StepLogs(w: World, e: Event)
    ensures var log := Step(w, e).log;
            log == w.log || (|log| == |w.log| + 1 && log[..|w.log|] == w.log && ComesFrom(log[|w.log|], [e]))
    ensures forall i :: 0 <= i < |w.log| ==> Step(w, e).log[i] == w.log[i]
  {}

  /** In every run each ending comes from an event that says so: only a run's own positive verdict completes a
      check, and what the sweep and the handler end is failed. */
  lemma {:induction false} EndingsComeFrom(job: string, es: seq<Event>, i: nat)
    requires i < |Run(NewClaim(job), es).log|
    ensures ComesFrom(Run(NewClaim(job), es).log[i], es)
    decreases |es|
  {
    if es != [] {
      var init, last := es[..|es| - 1], es[|es| - 1];
      var w := Run(NewClaim(job), init);
      assert es == init + [last];
      StepLogs(w, last);
      if i < |w.log| {
        EndingsComeFrom(job, init, i);
        MoreEvents(w.log[i], init, last);
      } else {
        MoreEvents(Step(w, last).log[i], init, last);
      }
    }
  }

  /** The sweep and the handler fail every check that is in flight, with a callback, and leave others alone. */
  lemma InFlightIsFailed(w: World, n: nat)
    ensures Step(w, Sweep).row == Step(w, JobFailed(n)).row
            == if w.row.status == Queued || w.row.status == Running then Row(Failed, w.row.jobId, w.row.attempts)
               else w.row
    ensures Step(w, Sweep).callbacks == Step(w, JobFailed(n)).callbacks
            == w.callbacks + (if w.row.status == Queued || w.row.status == Running then 1 else 0)
  {}

  // ---- Whose start a run ends ------------------------------------------------------------

  /** No start came after that of run `n`: the row still bears the number of attempts that it wrote. */
  predicate Newest(w: World, n: nat) { n in w.stamp && w.row.attempts == w.stamp[n] }

  /** The last write of run `n` lands. */
  predicate Lands(w: World, n: nat) { n in w.live && w.row.OwnedBy(w.job) }

  /** The last write of a run that lands closes that run's own start exactly if the claim was not started
      again since; otherwise it closes a newer run's. */
  lemma EndsOwnStartExactly(w: World, n: nat)
    requires Good(w) && Lands(w, n)
    ensures Last(w) == Started(n) <==> Newest(w, n)
    ensures Last(w).Started? && Newest(w, Last(w).n)
  {}

  /** Every ending by a run closes that run's own start. */
  ghost predicate OwnEndings(log: seq<Mark>) {
    forall i :: 0 < i < |log| && log[i].Ended? && log[i].writer.Job? ==> log[i - 1] == Started(log[i].writer.n)
  }

  /** A last write lands although the claim was started again since. */
  predicate Overtaken(w: World, e: Event) {
    (e.End? || e.Throw?) && Lands(w, e.n) && !Newest(w, e.n)
  }

  predicate NoneOvertaken(w: World, es: seq<Event>)
    decreases |es|
  {
    es != [] ==> NoneOvertaken(w, es[..|es| - 1]) && !Overtaken(Run(w, es[..|es| - 1]), es[|es| - 1])
  }

  lemma StepOwnsExactly(w: World, e: Event)
    requires Good(w)
    ensures OwnEndings(Step(w, e).log) <==> OwnEndings(w.log) && !Overtaken(w, e)
  {
    var t := Step(w, e);
    assert w.log <= t.log;
    if (e.End? || e.Throw?) && Lands(w, e.n) {
      EndsOwnStartExactly(w, e.n);
      assert t.log[|w.log|].writer == Job(e.n);
    }
    if OwnEndings(t.log) {
      forall i | 0 < i < |w.log| && w.log[i].Ended? && w.log[i].writer.Job?
        ensures w.log[i - 1] == Started(w.log[i].writer.n)
      {
        assert t.log[i] == w.log[i] && t.log[i - 1] == w.log[i - 1];
      }
    }
  }

  /** Over every interleaving: all endings by runs close their own starts exactly if no last write lands
      after a newer start of the claim. The guard by job id does not see to that. */
  lemma {:induction false} RunOwnsExactly(job: string, es: seq<Event>)
    ensures OwnEndings(Run(NewClaim(job), es).log) <==> NoneOvertaken(NewClaim(job), es)
    decreases |es|
  {
    if es != [] {
      RunOwnsExactly(job, es[..|es| - 1]);
      RunKeepsGood(job, es[..|es| - 1]);
      StepOwnsExactly(Run(NewClaim(job), es[..|es| - 1]), es[|es| - 1]);
    }
  }

  /** A run starts only when all earlier ones have made their last write. */
  predicate OneAtATime(w: World, es: seq<Event>)
    decreases |es|
  {
    es != [] ==>
      var before := Run(w, es[..|es| - 1]);
      OneAtATime(w, es[..|es| - 1]) && (es[|es| - 1].Start? ==> before.live == {})
  }

  lemma {:induction false} LiveIsNewest(job: string, es: seq<Event>)
    requires OneAtATime(NewClaim(job), es)
    ensures forall n <- Run(NewClaim(job), es).live :: Newest(Run(NewClaim(job), es), n)
    decreases |es|
  {
    if es != [] {
      LiveIsNewest(job, es[..|es| - 1]);
      RunKeepsGood(job, es[..|es| - 1]);
    }
  }

  /** As long as runs do not overlap, each ends only its own start, whatever the sweep, the handler and the
      queueing side do. */
  lemma {:induction false} SeparateRunsOwn(job: string, es: seq<Event>)
    requires OneAtATime(NewClaim(job), es)
    ensures OwnEndings(Run(NewClaim(job), es).log)
    decreases |es|
  {
    RunOwnsExactly(job, es);
    if es != [] {
      SeparateRunsOwn(job, es[..|es| - 1]);
      RunOwnsExactly(job, es[..|es| - 1]);
      LiveIsNewest(job, es[..|es| - 1]);
    }
  }

  // ---- When a run's verdict lands --------------------------------------------------------

  /** Anything that moves the row while run `n` has it, or ends run `n`. Clearing does not: it is refused
      while the check is in flight. */
  predicate Disturbs(w: World, e: Event) {
    match e
    case Clear => false
    case Divert(to) => Diversion(to)
    case Start(m) => m !in w.stamp
    case End(m, _) => m in w.live
    case Throw(m) => m in w.live
    case _ => true
  }

  lemma {:induction false} QuietKeepsWorld(w: World, es: seq<Event>)
    requires w.row.OwnedBy(w.job) && forall e <- es :: !Disturbs(w, e)
    ensures Run(w, es) == w
    decreases |es|
  {
    if es != [] {
      QuietKeepsWorld(w, es[..|es| - 1]);
      assert !Disturbs(w, es[|es| - 1]);
    }
  }

  /** Run `n` can no longer end its own start. */
  predicate Lost(w: World, n: nat) {
    n in w.stamp && w.stamp[n] <= w.row.attempts && (n in w.live && w.row.status == Running ==> !Newest(w, n))
  }

  lemma LostForGood(w: World, e: Event, n: nat)
    ensures Lost(w, n) ==> Lost(Step(w, e), n)
  {}

  lemma {:induction false} DisturbedIsLost(w: World, es: seq<Event>, n: nat)
    requires w.row.OwnedBy(w.job) && Newest(w, n) && n in w.live
    requires exists e :: e in es && Disturbs(w, e)
    ensures Lost(Run(w, es), n)
    decreases |es|
  {
    var init, last := es[..|es| - 1], es[|es| - 1];
    assert es == init + [last];
    if exists e :: e in init && Disturbs(w, e) {
      DisturbedIsLost(w, init, n);
      LostForGood(Run(w, init), last, n);
    } else {
      QuietKeepsWorld(w, init);
      var e :| e in es && Disturbs(w, e);
      assert e == last;
    }
  }

  /** A run's verdict lands on its own start exactly if nothing moved the row since: no sweep, no failure
      handler, no other start, no queueing write or diversion, and no last write of any other run, however
      old. */
  lemma VerdictLandsExactly(w: World, n: nat, es: seq<Event>, ok: bool)
    requires n !in w.stamp
    ensures var s := Step(w, Start(n));
            var before := Run(s, es);
      && (Lands(before, n) && Newest(before, n) <==> forall e <- es :: !Disturbs(s, e))
      && ((forall e <- es :: !Disturbs(s, e)) ==>
            var t := Step(before, End(n, ok));
            && t.row == Row(if ok then Completed else Failed, Some(w.job), w.row.attempts + 1)
            && t.log == w.log + [Started(n), Ended(Job(n), t.row.status)] && t.callbacks == w.callbacks + 1)
  {
    var s := Step(w, Start(n));
    if forall e <- es :: !Disturbs(s, e) {
      QuietKeepsWorld(s, es);
      assert w.log + [Started(n)] + [Ended(Job(n), if ok then Completed else Failed)]
          == w.log + [Started(n), Ended(Job(n), if ok then Completed else Failed)];
    } else {
      DisturbedIsLost(s, es, n);
    }
  }

  // ---- Old runs and new checks -----------------------------------------------------------

  /** Whatever took the row from a run that is still going: once the claim is rechecked, the old run's last
      write ends the new check, and the new run's own verdict then changes nothing but that it is over. */
  lemma OldRunEndsNewCheck(w: World, n: nat, m: nat, ok: bool, ok2: bool)
    requires Good(w) && n in w.live && m !in w.stamp && !w.row.InFlight()
    ensures var s := Step(Step(Step(w, Clear), Enqueue(m)), Start(m));
            var t := Step(s, End(n, ok));
      && Overtaken(s, End(n, ok))
      && t.row == Row(if ok then Completed else Failed, Some(w.job), w.row.attempts + 1)
      && t.callbacks == w.callbacks + 1
      && n != m && Step(t, End(m, ok2)) == t.(live := t.live - {m})
  {}

  /** Such a state comes about for any two runs and for either way of losing the row. */
  lemma OldRunIsReachable(job: string, n: nat, m: nat, e: Event)
    requires n != m && (e == Sweep || e == JobFailed(n))
    ensures var w := Run(NewClaim(job), [Start(n), e]);
            Good(w) && n in w.live && m !in w.stamp && !w.row.InFlight()
  {
    var s := NewClaim(job);
    RunKeepsGood(job, [Start(n), e]);
    assert [Start(n), e][..1] == [Start(n)] && [Start(n)][..0] == [];
    assert Run(s, [Start(n)]) == Step(s, Start(n));
    assert Run(s, [Start(n), e]) == Step(Step(s, Start(n)), e);
  }

  // ---- The handler for failed jobs -------------------------------------------------------

  /** The claim was queued or started for run `n`, and for no other run since. */
  ghost predicate Latest(log: seq<Mark>, n: nat) {
    exists p :: 0 <= p < |log| && log[p].Opens(n) && forall q :: p < q < |log| && log[q].Opening() ==> log[q].Opens(n)
  }

  /** The handler finds the row by claim only. The check that it ends is its own run's exactly if the claim
      was queued or started for that run, and for no other since. */
  lemma HandlerEndsOwnCheckExactly(job: string, es: seq<Event>, n: nat)
    requires Run(NewClaim(job), es).row.InFlight()
    ensures var w := Run(NewClaim(job), es);
      && w.log != [] && Step(w, JobFailed(n)).row.status == Failed
      && (Last(w).Opens(n) <==> Latest(w.log, n))
  {
    RunKeepsGood(job, es);
    var w := Run(NewClaim(job), es);
    assert Last(w).Opening();
    if Last(w).Opens(n) { assert w.log[|w.log| - 1].Opens(n); }
  }

  /** A run that lost its row and is then reported as failed takes the recheck down with it. */
  lemma OldFailureEndsNewCheck(w: World, n: nat, m: nat)
    requires n in w.stamp && m !in w.stamp && !w.row.InFlight()
    ensures var s := Step(Step(Step(w, Clear), Enqueue(m)), Start(m));
            var t := Step(s, JobFailed(n));
      && s.row.OwnedBy(w.job) && s.log[|s.log| - 1] == Started(m) && n != m
      && t.row == Row(Failed, Some(w.job), w.row.attempts + 1) && t.callbacks == w.callbacks + 1
  {}

  // ---- The row ---------------------------------------------------------------------------

  class ClaimRow {
    const job: string
    var status: Status
    var jobId: Option<string>
    var attempts: nat
    var callbacks: nat
    ghost var log: seq<Mark>
    ghost var stamp: map<nat, nat>
    ghost var live: set<nat>

    constructor (job: string)
      ensures View() == NewClaim(job)
    {
      this.job, status, jobId, attempts, callbacks := job, Queued, None, 0, 0;
      log, stamp, live := [Created], map[], {};
    }

    ghost function View(): World
      reads this
    {
      World(job, Row(status, jobId, attempts), log, callbacks, stamp, live)
    }

    method MarkQueued(ghost n: nat)
      modifies this
      ensures View() == Step(old(View()), Enqueue(n))
    {
      status, jobId := Queued, Some(job);
      log := log + [Enqueued(n)];
    }

    /** The reset for a recheck, under the row lock; refused while a check is in flight. */
    method Reset() returns (done: bool)
      modifies this
      ensures done == !old(View()).row.InFlight() && View() == Step(old(View()), Clear)
      ensures done ==> status == NoCheck && jobId == None && attempts == old(attempts)
    {
      if status == Queued || status == Running { return false; }
      status, jobId, log := NoCheck, None, log + [Cleared];
      return true;
    }

    method StartJob(ghost n: nat)
      requires n !in stamp
      modifies this
      ensures View() == Step(old(View()), Start(n))
    {
      status, jobId, attempts := Running, Some(job), attempts + 1;
      log, stamp, live := log + [Started(n)], stamp[n := attempts], live + {n};
    }

    /** The guarded update by job id and status; `count` is the number of rows it changed. */
    method EndIfOwned(ghost n: nat, verdict: Status) returns (count: nat)
      modifies this`status, this`log
      ensures count == if old(View()).row.OwnedBy(job) then 1 else 0
      ensures status == (if count == 1 then verdict else old(status))
      ensures log == (if count == 1 then old(log) + [Ended(Job(n), verdict)] else old(log))
    {
      if status == Running && jobId == Some(job) {
        status, log, count := verdict, log + [Ended(Job(n), verdict)], 1;
      } else {
        count := 0;
      }
    }

    /** The end of processJob: one guarded write, then the callback only if it landed. */
    method FinishJob(ghost n: nat, threw: bool, timedOut: bool, parsed: bool) returns (owned: bool)
      requires n in live
      modifies this
      ensures View() == Step(old(View()), if threw then Throw(n) else End(n, !timedOut && parsed))
      ensures owned == old(View()).row.OwnedBy(job)
    {
      var count := EndIfOwned(n, if threw || timedOut || !parsed then Failed else Completed);
      owned := count == 1;
      if owned { callbacks := callbacks + 1; }
      live := live - {n};
    }

    method FailInFlight(ghost writer: Writer) returns (count: nat)
      modifies this
      ensures count == if old(View()).row.InFlight() then 1 else 0
      ensures View() == if count == 1 then EndedBy(old(View()), writer, Failed) else old(View())
    {
      if status != Queued && status != Running { return 0; }
      status, log, callbacks, count := Failed, log + [Ended(writer, Failed)], callbacks + 1, 1;
    }

    /** One claim of the sweep; a job that the queue still knows as alive is left alone. */
    method SweepOne(alive: bool)
      modifies this
      ensures View() == if alive then old(View()) else Step(old(View()), Sweep)
    {
      if alive { return; }
      var _ := FailInFlight(Sweeper);
    }

    method OnJobFailed(ghost n: nat)
      modifies this
      ensures View() == Step(old(View()), JobFailed(n))
    {
      var _ := FailInFlight(Handler(n));
    }
  }
}
