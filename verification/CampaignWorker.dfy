/** The campaign row, one undisturbed worker run over it, and the scheduler's sweep. Each run is shown
    to be a run of the interleaving model in module Campaign. */
module CampaignWorker {
  import opened Options
  import opened Campaign

  class CampaignRow {
    var status: Status
    var nextRunAt: Option<nat>
    var lastRunAt: Option<nat>
    var sentCount: nat
    var failedCount: nat

    ghost function View(): Row
      reads this
    {
      Row.Row(status, nextRunAt, lastRunAt, sentCount, failedCount)
    }

    method Read() returns (seen: Row)
      ensures seen == View()
    {
      return Row.Row(status, nextRunAt, lastRunAt, sentCount, failedCount);
    }

    method TryClaim(seen: Row, startedAt: nat) returns (count: nat)
      modifies this
      ensures count == if CanClaim(old(View()), seen) then 1 else 0
      ensures View() == if count == 1 then Claimed(old(View()), startedAt) else old(View())
    {
      if status != Running || nextRunAt != seen.next || lastRunAt != seen.last { return 0; }
      nextRunAt, lastRunAt := None, Some(startedAt);
      return 1;
    }

    method WriteSent(startedAt: nat, sent: nat)
      modifies this
      ensures View() == WithSent(old(View()), startedAt, sent)
    {
      if status == Running && lastRunAt == Some(startedAt) { sentCount := sent; }
    }

    method WriteFailed(startedAt: nat, failed: nat)
      modifies this
      ensures View() == WithFailed(old(View()), startedAt, failed)
    {
      if status == Running && lastRunAt == Some(startedAt) { failedCount := failed; }
    }

    method DeferTo(startedAt: nat, resumeAt: nat)
      modifies this
      ensures View() == Deferred(old(View()), startedAt, resumeAt)
    {
      if status == Running && lastRunAt == Some(startedAt) { nextRunAt := Some(resumeAt); }
    }

    method EndCycle(plan: Plan, startedAt: nat, nextAt: nat)
      modifies this
      ensures var was := old(View());
              View() == if was.status != Running || was.last != Some(startedAt) then was
                        else if plan.recurring then Row.Row(Running, Some(nextAt), was.last, 0, 0)
                        else Row.Row(Completed, None, was.last, was.sent, was.failed)
      ensures View() == Ended(plan, old(View()), startedAt, nextAt)
    {
      if status == Running && lastRunAt == Some(startedAt) {
        if plan.recurring { sentCount, failedCount, nextRunAt := 0, 0, Some(nextAt); }
        else { status, nextRunAt := Completed, None; }
      }
    }

    method MarkFailed(startedAt: nat)
      modifies this
      ensures var was := old(View());
              View() == if was.status != Running || was.last != Some(startedAt) then was
                        else Row.Row(Failed, None, was.last, was.sent, was.failed)
      ensures View() == Aborted(old(View()), startedAt)
    {
      if status == Running && lastRunAt == Some(startedAt) { status, nextRunAt := Failed, None; }
    }

    method ReArm(now: nat)
      modifies this
      ensures View() == Recovered(old(View()), now)
    {
      if status == Running && nextRunAt == None { nextRunAt := Some(now); }
    }
  }

  // ---- One run without disturbance -------------------------------------------------------

  /** Where the loop stops, and with which counters, when it is at group `i`. */
  datatype LoopEnd = LoopEnd(stop: nat, sent: nat, failed: nat)

  function FromGroup(answer: nat -> Outcome, groups: nat, i: nat, sent: nat, failed: nat): LoopEnd
    decreases groups - i
  {
    if i >= groups then LoopEnd(i, sent, failed)
    else
      match answer(i)
      case FloodWait => LoopEnd(i, sent, failed)
      case Delivered => FromGroup(answer, groups, i + 1, sent + 1, failed)
      case Rejected => FromGroup(answer, groups, i + 1, sent, failed + 1)
  }

  function Count(answer: nat -> Outcome, what: Outcome, i: nat, k: nat): nat
    requires i <= k
    decreases k - i
  {
    if i == k then 0 else (if answer(i) == what then 1 else 0) + Count(answer, what, i + 1, k)
  }

  /** The loop stops at the first flood wait, or at the end, having counted every answer before it. */
  lemma {:induction false} LoopStopsAtFlood(answer: nat -> Outcome, groups: nat, i: nat, sent: nat, failed: nat)
    requires i <= groups
    ensures var r := FromGroup(answer, groups, i, sent, failed);
      && i <= r.stop <= groups
      && (forall j :: i <= j < r.stop ==> answer(j) != FloodWait)
      && (r.stop < groups ==> answer(r.stop) == FloodWait)
      && r.sent == sent + Count(answer, Delivered, i, r.stop)
      && r.failed == failed + Count(answer, Rejected, i, r.stop)
    decreases groups - i
  {
    if i < groups && answer(i) != FloodWait {
      var d := answer(i) == Delivered;
      LoopStopsAtFlood(answer, groups, i + 1, if d then sent + 1 else sent, if d then failed else failed + 1);
    }
  }

  lemma RunSnoc(plan: Plan, s: World, es: seq<Event>, e: Event)
    ensures Run(plan, s, es + [e]) == Step(plan, Run(plan, s, es), e)
    decreases |es|
  {
    if es == [] {
      assert [e][1..] == [];
      assert Run(plan, s, [e]) == Run(plan, Step(plan, s, e), []);
    } else {
      assert (es + [e])[1..] == es[1..] + [e];
      RunSnoc(plan, Step(plan, s, es[0]), es[1..], e);
    }
  }

  /** The row a run leaves behind when it starts from `seen` and nobody interferes. */
  function AloneResult(plan: Plan, startedAt: nat, end: LoopEnd, resumeAt: nat, nextAt: nat): Row {
    if end.stop < plan.groups then Row.Row(Running, Some(resumeAt), Some(startedAt), end.sent, end.failed)
    else if plan.recurring then Row.Row(Running, Some(nextAt), Some(startedAt), 0, 0)
    else Row.Row(Completed, None, Some(startedAt), end.sent, end.failed)
  }

  function StartGroup(plan: Plan, seen: Row): nat {
    if seen.Settled() < plan.groups then seen.Settled() else plan.groups
  }

  /** `reach` is closed under the steps of the model. */
  ghost predicate Closed(plan: Plan, reach: World -> bool) {
    forall s: World, e: Event :: reach(s) ==> reach(Step(plan, s, e))
  }

  /** The model state belongs to the row, and its worker `w` is at the top of the loop. */
  ghost predicate InLoop(s: World, w: nat, row: Row, startedAt: nat, sent: nat, failed: nat, i: nat) {
    && s.row == row == Row.Row(Running, None, Some(startedAt), sent, failed)
    && w in s.workers && s.workers[w] == Worker(startedAt, sent, failed, Looping(i))
  }

  /** From reading the row to the claim. */
  method ClaimRun(row: CampaignRow, plan: Plan, runAt: Option<nat>, now: nat, startedAt: nat,
                  ghost s: World, ghost w: nat, ghost reach: World -> bool)
    returns (claimed: bool, sentCount: nat, failedCount: nat, ghost t: World)
    requires s.row == row.View() && w !in s.workers && startedAt !in s.used
    requires Closed(plan, reach) && reach(s)
    modifies row
    ensures claimed == Claimable(old(row.View()), runAt, now) && reach(t)
    ensures !claimed ==> row.View() == old(row.View()) && t == s
    ensures claimed ==> sentCount == old(row.sentCount) && failedCount == old(row.failedCount)
    ensures claimed ==> InLoop(t, w, row.View(), startedAt, sentCount, failedCount, StartGroup(plan, old(row.View())))
  {
    var seen := row.Read();
    claimed, sentCount, failedCount, t := false, seen.sent, seen.failed, s;
    if seen.status != Running { return; }
    if runAt.Some? {
      if seen.next == None { return; }
      if seen.next.value - runAt.value > 1000 || runAt.value - seen.next.value > 1000 { return; }
    }
    if seen.next.Some? && seen.next.value > now { return; }
    t := Step(plan, t, Fetch(w, runAt, now, startedAt));
    var count := row.TryClaim(seen, startedAt);
    t := Step(plan, t, By(w, Claim));
    claimed := count == 1;
  }

  /** One turn of the loop: test, send, and write the counter or defer. */
  method TryGroup(row: CampaignRow, plan: Plan, startedAt: nat, i: nat, sent: nat, failed: nat, outcome: Outcome,
                  resumeAt: nat, ghost s: World, ghost w: nat, ghost reach: World -> bool)
    returns (sentCount: nat, failedCount: nat, ghost t: World)
    requires i < plan.groups && InLoop(s, w, row.View(), startedAt, sent, failed, i)
    requires Closed(plan, reach) && reach(s)
    modifies row
    ensures sentCount == if outcome == Delivered then sent + 1 else sent
    ensures failedCount == if outcome == Rejected then failed + 1 else failed
    ensures reach(t) && t.row == row.View()
    ensures if outcome == FloodWait then row.View() == Row.Row(Running, Some(resumeAt), Some(startedAt), sent, failed)
            else InLoop(t, w, row.View(), startedAt, sentCount, failedCount, i + 1)
  {
    sentCount, failedCount := sent, failed;
    t := Step(plan, s, By(w, Check));
    t := Step(plan, t, By(w, Send(outcome)));
    match outcome {
      case FloodWait =>
        row.DeferTo(startedAt, resumeAt);
        t := Step(plan, t, By(w, Defer(resumeAt)));
      case Delivered =>
        sentCount := sentCount + 1;
        row.WriteSent(startedAt, sentCount);
        t := Step(plan, t, By(w, Write));
      case Rejected =>
        failedCount := failedCount + 1;
        row.WriteFailed(startedAt, failedCount);
        t := Step(plan, t, By(w, Write));
    }
  }

  /** Out of the loop: the cycle ends. */
  method FinishRun(row: CampaignRow, plan: Plan, startedAt: nat, sent: nat, failed: nat, nextAt: nat,
                   ghost s: World, ghost w: nat, ghost reach: World -> bool)
    returns (ghost t: World)
    requires InLoop(s, w, row.View(), startedAt, sent, failed, plan.groups)
    requires Closed(plan, reach) && reach(s)
    modifies row
    ensures reach(t) && t.row == row.View() == Ended(plan, old(row.View()), startedAt, nextAt)
  {
    t := Step(plan, s, By(w, Check));
    row.EndCycle(plan, startedAt, nextAt);
    t := Step(plan, t, By(w, End(nextAt)));
  }

  function Range(from: nat, to: nat): seq<nat> {
    if to <= from then [] else Range(from, to - 1) + [to - 1]
  }

  /** The loop over the groups; `flooded` tells that it was left at a flood wait. */
  method SendLoop(row: CampaignRow, plan: Plan, startedAt: nat, start: nat, sent: nat, failed: nat,
                  answer: nat -> Outcome, resumeAt: nat, ghost s: World, ghost w: nat, ghost reach: World -> bool)
    returns (attempted: seq<nat>, flooded: bool, sentCount: nat, failedCount: nat, ghost t: World)
    requires start <= plan.groups && InLoop(s, w, row.View(), startedAt, sent, failed, start)
    requires Closed(plan, reach) && reach(s)
    modifies row
    ensures reach(t) && t.row == row.View()
    ensures var end := FromGroup(answer, plan.groups, start, sent, failed);
      && flooded == (end.stop < plan.groups) && sentCount == end.sent && failedCount == end.failed
      && attempted == Range(start, if flooded then end.stop + 1 else end.stop)
    ensures if flooded then row.View() == Row.Row(Running, Some(resumeAt), Some(startedAt), sentCount, failedCount)
            else InLoop(t, w, row.View(), startedAt, sentCount, failedCount, plan.groups)
  {
    attempted, flooded, sentCount, failedCount, t := [], false, sent, failed, s;
    ghost var end := FromGroup(answer, plan.groups, start, sent, failed);
    var i := start;
    while i < plan.groups
      invariant start <= i <= plan.groups
      invariant reach(t) && InLoop(t, w, row.View(), startedAt, sentCount, failedCount, i)
      invariant FromGroup(answer, plan.groups, i, sentCount, failedCount) == end
      invariant attempted == Range(start, i)
    {
      attempted := attempted + [i];
      sentCount, failedCount, t :=
        TryGroup(row, plan, startedAt, i, sentCount, failedCount, answer(i), resumeAt, t, w, reach);
      if answer(i) == FloodWait { flooded := true; return; }
      i := i + 1;
    }
  }

  /** From the row as read to the row as left: nothing for a job that may not claim, else the whole run. */
  method RunClaimed(row: CampaignRow, plan: Plan, runAt: Option<nat>, now: nat, startedAt: nat,
                    answer: nat -> Outcome, resumeAt: nat, nextAt: nat, ghost s: World, ghost w: nat,
                    ghost reach: World -> bool)
    returns (attempted: seq<nat>, ghost t: World)
    requires s.row == row.View() && w !in s.workers && startedAt !in s.used
    requires Closed(plan, reach) && reach(s)
    modifies row
    ensures reach(t) && t.row == row.View()
    ensures !Claimable(old(row.View()), runAt, now) ==> row.View() == old(row.View()) && attempted == []
    ensures Claimable(old(row.View()), runAt, now) ==>
              var seen := old(row.View());
              var start := StartGroup(plan, seen);
              var end := FromGroup(answer, plan.groups, start, seen.sent, seen.failed);
              && row.View() == AloneResult(plan, startedAt, end, resumeAt, nextAt)
              && attempted == Range(start, if end.stop < plan.groups then end.stop + 1 else end.stop)
  {
    attempted := [];
    var claimed: bool, sentCount: nat, failedCount: nat, flooded: bool;
    claimed, sentCount, failedCount, t := ClaimRun(row, plan, runAt, now, startedAt, s, w, reach);
    if !claimed { return; }
    var start := if sentCount + failedCount < plan.groups then sentCount + failedCount else plan.groups;
    attempted, flooded, sentCount, failedCount, t :=
      SendLoop(row, plan, startedAt, start, sentCount, failedCount, answer, resumeAt, t, w, reach);
    if !flooded { t := FinishRun(row, plan, startedAt, sentCount, failedCount, nextAt, t, w, reach); }
  }

  /** `s` is the state of some run from `s0`. */
  ghost predicate Reached(plan: Plan, s0: World, s: World) {
    exists es :: Run(plan, s0, es) == s
  }

  lemma ReachedIsClosed(plan: Plan, s0: World)
    ensures Closed(plan, s => Reached(plan, s0, s)) && Reached(plan, s0, s0)
  {
    assert Run(plan, s0, []) == s0;
    forall s: World, e: Event | Reached(plan, s0, s) ensures Reached(plan, s0, Step(plan, s, e)) {
      var es :| Run(plan, s0, es) == s;
      RunSnoc(plan, s0, es, e);
    }
  }

  /** `answer` is what Telegram says to each group. The ghost result gives the run of the interleaving
      model that this execution is. */
  method ProcessJob(row: CampaignRow, plan: Plan, runAt: Option<nat>, now: nat, startedAt: nat,
                    answer: nat -> Outcome, resumeAt: nat, nextAt: nat, ghost s0: World, ghost w: nat)
    returns (attempted: seq<nat>, ghost es: seq<Event>)
    requires s0.row == row.View() && w !in s0.workers && startedAt !in s0.used
    modifies row
    ensures Run(plan, s0, es).row == row.View()
    ensures !(old(row.View()).status == Running && Due(old(row.View()).next, runAt, now)) ==>
              row.View() == old(row.View()) && attempted == []
    ensures old(row.View()).status == Running && Due(old(row.View()).next, runAt, now) ==>
              var seen := old(row.View());
              var start := StartGroup(plan, seen);
              var end := FromGroup(answer, plan.groups, start, seen.sent, seen.failed);
              && row.View() == AloneResult(plan, startedAt, end, resumeAt, nextAt)
              && attempted == Range(start, if end.stop < plan.groups then end.stop + 1 else end.stop)
  {
    ReachedIsClosed(plan, s0);
    ghost var t: World;
    attempted, t :=
      RunClaimed(row, plan, runAt, now, startedAt, answer, resumeAt, nextAt, s0, w, s => Reached(plan, s0, s));
    es :| Run(plan, s0, es) == t;
  }

  // ---- The scheduler ---------------------------------------------------------------------

  predicate Stuck(row: Row, now: nat) {
    && row.status == Running && row.next == None
    && (row.last.Some? ==> row.last.value + 60 * 1000 <= now)
  }

  const SWEEP_CAP := 50

  /** Lists interrupted campaigns, at most fifty, and re-arms those whose session is not locked. A stuck
      campaign is passed over only if the list is full. */
  method RecoverStuck(rows: seq<CampaignRow>, locked: set<CampaignRow>, now: nat) returns (listed: seq<CampaignRow>)
    modifies rows
    ensures |listed| <= 50
    ensures forall r <- listed ::
              && r in rows
              && old(r.status) == Running && old(r.nextRunAt) == None
              && (old(r.lastRunAt).Some? ==> now - old(r.lastRunAt).value >= 60000)
    ensures |listed| < 50 ==>
              forall r <- rows | old(r.status) == Running && old(r.nextRunAt) == None
                                 && (old(r.lastRunAt).Some? ==> now - old(r.lastRunAt).value >= 60000) :: r in listed
    ensures forall r <- rows :: r.View() == if r in listed && r !in locked
                                            then Recovered(old(r.View()), now) else old(r.View())
  {
    listed := [];
    assert rows[..0] == [];
    for k := 0 to |rows|
      invariant forall r <- rows :: r.View() == old(r.View())
      invariant |listed| <= SWEEP_CAP && forall r <- listed :: r in rows && Stuck(r.View(), now)
      invariant |listed| < SWEEP_CAP ==> forall r <- rows[..k] :: Stuck(r.View(), now) ==> r in listed
    {
      assert rows[..k + 1] == rows[..k] + [rows[k]];
      var row := rows[k].Read();
      if Stuck(row, now) && |listed| < SWEEP_CAP { listed := listed + [rows[k]]; }
    }
    assert rows[..|rows|] == rows;
    assert listed[..0] == [];
    for k := 0 to |listed|
      invariant forall r <- rows :: r.View() == if r in listed[..k] && r !in locked
                                                then Recovered(old(r.View()), now) else old(r.View())
    {
      var r := listed[k];
      assert listed[..k + 1] == listed[..k] + [r];
      if r !in locked { r.ReArm(now); }
    }
    assert listed[..|listed|] == listed;
  }

  datatype JobState = Waiting | Active | Done | Broken

  /** Afterwards every due start has a job that is still to run or running; other jobs are untouched. */
  method EnqueueDue<Key(==)>(due: seq<Key>, jobs: map<Key, JobState>) returns (queued: map<Key, JobState>)
    ensures queued.Keys == jobs.Keys + set k <- due
    ensures forall k <- due :: queued[k] == Waiting || queued[k] == Active
    ensures forall k <- jobs :: k !in due || jobs[k] == Waiting || jobs[k] == Active ==> queued[k] == jobs[k]
  {
    queued := jobs;
    for i := 0 to |due|
      invariant queued.Keys == jobs.Keys + set k <- due[..i]
      invariant forall k <- due[..i] :: queued[k] == Waiting || queued[k] == Active
      invariant forall k <- jobs :: k !in due[..i] || jobs[k] == Waiting || jobs[k] == Active ==> queued[k] == jobs[k]
    {
      assert due[..i + 1] == due[..i] + [due[i]];
      var k := due[i];
      if k !in queued || queued[k] == Done || queued[k] == Broken { queued := queued[k := Waiting]; }
    }
    assert due[..|due|] == due;
  }
}
