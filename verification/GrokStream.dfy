/** The result stream of the push-order check server: completions append to `results` and are published
    to all subscribers; a connection first gets everything so far and then subscribes. */
module GrokStream {
  import opened Options
  import opened Utf8
  import opened SseReader
  import opened StreamMessages
  import opened CutStreams

  /** `finished` records which account's task delivered what; `left` the connections that went away;
      `known` says whether the job can still be looked up. */
  datatype Job<!J> = Job(total: nat, status: Status, results: seq<J>, done: nat, finished: map<int, J>,
                         subs: set<nat>, got: Sent<J>, left: set<nat>, known: bool)

  datatype Event<J> =
    | Start | Finish(i: nat, entry: J) | Close | Break(reason: string) | Join(c: nat) | Leave(c: nat) | Forget

  function Create<J>(total: nat): Job<J> {
    Job(total, Queued, [], 0, map[], {}, map[], {}, true)
  }

  /** Every account's task has run. */
  ghost predicate AllRan<J>(s: Job<J>) { forall i :: 0 <= i < s.total ==> i in s.finished }

  /** The messages of a new connection, before it subscribes or ends. */
  function Greeting<J>(s: Job<J>): seq<Msg<J>> {
    [State(s.status, s.done, s.total)] + Replay(s.results)
  }

  function Begun<J>(s: Job<J>): Job<J> {
    s.(status := Running, got := Told(s.got, s.subs, Started(s.total)))
  }

  function Pushed<J>(s: Job<J>, i: nat, entry: J): Job<J> {
    s.(results := s.results + [entry], done := s.done + 1, finished := s.finished[i := entry],
       got := Told(s.got, s.subs, Result(entry)))
  }

  function ClosedDown<J>(s: Job<J>): Job<J> {
    s.(status := Finished, got := Told(s.got, s.subs, Done(s.done, s.total)), subs := {})
  }

  /** The job's own error: told to the subscribers, who are then dropped. Tasks that are still running go on
      and store their results. */
  function BrokenOff<J>(s: Job<J>, reason: string): Job<J> {
    s.(status := Broken, got := Told(s.got, s.subs, Failure(reason)), subs := {})
  }

  function Joined<J>(s: Job<J>, c: nat): Job<J> {
    if s.status.Over()
    then s.(got := s.got[c := Greeting(s) + [Done(s.done, s.total)]])
    else s.(got := s.got[c := Greeting(s)], subs := s.subs + {c})
  }

  /** Each account's task runs once and labels its entry with its index; the job closes when all tasks
      have run; each connection is new. Anything else cannot happen and changes nothing. */
  ghost function Step<J>(json: Json<J>, s: Job<J>, e: Event<J>): Job<J> {
    match e
    case Start => if s.status == Queued then Begun(s) else s
    case Finish(i, entry) =>
      var busy := s.status != Queued && s.status != Finished;
      if busy && i < s.total && i !in s.finished && json.idx(entry) == i then Pushed(s, i, entry) else s
    case Close => if s.status == Running && AllRan(s) then ClosedDown(s) else s
    case Break(reason) => if s.status == Running then BrokenOff(s, reason) else s
    case Join(c) => if s.known && c !in s.got then Joined(s, c) else s
    case Leave(c) => if c in s.subs then s.(subs := s.subs - {c}, left := s.left + {c}) else s
    case Forget => s.(known := false)
  }

  ghost function Run<J>(json: Json<J>, s: Job<J>, es: seq<Event<J>>): Job<J>
    decreases |es|
  {
    if es == [] then s else Step(json, Run(json, s, es[..|es| - 1]), es[|es| - 1])
  }

  // ---- The results -----------------------------------------------------------------------

  /** The stored results are one entry for each account whose task ran. */
  ghost predicate Counted<J>(json: Json<J>, s: Job<J>) {
    && ByIdx(json, s.results) == s.finished
    && s.done == |s.results| == |s.finished|
    && (forall i <- s.finished.Keys :: 0 <= i < s.total)
    && (s.status == Finished ==> AllRan(s))
  }

  lemma PushCounts<J>(json: Json<J>, s: Job<J>, i: nat, entry: J)
    requires Counted(json, s) && s.status != Finished && i < s.total && i !in s.finished && json.idx(entry) == i
    ensures Counted(json, Pushed(s, i, entry))
  {
    var t := Pushed(s, i, entry);
    ByIdxAppended(json, s.results, entry);
    assert t.finished.Keys == s.finished.Keys + {i};
  }

  lemma StepKeepsCounted<J>(json: Json<J>, s: Job<J>, e: Event<J>)
    requires Counted(json, s)
    ensures Counted(json, Step(json, s, e)) && Step(json, s, e).total == s.total
  {
    match e
    case Finish(i, entry) =>
      if s.status != Queued && s.status != Finished && i < s.total && i !in s.finished && json.idx(entry) == i {
        PushCounts(json, s, i, entry);
      }
    case _ =>
  }

  lemma {:induction false} RunKeepsCounted<J>(json: Json<J>, total: nat, es: seq<Event<J>>)
    ensures Counted(json, Run(json, Create(total), es)) && Run(json, Create(total), es).total == total
    decreases |es|
  {
    if es != [] {
      RunKeepsCounted(json, total, es[..|es| - 1]);
      StepKeepsCounted(json, Run(json, Create(total), es[..|es| - 1]), es[|es| - 1]);
    }
  }

  // ---- One connection --------------------------------------------------------------------

  /** What connection `c` has been sent, unless it went away: every stored result exactly once and in
      push order, with one final message at the end exactly when the job is over; and it is subscribed as
      long as more is to come. After the job's own error it has the results up to its end. */
  ghost predicate Served<J>(s: Job<J>, c: nat) {
    c in s.got && c !in s.left ==>
      && (if s.status == Broken then ResultsOf(s.got[c]) <= s.results else ResultsOf(s.got[c]) == s.results)
      && (if s.status.Over() then Closed(s.got[c]) else c in s.subs && Open(s.got[c]))
  }

  /** Nobody is subscribed to a job that is over. */
  ghost predicate Dropped<J>(s: Job<J>) { s.status.Over() ==> s.subs == {} }

  lemma Greeted<J>(s: Job<J>)
    ensures ResultsOf(Greeting(s)) == s.results && Open(Greeting(s))
  {
    var m: Msg<J> := State(s.status, s.done, s.total);
    Tell([], m);
    assert [] + [m] == [m];
    Replayed([m], s.results);
  }

  lemma JoinServes<J>(s: Job<J>, c: nat)
    ensures Served(Joined(s, c), c)
  {
    Greeted(s);
    Tell(Greeting(s), Done(s.done, s.total));
  }

  lemma PushServes<J>(s: Job<J>, i: nat, entry: J, c: nat)
    requires Dropped(s) && Served(s, c) && s.status != Finished
    ensures Dropped(Pushed(s, i, entry)) && Served(Pushed(s, i, entry), c)
  {
    if c in s.got { Tell(s.got[c], Result(entry)); }
  }

  lemma EndServes<J>(s: Job<J>, reason: string, c: nat)
    requires Dropped(s) && Served(s, c) && !s.status.Over()
    ensures Dropped(ClosedDown(s)) && Served(ClosedDown(s), c)
    ensures Dropped(BrokenOff(s, reason)) && Served(BrokenOff(s, reason), c)
  {
    if c in s.got {
      Tell(s.got[c], Done(s.done, s.total));
      Tell(s.got[c], Failure(reason));
    }
  }

  lemma JoinKeepsServed<J>(s: Job<J>, d: nat, c: nat)
    requires Dropped(s) && Served(s, c) && d !in s.got
    ensures Dropped(Joined(s, d)) && Served(Joined(s, d), c)
  {
    if d == c { JoinServes(s, c); }
  }

  lemma StepKeepsServed<J>(json: Json<J>, s: Job<J>, e: Event<J>, c: nat)
    requires Dropped(s) && Served(s, c)
    ensures Dropped(Step(json, s, e)) && Served(Step(json, s, e), c)
  {
    match e
    case Start => if c in s.got { Tell(s.got[c], Started(s.total)); }
    case Finish(i, entry) => if s.status != Finished { PushServes(s, i, entry, c); }
    case Close => if s.status == Running { EndServes(s, "", c); }
    case Break(reason) => if s.status == Running { EndServes(s, reason, c); }
    case Join(d) => if d !in s.got { JoinKeepsServed(s, d, c); }
    case Leave(_) =>
    case Forget =>
  }

  lemma {:induction false} RunKeepsServed<J>(json: Json<J>, total: nat, es: seq<Event<J>>, c: nat)
    ensures Dropped(Run(json, Create(total), es)) && Served(Run(json, Create(total), es), c)
    decreases |es|
  {
    if es != [] {
      RunKeepsServed(json, total, es[..|es| - 1], c);
      StepKeepsServed(json, Run(json, Create(total), es[..|es| - 1]), es[|es| - 1], c);
    }
  }

  /** Only leaving makes a connection leave. */
  lemma {:induction false} LeavesByLeaving<J>(json: Json<J>, total: nat, es: seq<Event<J>>, c: nat)
    requires Leave(c) !in es
    ensures c !in Run(json, Create(total), es).left
    decreases |es|
  {
    if es != [] { LeavesByLeaving(json, total, es[..|es| - 1], c); }
  }

  lemma StepLetsIn<J>(json: Json<J>, s: Job<J>, e: Event<J>, c: nat)
    requires s.known && e != Forget
    ensures var t := Step(json, s, e); t.known && (c in s.got || e == Join(c) ==> c in t.got)
  {}

  /** Until it is forgotten, everyone who asks for the job's stream is let in, however early or late. */
  lemma {:induction false} EveryoneIsLetIn<J>(json: Json<J>, total: nat, es: seq<Event<J>>, c: nat)
    requires Forget !in es
    ensures Run(json, Create(total), es).known
    ensures Join(c) in es ==> c in Run(json, Create(total), es).got
    decreases |es|
  {
    if es != [] {
      var init, last := es[..|es| - 1], es[|es| - 1];
      assert es == init + [last];
      EveryoneIsLetIn(json, total, init, c);
      StepLetsIn(json, Run(json, Create(total), init), last, c);
    }
  }

  /** Over every interleaving of completions, joins, leaves and the clean-up of old jobs: whoever
      connected and did not leave has been sent every result so far exactly once, in the order of
      completion; and once the job has finished these are the results of all accounts, followed by
      one done message and nothing else. If the job breaks off, it has been sent the results up to some
      moment, and then one final message. */
  lemma StayersAreServed<J>(json: Json<J>, total: nat, es: seq<Event<J>>, c: nat)
    requires c in Run(json, Create(total), es).got && Leave(c) !in es
    ensures var s := Run(json, Create(total), es);
      && |s.results| == |s.finished| && ByIdx(json, s.results) == s.finished
      && (s.status != Broken ==> ResultsOf(s.got[c]) == s.results)
      && (!s.status.Over() ==> c in s.subs && Open(s.got[c]))
      && (s.status == Finished ==> Closed(s.got[c]) && forall i :: i in s.finished <==> 0 <= i < total)
      && (s.status == Broken ==> Closed(s.got[c]) && ResultsOf(s.got[c]) <= s.results)
  {
    RunKeepsCounted(json, total, es);
    RunKeepsServed(json, total, es, c);
    LeavesByLeaving(json, total, es, c);
  }

  /** In every run: a running job whose tasks have all run can close, and then tells every subscriber. */
  lemma CompletedJobCloses<J>(json: Json<J>, total: nat, es: seq<Event<J>>)
    requires var s := Run(json, Create(total), es); s.status == Running && forall i :: 0 <= i < total ==> i in s.finished
    ensures var s := Run(json, Create(total), es);
            var t := Step(json, s, Close);
      && t.status == Finished && t.subs == {}
      && forall c <- s.subs :: c in s.got ==> c in t.got && t.got[c] == s.got[c] + [Done(s.done, total)]
  {
    RunKeepsCounted(json, total, es);
  }

  lemma ForgottenStep<J>(json: Json<J>, s: Job<J>, e: Event<J>)
    requires !s.known
    ensures !Step(json, s, e).known && Step(json, s, e).got.Keys == s.got.Keys
  {}

  /** Once the job is forgotten, nobody is let in any more. */
  lemma {:induction false} ForgottenIsClosed<J>(json: Json<J>, s: Job<J>, es: seq<Event<J>>)
    ensures var t := Run(json, Step(json, s, Forget), es); !t.known && t.got.Keys == s.got.Keys
    decreases |es|
  {
    if es != [] {
      ForgottenIsClosed(json, s, es[..|es| - 1]);
      ForgottenStep(json, Run(json, Step(json, s, Forget), es[..|es| - 1]), es[|es| - 1]);
    }
  }

  /** Whoever left is sent nothing more. */
  lemma {:induction false} GoneHearNothing<J>(json: Json<J>, s: Job<J>, es: seq<Event<J>>, c: nat)
    requires c in s.got
    ensures var t := Run(json, Step(json, s, Leave(c)), es); c !in t.subs && c in t.got && t.got[c] == s.got[c]
    decreases |es|
  {
    if es != [] { GoneHearNothing(json, s, es[..|es| - 1], c); }
  }

  /** End to end, wherever the network cuts the bytes of the stream and wherever keep-alives fall: a worker
      that stays connected resolves its batch with exactly what every account's task delivered if no chunk
      begins inside a character, and with an entry for exactly the same accounts in any case; if the job broke
      off, with the results up to then. */
  lemma WorkerGetsEveryResult<J(!new)>(json: Json<J>, text: Msg<J> -> string, total: nat, es: seq<Event<J>>,
                                       c: nat, ps: seq<Piece>, chunks: seq<seq<byte>>)
    requires Faithful(json, text)
    requires var s := Run(json, Create(total), es);
             s.status.Over() && c in s.got && MessagesOf(ps) == Wire(s.got[c], text)
    requires Leave(c) !in es
    requires (forall p <- ps :: Writable(p)) && Bytes(chunks) == EncodeAll(Written(ps))
    ensures var s := Run(json, Create(total), es);
            var settled := FeedAll(json, Reader("", map[], None), Received(chunks)).settled;
            exists k: nat :: k <= |s.results| &&
              var all := ByIdx(json, s.results[..k]);
              && (s.status == Finished ==> all == s.finished)
              && ((forall ch <- chunks :: !BeginsInside(ch)) ==> settled == Some(all))
              && (Robust(json) ==> settled.Some? && settled.value.Keys == all.Keys)
  {
    StayersAreServed(json, total, es, c);
    var s := Run(json, Create(total), es);
    CutStreamResolves(json, text, s.got[c], ps, chunks);
    var k: nat := |ResultsOf(s.got[c])|;
    assert s.results[..k] == ResultsOf(s.got[c]);
  }

  // ---- The server ------------------------------------------------------------------------

  class CheckServer<J> {
    const json: Json<J>
    const total: nat
    var status: Status
    var results: seq<J>
    var done: nat
    ghost var finished: map<int, J>
    var subs: set<nat>
    var got: Sent<J>
    ghost var left: set<nat>
    var known: bool

    constructor (json: Json<J>, total: nat)
      ensures View() == Create(total) && this.json == json && this.total == total
    {
      this.json, this.total, status, results, done, finished := json, total, Queued, [], 0, map[];
      subs, got, left, known := {}, map[], {}, true;
    }

    ghost function View(): Job<J>
      reads this
    {
      Job(total, status, results, done, finished, subs, got, left, known)
    }

    /** Writes one message to every subscriber, one after the other. */
    method Publish(m: Msg<J>)
      modifies this`got
      ensures got == Told(old(got), subs, m)
    {
      var rest := subs;
      assert Told(got, {}, m) == got;
      while rest != {}
        invariant rest <= subs
        invariant got == Told(old(got), subs - rest, m)
        decreases |rest|
      {
        var c :| c in rest;
        if c in got { got := got[c := got[c] + [m]]; }
        rest := rest - {c};
      }
      assert subs - {} == subs;
    }

    method Begin()
      requires status == Queued
      modifies this
      ensures View() == Step(json, old(View()), Start)
    {
      status := Running;
      Publish(Started(total));
    }

    method FinishAccount(i: nat, entry: J)
      requires status != Queued && status != Finished && i < total && i !in finished && json.idx(entry) == i
      modifies this
      ensures View() == Step(json, old(View()), Finish(i, entry))
    {
      finished := finished[i := entry];
      results := results + [entry];
      done := done + 1;
      Publish(Result(entry));
    }

    method CloseJob()
      requires status == Running && AllRan(View())
      modifies this
      ensures View() == Step(json, old(View()), Close)
    {
      status := Finished;
      Publish(Done(done, total));
      subs := {};
    }

    /** The catch of the job's promise. */
    method BreakOff(reason: string)
      requires status == Running
      modifies this
      ensures View() == Step(json, old(View()), Break(reason))
    {
      status := Broken;
      Publish(Failure(reason));
      subs := {};
    }

    /** The stream handler: replay, then end or subscribe. `ok` is false for a 404. */
    method Connect(c: nat) returns (ok: bool)
      requires c !in got
      modifies this
      ensures ok == old(known)
      ensures View() == Step(json, old(View()), Join(c))
    {
      ok := known;
      if !known { return; }
      var sent: seq<Msg<J>> := [State(status, done, total)];
      for k := 0 to |results|
        invariant sent == [State(status, done, total)] + Replay(results[..k])
      {
        assert results[..k + 1][..k] == results[..k];
        sent := sent + [Result(results[k])];
      }
      assert results[..|results|] == results;
      if status.Over() {
        got := got[c := sent + [Done(done, total)]];
      } else {
        got := got[c := sent];
        subs := subs + {c};
      }
    }

    method Disconnect(c: nat)
      modifies this
      ensures View() == Step(json, old(View()), Leave(c))
    {
      if c in subs {
        subs := subs - {c};
        left := left + {c};
      }
    }
  }
}
