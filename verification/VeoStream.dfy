/** The result stream of the index-addressed check server: completions fill their slot of `results`;
    a connection first gets the filled slots in index order and then listens. */
module VeoStream {
  import opened Options
  import opened Utf8
  import opened SseReader
  import opened StreamMessages
  import opened CutStreams

  datatype Job<!J> = Job(total: nat, status: Status, results: seq<Option<J>>, done: nat,
                         listeners: seq<nat>, got: Sent<J>, left: set<nat>, known: bool)

  datatype Event<J> = Complete(i: nat, entry: J) | Join(c: nat) | Leave(c: nat) | Forget

  function Create<J>(total: nat): Job<J> {
    Job(total, Running, seq(total, _ => None), 0, [], map[], {}, true)
  }

  /** The filled slots in index order. */
  function Present<J>(slots: seq<Option<J>>): seq<J> {
    if slots == [] then []
    else
      var last := slots[|slots| - 1];
      var earlier := Present(slots[..|slots| - 1]);
      if last.Some? then earlier + [last.value] else earlier
  }

  function Table<J>(slots: seq<Option<J>>): map<int, J> {
    if slots == [] then map[]
    else
      var n := |slots| - 1;
      if slots[n].Some? then Table(slots[..n])[n := slots[n].value] else Table(slots[..n])
  }

  /** One message written to the listeners, one after the other. */
  function ToldOne<J>(got: Sent<J>, c: nat, m: Msg<J>): Sent<J> {
    if c in got then got[c := got[c] + [m]] else got
  }

  function ToldEach<J>(got: Sent<J>, ls: seq<nat>, m: Msg<J>): Sent<J> {
    if ls == [] then got else ToldOne(ToldEach(got, ls[..|ls| - 1], m), ls[|ls| - 1], m)
  }

  function Without(ls: seq<nat>, c: nat): seq<nat> {
    if ls == [] then []
    else
      var earlier := Without(ls[..|ls| - 1], c);
      if ls[|ls| - 1] == c then earlier else earlier + [ls[|ls| - 1]]
  }

  /** The done message of this server carries no counts. */
  function Over<J>(): Msg<J> { Done(0, 0) }

  function Filled<J>(s: Job<J>, i: nat, entry: J): Job<J>
    requires i < |s.results|
  {
    var t := s.(results := s.results[i := Some(entry)], done := s.done + 1,
                got := ToldEach(s.got, s.listeners, Result(entry)));
    if t.done >= t.total
    then t.(status := Finished, got := ToldEach(t.got, t.listeners, Over()), listeners := [])
    else t
  }

  function Joined<J>(s: Job<J>, c: nat): Job<J> {
    var sent := Replay(Present(s.results));
    if s.status == Finished then s.(got := s.got[c := sent + [Over()]])
    else s.(got := s.got[c := sent], listeners := s.listeners + [c])
  }

  /** Each account's task runs once and labels its entry with its index; each connection is new.
      Anything else cannot happen and changes nothing. */
  ghost function Step<J>(json: Json<J>, s: Job<J>, e: Event<J>): Job<J> {
    match e
    case Complete(i, entry) =>
      if i < |s.results| && s.results[i] == None && json.idx(entry) == i then Filled(s, i, entry) else s
    case Join(c) => if s.known && c !in s.got then Joined(s, c) else s
    case Leave(c) => s.(listeners := Without(s.listeners, c), left := s.left + {c})
    case Forget => s.(known := false)
  }

  ghost function Run<J>(json: Json<J>, s: Job<J>, es: seq<Event<J>>): Job<J>
    decreases |es|
  {
    if es == [] then s else Step(json, Run(json, s, es[..|es| - 1]), es[|es| - 1])
  }

  // ---- The slots -------------------------------------------------------------------------

  ghost predicate Labelled<J>(json: Json<J>, slots: seq<Option<J>>) {
    forall i :: 0 <= i < |slots| && slots[i].Some? ==> json.idx(slots[i].value) == i
  }

  lemma {:induction false} PresentIsTable<J>(json: Json<J>, slots: seq<Option<J>>)
    requires Labelled(json, slots)
    ensures ByIdx(json, Present(slots)) == Table(slots)
    decreases |slots|
  {
    if slots != [] {
      var n := |slots| - 1;
      PresentIsTable(json, slots[..n]);
      if slots[n].Some? { ByIdxAppended(json, Present(slots[..n]), slots[n].value); }
    }
  }

  lemma {:induction false} FillOne<J>(slots: seq<Option<J>>, i: nat, entry: J)
    requires i < |slots| && slots[i] == None
    ensures Table(slots[i := Some(entry)]) == Table(slots)[i := entry]
    ensures |Present(slots[i := Some(entry)])| == |Present(slots)| + 1
    decreases |slots|
  {
    var n := |slots| - 1;
    var filled := slots[i := Some(entry)];
    if i < n {
      assert filled[..n] == slots[..n][i := Some(entry)];
      FillOne(slots[..n], i, entry);
    } else {
      assert filled[..n] == slots[..n];
    }
  }

  lemma {:induction false} FullWhenCounted<J>(slots: seq<Option<J>>)
    ensures |Present(slots)| <= |slots|
    ensures |Present(slots)| == |slots| <==> forall i :: 0 <= i < |slots| ==> slots[i].Some?
    decreases |slots|
  {
    if slots != [] {
      var n := |slots| - 1;
      FullWhenCounted(slots[..n]);
      assert forall i :: 0 <= i < n ==> slots[i] == slots[..n][i];
    }
  }

  lemma {:induction false} TableLists<J>(slots: seq<Option<J>>)
    ensures forall i :: i in Table(slots) <==> 0 <= i < |slots| && slots[i].Some?
    ensures forall i :: 0 <= i < |slots| && slots[i].Some? ==> Table(slots)[i] == slots[i].value
    decreases |slots|
  {
    if slots != [] {
      var n := |slots| - 1;
      TableLists(slots[..n]);
      assert forall i :: 0 <= i < n ==> slots[i] == slots[..n][i];
    }
  }

  lemma {:induction false} EmptySlots<J>(slots: seq<Option<J>>)
    requires forall i :: 0 <= i < |slots| ==> slots[i] == None
    ensures Present(slots) == []
    decreases |slots|
  {
    if slots != [] { EmptySlots(slots[..|slots| - 1]); }
  }

  ghost predicate Counted<J>(json: Json<J>, s: Job<J>) {
    && |s.results| == s.total
    && s.done == |Present(s.results)|
    && Labelled(json, s.results)
    && (s.status == Finished ==> s.done == s.total)
  }

  lemma StepKeepsCounted<J>(json: Json<J>, s: Job<J>, e: Event<J>)
    requires Counted(json, s)
    ensures Counted(json, Step(json, s, e)) && Step(json, s, e).total == s.total
  {
    match e
    case Complete(i, entry) =>
      if i < |s.results| && s.results[i] == None && json.idx(entry) == i {
        FillOne(s.results, i, entry);
        FullWhenCounted(s.results[i := Some(entry)]);
      }
    case _ =>
  }

  lemma {:induction false} RunKeepsCounted<J>(json: Json<J>, total: nat, es: seq<Event<J>>)
    ensures Counted(json, Run(json, Create(total), es)) && Run(json, Create(total), es).total == total
    decreases |es|
  {
    if es == [] {
      EmptySlots(Create<J>(total).results);
    } else {
      RunKeepsCounted(json, total, es[..|es| - 1]);
      StepKeepsCounted(json, Run(json, Create(total), es[..|es| - 1]), es[|es| - 1]);
    }
  }

  // ---- One connection --------------------------------------------------------------------

  function Times(ls: seq<nat>, c: nat): nat {
    if ls == [] then 0 else Times(ls[..|ls| - 1], c) + (if ls[|ls| - 1] == c then 1 else 0)
  }

  lemma {:induction false} ToldTimes<J>(got: Sent<J>, ls: seq<nat>, m: Msg<J>, c: nat)
    ensures var told := ToldEach(got, ls, m);
      && told.Keys == got.Keys
      && (c in got && Times(ls, c) == 0 ==> told[c] == got[c])
      && (c in got && Times(ls, c) == 1 ==> told[c] == got[c] + [m])
    decreases |ls|
  {
    if ls != [] { ToldTimes(got, ls[..|ls| - 1], m, c); }
  }

  lemma {:induction false} TimesAfterLeave(ls: seq<nat>, c: nat, d: nat)
    ensures Times(Without(ls, c), d) == if c == d then 0 else Times(ls, d)
    decreases |ls|
  {
    if ls != [] {
      TimesAfterLeave(ls[..|ls| - 1], c, d);
      var w, last := Without(ls[..|ls| - 1], c), ls[|ls| - 1];
      if last != c { assert (w + [last])[..|w|] == w; }
    }
  }

  /** A connection has been sent as many results as there are, and by index they are the stored ones:
      each exactly once. */
  ghost predicate SentAll<J>(json: Json<J>, s: Job<J>, ms: seq<Msg<J>>) {
    ByIdx(json, ResultsOf(ms)) == Table(s.results) && |ResultsOf(ms)| == |Present(s.results)|
  }

  ghost predicate Served<J>(json: Json<J>, s: Job<J>, c: nat) {
    if c in s.got && c !in s.left then
      && SentAll(json, s, s.got[c])
      && (if s.status == Finished then Closed(s.got[c]) && Times(s.listeners, c) == 0
          else Open(s.got[c]) && Times(s.listeners, c) == 1)
    else c !in s.got ==> Times(s.listeners, c) == 0
  }

  lemma FillServes<J>(json: Json<J>, s: Job<J>, i: nat, entry: J, c: nat)
    requires Served(json, s, c) && c in s.got && c !in s.left && s.status != Finished
    requires i < |s.results| && s.results[i] == None && json.idx(entry) == i
    ensures Served(json, Filled(s, i, entry), c)
  {
    var m: Msg<J> := Result(entry);
    var told := ToldEach(s.got, s.listeners, m);
    ToldTimes(s.got, s.listeners, m, c);
    ToldTimes(told, s.listeners, Over(), c);
    Tell(s.got[c], m);
    Tell(s.got[c] + [m], Over());
    FillOne(s.results, i, entry);
    ByIdxAppended(json, ResultsOf(s.got[c]), entry);
  }

  lemma ReplayCovers<J>(json: Json<J>, slots: seq<Option<J>>)
    requires Labelled(json, slots)
    ensures var sent := Replay(Present(slots));
      && Open(sent) && ResultsOf(sent) == Present(slots) && ByIdx(json, ResultsOf(sent)) == Table(slots)
  {
    Replayed([], Present(slots));
    assert [] + Replay(Present(slots)) == Replay(Present(slots));
    PresentIsTable(json, slots);
  }

  lemma OneTimeMore(ls: seq<nat>, c: nat)
    ensures Times(ls + [c], c) == Times(ls, c) + 1
  {
    assert (ls + [c])[..|ls|] == ls;
  }

  lemma JoinServes<J>(json: Json<J>, s: Job<J>, c: nat)
    requires Labelled(json, s.results) && Times(s.listeners, c) == 0
    ensures Served(json, Joined(s, c), c)
  {
    var sent := Replay(Present(s.results));
    ReplayCovers(json, s.results);
    if s.status == Finished {
      Tell(sent, Over());
      assert Joined(s, c).got[c] == sent + [Over()];
    } else {
      OneTimeMore(s.listeners, c);
      assert Joined(s, c).got[c] == sent;
    }
  }

  lemma NoneAfterFull<J>(json: Json<J>, s: Job<J>, i: nat)
    requires Counted(json, s) && i < |s.results| && s.results[i] == None
    ensures s.status != Finished
  {
    FullWhenCounted(s.results);
  }

  lemma StepKeepsServed<J>(json: Json<J>, s: Job<J>, e: Event<J>, c: nat)
    requires Counted(json, s) && Served(json, s, c)
    ensures Served(json, Step(json, s, e), c)
  {
    match e
    case Complete(i, entry) =>
      if i < |s.results| && s.results[i] == None && json.idx(entry) == i {
        NoneAfterFull(json, s, i);
        var told := ToldEach(s.got, s.listeners, Result(entry));
        ToldTimes(s.got, s.listeners, Result(entry), c);
        ToldTimes(told, s.listeners, Over(), c);
        if c in s.got && c !in s.left { FillServes(json, s, i, entry, c); }
      }
    case Join(d) =>
      if s.known && d !in s.got {
        if d == c { JoinServes(json, s, c); }
        assert (s.listeners + [d])[..|s.listeners|] == s.listeners;
      }
    case Leave(d) => TimesAfterLeave(s.listeners, d, c);
    case Forget =>
  }

  lemma {:induction false} RunKeepsServed<J>(json: Json<J>, total: nat, es: seq<Event<J>>, c: nat)
    ensures Served(json, Run(json, Create(total), es), c)
    decreases |es|
  {
    if es != [] {
      RunKeepsServed(json, total, es[..|es| - 1], c);
      RunKeepsCounted(json, total, es[..|es| - 1]);
      StepKeepsServed(json, Run(json, Create(total), es[..|es| - 1]), es[|es| - 1], c);
    }
  }

  lemma {:induction false} LeavesByLeaving<J>(json: Json<J>, total: nat, es: seq<Event<J>>, c: nat)
    requires Leave(c) !in es
    ensures c !in Run(json, Create(total), es).left
    decreases |es|
  {
    if es != [] { LeavesByLeaving(json, total, es[..|es| - 1], c); }
  }

  /** Whoever connected and did not leave has been sent each stored result exactly once, in whatever
      order; once the job has finished these are the results of all accounts, followed by one done
      message and nothing else. The job finishes exactly when the last slot is filled. */
  lemma StayersAreServed<J>(json: Json<J>, total: nat, es: seq<Event<J>>, c: nat)
    requires c in Run(json, Create(total), es).got && Leave(c) !in es
    ensures var s := Run(json, Create(total), es);
      && |s.results| == total && SentAll(json, s, s.got[c])
      && (s.status != Finished ==> Open(s.got[c]) && Times(s.listeners, c) == 1)
      && (s.status == Finished ==> Closed(s.got[c]) && forall i :: 0 <= i < total ==> s.results[i].Some?)
  {
    RunKeepsCounted(json, total, es);
    RunKeepsServed(json, total, es, c);
    LeavesByLeaving(json, total, es, c);
    FullWhenCounted(Run(json, Create(total), es).results);
  }

  /** In every run: the job is finished exactly if it has slots and all of them are filled. */
  lemma {:induction false} FinishedExactly<J>(json: Json<J>, total: nat, es: seq<Event<J>>)
    ensures var s := Run(json, Create(total), es);
            s.status == Finished <==> 0 < total == |s.results| && forall i :: 0 <= i < total ==> s.results[i].Some?
    decreases |es|
  {
    var s := Run(json, Create(total), es);
    RunKeepsCounted(json, total, es);
    FullWhenCounted(s.results);
    if es == [] {
      assert 0 < total ==> s.results[0] == None;
    } else {
      var init, last := es[..|es| - 1], es[|es| - 1];
      FinishedExactly(json, total, init);
      RunKeepsCounted(json, total, init);
      FullWhenCounted(Run(json, Create(total), init).results);
    }
  }

  /** Filling a slot writes to listeners only. */
  lemma FilledTells<J>(s: Job<J>, i: nat, entry: J, c: nat)
    requires i < |s.results|
    ensures var t := Filled(s, i, entry);
      && t.got.Keys == s.got.Keys && t.known == s.known && (t.listeners == s.listeners || t.listeners == [])
      && (c in s.got && Times(s.listeners, c) == 0 ==> t.got[c] == s.got[c])
  {
    ToldTimes(s.got, s.listeners, Result(entry), c);
    ToldTimes(ToldEach(s.got, s.listeners, Result(entry)), s.listeners, Over(), c);
  }

  lemma StepLetsIn<J>(json: Json<J>, s: Job<J>, e: Event<J>, c: nat)
    requires s.known && e != Forget
    ensures var t := Step(json, s, e); t.known && (c in s.got || e == Join(c) ==> c in t.got)
  {
    match e
    case Complete(i, entry) => if i < |s.results| { FilledTells(s, i, entry, c); }
    case _ =>
  }

  /** Until it is forgotten, everyone who asks for the job's stream is let in, however early or late. */
  lemma {:induction false} EveryoneIsLetIn<J>(json: Json<J>, total: nat, es: seq<Event<J>>, c: nat)
    requires Forget !in es
    ensures Run(json, Create(total), es).known
    ensures Join(c) in es ==> c in Run(json, Create(total), es).got
    decreases |es|
  {
    if es != [] {
      var init, last := es[..|es| - 1], es[|es| - 1];
      assert es == init + [last];
      EveryoneIsLetIn(json, total, init, c);
      StepLetsIn(json, Run(json, Create(total), init), last, c);
    }
  }

  lemma LeaveStep<J>(json: Json<J>, s: Job<J>, e: Event<J>, c: nat)
    requires c in s.got && Times(s.listeners, c) == 0
    ensures var t := Step(json, s, e); c in t.got && t.got[c] == s.got[c] && Times(t.listeners, c) == 0
  {
    match e
    case Complete(i, entry) => if i < |s.results| { FilledTells(s, i, entry, c); }
    case Join(d) => if c != d { assert (s.listeners + [d])[..|s.listeners|] == s.listeners; }
    case Leave(d) => TimesAfterLeave(s.listeners, d, c);
    case Forget =>
  }

  lemma ForgottenStep<J>(json: Json<J>, s: Job<J>, e: Event<J>)
    requires !s.known
    ensures !Step(json, s, e).known && Step(json, s, e).got.Keys == s.got.Keys
  {
    match e
    case Complete(i, entry) => if i < |s.results| { FilledTells(s, i, entry, i); }
    case _ =>
  }

  /** Once the job is forgotten, nobody is let in any more. */
  lemma {:induction false} ForgottenIsClosed<J>(json: Json<J>, s: Job<J>, es: seq<Event<J>>)
    ensures var t := Run(json, Step(json, s, Forget), es); !t.known && t.got.Keys == s.got.Keys
    decreases |es|
  {
    if es != [] {
      ForgottenIsClosed(json, s, es[..|es| - 1]);
      ForgottenStep(json, Run(json, Step(json, s, Forget), es[..|es| - 1]), es[|es| - 1]);
    }
  }

  /** Whoever left is sent nothing more. */
  lemma {:induction false} GoneHearNothing<J>(json: Json<J>, s: Job<J>, es: seq<Event<J>>, c: nat)
    requires c in s.got
    ensures var t := Run(json, Step(json, s, Leave(c)), es);
            c in t.got && t.got[c] == s.got[c] && Times(t.listeners, c) == 0
    decreases |es|
  {
    if es == [] {
      TimesAfterLeave(s.listeners, c, c);
    } else {
      GoneHearNothing(json, s, es[..|es| - 1], c);
      LeaveStep(json, Run(json, Step(json, s, Leave(c)), es[..|es| - 1]), es[|es| - 1], c);
    }
  }

  /** End to end, as for the push-order server: the worker resolves with the full table if no chunk begins
      inside a character, and with an entry for every index in any case. */
  lemma WorkerGetsEveryResult<J(!new)>(json: Json<J>, text: Msg<J> -> string, total: nat, es: seq<Event<J>>,
                                       c: nat, ps: seq<Piece>, chunks: seq<seq<byte>>)
    requires Faithful(json, text)
    requires var s := Run(json, Create(total), es);
             s.status == Finished && c in s.got && MessagesOf(ps) == Wire(s.got[c], text)
    requires Leave(c) !in es
    requires (forall p <- ps :: Writable(p)) && Bytes(chunks) == EncodeAll(Written(ps))
    ensures var s := Run(json, Create(total), es);
            var settled := FeedAll(json, Reader("", map[], None), Received(chunks)).settled;
      && |s.results| == total
      && ((forall ch <- chunks :: !BeginsInside(ch)) ==> settled == Some(Table(s.results)))
      && (Robust(json) ==> settled.Some? && settled.value.Keys == Table(s.results).Keys)
      && (forall i :: 0 <= i < total ==> i in Table(s.results) && s.results[i] == Some(Table(s.results)[i]))
  {
    StayersAreServed(json, total, es, c);
    CutStreamResolves(json, text, Run(json, Create(total), es).got[c], ps, chunks);
    TableLists(Run(json, Create(total), es).results);
  }

  // ---- The server ------------------------------------------------------------------------

  class CheckServer<J(==)> {
    const json: Json<J>
    const total: nat
    var status: Status
    var results: array<Option<J>>
    var done: nat
    var listeners: seq<nat>
    var got: Sent<J>
    ghost var left: set<nat>
    var known: bool

    constructor (json: Json<J>, total: nat)
      ensures View() == Create(total) && this.json == json && fresh(results)
    {
      this.json, this.total, status, done := json, total, Running, 0;
      listeners, got, left, known := [], map[], {}, true;
      results := new Option<J>[total](_ => None);
    }

    ghost function View(): Job<J>
      reads this, results
    {
      Job(total, status, results[..], done, listeners, got, left, known)
    }

    method Publish(m: Msg<J>)
      modifies this`got
      ensures got == ToldEach(old(got), listeners, m)
    {
      for k := 0 to |listeners|
        invariant got == ToldEach(old(got), listeners[..k], m)
      {
        assert listeners[..k + 1][..k] == listeners[..k];
        var c := listeners[k];
        if c in got { got := got[c := got[c] + [m]]; }
      }
      assert listeners[..|listeners|] == listeners;
    }

    /** The end of one account's task. */
    method CompleteAccount(i: nat, entry: J)
      requires i < results.Length && results[i] == None && json.idx(entry) == i
      modifies this, results
      ensures results == old(results)
      ensures View() == Step(json, old(View()), Complete(i, entry))
    {
      results[i] := Some(entry);
      done := done + 1;
      Publish(Result(entry));
      if done >= total {
        status := Finished;
        Publish(Over());
        listeners := [];
      }
    }

    method Connect(c: nat) returns (ok: bool)
      requires c !in got
      modifies this
      ensures ok == old(known) && results == old(results)
      ensures View() == Step(json, old(View()), Join(c))
    {
      ok := known;
      if !known { return; }
      var sent: seq<Msg<J>> := [];
      for k := 0 to results.Length
        invariant sent == Replay(Present(results[..k]))
      {
        assert results[..k + 1][..k] == results[..k];
        if results[k].Some? {
          ghost var rs := Present(results[..k]);
          assert Present(results[..k + 1]) == rs + [results[k].value];
          assert (rs + [results[k].value])[..|rs|] == rs;
          sent := sent + [Result(results[k].value)];
        }
      }
      assert results[..results.Length] == results[..];
      if status == Finished {
        got := got[c := sent + [Over()]];
      } else {
        got := got[c := sent];
        listeners := listeners + [c];
      }
    }

    method Disconnect(c: nat)
      modifies this
      ensures results == old(results)
      ensures View() == Step(json, old(View()), Leave(c))
    {
      var kept: seq<nat> := [];
      for k := 0 to |listeners|
        invariant kept == Without(listeners[..k], c)
      {
        assert listeners[..k + 1][..k] == listeners[..k];
        if listeners[k] != c { kept := kept + [listeners[k]]; }
      }
      assert listeners[..|listeners|] == listeners;
      listeners := kept;
      left := left + {c};
    }
  }
}
