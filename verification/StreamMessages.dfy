/** What a check server tells its stream subscribers, and what a reader makes of it. */
module StreamMessages {
  import opened Options
  import opened Strings
  import opened SseReader

  datatype Status = Queued | Running | Finished | Broken
  {
    predicate Over() { this == Finished || this == Broken }
  }

  datatype Msg<J> =
    | State(status: Status, done: nat, total: nat)
    | Started(total: nat)
    | Result(entry: J)
    | Done(done: nat, total: nat)
    | Failure(reason: string)
  {
    /** The last message of a stream. */
    predicate Final() { Done? || Failure? }
  }

  /** Everything written so far to each connection. */
  type Sent<J> = map<nat, seq<Msg<J>>>

  /** One message written to all subscribers. */
  function Told<J>(got: Sent<J>, subs: set<nat>, m: Msg<J>): Sent<J> {
    map c | c in got :: if c in subs then got[c] + [m] else got[c]
  }

  function ResultsOf<J>(ms: seq<Msg<J>>): seq<J> {
    if ms == [] then []
    else
      var last := ms[|ms| - 1];
      var earlier := ResultsOf(ms[..|ms| - 1]);
      if last.Result? then earlier + [last.entry] else earlier
  }

  /** The messages that replay some results. */
  function Replay<J>(rs: seq<J>): seq<Msg<J>> {
    if rs == [] then [] else Replay(rs[..|rs| - 1]) + [Result(rs[|rs| - 1])]
  }

  /** No final message yet. */
  ghost predicate Open<J>(ms: seq<Msg<J>>) {
    forall m <- ms :: !m.Final()
  }

  /** A finished stream: exactly one final message, at the end. */
  ghost predicate Closed<J>(ms: seq<Msg<J>>) {
    ms != [] && ms[|ms| - 1].Final() && Open(ms[..|ms| - 1])
  }

  /** The results by index; a later result for an index replaces an earlier one. */
  function ByIdx<J>(json: Json<J>, rs: seq<J>): map<int, J> {
    if rs == [] then map[]
    else ByIdx(json, rs[..|rs| - 1])[json.idx(rs[|rs| - 1]) := rs[|rs| - 1]]
  }

  lemma Tell<J>(ms: seq<Msg<J>>, m: Msg<J>)
    ensures ResultsOf(ms + [m]) == if m.Result? then ResultsOf(ms) + [m.entry] else ResultsOf(ms)
    ensures Open(ms) && !m.Final() ==> Open(ms + [m])
    ensures Open(ms) && m.Final() ==> Closed(ms + [m])
  {
    assert (ms + [m])[..|ms|] == ms;
  }

  lemma ReplaySnoc<J>(head: seq<Msg<J>>, rs: seq<J>)
    requires rs != []
    ensures head + Replay(rs) == head + Replay(rs[..|rs| - 1]) + [Result(rs[|rs| - 1])]
  {
    Associative(head, Replay(rs[..|rs| - 1]), [Result(rs[|rs| - 1])]);
  }

  lemma {:induction false} Replayed<J>(head: seq<Msg<J>>, rs: seq<J>)
    requires ResultsOf(head) == [] && Open(head)
    ensures ResultsOf(head + Replay(rs)) == rs && Open(head + Replay(rs))
    decreases |rs|
  {
    if rs == [] {
      assert head + Replay(rs) == head;
    } else {
      var init, last := rs[..|rs| - 1], rs[|rs| - 1];
      ReplaySnoc(head, rs);
      Replayed(head, init);
      Tell(head + Replay(init), Result(last));
      assert init + [last] == rs;
    }
  }

  lemma ByIdxAppended<J>(json: Json<J>, rs: seq<J>, e: J)
    ensures ByIdx(json, rs + [e]) == ByIdx(json, rs)[json.idx(e) := e]
  {
    assert (rs + [e])[..|rs|] == rs;
  }

  // ---- On the wire -----------------------------------------------------------------------

  function Name<J>(m: Msg<J>): string {
    match m
    case State(_, _, _) => "state"
    case Started(_) => "started"
    case Result(_) => "result"
    case Done(_, _) => "done"
    case Failure(_) => "error"
  }

  /** The text of a message's payload reads back, is not empty and holds no raw line end. */
  ghost predicate Faithful<J(!new)>(json: Json<J>, text: Msg<J> -> string) {
    && (forall m :: text(m) != "" && '\n' !in text(m) && json.parse(text(m)).Some?)
    && (forall e :: json.parse(text(Result(e))) == Some(e))
  }

  function Wire<J>(ms: seq<Msg<J>>, text: Msg<J> -> string): seq<Message> {
    if ms == [] then []
    else
      var last := ms[|ms| - 1];
      Wire(ms[..|ms| - 1], text) + [Message(Name(last), text(last))]
  }

  lemma {:induction false} TakeLast<J>(json: Json<J>, r: Reader<J>, ms: seq<Message>, m: Message)
    ensures TakeMessages(json, r, ms + [m]) == TakeMessage(json, TakeMessages(json, r, ms), m)
    decreases |ms|
  {
    if ms == [] {
      assert ([m])[1..] == [];
    } else {
      assert (ms + [m])[1..] == ms[1..] + [m];
      TakeLast(json, TakeMessage(json, r, ms[0]), ms[1..], m);
    }
  }

  lemma TakeWired<J(!new)>(json: Json<J>, text: Msg<J> -> string, r: Reader<J>, m: Msg<J>)
    requires Faithful(json, text)
    ensures TakeMessage(json, r, Message(Name(m), text(m))) ==
            match m
            case Result(e) => r.(byIdx := r.byIdx[json.idx(e) := e])
            case State(_, _, _) => r
            case Started(_) => r
            case _ => if r.settled == None then r.(settled := Some(r.byIdx)) else r
  {
    assert json.parse(text(m)).Some?;
    if m.State? || m.Started? {
      assert "state"[1] == 't' && "started"[1] == 't' && "result"[1] == 'e' && "done"[1] == 'o' && "error"[1] == 'r';
    }
  }

  /** The reader after a whole stream of messages, handed over one by one. */
  function After<J>(json: Json<J>, text: Msg<J> -> string, ms: seq<Msg<J>>): Reader<J> {
    TakeMessages(json, Reader("", map[], None), Wire(ms, text))
  }

  lemma AfterOneMore<J(!new)>(json: Json<J>, text: Msg<J> -> string, ms: seq<Msg<J>>)
    requires Faithful(json, text) && ms != []
    ensures var last := ms[|ms| - 1];
            After(json, text, ms) == TakeMessage(json, After(json, text, ms[..|ms| - 1]), Message(Name(last), text(last)))
  {
    var last := ms[|ms| - 1];
    TakeLast(json, Reader("", map[], None), Wire(ms[..|ms| - 1], text), Message(Name(last), text(last)));
  }

  lemma {:induction false} OpenStreamCollects<J(!new)>(json: Json<J>, text: Msg<J> -> string, ms: seq<Msg<J>>)
    requires Faithful(json, text) && Open(ms)
    ensures After(json, text, ms) == Reader("", ByIdx(json, ResultsOf(ms)), None)
  {
    if ms != [] {
      var init, last := ms[..|ms| - 1], ms[|ms| - 1];
      OpenStreamCollects(json, text, init);
      AfterOneMore(json, text, ms);
      TakeWired(json, text, After(json, text, init), last);
      assert last in ms;
      if last.Result? { ByIdxAppended(json, ResultsOf(init), last.entry); }
    }
  }

  /** A reader of a finished stream resolves with the stream's results by index, however the
      characters arrive and whatever keep-alives lie between the messages. */
  lemma ClosedStreamResolves<J(!new)>(json: Json<J>, text: Msg<J> -> string, ms: seq<Msg<J>>,
                                      ps: seq<Piece>, chunks: seq<string>)
    requires Faithful(json, text) && Closed(ms)
    requires MessagesOf(ps) == Wire(ms, text)
    requires (forall p <- ps :: Writable(p)) && Concat(chunks) == Written(ps)
    ensures FeedAll(json, Reader("", map[], None), chunks).settled == Some(ByIdx(json, ResultsOf(ms)))
  {
    var init, last := ms[..|ms| - 1], ms[|ms| - 1];
    WritesAreRead(json, ps, chunks);
    assert FeedAll(json, Reader("", map[], None), chunks) == After(json, text, ms);
    OpenStreamCollects(json, text, init);
    AfterOneMore(json, text, ms);
    TakeWired(json, text, After(json, text, init), last);
  }
}
