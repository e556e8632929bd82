/** The incremental reader of a server-sent-event stream, a subset of section 9.2 of the HTML Living
    Standard: blocks end at an empty line, and of several `data` lines only the last one counts. */
module SseReader {
  import opened Options
  import opened Strings
  import opened Utf8
  import opened DamagedText

  // ---- Blocks ----------------------------------------------------------------------------

  datatype Cut = Cut(blocks: seq<string>, rest: string)

  /** All complete blocks of the buffer, and what is left. */
  function Blocks(buf: string): Cut
    decreases |buf|
  {
    var sep := IndexOf(buf, "\n\n");
    if sep == -1 then Cut([], buf)
    else
      var c := Blocks(buf[sep + 2..]);
      Cut([buf[..sep]] + c.blocks, c.rest)
  }

  lemma PieceHasNoGap(buf: string, sep: nat)
    requires sep == IndexOf(buf, "\n\n")
    ensures IndexOf(buf[..sep], "\n\n") == -1
  {
    var i := IndexOf(buf[..sep], "\n\n");
    IndexOfFinds(buf, "\n\n");
    IndexOfFinds(buf[..sep], "\n\n");
    if i >= 0 {
      assert buf[..sep][i..i + 2] == buf[i..i + 2];
      assert OccursAt(buf, "\n\n", i);
    }
  }

  /** The blocks and the rest are the buffer, cut at its first possible places. */
  lemma {:induction false} BlocksLoseNothing(buf: string)
    ensures var c := Blocks(buf);
      && Join(c.blocks + [c.rest], "\n\n") == buf
      && (forall b <- c.blocks :: IndexOf(b, "\n\n") == -1) && IndexOf(c.rest, "\n\n") == -1
    decreases |buf|
  {
    var sep := IndexOf(buf, "\n\n");
    if sep == -1 {
      assert [] + [buf] == [buf];
    } else {
      var c := Blocks(buf[sep + 2..]);
      BlocksLoseNothing(buf[sep + 2..]);
      PieceHasNoGap(buf, sep);
      JoinFirst(buf[..sep], c.blocks + [c.rest], "\n\n");
      Associative([buf[..sep]], c.blocks, [c.rest]);
      CutAtGap(buf, sep);
    }
  }

  lemma CutAtGap(buf: string, sep: nat)
    requires sep == IndexOf(buf, "\n\n")
    ensures buf == buf[..sep] + ("\n\n" + buf[sep + 2..])
  {
    IndexOfFinds(buf, "\n\n");
    assert buf == buf[..sep] + (buf[sep..sep + 2] + buf[sep + 2..]);
  }

  lemma BlocksUnfold(buf: string, head: string, tail: string)
    requires buf == head + "\n\n" + tail && IndexOf(buf, "\n\n") == |head|
    ensures Blocks(buf) == Cut([head] + Blocks(tail).blocks, Blocks(tail).rest)
  {
    assert buf[..|head|] == head && buf[|head| + 2..] == tail;
  }

  /** Reading on from the rest continues where reading everything at once would be. */
  lemma {:induction false} BlocksContinue(a: string, b: string)
    ensures Blocks(a + b).blocks == Blocks(a).blocks + Blocks(Blocks(a).rest + b).blocks
    ensures Blocks(a + b).rest == Blocks(Blocks(a).rest + b).rest
    decreases |a|
  {
    var sep := IndexOf(a, "\n\n");
    if sep == -1 {
      assert Blocks(a) == Cut([], a);
      assert [] + Blocks(a + b).blocks == Blocks(a + b).blocks;
    } else {
      var head, tail := a[..sep], a[sep + 2..];
      IndexOfFinds(a, "\n\n");
      IndexOfExtended(a, b, "\n\n");
      assert a == head + "\n\n" + tail;
      assert a + b == head + "\n\n" + (tail + b);
      BlocksUnfold(a, head, tail);
      BlocksUnfold(a + b, head, tail + b);
      BlocksContinue(tail, b);
      Associative([head], Blocks(tail).blocks, Blocks(Blocks(tail).rest + b).blocks);
    }
  }

  // ---- One block -------------------------------------------------------------------------

  datatype Message = Message(name: string, data: string)

  /** The last line with the prefix, without it; `default` if no line has it. */
  function LastField(lines: seq<string>, prefix: string, default: string): string {
    if lines == [] then default
    else
      var last := lines[|lines| - 1];
      if prefix <= last then last[|prefix|..] else LastField(lines[..|lines| - 1], prefix, default)
  }

  /** No message comes from a block without data, such as a keep-alive comment. */
  function ParseBlock(block: string): Option<Message> {
    var lines := Split(block, '\n');
    var data := LastField(lines, "data: ", "");
    if data == "" then None else Some(Message(Trim(LastField(lines, "event: ", "message")), data))
  }

  // ---- The reader's state ----------------------------------------------------------------

  /** What is buffered, the results so far, and, once the stream said done or error, the results that
      the batch resolved with. `J` is the type of parsed JSON. */
  datatype Reader<!J> = Reader(buf: string, byIdx: map<int, J>, settled: Option<map<int, J>>)

  datatype Json<!J> = Json(parse: string -> Option<J>, idx: J -> int)

  predicate Terminal<J>(json: Json<J>, block: string) {
    var m := ParseBlock(block);
    m.Some? && json.parse(m.value.data).Some? && (m.value.name == "done" || m.value.name == "error")
  }

  function Take<J>(json: Json<J>, r: Reader<J>, block: string): Reader<J> {
    match ParseBlock(block)
    case None => r
    case Some(m) => TakeMessage(json, r, m)
  }

  function TakeMessage<J>(json: Json<J>, r: Reader<J>, m: Message): Reader<J> {
    match json.parse(m.data)
    case None => r
    case Some(j) =>
      if m.name == "result" then r.(byIdx := r.byIdx[json.idx(j) := j])
      else if (m.name == "done" || m.name == "error") && r.settled == None then r.(settled := Some(r.byIdx))
      else r
  }

  function TakeAll<J>(json: Json<J>, r: Reader<J>, blocks: seq<string>): Reader<J>
    decreases |blocks|
  {
    if blocks == [] then r else TakeAll(json, Take(json, r, blocks[0]), blocks[1..])
  }

  /** Takes every complete block out of the buffer. */
  function Drain<J>(json: Json<J>, r: Reader<J>): Reader<J> {
    var c := Blocks(r.buf);
    TakeAll(json, r, c.blocks).(buf := c.rest)
  }

  function Feed<J>(json: Json<J>, r: Reader<J>, chunk: string): Reader<J> {
    Drain(json, r.(buf := r.buf + chunk))
  }

  function FeedAll<J>(json: Json<J>, r: Reader<J>, chunks: seq<string>): Reader<J>
    decreases |chunks|
  {
    if chunks == [] then r else FeedAll(json, Feed(json, r, chunks[0]), chunks[1..])
  }

  lemma {:induction false} TakeAllBufferless<J>(json: Json<J>, r: Reader<J>, blocks: seq<string>, buf: string)
    ensures TakeAll(json, r.(buf := buf), blocks) == TakeAll(json, r, blocks).(buf := buf)
    decreases |blocks|
  {
    if blocks != [] { TakeAllBufferless(json, Take(json, r, blocks[0]), blocks[1..], buf); }
  }

  lemma {:induction false} TakeAllSplit<J>(json: Json<J>, r: Reader<J>, a: seq<string>, b: seq<string>)
    ensures TakeAll(json, r, a + b) == TakeAll(json, TakeAll(json, r, a), b)
    decreases |a|
  {
    if a == [] {
      assert a + b == b;
    } else {
      assert (a + b)[1..] == a[1..] + b;
      TakeAllSplit(json, Take(json, r, a[0]), a[1..], b);
    }
  }

  lemma DrainTwice<J>(json: Json<J>, r: Reader<J>, more: string)
    ensures var d := Drain(json, r);
            Drain(json, r.(buf := r.buf + more)) == Drain(json, d.(buf := d.buf + more))
  {
    var c := Blocks(r.buf);
    var c2 := Blocks(c.rest + more);
    BlocksContinue(r.buf, more);
    TakeAllSplit(json, r, c.blocks, c2.blocks);
    TakeAllBufferless(json, r, c.blocks + c2.blocks, r.buf + more);
    TakeAllBufferless(json, TakeAll(json, r, c.blocks), c2.blocks, c.rest + more);
  }

  lemma FeedIsDrained<J>(json: Json<J>, r: Reader<J>, chunk: string)
    ensures Drain(json, Feed(json, r, chunk)) == Feed(json, r, chunk)
  {
    var r1 := r.(buf := r.buf + chunk);
    assert r1.buf + "" == r1.buf && Drain(json, r1).buf + "" == Drain(json, r1).buf;
    DrainTwice(json, r1, "");
    assert r1.(buf := r1.buf) == r1 && Drain(json, r1).(buf := Drain(json, r1).buf) == Drain(json, r1);
  }

  lemma FeedTwice<J>(json: Json<J>, r: Reader<J>, a: string, b: string)
    ensures Feed(json, Feed(json, r, a), b) == Feed(json, r, a + b)
  {
    var r1 := r.(buf := r.buf + a);
    DrainTwice(json, r1, b);
    Concatenated(r.buf, a, b);
    assert r1.(buf := r1.buf + b) == r.(buf := r.buf + (a + b));
  }

  lemma Concatenated(a: string, b: string, c: string)
    ensures (a + b) + c == a + (b + c)
  {}

  /** However a character stream is cut into chunks, the reader ends in the state it would reach by
      reading the whole stream at once: same results, same settlement, same left-over buffer. */
  lemma {:induction false} ChunkingInvariant<J>(json: Json<J>, r: Reader<J>, chunks: seq<string>)
    requires Drain(json, r) == r
    ensures FeedAll(json, r, chunks) == Feed(json, r, Concat(chunks))
    decreases |chunks|
  {
    if chunks == [] {
      assert r.buf + "" == r.buf;
    } else {
      FeedIsDrained(json, r, chunks[0]);
      ChunkingInvariant(json, Feed(json, r, chunks[0]), chunks[1..]);
      FeedTwice(json, r, chunks[0], Concat(chunks[1..]));
    }
  }

  lemma SameStreamSameState<J>(json: Json<J>, a: seq<string>, b: seq<string>)
    requires Concat(a) == Concat(b)
    ensures FeedAll(json, Reader("", map[], None), a) == FeedAll(json, Reader("", map[], None), b)
  {
    ChunkingInvariant(json, Reader("", map[], None), a);
    ChunkingInvariant(json, Reader("", map[], None), b);
  }

  /** The batch resolves with the results before the first done or error; later blocks do not matter,
      and without a terminal block nothing is resolved. */
  lemma {:induction false} SettlesAtFirstTerminal<J>(json: Json<J>, r: Reader<J>, before: seq<string>, last: string,
                                                     after: seq<string>)
    requires r.settled == None
    requires forall b <- before :: !Terminal(json, b)
    ensures TakeAll(json, r, before).settled == None
    ensures Terminal(json, last) ==>
              TakeAll(json, r, before + [last] + after).settled == Some(TakeAll(json, r, before).byIdx)
    decreases |before|
  {
    if before == [] {
      assert (before + [last] + after)[1..] == after;
      if Terminal(json, last) { SettledForGood(json, Take(json, r, last), after); }
    } else {
      assert (before + [last] + after)[1..] == before[1..] + [last] + after;
      assert before[0] in before;
      SettlesAtFirstTerminal(json, Take(json, r, before[0]), before[1..], last, after);
    }
  }

  lemma {:induction false} SettledForGood<J>(json: Json<J>, r: Reader<J>, blocks: seq<string>)
    requires r.settled.Some?
    ensures TakeAll(json, r, blocks).settled == r.settled
    decreases |blocks|
  {
    if blocks != [] { SettledForGood(json, Take(json, r, blocks[0]), blocks[1..]); }
  }

  // ---- What the servers write --------------------------------------------------------------

  /** One write of a server: a named message or a keep-alive comment. */
  datatype Piece = Event(message: Message) | KeepAlive

  /** JSON text is never empty and has no raw line end. */
  predicate Writable(p: Piece) {
    p.Event? ==>
      && p.message.data != "" && '\n' !in p.message.data
      && '\n' !in p.message.name && Trim(p.message.name) == p.message.name
  }

  function BlockOf(p: Piece): string {
    match p
    case KeepAlive => ":"
    case Event(m) => "event: " + m.name + "\ndata: " + m.data
  }

  /** The text of some writes, in order. */
  function Written(ps: seq<Piece>): string {
    if ps == [] then "" else BlockOf(ps[0]) + "\n\n" + Written(ps[1..])
  }

  function BlocksOf(ps: seq<Piece>): (bs: seq<string>)
    ensures |bs| == |ps|
  {
    if ps == [] then [] else [BlockOf(ps[0])] + BlocksOf(ps[1..])
  }

  function MessagesOf(ps: seq<Piece>): seq<Message> {
    if ps == [] then []
    else (if ps[0].Event? then [ps[0].message] else []) + MessagesOf(ps[1..])
  }

  function TakeMessages<J>(json: Json<J>, r: Reader<J>, ms: seq<Message>): Reader<J>
    decreases |ms|
  {
    if ms == [] then r else TakeMessages(json, TakeMessage(json, r, ms[0]), ms[1..])
  }

  /** A block's only line end is followed by a 'd'. */
  lemma LineEndInBlock(m: Message, i: nat)
    requires Writable(Event(m)) && i < |BlockOf(Event(m))|
    ensures var b := BlockOf(Event(m)); b[i] == '\n' ==> i + 1 < |b| && b[i + 1] == 'd'
  {
    var b := BlockOf(Event(m));
    var n := 7 + |m.name|;
    assert b == "event: " + m.name + ("\ndata: " + m.data);
    assert b[i] == if i < n then ("event: " + m.name)[i] else ("\ndata: " + m.data)[i - n];
  }

  lemma BlockEndsAtGap(p: Piece, rest: string)
    requires Writable(p)
    ensures IndexOf(BlockOf(p) + "\n\n" + rest, "\n\n") == |BlockOf(p)|
  {
    var b := BlockOf(p);
    var t := b + "\n\n" + rest;
    IndexOfFinds(t, "\n\n");
    assert t[|b|..|b| + 2] == "\n\n";
    assert OccursAt(t, "\n\n", |b|);
    forall i | 0 <= i < |b| ensures !OccursAt(t, "\n\n", i) {
      if p.Event? { LineEndInBlock(p.message, i); }
      assert t[i] == b[i] && (i + 1 < |b| ==> t[i + 1] == b[i + 1]);
      assert t[i..i + 2] == [t[i], t[i + 1]];
    }
  }

  lemma BlockReads(p: Piece)
    requires Writable(p)
    ensures ParseBlock(BlockOf(p)) == if p.Event? then Some(p.message) else None
  {
    match p
    case KeepAlive =>
      SplitWhole(":", '\n');
      assert Split(":", '\n') == [":"];
      assert [":"][..0] == [];
      assert LastField([":"], "data: ", "") == LastField([":"][..0], "data: ", "") == "";
    case Event(m) =>
      var l0, l1 := "event: " + m.name, "data: " + m.data;
      assert BlockOf(p) == l0 + ['\n'] + l1;
      SplitFirst(l0, l1, '\n');
      SplitWhole(l1, '\n');
      var lines := [l0, l1];
      assert Split(BlockOf(p), '\n') == lines;
      assert lines[..1] == [l0];
      assert "event: "[0] == 'e' && l1[0] == 'd';
      assert "data: " <= l1 && l1[6..] == m.data;
      assert "event: " <= l0 && l0[7..] == m.name;
      assert LastField(lines, "data: ", "") == m.data;
      assert LastField(lines, "event: ", "message") == LastField([l0], "event: ", "message") == m.name;
  }

  lemma {:induction false} WrittenCuts(ps: seq<Piece>)
    requires forall p <- ps :: Writable(p)
    ensures Blocks(Written(ps)) == Cut(BlocksOf(ps), "")
    decreases |ps|
  {
    if ps == [] {
      assert IndexOf("", "\n\n") == -1;
    } else {
      assert ps[0] in ps;
      BlockEndsAtGap(ps[0], Written(ps[1..]));
      BlocksUnfold(Written(ps), BlockOf(ps[0]), Written(ps[1..]));
      WrittenCuts(ps[1..]);
    }
  }

  lemma {:induction false} BlocksTake<J>(json: Json<J>, r: Reader<J>, ps: seq<Piece>)
    requires forall p <- ps :: Writable(p)
    ensures TakeAll(json, r, BlocksOf(ps)) == TakeMessages(json, r, MessagesOf(ps))
    decreases |ps|
  {
    if ps != [] {
      assert ps[0] in ps;
      BlockReads(ps[0]);
      BlocksTake(json, Take(json, r, BlockOf(ps[0])), ps[1..]);
      assert BlocksOf(ps)[1..] == BlocksOf(ps[1..]);
      if ps[0].Event? {
        assert MessagesOf(ps)[1..] == MessagesOf(ps[1..]);
      } else {
        assert MessagesOf(ps) == MessagesOf(ps[1..]);
      }
    }
  }

  /** However the text of a server's writes is cut on the way, the reader ends as if it had been handed
      the messages themselves, one by one, and keeps nothing in its buffer. */
  lemma WritesAreRead<J>(json: Json<J>, ps: seq<Piece>, chunks: seq<string>)
    requires (forall p <- ps :: Writable(p)) && Concat(chunks) == Written(ps)
    ensures FeedAll(json, Reader("", map[], None), chunks)
            == TakeMessages(json, Reader("", map[], None), MessagesOf(ps))
  {
    var r: Reader<J> := Reader("", map[], None);
    ChunkingInvariant(json, r, chunks);
    WrittenCuts(ps);
    BlocksTake(json, r, ps);
    assert "" + Written(ps) == Written(ps);
    TakeAllBufferless(json, r, BlocksOf(ps), Written(ps));
    BuffersAlike(json, r, MessagesOf(ps));
  }

  /** The same for the bytes on the wire, as long as no chunk begins inside a character; otherwise not even
      the text that reaches the reader is the one that was written (see ReceivedExactly in module DamagedText). */
  lemma BytesAreRead<J>(json: Json<J>, ps: seq<Piece>, chunks: seq<seq<byte>>)
    requires (forall p <- ps :: Writable(p)) && Bytes(chunks) == EncodeAll(Written(ps))
    ensures Concat(Received(chunks)) == Written(ps) <==> forall c <- chunks :: !BeginsInside(c)
    ensures (forall c <- chunks :: !BeginsInside(c)) ==>
              FeedAll(json, Reader("", map[], None), Received(chunks))
              == TakeMessages(json, Reader("", map[], None), MessagesOf(ps))
  {
    ReceivedExactly(Written(ps), chunks);
    if forall c <- chunks :: !BeginsInside(c) { WritesAreRead(json, ps, Received(chunks)); }
  }

  lemma {:induction false} BuffersAlike<J>(json: Json<J>, r: Reader<J>, ms: seq<Message>)
    ensures TakeMessages(json, r, ms).buf == r.buf
    decreases |ms|
  {
    if ms != [] { BuffersAlike(json, TakeMessage(json, r, ms[0]), ms[1..]); }
  }

  // ---- The handler -----------------------------------------------------------------------

  lemma TakeBufferless<J>(json: Json<J>, r: Reader<J>, block: string, buf: string)
    ensures Take(json, r.(buf := buf), block) == Take(json, r, block).(buf := buf)
  {}

  lemma TakeAllFirst<J>(json: Json<J>, r: Reader<J>, first: string, blocks: seq<string>)
    ensures TakeAll(json, r, [first] + blocks) == TakeAll(json, Take(json, r, first), blocks)
  {
    assert ([first] + blocks)[1..] == blocks;
  }

  lemma DrainStep<J>(json: Json<J>, r: Reader<J>)
    requires IndexOf(r.buf, "\n\n") >= 0
    ensures var sep := IndexOf(r.buf, "\n\n");
            Drain(json, Take(json, r.(buf := r.buf[sep + 2..]), r.buf[..sep])) == Drain(json, r)
  {
    var sep := IndexOf(r.buf, "\n\n");
    var head, tail := r.buf[..sep], r.buf[sep + 2..];
    var taken, later := Take(json, r, head), Blocks(tail).blocks;
    TakeBufferless(json, r, head, tail);
    TakeAllFirst(json, r, head, later);
    TakeAllBufferless(json, taken, later, tail);
    assert Blocks(r.buf) == Cut([head] + later, Blocks(tail).rest);
  }

  class StreamReader<J> {
    const json: Json<J>
    var buf: string
    var byIdx: map<int, J>
    var settled: Option<map<int, J>>

    constructor (json: Json<J>)
      ensures View() == Reader("", map[], None) && this.json == json
    {
      this.json, buf, byIdx, settled := json, "", map[], None;
    }

    ghost function View(): Reader<J>
      reads this
    {
      Reader(buf, byIdx, settled)
    }

    method OnData(chunk: seq<byte>)
      modifies this
      ensures View() == Feed(json, old(View()), Decode(chunk))
    {
      buf := buf + Decode(chunk);
      ghost var start := View();
      var sep := IndexOf(buf, "\n\n");
      while sep != -1
        invariant sep == IndexOf(buf, "\n\n")
        invariant Drain(json, View()) == Drain(json, start)
        decreases |buf|
      {
        DrainStep(json, View());
        var block := buf[..sep];
        buf := buf[sep + 2..];
        OnBlock(block);
        sep := IndexOf(buf, "\n\n");
      }
    }

    method OnBlock(block: string)
      modifies this`byIdx, this`settled
      ensures View() == Take(json, old(View()), block)
    {
      var eventName, dataLine := "message", "";
      var lines := Split(block, '\n');
      for k := 0 to |lines|
        invariant dataLine == LastField(lines[..k], "data: ", "")
        invariant eventName == Trim(LastField(lines[..k], "event: ", "message"))
      {
        assert lines[..k + 1][..k] == lines[..k];
        var line := lines[k];
        // No line has both prefixes.
        assert "event: "[0] == 'e' && "data: "[0] == 'd';
        if "event: " <= line { eventName := Trim(line[7..]); }
        else if "data: " <= line { dataLine := line[6..]; }
      }
      assert lines[..|lines|] == lines;
      if dataLine == "" { return; }
      var payload := json.parse(dataLine);
      if payload == None { return; }
      if eventName == "result" { byIdx := byIdx[json.idx(payload.value) := payload.value]; }
      else if eventName == "done" || eventName == "error" {
        if settled == None { settled := Some(byIdx); }
      }
    }
  }
}
