/** A stream of messages whose bytes are cut anywhere: every message arrives, with some characters of its data
    replaced. */
module CutStreams {
  import opened Options
  import opened Strings
  import opened Utf8
  import opened DamagedText
  import opened SseReader
  import opened StreamMessages

  lemma DamageSplits(a: string, b: string, ks: seq<nat>)
    requires Spares(a + b, ks)
    ensures Spares(a, ks[..|a|]) && Spares(b, ks[|a|..])
    ensures Damage(a + b, ks) == Damage(a, ks[..|a|]) + Damage(b, ks[|a|..])
  {
    assert ks == ks[..|a|] + ks[|a|..];
    DamageAppends(a, ks[..|a|], b, ks[|a|..]);
    forall i | 0 <= i < |a| && ks[..|a|][i] > 0 ensures a[i] as int >= 0x80 {
      assert (a + b)[i] == a[i] && ks[i] > 0;
    }
    forall i | 0 <= i < |b| && ks[|a|..][i] > 0 ensures b[i] as int >= 0x80 {
      assert (a + b)[|a| + i] == b[i] && ks[|a| + i] > 0;
    }
  }

  // ---- Messages --------------------------------------------------------------------------

  /** Names are literals of the servers. */
  predicate PlainName(p: Piece) { p.Event? ==> Ascii(p.message.name) }

  /** The same write with damaged data. */
  ghost predicate AlikePieces(p: Piece, q: Piece) {
    && p.Event? == q.Event?
    && (p.Event? ==> q.message.name == p.message.name && Damaged(p.message.data, q.message.data))
  }

  lemma AsciiAppends(a: string, b: string)
    ensures Ascii(a) && Ascii(b) ==> Ascii(a + b)
  {}

  /** An ASCII text in front of another one is spared. */
  lemma HeadIsSpared(head: string, rest: string, ks: seq<nat>)
    requires Ascii(head) && Spares(head + rest, ks)
    ensures Spares(rest, ks[|head|..]) && Damage(head + rest, ks) == head + Damage(rest, ks[|head|..])
  {
    DamageSplits(head, rest, ks);
    AsciiIsSpared(head, ks[..|head|]);
  }

  lemma EventHead(name: string) returns (head: string)
    requires Ascii(name)
    ensures head == "event: " + name + "\ndata: " && Ascii(head)
  {
    AsciiAppends("event: ", name);
    AsciiAppends("event: " + name, "\ndata: ");
    head := "event: " + name + "\ndata: ";
  }

  lemma EventDamaged(m: Message, ks: seq<nat>) returns (data: string)
    requires Ascii(m.name) && m.data != "" && '\n' !in m.data && Spares(BlockOf(Event(m)), ks)
    ensures data != "" && '\n' !in data && Damaged(m.data, data)
    ensures Damage(BlockOf(Event(m)), ks) == BlockOf(Event(Message(m.name, data)))
  {
    var head := EventHead(m.name);
    HeadIsSpared(head, m.data, ks);
    data := Damage(m.data, ks[|head|..]);
    DamageKeepsLines(m.data, ks[|head|..]);
  }

  lemma PieceDamaged(p: Piece, ks: seq<nat>) returns (q: Piece)
    requires Writable(p) && PlainName(p) && Spares(BlockOf(p), ks)
    ensures Writable(q) && AlikePieces(p, q) && Damage(BlockOf(p), ks) == BlockOf(q)
  {
    match p
    case KeepAlive =>
      q := p;
      AsciiIsSpared(":", ks);
    case Event(m) =>
      var data := EventDamaged(m, ks);
      q := Event(Message(m.name, data));
  }

  lemma BlockDamaged(b: string, rest: string, ks: seq<nat>)
    requires Spares(b + "\n\n" + rest, ks)
    ensures var n := |b| + 2;
      && Spares(b, ks[..|b|]) && Spares(rest, ks[n..])
      && Damage(b + "\n\n" + rest, ks) == Damage(b, ks[..|b|]) + "\n\n" + Damage(rest, ks[n..])
  {
    assert b + "\n\n" + rest == b + ("\n\n" + rest);
    DamageSplits(b, "\n\n" + rest, ks);
    HeadIsSpared("\n\n", rest, ks[|b|..]);
    assert ks[|b|..][2..] == ks[|b| + 2..];
    Associative(Damage(b, ks[..|b|]), "\n\n", Damage(rest, ks[|b| + 2..]));
  }

  lemma {:induction false} PiecesDamaged(ps: seq<Piece>, ks: seq<nat>) returns (qs: seq<Piece>)
    requires (forall p <- ps :: Writable(p) && PlainName(p)) && Spares(Written(ps), ks)
    ensures |qs| == |ps| && (forall q <- qs :: Writable(q)) && forall i :: 0 <= i < |ps| ==> AlikePieces(ps[i], qs[i])
    ensures Written(qs) == Damage(Written(ps), ks)
    decreases |ps|
  {
    if ps == [] {
      qs := [];
    } else {
      var b := BlockOf(ps[0]);
      BlockDamaged(b, Written(ps[1..]), ks);
      assert ps[0] in ps;
      var q := PieceDamaged(ps[0], ks[..|b|]);
      var later := PiecesDamaged(ps[1..], ks[|b| + 2..]);
      qs := [q] + later;
      assert qs[1..] == later;
      forall i | 0 <= i < |ps| ensures AlikePieces(ps[i], qs[i]) {
        if i > 0 { assert ps[i] == ps[1..][i - 1] && qs[i] == later[i - 1]; }
      }
    }
  }

  // ---- The reader ------------------------------------------------------------------------

  /** Damage does not change whether a text is JSON, nor the index in it: outside of its strings JSON has
      only ASCII characters. */
  ghost predicate Robust<J(!new)>(json: Json<J>) {
    forall a: string, b: string :: Damaged(a, b) ==>
      match (json.parse(a), json.parse(b))
      case (Some(x), Some(y)) => json.idx(x) == json.idx(y)
      case (None, None) => true
      case _ => false
  }

  /** The same indices so far, and the same when the batch was resolved. */
  predicate AlikeReaders<J>(r: Reader<J>, q: Reader<J>) {
    && r.byIdx.Keys == q.byIdx.Keys
    && r.settled.Some? == q.settled.Some?
    && (r.settled.Some? ==> r.settled.value.Keys == q.settled.value.Keys)
  }

  lemma MessageAlike<J(!new)>(json: Json<J>, r: Reader<J>, q: Reader<J>, m: Message, data: string)
    requires Robust(json) && Damaged(m.data, data) && AlikeReaders(r, q)
    ensures AlikeReaders(TakeMessage(json, r, m), TakeMessage(json, q, Message(m.name, data)))
  {}

  lemma {:induction false} MessagesAlike<J(!new)>(json: Json<J>, r: Reader<J>, q: Reader<J>,
                                                      ps: seq<Piece>, qs: seq<Piece>)
    requires Robust(json) && AlikeReaders(r, q)
    requires |ps| == |qs| && forall i :: 0 <= i < |ps| ==> AlikePieces(ps[i], qs[i])
    ensures AlikeReaders(TakeMessages(json, r, MessagesOf(ps)), TakeMessages(json, q, MessagesOf(qs)))
    decreases |ps|
  {
    if ps != [] {
      assert AlikePieces(ps[0], qs[0]);
      forall i | 0 <= i < |ps[1..]| ensures AlikePieces(ps[1..][i], qs[1..][i]) {
        assert AlikePieces(ps[i + 1], qs[i + 1]);
      }
      if ps[0].Event? {
        var m, d := ps[0].message, qs[0].message;
        MessageAlike(json, r, q, m, d.data);
        assert d == Message(m.name, d.data);
        assert MessagesOf(ps)[1..] == MessagesOf(ps[1..]) && MessagesOf(qs)[1..] == MessagesOf(qs[1..]);
        MessagesAlike(json, TakeMessage(json, r, m), TakeMessage(json, q, d), ps[1..], qs[1..]);
      } else {
        assert MessagesOf(ps) == MessagesOf(ps[1..]) && MessagesOf(qs) == MessagesOf(qs[1..]);
        MessagesAlike(json, r, q, ps[1..], qs[1..]);
      }
    }
  }

  /** Wherever the bytes of a stream are cut, the reader has the same indices in the end, and resolves with the
      same ones, as if it had been handed the written messages. */
  lemma EveryIndexArrives<J(!new)>(json: Json<J>, ps: seq<Piece>, chunks: seq<seq<byte>>)
    requires Robust(json) && forall p <- ps :: Writable(p) && PlainName(p)
    requires Bytes(chunks) == EncodeAll(Written(ps))
    ensures AlikeReaders(TakeMessages(json, Reader("", map[], None), MessagesOf(ps)),
                         FeedAll(json, Reader("", map[], None), Received(chunks)))
  {
    assert [] + EncodeAll(Written(ps)) == EncodeAll(Written(ps));
    var ks := ChunksDamage([], Written(ps), chunks);
    var qs := PiecesDamaged(ps, ks);
    assert Concat(Received(chunks)) == Written(qs);
    WritesAreRead(json, qs, Received(chunks));
    MessagesAlike(json, Reader("", map[], None), Reader("", map[], None), ps, qs);
  }

  // ---- Whole streams ---------------------------------------------------------------------

  lemma {:induction false} PieceInMessages(ps: seq<Piece>, p: Piece)
    requires p in ps && p.Event?
    ensures p.message in MessagesOf(ps)
    decreases |ps|
  {
    if p != ps[0] { PieceInMessages(ps[1..], p); }
  }

  lemma {:induction false} WiredArePlain<J>(ms: seq<Msg<J>>, text: Msg<J> -> string, m: Message)
    requires m in Wire(ms, text)
    ensures Ascii(m.name)
    decreases |ms|
  {
    if ms != [] && m in Wire(ms[..|ms| - 1], text) { WiredArePlain(ms[..|ms| - 1], text, m); }
  }

  /** A reader of a finished stream resolves, wherever its bytes are cut: with the stream's results by index if
      no chunk begins inside a character, and with the same indices in any case. */
  lemma CutStreamResolves<J(!new)>(json: Json<J>, text: Msg<J> -> string, ms: seq<Msg<J>>,
                                   ps: seq<Piece>, chunks: seq<seq<byte>>)
    requires Faithful(json, text) && Closed(ms)
    requires MessagesOf(ps) == Wire(ms, text)
    requires (forall p <- ps :: Writable(p)) && Bytes(chunks) == EncodeAll(Written(ps))
    ensures var settled := FeedAll(json, Reader("", map[], None), Received(chunks)).settled;
      && ((forall c <- chunks :: !BeginsInside(c)) ==> settled == Some(ByIdx(json, ResultsOf(ms))))
      && (Robust(json) ==> settled.Some? && settled.value.Keys == ByIdx(json, ResultsOf(ms)).Keys)
  {
    if forall c <- chunks :: !BeginsInside(c) {
      ReceivedExactly(Written(ps), chunks);
      ClosedStreamResolves(json, text, ms, ps, Received(chunks));
    }
    if Robust(json) {
      forall p | p in ps ensures PlainName(p) {
        if p.Event? {
          PieceInMessages(ps, p);
          WiredArePlain(ms, text, p.message);
        }
      }
      EveryIndexArrives(json, ps, chunks);
      Concatenation(ps);
      ClosedStreamResolves(json, text, ms, ps, [Written(ps)]);
      WritesAreRead(json, ps, [Written(ps)]);
    }
  }

  lemma Concatenation(ps: seq<Piece>)
    ensures Concat([Written(ps)]) == Written(ps)
  {
    assert [Written(ps)][1..] == [];
  }
}
