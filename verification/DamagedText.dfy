/** What the cuts of a byte stream can do to the text that it carries: some characters of several bytes are
    replaced, and nothing else happens. */
module DamagedText {
  import opened Strings
  import opened Utf8

  // ---- Replaced characters ---------------------------------------------------------------

  function Marks(n: nat): string {
    if n == 0 then "" else [REPLACEMENT] + Marks(n - 1)
  }

  function Turned(c: char, k: nat): string { if k == 0 then [c] else Marks(k) }

  /** The text with its `i`-th character replaced by `ks[i]` replacement characters, unless `ks[i]` is zero. */
  function Damage(text: string, ks: seq<nat>): string
    requires |ks| == |text|
  {
    if text == "" then "" else Turned(text[0], ks[0]) + Damage(text[1..], ks[1..])
  }

  predicate Ascii(text: string) { forall c <- text :: c as int < 0x80 }

  /** Only characters of several bytes are replaced, each by at least two. */
  predicate Spares(text: string, ks: seq<nat>) {
    |ks| == |text| && forall i :: 0 <= i < |text| && ks[i] > 0 ==> ks[i] >= 2 && text[i] as int >= 0x80
  }

  /** How many characters more than the text has. */
  function Extra(ks: seq<nat>): nat {
    if ks == [] then 0 else (if ks[0] == 0 then 0 else ks[0] - 1) + Extra(ks[1..])
  }

  lemma {:induction false} ExtraAfterZeros(n: nat, ks: seq<nat>)
    ensures Extra(Zeros(n) + ks) == Extra(ks)
  {
    if n == 0 {
      assert Zeros(0) + ks == ks;
    } else {
      assert (Zeros(n) + ks)[1..] == Zeros(n - 1) + ks;
      ExtraAfterZeros(n - 1, ks);
    }
  }

  lemma {:induction false} DamageLength(text: string, ks: seq<nat>)
    ensures Spares(text, ks) ==>
              && |Damage(text, ks)| == |text| + Extra(ks)
              && (Extra(ks) == 0 ==> Damage(text, ks) == text)
  {
    if Spares(text, ks) && text != "" {
      assert Spares(text[1..], ks[1..]);
      DamageLength(text[1..], ks[1..]);
      MarksAreMarks(ks[0]);
    }
  }

  ghost predicate Damaged(text: string, got: string) {
    exists ks :: Spares(text, ks) && got == Damage(text, ks)
  }

  lemma {:induction false} MarksAdd(m: nat, n: nat)
    ensures Marks(m) + Marks(n) == Marks(m + n)
  {
    if m > 0 {
      MarksAdd(m - 1, n);
      assert [REPLACEMENT] + Marks(m - 1) + Marks(n) == [REPLACEMENT] + (Marks(m - 1) + Marks(n));
    }
  }

  lemma {:induction false} DamageAppends(a: string, ks: seq<nat>, b: string, ls: seq<nat>)
    requires |ks| == |a| && |ls| == |b|
    ensures Damage(a + b, ks + ls) == Damage(a, ks) + Damage(b, ls)
    decreases |a|
  {
    if a == "" {
      assert a + b == b && ks + ls == ls;
    } else {
      assert (a + b)[1..] == a[1..] + b && (ks + ls)[1..] == ks[1..] + ls;
      DamageAppends(a[1..], ks[1..], b, ls);
      Associative(Turned(a[0], ks[0]), Damage(a[1..], ks[1..]), Damage(b, ls));
    }
  }

  lemma {:induction false} Undamaged(text: string, ks: seq<nat>)
    requires |ks| == |text| && forall k <- ks :: k == 0
    ensures Damage(text, ks) == text
  {
    if text != "" {
      assert ks[0] in ks && forall k <- ks[1..] :: k in ks;
      Undamaged(text[1..], ks[1..]);
    }
  }

  lemma AsciiIsSpared(text: string, ks: seq<nat>)
    requires Spares(text, ks) && Ascii(text)
    ensures Damage(text, ks) == text
  {
    forall k | k in ks ensures k == 0 {
      var i :| 0 <= i < |ks| && ks[i] == k;
      assert text[i] in text;
    }
    Undamaged(text, ks);
  }

  /** Damage neither removes nor adds a line end, and leaves nothing empty. */
  lemma {:induction false} DamageKeepsLines(text: string, ks: seq<nat>)
    requires Spares(text, ks)
    ensures '\n' in Damage(text, ks) <==> '\n' in text
    ensures Damage(text, ks) == "" <==> text == ""
  {
    if text != "" {
      DamageKeepsLines(text[1..], ks[1..]);
      MarksAreMarks(ks[0]);
      assert text == [text[0]] + text[1..];
    }
  }

  lemma {:induction false} MarksAreMarks(n: nat)
    ensures |Marks(n)| == n && forall c <- Marks(n) :: c == REPLACEMENT
  {
    if n > 0 { MarksAreMarks(n - 1); }
  }

  // ---- Chunks do no other harm -----------------------------------------------------------

  lemma {:induction false} StrayTail(tail: seq<byte>, rest: seq<byte>)
    requires (forall b <- tail :: IsTrail(b)) && !BeginsInside(rest)
    ensures Stray(tail + rest) == |tail|
    decreases |tail|
  {
    if tail == [] {
      assert tail + rest == rest;
    } else {
      assert (tail + rest)[1..] == tail[1..] + rest;
      StrayTail(tail[1..], rest);
    }
  }

  lemma {:induction false} TrailsDecode(tail: seq<byte>, rest: seq<byte>)
    requires forall b <- tail :: IsTrail(b)
    ensures Decode(tail + rest) == Marks(|tail|) + Decode(rest)
    decreases |tail|
  {
    if tail == [] {
      assert tail + rest == rest;
    } else {
      assert tail + rest == [tail[0]] + (tail[1..] + rest);
      StrayDecodes(tail[0], tail[1..] + rest);
      TrailsDecode(tail[1..], rest);
      Associative([REPLACEMENT], Marks(|tail| - 1), Decode(rest));
    }
  }

  /** What is left of a text after some of its bytes, of which `q` are of its first character. */
  predicate Leaves(bytes: seq<byte>, b: string, q: nat) {
    if q == 0 then bytes == EncodeAll(b)
    else b != "" && q < |Encode(b[0])| && bytes == Encode(b[0])[q..] + EncodeAll(b[1..])
  }

  lemma Around(a: seq<byte>, b: seq<byte>, n: nat)
    ensures n <= |b| ==> (a + b)[..|a| + n] == a + b[..n] && (a + b)[|a| + n..] == b[n..]
  {}

  lemma Within(a: seq<byte>, b: seq<byte>, n: nat)
    ensures n <= |a| ==> (a + b)[..n] == a[..n] && (a + b)[n..] == a[n..] + b
  {}

  lemma CutFirst(text: string, n: nat)
    requires text != "" && 0 < n < |Encode(text[0])|
    ensures Decode(EncodeAll(text)[..n]) == Marks(1) && Leaves(EncodeAll(text)[n..], text, n)
  {
    BrokenOff(text[0], n);
    Within(Encode(text[0]), EncodeAll(text[1..]), n);
    assert Marks(1) == [REPLACEMENT] + Marks(0) == [REPLACEMENT];
  }

  lemma CutBeyond(text: string, k: nat)
    requires text != "" && k <= |EncodeAll(text[1..])|
    ensures var n := |Encode(text[0])| + k;
      && n <= |EncodeAll(text)| && EncodeAll(text)[n..] == EncodeAll(text[1..])[k..]
      && EncodeAll(text)[..n] == Encode(text[0]) + EncodeAll(text[1..])[..k]
  {
    Around(Encode(text[0]), EncodeAll(text[1..]), k);
  }

  lemma CutLater(bs: seq<byte>, c: char, rest: seq<byte>, a: string, mark: string)
    requires bs == Encode(c) + rest && Decode(rest) == a + mark
    ensures Decode(bs) == [c] + a + mark
  {
    CharDecodes(c, rest);
    Associative([c], a, mark);
  }

  /** The first `n` bytes of an encoded text are some characters and `q` bytes of the next one. */
  lemma {:induction false} CutOfText(text: string, n: nat) returns (a: string, b: string, q: nat)
    requires n <= |EncodeAll(text)|
    ensures text == a + b && Leaves(EncodeAll(text)[n..], b, q)
    ensures Decode(EncodeAll(text)[..n]) == a + Marks(if q > 0 then 1 else 0)
    decreases |text|
  {
    if n == 0 {
      a, b, q := "", text, 0;
      assert EncodeAll(text)[0..] == EncodeAll(text);
    } else if n < |Encode(text[0])| {
      a, b, q := "", text, n;
      CutFirst(text, n);
    } else {
      var k := n - |Encode(text[0])|;
      a, b, q := CutOfText(text[1..], k);
      CutBeyond(text, k);
      CutLater(EncodeAll(text)[..n], text[0], EncodeAll(text[1..])[..k], a, Marks(if q > 0 then 1 else 0));
      Associative([text[0]], a, b);
      a := [text[0]] + a;
    }
  }

  function Zeros(n: nat): seq<nat> { seq(n, i => 0) }

  lemma AfterWhole(a: string, b: string, ks: seq<nat>)
    requires Spares(b, ks)
    ensures Spares(a + b, Zeros(|a|) + ks) && Damage(a + b, Zeros(|a|) + ks) == a + Damage(b, ks)
    ensures Extra(Zeros(|a|) + ks) == Extra(ks)
  {
    ExtraAfterZeros(|a|, ks);
    DamageAppends(a, Zeros(|a|), b, ks);
    Undamaged(a, Zeros(|a|));
  }

  lemma FirstTurned(b: string, k: nat, ks: seq<nat>)
    requires b != "" && b[0] as int >= 0x80 && k > 0 && Spares(b[1..], ks)
    ensures Extra([1 + k] + ks) == k + Extra(ks)
    ensures Spares(b, [1 + k] + ks) && Damage(b, [1 + k] + ks) == Marks(1) + (Marks(k) + Damage(b[1..], ks))
  {
    assert ([1 + k] + ks)[1..] == ks;
    MarksThen(1, k, Damage(b[1..], ks));
  }

  lemma TailDecodes(tail: seq<byte>)
    requires forall b <- tail :: IsTrail(b)
    ensures Decode(tail) == Marks(|tail|) && Stray(tail) == |tail|
  {
    TrailsDecode(tail, []);
    StrayTail(tail, []);
    assert tail + [] == tail && Marks(|tail|) + Decode([]) == Marks(|tail|);
  }

  lemma MarksThen(m: nat, n: nat, rest: string)
    ensures Marks(m) + (Marks(n) + rest) == Marks(m + n) + rest
  {
    MarksAdd(m, n);
    Associative(Marks(m), Marks(n), rest);
  }

  /** An encoded text decodes, cut into chunks in any way, to the text with some characters of several bytes
      replaced, after one replacement character for each byte in `tail` of a character begun before it. */
  lemma {:induction false} ChunksDamage(tail: seq<byte>, text: string, chunks: seq<seq<byte>>) returns (ks: seq<nat>)
    requires (forall b <- tail :: IsTrail(b)) && Bytes(chunks) == tail + EncodeAll(text)
    ensures Spares(text, ks) && Concat(Received(chunks)) == Marks(|tail|) + Damage(text, ks)
    ensures Strays(chunks) == |tail| + Extra(ks)
    decreases |chunks|, 1
  {
    if chunks == [] {
      ks := [];
      assert tail == [] && EncodeAll(text) == [];
    } else {
      FirstChunk(chunks);
      var n := |chunks[0]|;
      if n <= |tail| {
        ks := ChunkInTail(tail, text, chunks);
      } else {
        ks := ChunkBeyondTail(tail, text, chunks);
      }
    }
  }

  lemma {:induction false} ChunkInTail(tail: seq<byte>, text: string, chunks: seq<seq<byte>>) returns (ks: seq<nat>)
    requires (forall b <- tail :: IsTrail(b)) && Bytes(chunks) == tail + EncodeAll(text)
    requires chunks != [] && |chunks[0]| <= |tail|
    ensures Spares(text, ks) && Concat(Received(chunks)) == Marks(|tail|) + Damage(text, ks)
    ensures Strays(chunks) == |tail| + Extra(ks)
    decreases |chunks|, 0
  {
    var n := |chunks[0]|;
    FirstChunk(chunks);
    Within(tail, EncodeAll(text), n);
    ks := ChunksDamage(tail[n..], text, chunks[1..]);
    TailDecodes(tail[..n]);
    MarksThen(n, |tail| - n, Damage(text, ks));
  }

  lemma {:induction false} ChunkBeyondTail(tail: seq<byte>, text: string, chunks: seq<seq<byte>>) returns (ks: seq<nat>)
    requires (forall b <- tail :: IsTrail(b)) && Bytes(chunks) == tail + EncodeAll(text)
    requires chunks != [] && |chunks[0]| > |tail|
    ensures Spares(text, ks) && Concat(Received(chunks)) == Marks(|tail|) + Damage(text, ks)
    ensures Strays(chunks) == |tail| + Extra(ks)
    decreases |chunks|, 0
  {
    var n := |chunks[0]| - |tail|;
    FirstChunk(chunks);
    assert n <= |EncodeAll(text)|;
    Around(tail, EncodeAll(text), n);
    TrailsDecode(tail, EncodeAll(text)[..n]);
    StrayTail(tail, EncodeAll(text)[..n]);
    var a, b, q := CutOfText(text, n);
    var ls := AfterChunk(b, q, chunks);
    ks := Zeros(|a|) + ls;
    AfterWhole(a, b, ls);
    var mark := Marks(if q > 0 then 1 else 0);
    Associative(Marks(|tail|), a + mark, Concat(Received(chunks[1..])));
    Associative(a, mark, Concat(Received(chunks[1..])));
  }

  lemma TrailsLeft(c: char, q: nat)
    requires 0 < q < |Encode(c)|
    ensures c as int >= 0x80 && forall b <- Encode(c)[q..] :: IsTrail(b)
  {
    assert forall b <- Encode(c)[q..] :: b in Encode(c)[1..];
  }

  /** The chunks after the first one, when that has taken `q` bytes of the next character. */
  lemma {:induction false} AfterChunk(b: string, q: nat, chunks: seq<seq<byte>>) returns (ls: seq<nat>)
    requires chunks != [] && Leaves(Bytes(chunks[1..]), b, q)
    ensures Spares(b, ls) && Marks(if q > 0 then 1 else 0) + Concat(Received(chunks[1..])) == Damage(b, ls)
    ensures Strays(chunks[1..]) == Extra(ls)
    decreases |chunks| - 1, 2
  {
    if q == 0 {
      assert [] + EncodeAll(b) == EncodeAll(b);
      ls := ChunksDamage([], b, chunks[1..]);
    } else {
      TrailsLeft(b[0], q);
      var left := Encode(b[0])[q..];
      ls := ChunksDamage(left, b[1..], chunks[1..]);
      FirstTurned(b, |left|, ls);
      ls := [1 + |left|] + ls;
    }
  }

  /** However an encoded text is cut, decoding chunk by chunk gives one additional character for each byte
      that a chunk begins with and that continues a character of the chunk before it. */
  lemma ReceivedLength(text: string, chunks: seq<seq<byte>>)
    requires Bytes(chunks) == EncodeAll(text)
    ensures |Concat(Received(chunks))| == |text| + Strays(chunks)
  {
    assert [] + EncodeAll(text) == EncodeAll(text);
    var ks := ChunksDamage([], text, chunks);
    DamageLength(text, ks);
  }

  /** Decoding chunk by chunk gives the text back if and only if no chunk begins inside a character. */
  lemma ReceivedExactly(text: string, chunks: seq<seq<byte>>)
    requires Bytes(chunks) == EncodeAll(text)
    ensures Concat(Received(chunks)) == text <==> forall c <- chunks :: !BeginsInside(c)
  {
    assert [] + EncodeAll(text) == EncodeAll(text);
    var ks := ChunksDamage([], text, chunks);
    DamageLength(text, ks);
    StraysCount(chunks);
  }

  /** The smallest damage: a character of two bytes, cut in half, arrives as two replacement characters. */
  lemma HalvedCharacter()
    ensures var chunks: seq<seq<byte>> := [[0xC3], [0xA9]];
      && Bytes(chunks) == EncodeAll("\U{E9}") && Concat(Received(chunks)) == [REPLACEMENT, REPLACEMENT]
  {
    var first: seq<byte>, second: seq<byte> := [0xC3], [0xA9];
    var chunks := [first, second];
    var rest := chunks[1..];
    assert rest == [second] && rest[1..] == [];
    assert Bytes(rest) == second;
    assert Bytes(chunks) == first + second == [0xC3, 0xA9];
    assert Encode('\U{E9}') == [0xC3, 0xA9] && "\U{E9}"[1..] == "";
    assert Decode(first) == Decode(second) == [REPLACEMENT];
    assert Received(rest) == [Decode(second)];
    assert Received(chunks) == [Decode(first), Decode(second)];
    assert Concat(Received(rest)) == Decode(second) && Received(chunks)[1..] == Received(rest);
  }
}
