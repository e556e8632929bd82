/** Text as bytes: the encoding, the forgiving decoder of the Encoding Standard (section 8.1.1), and what
    becomes of a text whose bytes arrive in chunks that are decoded one by one. */
module Utf8 {
  import opened Strings

  type byte = x: nat | x < 256

  const REPLACEMENT: char := '\U{FFFD}'

  /** A byte that continues a character. */
  predicate IsTrail(b: byte) { 0x80 <= b < 0xC0 }

  function Encode(c: char): (bs: seq<byte>)
    ensures 1 <= |bs| <= 4
    ensures !IsTrail(bs[0]) && forall b <- bs[1..] :: IsTrail(b)
  {
    var n := c as int;
    if n < 0x80 then [n]
    else if n < 0x800 then [0xC0 + n / 64, 0x80 + n % 64]
    else if n < 0x1_0000 then [0xE0 + n / 4096, 0x80 + n / 64 % 64, 0x80 + n % 64]
    else [0xF0 + n / 262144, 0x80 + n / 4096 % 64, 0x80 + n / 64 % 64, 0x80 + n % 64]
  }

  function EncodeAll(text: string): seq<byte> {
    if text == "" then [] else Encode(text[0]) + EncodeAll(text[1..])
  }

  /** How many bytes must follow a first byte; none if it cannot begin a longer character. */
  function Needed(first: byte): nat {
    if 0xC2 <= first < 0xE0 then 1 else if 0xE0 <= first < 0xF0 then 2 else if 0xF0 <= first < 0xF5 then 3 else 0
  }

  /** `b` may come second: no overlong form, no surrogate, nothing beyond the last code point. */
  predicate MayFollow(first: byte, b: byte) {
    && (if first == 0xE0 then 0xA0 else if first == 0xF0 then 0x90 else 0x80) <= b
    && b < (if first == 0xED then 0xA0 else if first == 0xF4 then 0x90 else 0xC0)
  }

  /** How many of the bytes after the first belong to its character. */
  function Following(first: byte, rest: seq<byte>): (k: nat)
    ensures k <= |rest| && k <= Needed(first)
  {
    var n := Needed(first);
    if n == 0 || rest == [] || !MayFollow(first, rest[0]) then 0
    else if n == 1 || |rest| == 1 || !IsTrail(rest[1]) then 1
    else if n == 2 || |rest| == 2 || !IsTrail(rest[2]) then 2
    else 3
  }

  /** The character of a complete sequence of bytes. */
  function CharOf(bs: seq<byte>): char
    requires |bs| > 1 && |bs| == Needed(bs[0]) + 1 && Following(bs[0], bs[1..]) == |bs| - 1
  {
    var first: int, b: int := bs[0], bs[1];
    if |bs| == 2 then ((first - 0xC0) * 64 + (b - 0x80)) as char
    else
      var c: int := bs[2];
      if |bs| == 3 then ((first - 0xE0) * 4096 + (b - 0x80) * 64 + (c - 0x80)) as char
      else
        var d: int := bs[3];
        ((first - 0xF0) * 262144 + (b - 0x80) * 4096 + (c - 0x80) * 64 + (d - 0x80)) as char
  }

  /** What cannot be decoded becomes one replacement character for each start of a character that is broken
      off and for each byte that starts none. */
  function Decode(bs: seq<byte>): string {
    if bs == [] then ""
    else if bs[0] < 0x80 then [bs[0] as char] + Decode(bs[1..])
    else
      var k := Following(bs[0], bs[1..]);
      var c := if 0 < k == Needed(bs[0]) then CharOf(bs[..k + 1]) else REPLACEMENT;
      [c] + Decode(bs[k + 1..])
  }

  // ---- One character ---------------------------------------------------------------------

  /** The digits of a code point in base 64. */
  lemma Digits(n: nat)
    ensures n == n / 64 * 64 + n % 64
    ensures n == n / 4096 * 4096 + n / 64 % 64 * 64 + n % 64
    ensures n == n / 262144 * 262144 + n / 4096 % 64 * 4096 + n / 64 % 64 * 64 + n % 64
  {
    assert n / 4096 == n / 64 / 64 && n / 262144 == n / 4096 / 64;
  }

  lemma FirstBytes(c: char)
    requires c as int >= 0x80
    ensures var e := Encode(c);
      && |e| > 1 && e[0] >= 0x80 && Needed(e[0]) == |e| - 1 && MayFollow(e[0], e[1])
      && forall k :: 1 <= k < |e| ==> IsTrail(e[k])
  {
    var e := Encode(c);
    assert e[1..][0] == e[1] && (|e| > 2 ==> e[1..][1] == e[2]) && (|e| > 3 ==> e[1..][2] == e[3]);
  }

  lemma EncodedFollows(c: char, rest: seq<byte>)
    requires c as int >= 0x80
    ensures var e := Encode(c); |e| > 1 && Needed(e[0]) == |e| - 1 && Following(e[0], e[1..] + rest) == |e| - 1
  {
    FirstBytes(c);
  }

  lemma EncodedComesBack(c: char)
    requires c as int >= 0x80
    ensures var e := Encode(c);
            |e| > 1 && Needed(e[0]) == |e| - 1 && Following(e[0], e[1..]) == |e| - 1 && CharOf(e) == c
  {
    EncodedFollows(c, []);
    assert Encode(c)[1..] + [] == Encode(c)[1..];
    Digits(c as int);
  }

  lemma CharDecodes(c: char, rest: seq<byte>)
    ensures Decode(Encode(c) + rest) == [c] + Decode(rest)
  {
    var e := Encode(c);
    var bs := e + rest;
    if c as int < 0x80 {
      assert bs[1..] == rest;
    } else {
      EncodedFollows(c, rest);
      EncodedComesBack(c);
      assert bs[1..] == e[1..] + rest;
      assert bs[..|e|] == e && bs[|e|..] == rest;
    }
  }

  lemma BrokenOff(c: char, n: nat)
    requires 0 < n < |Encode(c)|
    ensures Decode(Encode(c)[..n]) == [REPLACEMENT]
  {
    FirstBytes(c);
    var bs := Encode(c)[..n];
    assert Following(bs[0], bs[1..]) == n - 1;
    assert bs[n..] == [];
  }

  lemma StrayDecodes(b: byte, rest: seq<byte>)
    requires IsTrail(b)
    ensures Decode([b] + rest) == [REPLACEMENT] + Decode(rest)
  {
    assert ([b] + rest)[1..] == rest;
  }

  lemma {:induction false} TextDecodes(text: string)
    ensures Decode(EncodeAll(text)) == text
  {
    if text != "" {
      CharDecodes(text[0], EncodeAll(text[1..]));
      TextDecodes(text[1..]);
    }
  }

  // ---- Chunks ----------------------------------------------------------------------------

  function Bytes(chunks: seq<seq<byte>>): seq<byte> {
    if chunks == [] then [] else chunks[0] + Bytes(chunks[1..])
  }

  /** Each chunk decoded on its own. */
  function Received(chunks: seq<seq<byte>>): seq<string> {
    if chunks == [] then [] else [Decode(chunks[0])] + Received(chunks[1..])
  }

  /** A chunk begins inside a character. */
  predicate BeginsInside(chunk: seq<byte>) { chunk != [] && IsTrail(chunk[0]) }

  /** How many bytes at the front continue a character that began before. */
  function Stray(bs: seq<byte>): nat {
    if BeginsInside(bs) then 1 + Stray(bs[1..]) else 0
  }

  function Strays(chunks: seq<seq<byte>>): nat {
    if chunks == [] then 0 else Stray(chunks[0]) + Strays(chunks[1..])
  }

  lemma FirstChunk(chunks: seq<seq<byte>>)
    requires chunks != []
    ensures var n := |chunks[0]|;
      && |Bytes(chunks)| >= n && Bytes(chunks)[..n] == chunks[0] && Bytes(chunks)[n..] == Bytes(chunks[1..])
    ensures Concat(Received(chunks)) == Decode(chunks[0]) + Concat(Received(chunks[1..]))
  {
    assert Received(chunks)[1..] == Received(chunks[1..]);
  }

  lemma {:induction false} StraysCount(chunks: seq<seq<byte>>)
    ensures Strays(chunks) == 0 <==> forall c <- chunks :: !BeginsInside(c)
  {
    if chunks != [] { StraysCount(chunks[1..]); }
  }
}
