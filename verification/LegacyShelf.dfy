/** The legacy delivery: the texts of a product without stock rows lie in its metadata. A fulfilment reads
    them before any lock, and its commit, under the locks of order and product, hands out the first ones it
    has read and writes the others back. */
module LegacyShelf {
  /** What one call of the fulfilment has read, for which order, and after how many commits. */
  datatype Claim = Claim(order: nat, q: nat, snapshot: seq<string>, after: nat)

  datatype Shelf = Shelf(entries: seq<string>, handed: seq<string>, claims: map<nat, Claim>, closed: set<nat>,
                         commits: nat)

  /** An order may also be closed by something else, such as a failure or a delivery by hand. */
  datatype Event = Read(call: nat, order: nat, q: nat) | Commit(call: nat) | Close(order: nat)

  /** The path is taken for a pending order and only if the texts suffice. */
  predicate CanRead(s: Shelf, call: nat, order: nat, q: nat) {
    call !in s.claims && order !in s.closed && 1 <= q <= |s.entries|
  }

  predicate CanCommit(s: Shelf, call: nat) {
    call in s.claims && s.claims[call].order !in s.closed
  }

  function HandOut(s: Shelf, c: Claim): Shelf
    requires c.q <= |c.snapshot|
  {
    Shelf(c.snapshot[c.q..], s.handed + c.snapshot[..c.q], s.claims, s.closed + {c.order}, s.commits + 1)
  }

  function Step(s: Shelf, e: Event): Shelf {
    match e
    case Read(call, order, q) =>
      if CanRead(s, call, order, q) then s.(claims := s.claims[call := Claim(order, q, s.entries, s.commits)]) else s
    case Commit(call) =>
      if CanCommit(s, call) && s.claims[call].q <= |s.claims[call].snapshot| then HandOut(s, s.claims[call]) else s
    case Close(order) => s.(closed := s.closed + {order})
  }

  function Run(s: Shelf, es: seq<Event>): Shelf
    decreases |es|
  {
    if es == [] then s else Run(Step(s, es[0]), es[1..])
  }

  // ---- Each text once --------------------------------------------------------------------

  ghost predicate Different(texts: seq<string>) {
    forall i, j :: 0 <= i < j < |texts| ==> texts[i] != texts[j]
  }

  /** No text was handed out twice, and none that was handed out is still on the shelf. */
  ghost predicate Once(s: Shelf) { Different(s.handed + s.entries) }

  /** A claim is of the shelf as it is, or the first text it would hand out is gone. */
  ghost predicate ClaimsRight(s: Shelf) {
    forall c <- s.claims ::
      var claim := s.claims[c];
      && 1 <= claim.q <= |claim.snapshot| && claim.after <= s.commits
      && (claim.after == s.commits ==> claim.snapshot == s.entries)
      && (claim.after < s.commits ==> claim.snapshot[0] in s.handed)
  }

  /** A commit is late if another one landed between its read and it. */
  predicate Late(s: Shelf, e: Event) {
    e.Commit? && CanCommit(s, e.call) && s.claims[e.call].after != s.commits
  }

  /** A commit that is not late moves texts from the shelf's front to the end of what was handed out; a late
      one hands out its first text a second time. */
  lemma StepExact(s: Shelf, e: Event)
    requires Once(s) && ClaimsRight(s)
    ensures Once(Step(s, e)) <==> !Late(s, e)
    ensures !Late(s, e) ==> ClaimsRight(Step(s, e)) && Step(s, e).handed + Step(s, e).entries == s.handed + s.entries
  {
    var t := Step(s, e);
    if e.Commit? && CanCommit(s, e.call) {
      var c := s.claims[e.call];
      if Late(s, e) {
        var i :| 0 <= i < |s.handed| && s.handed[i] == c.snapshot[0];
        assert (t.handed + t.entries)[i] == (t.handed + t.entries)[|s.handed|];
      } else {
        assert t.handed + t.entries == s.handed + s.entries;
        assert c.snapshot[0] == t.handed[|s.handed|];
      }
    }
  }

  predicate NoneLate(s: Shelf, es: seq<Event>)
    decreases |es|
  {
    es != [] ==> !Late(s, es[0]) && NoneLate(Step(s, es[0]), es[1..])
  }

  ghost predicate AlwaysOnce(s: Shelf, es: seq<Event>)
    decreases |es|
  {
    Once(s) && (es != [] ==> AlwaysOnce(Step(s, es[0]), es[1..]))
  }

  /** Over every run: no text is handed out twice exactly if no other commit of the product lands between a
      read and its commit; and then the texts handed out are, in order, the front of the shelf at the start. */
  lemma {:induction false} HandedOnceExactly(s: Shelf, es: seq<Event>)
    requires Once(s) && ClaimsRight(s)
    ensures AlwaysOnce(s, es) <==> NoneLate(s, es)
    ensures NoneLate(s, es) ==> Run(s, es).handed + Run(s, es).entries == s.handed + s.entries
    decreases |es|
  {
    if es != [] {
      StepExact(s, es[0]);
      if !Late(s, es[0]) { HandedOnceExactly(Step(s, es[0]), es[1..]); }
    }
  }

  // ---- Each order once -------------------------------------------------------------------

  /** The commit hands out texts for this order. */
  predicate Serves(s: Shelf, e: Event, order: nat) {
    e.Commit? && e.call in s.claims && s.claims[e.call].order == order && Step(s, e).handed != s.handed
  }

  function TimesServed(s: Shelf, es: seq<Event>, order: nat): nat
    decreases |es|
  {
    if es == [] then 0
    else (if Serves(s, es[0], order) then 1 else 0) + TimesServed(Step(s, es[0]), es[1..], order)
  }

  lemma ClosingStays(s: Shelf, e: Event, order: nat)
    ensures order in s.closed || e == Close(order) || Serves(s, e, order) ==> order in Step(s, e).closed
    ensures order in s.closed ==> !Serves(s, e, order)
  {}

  /** However many calls have read for an order, it is handed texts at most once, and never once it is closed. */
  lemma {:induction false} ServedOnce(s: Shelf, es: seq<Event>, order: nat)
    ensures TimesServed(s, es, order) <= 1
    ensures order in s.closed ==> TimesServed(s, es, order) == 0
    decreases |es|
  {
    if es != [] {
      ClosingStays(s, es[0], order);
      ServedOnce(Step(s, es[0]), es[1..], order);
    }
  }

  function Stocked(texts: seq<string>): Shelf { Shelf(texts, [], map[], {}, 0) }

  /** Two orders that read before either commits are given the same text. */
  lemma TwoOrdersOneText(texts: seq<string>)
    requires texts != [] && Different(texts)
    ensures Once(Stocked(texts)) && ClaimsRight(Stocked(texts))
    ensures var s1 := Step(Step(Stocked(texts), Read(1, 1, 1)), Read(2, 2, 1));
            var s2 := Step(s1, Commit(1));
            Late(s2, Commit(2)) && Step(s2, Commit(2)).handed == [texts[0], texts[0]]
  {
    assert [] + texts == texts;
  }

  // ---- The transaction -------------------------------------------------------------------

  class ShelfRows {
    var entries: seq<string>
    var available: nat
    ghost var handed: seq<string>
    ghost var claims: map<nat, Claim>
    var closed: set<nat>
    ghost var commits: nat

    ghost function View(): Shelf
      reads this
    {
      Shelf(entries, handed, claims, closed, commits)
    }

    /** The read before the locks. */
    method ReadShelf(ghost call: nat, order: nat, q: nat) returns (taken: bool, snapshot: seq<string>)
      requires q >= 1 && call !in claims
      modifies this`claims
      ensures taken == (order !in closed && q <= |entries|) && snapshot == entries
      ensures View() == Step(old(View()), Read(call, order, q))
    {
      snapshot := entries;
      taken := order !in closed && |entries| >= q;
      if taken { claims := claims[call := Claim(order, q, entries, commits)]; }
    }

    method CloseOrder(order: nat)
      modifies this`closed
      ensures View() == Step(old(View()), Close(order))
    {
      closed := closed + {order};
    }

    /** The commit of what was read. */
    method CommitLegacy(ghost call: nat, order: nat, q: nat, snapshot: seq<string>) returns (delivered: seq<string>)
      requires call in claims && claims[call].order == order && claims[call].q == q <= |snapshot|
      requires claims[call].snapshot == snapshot
      modifies this
      ensures View() == Step(old(View()), Commit(call))
      ensures delivered == if order in old(closed) then [] else snapshot[..q]
      ensures available == if order in old(closed) then old(available) else |entries|
    {
      if order in closed { return []; }
      delivered := snapshot[..q];
      entries, available, closed := snapshot[q..], |snapshot| - q, closed + {order};
      handed, commits := handed + delivered, commits + 1;
    }
  }
}
