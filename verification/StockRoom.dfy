/** Sales over whole runs: nothing is sold twice, batches are open exactly while they have something to
    sell, and the stored counter stays right. */
module StockRoom {
  import opened Options
  import opened Ranking
  import opened Stock
  import Wallets

  datatype Sale = Sale(id: string, to: string)

  datatype Room = Room(shop: Shop, sales: seq<Sale>)

  /** A purchase attempt, or an upload of one available entry, with its batch if that is new. */
  datatype Event = Sell(product: string, q: nat, now: int, to: string) | Upload(e: Entry, newBatch: Option<Batch>)

  function SalesOf(taken: seq<Candidate>, to: string): seq<Sale> {
    if taken == [] then [] else SalesOf(taken[..|taken| - 1], to) + [Sale(taken[|taken| - 1].entry.id, to)]
  }

  function WithSale(r: Room, taken: seq<Candidate>, to: string): Room {
    Room(AfterSale(r.shop, taken, to), r.sales + SalesOf(taken, to))
  }

  /** An upload brings a new id; its batch, if any, is open. */
  ghost predicate MayUpload(s: Shop, e: Entry, newBatch: Option<Batch>) {
    && e.status == Available && (forall x <- s.entries :: x.id != e.id)
    && (match e.batch
        case None => newBatch == None
        case Some(b) => if b in s.batches then newBatch == None && !s.batches[b].closed
                        else newBatch.Some? && !newBatch.value.closed)
  }

  function Uploaded(s: Shop, e: Entry, newBatch: Option<Batch>): Shop {
    Shop(s.entries + [e],
         if e.batch.Some? && newBatch.Some? then s.batches[e.batch.value := newBatch.value] else s.batches)
  }

  ghost function Step(r: Room, e: Event): Room {
    match e
    case Sell(product, q, now, to) =>
      (match Taken(r.shop, product, q, now)
       case None => r
       case Some(taken) => WithSale(r, taken, to))
    case Upload(x, newBatch) =>
      if MayUpload(r.shop, x, newBatch) then r.(shop := Uploaded(r.shop, x, newBatch)) else r
  }

  ghost function Run(r: Room, es: seq<Event>): Room
    decreases |es|
  {
    if es == [] then r else Step(Run(r, es[..|es| - 1]), es[|es| - 1])
  }

  // ---- Invariants ------------------------------------------------------------------------

  ghost predicate InBatches(s: Shop) {
    forall x <- s.entries :: x.batch.Some? ==> x.batch.value in s.batches
  }

  /** A batch is closed exactly when it has no available entry. */
  ghost predicate BatchesRight(s: Shop) {
    forall b <- s.batches :: s.batches[b].closed <==> Remaining(s.entries, b) == 0
  }

  ghost predicate IsSold(entries: seq<Entry>, sale: Sale) {
    exists x :: x in entries && x.id == sale.id && x.status == Sold && x.soldTo == Some(sale.to)
  }

  ghost predicate SalesRight(r: Room) {
    && (forall i, j :: 0 <= i < j < |r.sales| ==> r.sales[i].id != r.sales[j].id)
    && (forall sale <- r.sales :: IsSold(r.shop.entries, sale))
  }

  ghost predicate Good(r: Room) {
    DistinctIds(r.shop.entries) && InBatches(r.shop) && BatchesRight(r.shop) && SalesRight(r)
  }

  // ---- A sale keeps them -----------------------------------------------------------------

  lemma SameIdSameEntry(entries: seq<Entry>, x: Entry, y: Entry)
    requires DistinctIds(entries) && x in entries && y in entries && x.id == y.id
    ensures x == y
  {
    var i :| 0 <= i < |entries| && entries[i] == x;
    var j :| 0 <= j < |entries| && entries[j] == y;
    assert i == j;
  }

  /** The taken candidates are sellable entries of the shop. */
  ghost predicate Takes(s: Shop, taken: seq<Candidate>, product: string, now: int) {
    && DifferentIds(taken)
    && (forall c <- taken :: c.entry in s.entries && Sellable(s.batches, c.entry, product, now))
  }

  lemma {:induction false} RemainingMarked(entries: seq<Entry>, ids: set<string>, to: string, b: string)
    requires forall x <- entries :: x.id in ids ==> x.batch != Some(b)
    ensures Remaining(MarkSold(entries, ids, to), b) == Remaining(entries, b)
    decreases |entries|
  {
    if entries != [] {
      var n := |entries| - 1;
      RemainingMarked(entries[..n], ids, to, b);
      assert MarkSold(entries, ids, to)[..n] == MarkSold(entries[..n], ids, to);
      assert entries[n] in entries;
    }
  }

  lemma SaleKeepsBatches(s: Shop, taken: seq<Candidate>, product: string, now: int, to: string)
    requires DistinctIds(s.entries) && InBatches(s) && BatchesRight(s) && Takes(s, taken, product, now)
    ensures InBatches(AfterSale(s, taken, to)) && BatchesRight(AfterSale(s, taken, to))
  {
    var t := AfterSale(s, taken, to);
    forall b | b in t.batches ensures t.batches[b].closed <==> Remaining(t.entries, b) == 0 {
      if b in Touched(taken) {
        var c :| c in taken && c.entry.batch == Some(b);
        assert !s.batches[b].closed;
      } else {
        forall x | x in s.entries && x.id in Ids(taken) ensures x.batch != Some(b) {
          var c :| c in taken && c.entry.id == x.id;
          SameIdSameEntry(s.entries, x, c.entry);
        }
        RemainingMarked(s.entries, Ids(taken), to, b);
      }
    }
    forall x | x in t.entries && x.batch.Some? ensures x.batch.value in t.batches {
      var i :| 0 <= i < |t.entries| && t.entries[i] == x;
      assert s.entries[i] in s.entries && x == Marked(s.entries[i], Ids(taken), to);
    }
  }

  lemma {:induction false} SalesAre(taken: seq<Candidate>, to: string)
    ensures |SalesOf(taken, to)| == |taken|
    ensures forall i :: 0 <= i < |taken| ==> SalesOf(taken, to)[i] == Sale(taken[i].entry.id, to)
    decreases |taken|
  {
    if taken != [] { SalesAre(taken[..|taken| - 1], to); }
  }

  lemma StaysSold(s: Shop, taken: seq<Candidate>, product: string, now: int, to: string, sale: Sale)
    requires DistinctIds(s.entries) && Takes(s, taken, product, now) && IsSold(s.entries, sale)
    ensures sale.id !in Ids(taken) && IsSold(AfterSale(s, taken, to).entries, sale)
  {
    var x :| x in s.entries && x.id == sale.id && x.status == Sold && x.soldTo == Some(sale.to);
    forall c | c in taken ensures c.entry.id != x.id {
      if c.entry.id == x.id { SameIdSameEntry(s.entries, x, c.entry); }
    }
    var i :| 0 <= i < |s.entries| && s.entries[i] == x;
    assert AfterSale(s, taken, to).entries[i] == x;
  }

  lemma BecomesSold(s: Shop, taken: seq<Candidate>, product: string, now: int, to: string, k: nat)
    requires Takes(s, taken, product, now) && k < |taken|
    ensures IsSold(AfterSale(s, taken, to).entries, Sale(taken[k].entry.id, to))
  {
    assert taken[k] in taken;
    var i :| 0 <= i < |s.entries| && s.entries[i] == taken[k].entry;
    var x := AfterSale(s, taken, to).entries[i];
    assert x == Marked(taken[k].entry, Ids(taken), to) && x in AfterSale(s, taken, to).entries;
  }

  lemma SaleKeepsSales(r: Room, taken: seq<Candidate>, product: string, now: int, to: string)
    requires DistinctIds(r.shop.entries) && SalesRight(r) && Takes(r.shop, taken, product, now)
    ensures SalesRight(WithSale(r, taken, to))
  {
    var t := WithSale(r, taken, to);
    SalesAre(taken, to);
    forall sale | sale in t.sales ensures IsSold(t.shop.entries, sale) {
      if sale in r.sales {
        StaysSold(r.shop, taken, product, now, to, sale);
      } else {
        assert sale in SalesOf(taken, to);
        var k :| 0 <= k < |taken| && SalesOf(taken, to)[k] == sale;
        BecomesSold(r.shop, taken, product, now, to, k);
      }
    }
    forall i, j | 0 <= i < j < |t.sales| ensures t.sales[i].id != t.sales[j].id {
      if i < |r.sales| <= j {
        assert r.sales[i] in r.sales;
        StaysSold(r.shop, taken, product, now, to, r.sales[i]);
        assert taken[j - |r.sales|] in taken;
      }
    }
  }

  lemma SellKeepsGood(r: Room, product: string, q: nat, now: int, to: string)
    requires Good(r)
    ensures Good(Step(r, Sell(product, q, now, to)))
  {
    SaleTakesTheFirst(r.shop, product, q, now);
    if Taken(r.shop, product, q, now).Some? {
      var taken := Taken(r.shop, product, q, now).value;
      SaleKeepsBatches(r.shop, taken, product, now, to);
      SaleKeepsSales(r, taken, product, now, to);
    }
  }

  lemma UploadKeepsGood(r: Room, e: Entry, newBatch: Option<Batch>)
    requires Good(r) && MayUpload(r.shop, e, newBatch)
    ensures Good(r.(shop := Uploaded(r.shop, e, newBatch)))
  {
    var s, t := r.shop, Uploaded(r.shop, e, newBatch);
    assert t.entries[..|s.entries|] == s.entries;
    forall b | b in t.batches ensures t.batches[b].closed <==> Remaining(t.entries, b) == 0 {
      if b !in s.batches { NothingIn(s, b); }
    }
    forall sale | sale in r.sales ensures IsSold(t.entries, sale) {
      var x :| x in s.entries && x.id == sale.id && x.status == Sold && x.soldTo == Some(sale.to);
      assert x in t.entries;
    }
    forall i, j | 0 <= i < j < |t.entries| ensures t.entries[i].id != t.entries[j].id {
      if j == |s.entries| { assert s.entries[i] in s.entries; }
    }
  }

  lemma NothingIn(s: Shop, b: string)
    requires InBatches(s) && b !in s.batches
    ensures Remaining(s.entries, b) == 0
  {
    NoneRemain(s.entries, b);
  }

  lemma {:induction false} NoneRemain(entries: seq<Entry>, b: string)
    requires forall x <- entries :: x.batch != Some(b)
    ensures Remaining(entries, b) == 0
    decreases |entries|
  {
    if entries != [] {
      assert entries[|entries| - 1] in entries;
      NoneRemain(entries[..|entries| - 1], b);
    }
  }

  /** Over any run of sales and uploads no entry is sold twice, every sale's entry bears the buyer it was
      sold to, and a batch is closed exactly when it has no available entry. */
  lemma {:induction false} RunKeepsGood(r: Room, es: seq<Event>)
    requires Good(r)
    ensures Good(Run(r, es))
    decreases |es|
  {
    if es != [] {
      RunKeepsGood(r, es[..|es| - 1]);
      match es[|es| - 1]
      case Sell(product, q, now, to) => SellKeepsGood(Run(r, es[..|es| - 1]), product, q, now, to);
      case Upload(e, newBatch) =>
        if MayUpload(Run(r, es[..|es| - 1]).shop, e, newBatch) { UploadKeepsGood(Run(r, es[..|es| - 1]), e, newBatch); }
    }
  }

  // ---- The stored counter ----------------------------------------------------------------

  function Hits(entries: seq<Entry>, ids: set<string>): nat {
    if entries == [] then 0
    else Hits(entries[..|entries| - 1], ids) + (if entries[|entries| - 1].id in ids then 1 else 0)
  }

  lemma {:induction false} NoHits(entries: seq<Entry>, id: string, ids: set<string>)
    requires forall x <- entries :: x.id != id
    ensures Hits(entries, ids + {id}) == Hits(entries, ids)
    decreases |entries|
  {
    if entries != [] {
      assert entries[|entries| - 1] in entries;
      NoHits(entries[..|entries| - 1], id, ids);
    }
  }

  lemma {:induction false} OneHitMore(entries: seq<Entry>, k: nat, ids: set<string>)
    requires DistinctIds(entries) && k < |entries| && entries[k].id !in ids
    ensures Hits(entries, ids + {entries[k].id}) == Hits(entries, ids) + 1
    decreases |entries|
  {
    var n := |entries| - 1;
    if k < n {
      assert entries[..n][k] == entries[k];
      OneHitMore(entries[..n], k, ids);
    } else {
      NoHits(entries[..n], entries[n].id, ids);
    }
  }

  lemma {:induction false} NobodyHit(entries: seq<Entry>)
    ensures Hits(entries, {}) == 0
  {
    if entries != [] { NobodyHit(entries[..|entries| - 1]); }
  }

  lemma {:induction false} TakenHit(s: Shop, taken: seq<Candidate>, product: string, now: int)
    requires DistinctIds(s.entries) && Takes(s, taken, product, now)
    ensures Hits(s.entries, Ids(taken)) == |taken|
    decreases |taken|
  {
    if taken == [] {
      NobodyHit(s.entries);
      assert Ids(taken) == {};
    } else {
      var init, last := taken[..|taken| - 1], taken[|taken| - 1];
      assert taken == init + [last];
      TakenHit(s, init, product, now);
      assert last in taken;
      var k :| 0 <= k < |s.entries| && s.entries[k] == last.entry;
      assert Ids(taken) == Ids(init) + {last.entry.id};
      OneHitMore(s.entries, k, Ids(init));
    }
  }

  /** If a sale only takes away what it marks, the count drops by the marks. */
  lemma {:induction false} CountSplits(a: Shop, b: Shop, ids: set<string>, product: string, now: int, mine: bool)
    requires |a.entries| == |b.entries|
    requires forall i :: 0 <= i < |a.entries| ==>
      var x, y := a.entries[i], b.entries[i];
      if x.id in ids then !Sellable(b.batches, y, product, now) && Sellable(a.batches, x, product, now) == mine
      else Sellable(b.batches, y, product, now) == Sellable(a.batches, x, product, now)
    ensures CountAvailable(b, product, now)
            == CountAvailable(a, product, now) - (if mine then Hits(a.entries, ids) else 0)
    decreases |a.entries|
  {
    if a.entries != [] {
      var n := |a.entries| - 1;
      CountSplits(a.(entries := a.entries[..n]), b.(entries := b.entries[..n]), ids, product, now, mine);
    }
  }

  lemma {:induction false} RemainsIn(entries: seq<Entry>, x: Entry, b: string)
    requires x in entries && x.batch == Some(b) && x.status == Available
    ensures Remaining(entries, b) > 0
    decreases |entries|
  {
    var n := |entries| - 1;
    if entries[n] != x {
      assert entries == entries[..n] + [entries[n]];
      RemainsIn(entries[..n], x, b);
    }
  }

  lemma UnmarkedStaysSellable(s: Shop, taken: seq<Candidate>, to: string, i: nat, product: string, now: int)
    requires i < |s.entries| && s.entries[i].id !in Ids(taken)
    ensures var t := AfterSale(s, taken, to);
      && t.entries[i] == s.entries[i]
      && Sellable(t.batches, t.entries[i], product, now) == Sellable(s.batches, s.entries[i], product, now)
  {
    var t := AfterSale(s, taken, to);
    var x := s.entries[i];
    assert t.entries[i] == x && x in t.entries;
    if x.batch.Some? && x.status == Available { RemainsIn(t.entries, x, x.batch.value); }
  }

  /** A sale lowers its own product's count by exactly the quantity and leaves every other product's count
      alone, although it may close batches. */
  lemma SaleCounts(s: Shop, taken: seq<Candidate>, product: string, now: int, to: string, other: string, at: int)
    requires DistinctIds(s.entries) && Takes(s, taken, product, now)
    requires other == product ==> at == now
    ensures CountAvailable(AfterSale(s, taken, to), other, at)
            == CountAvailable(s, other, at) - (if other == product then |taken| else 0)
  {
    var t := AfterSale(s, taken, to);
    forall i | 0 <= i < |s.entries|
      ensures
        var x, y := s.entries[i], t.entries[i];
        if x.id in Ids(taken)
        then !Sellable(t.batches, y, other, at) && Sellable(s.batches, x, other, at) == (other == product)
        else Sellable(t.batches, y, other, at) == Sellable(s.batches, x, other, at)
    {
      if s.entries[i].id in Ids(taken) {
        var c :| c in taken && c.entry.id == s.entries[i].id;
        SameIdSameEntry(s.entries, s.entries[i], c.entry);
      } else {
        UnmarkedStaysSellable(s, taken, to, i, other, at);
      }
    }
    CountSplits(s, t, Ids(taken), other, at, other == product);
    TakenHit(s, taken, product, now);
  }

  /** The product row's counters. */
  datatype Counter = Counter(sold: int, available: Option<int>)

  function Max(a: int, b: int): int { if a < b then b else a }

  /** incrementSoldAndClampAvailable. */
  function Bumped(c: Counter, q: nat): Counter {
    Counter(c.sold + q, if c.available == None then None else Some(Max(0, c.available.value - q)))
  }

  /** A counter that was right before a sale is right after it: the clamp never has to hide a
      difference, and what is no longer available has been sold. */
  lemma CounterStaysRight(s: Shop, product: string, q: nat, now: int, to: string, c: Counter)
    requires DistinctIds(s.entries) && Taken(s, product, q, now).Some?
    requires c.available == Some(CountAvailable(s, product, now))
    ensures Bumped(c, q).available
            == Some(CountAvailable(AfterSale(s, Taken(s, product, q, now).value, to), product, now))
    ensures Bumped(c, q).sold + Bumped(c, q).available.value == c.sold + c.available.value
  {
    var taken := Taken(s, product, q, now).value;
    TakesEnough(s, product, q, now);
    SaleCounts(s, taken, product, now, to, product, now);
  }

  lemma TakesEnough(s: Shop, product: string, q: nat, now: int)
    requires DistinctIds(s.entries) && Taken(s, product, q, now).Some?
    ensures var taken := Taken(s, product, q, now).value;
            Takes(s, taken, product, now) && |taken| == q <= CountAvailable(s, product, now)
  {
    SaleTakesTheFirst(s, product, q, now);
  }

  // ---- The recount of the internal delivery ----------------------------------------------

  /** The internal delivery stores this count: it does not look at batches. */
  function CountAll(entries: seq<Entry>, product: string): nat {
    if entries == [] then 0
    else
      var last := entries[|entries| - 1];
      CountAll(entries[..|entries| - 1], product) + (if last.product == product && last.status == Available then 1 else 0)
  }

  /** An available entry that cannot be sold. */
  predicate Stranded(batches: map<string, Batch>, x: Entry, product: string, now: int) {
    x.product == product && x.status == Available && !Sellable(batches, x, product, now)
  }

  lemma {:induction false} CountsAgreeExactly(s: Shop, product: string, now: int)
    ensures CountAvailable(s, product, now) <= CountAll(s.entries, product)
    ensures CountAvailable(s, product, now) == CountAll(s.entries, product)
            <==> forall x <- s.entries :: !Stranded(s.batches, x, product, now)
    decreases |s.entries|
  {
    if s.entries != [] {
      var n := |s.entries| - 1;
      var p, last := s.(entries := s.entries[..n]), s.entries[n];
      CountsAgreeExactly(p, product, now);
      assert last in s.entries;
      if Stranded(s.batches, last, product, now) {
        assert CountAvailable(s, product, now) < CountAll(s.entries, product);
      } else if CountAvailable(p, product, now) == CountAll(p.entries, product) {
        forall x | x in s.entries ensures !Stranded(s.batches, x, product, now) { assert x in p.entries || x == last; }
      } else {
        var x :| x in p.entries && Stranded(s.batches, x, product, now);
        assert x in s.entries;
      }
    }
  }

  lemma StrandedAlike(s: Shop, taken: seq<Candidate>, product: string, now: int, to: string)
    requires DistinctIds(s.entries) && Takes(s, taken, product, now)
    ensures var t := AfterSale(s, taken, to);
            (forall x <- t.entries :: !Stranded(t.batches, x, product, now))
            <==> (forall x <- s.entries :: !Stranded(s.batches, x, product, now))
  {
    var t := AfterSale(s, taken, to);
    forall i | 0 <= i < |s.entries|
      ensures Stranded(t.batches, t.entries[i], product, now) == Stranded(s.batches, s.entries[i], product, now)
    {
      if s.entries[i].id in Ids(taken) {
        var c :| c in taken && c.entry.id == s.entries[i].id;
        SameIdSameEntry(s.entries, s.entries[i], c.entry);
      } else {
        UnmarkedStaysSellable(s, taken, to, i, product, now);
      }
    }
    if x :| x in t.entries && Stranded(t.batches, x, product, now) {
      var i :| 0 <= i < |t.entries| && t.entries[i] == x;
      assert s.entries[i] in s.entries;
    }
    if x :| x in s.entries && Stranded(s.batches, x, product, now) {
      var i :| 0 <= i < |s.entries| && s.entries[i] == x;
      assert t.entries[i] in t.entries;
    }
  }

  /** After an internal delivery the stored counter is the availability count exactly if, before it, no
      available entry of the product was unsellable. */
  lemma RecountRightExactly(s: Shop, taken: seq<Candidate>, product: string, now: int, to: string)
    requires DistinctIds(s.entries) && Takes(s, taken, product, now)
    ensures var t := AfterSale(s, taken, to);
            CountAll(t.entries, product) == CountAvailable(t, product, now)
            <==> forall x <- s.entries :: !Stranded(s.batches, x, product, now)
  {
    CountsAgreeExactly(AfterSale(s, taken, to), product, now);
    StrandedAlike(s, taken, product, now, to);
  }

  /** With batches closed exactly when empty, these are the available entries of expired batches. */
  lemma StrandedMeansExpired(s: Shop, x: Entry, product: string, now: int)
    requires InBatches(s) && BatchesRight(s) && x in s.entries && x.product == product && x.status == Available
    ensures Stranded(s.batches, x, product, now) <==>
              && x.batch.Some? && s.batches[x.batch.value].expiresAt.Some?
              && s.batches[x.batch.value].expiresAt.value <= now
  {
    if x.batch.Some? {
      var b := x.batch.value;
      RemainsIn(s.entries, x, b);
      assert b in s.batches && !s.batches[b].closed;
    }
  }

  // ---- The metadata copies ---------------------------------------------------------------

  function RemoveFirst(list: seq<string>, text: string): seq<string> {
    if list == [] then []
    else if list[0] == text then list[1..]
    else [list[0]] + RemoveFirst(list[1..], text)
  }

  lemma {:induction false} RemovesOne(list: seq<string>, text: string)
    ensures multiset(RemoveFirst(list, text)) == multiset(list) - multiset{text}
  {
    if list != [] {
      assert list == [list[0]] + list[1..];
      if list[0] != text { RemovesOne(list[1..], text); }
    }
  }

  /** Delivered texts leave the metadata list, each once, as far as they are in it. */
  method SpliceDelivered(list: seq<string>, texts: seq<string>) returns (rest: seq<string>)
    ensures multiset(rest) == multiset(list) - multiset(texts)
  {
    rest := list;
    for k := 0 to |texts|
      invariant multiset(rest) == multiset(list) - multiset(texts[..k])
    {
      assert texts[..k + 1] == texts[..k] + [texts[k]];
      RemovesOne(rest, texts[k]);
      rest := RemoveFirst(rest, texts[k]);
    }
    assert texts[..|texts|] == texts;
  }

  // ---- The operations --------------------------------------------------------------------

  datatype Popped = Popped(texts: seq<string>, cost: int, ids: seq<string>)

  datatype OrderState = Pending | Delivered | Failed

  datatype Delivery = Handed(texts: seq<string>) | Shortage | UnsafeMargin

  function EntryIds(cs: seq<Candidate>): (r: seq<string>)
    ensures |r| == |cs|
  {
    if cs == [] then [] else EntryIds(cs[..|cs| - 1]) + [cs[|cs| - 1].entry.id]
  }

  class StockTables {
    var entries: seq<Entry>
    var batches: map<string, Batch>

    ghost function View(): Shop
      reads this
    {
      Shop(entries, batches)
    }

    /** popManualStockEntries, inside its transaction. */
    method PopManualStockEntries(product: string, q: nat, now: int, to: string) returns (popped: Option<Popped>)
      modifies this
      ensures var taken := Taken(old(View()), product, q, now);
        && (taken == None ==> popped == None && View() == old(View()))
        && (taken.Some? ==>
              && popped == Some(Popped(Texts(taken.value), Cost(taken.value), EntryIds(taken.value)))
              && View() == AfterSale(old(View()), taken.value, to))
      ensures var taken := Taken(old(View()), product, q, now);
              DistinctIds(old(entries)) && taken.Some? ==> GoesByColumns(old(View()), taken.value, product, now)
    {
      ghost var start := View();
      var ranked := Sort(Before, Candidates(Shop(entries, batches), product, now));
      if |ranked| < q { return None; }
      var taken := ranked[..q];
      entries := MarkSold(entries, Ids(taken), to);
      var texts: seq<string>, cost, ids: seq<string> := [], 0, [];
      for k := 0 to |taken|
        invariant texts == Texts(taken[..k]) && cost == Cost(taken[..k]) && ids == EntryIds(taken[..k])
      {
        assert taken[..k + 1][..k] == taken[..k];
        var c := taken[k];
        texts := texts + [c.entry.text];
        if c.batch.Some? && c.batch.value.cost.Some? { cost := cost + c.batch.value.cost.value; }
        ids := ids + [c.entry.id];
      }
      assert taken[..|taken|] == taken;
      CloseEmptied(Touched(taken));
      if DistinctIds(start.entries) { SaleGoesByColumns(start, product, q, now); }
      popped := Some(Popped(texts, cost, ids));
    }

    /** Looks at each touched batch in turn and closes it if nothing is left. */
    method CloseEmptied(touched: set<string>)
      modifies this`batches
      ensures batches == CloseEmpty(entries, old(batches), touched)
    {
      var rest := touched;
      assert CloseEmpty(entries, batches, {}) == batches;
      while rest != {}
        invariant rest <= touched
        invariant batches == CloseEmpty(entries, old(batches), touched - rest)
        decreases |rest|
      {
        var b :| b in rest;
        if b in batches && Remaining(entries, b) == 0 { batches := batches[b := batches[b].(closed := true)]; }
        rest := rest - {b};
      }
      assert touched - {} == touched;
    }
  }

  /** The internal delivery: pops, then gives everything back if the price turns out unsafe. */
  class InternalDelivery {
    const tables: StockTables
    var order: OrderState
    var deliveredText: Option<seq<string>>
    var counter: Counter
    var metadata: seq<string>

    constructor (tables: StockTables, counter: Counter, metadata: seq<string>)
      ensures this.tables == tables && order == Pending && deliveredText == None
      ensures this.counter == counter && this.metadata == metadata
    {
      this.tables, order, deliveredText, this.counter, this.metadata := tables, Pending, None, counter, metadata;
    }

    /** Stock moves exactly when the order is delivered: a shortage, an unsafe margin or an order that is
        no longer pending leaves every entry and batch, the counter and the metadata as they were.
        `listRead` is the metadata list as it was read before the locks (see module DeliveryList). */
    method Deliver(product: string, q: nat, now: int, to: string, totalSale: int, listRead: seq<string>)
      returns (d: Delivery)
      modifies this, tables
      ensures var s := old(tables.View());
              var taken := Taken(s, product, q, now);
        && (d.Handed? <==>
              old(order) == Pending && taken.Some? && 0 <= totalSale && 0 <= Cost(taken.value) <= totalSale)
        && (d == UnsafeMargin <==>
              old(order) == Pending && taken.Some?
              && !(0 <= totalSale && 0 <= Cost(taken.value) <= totalSale))
        && (if d.Handed?
            then d.texts == Texts(taken.value) && order == Delivered && deliveredText == Some(d.texts)
                 && tables.View() == AfterSale(s, taken.value, to)
                 && counter == Counter(old(counter).sold + q, Some(CountAll(tables.entries, product)))
                 && multiset(metadata) == multiset(listRead) - multiset(d.texts)
            else tables.View() == s && order == old(order) && deliveredText == old(deliveredText)
                 && counter == old(counter) && metadata == old(metadata))
    {
      if order != Pending { return Shortage; }
      var entries, batches := tables.entries, tables.batches;
      var popped := tables.PopManualStockEntries(product, q, now, to);
      if popped == None { return Shortage; }
      if !Wallets.PriceSafe(totalSale, popped.value.cost) {
        tables.entries, tables.batches := entries, batches;
        return UnsafeMargin;
      }
      Record(product, q, popped.value.texts, listRead);
      d := Handed(popped.value.texts);
    }

    /** The writes to the order and to the product row; the metadata list is written over. */
    method Record(product: string, q: nat, texts: seq<string>, listRead: seq<string>)
      modifies this
      ensures order == Delivered && deliveredText == Some(texts)
      ensures counter == Counter(old(counter).sold + q, Some(CountAll(tables.entries, product)))
      ensures multiset(metadata) == multiset(listRead) - multiset(texts)
    {
      order, deliveredText := Delivered, Some(texts);
      metadata := SpliceDelivered(listRead, texts);
      counter := Counter(counter.sold + q, Some(CountAll(tables.entries, product)));
    }
  }
}
