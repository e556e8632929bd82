/** The money life of an internal-source order: one creation debit, three guarded delivery commits,
    one guarded failure with refund, and two writes (parking, manual delivery) whose status test
    happens before, and outside, the transaction that writes. */
module OrderMoney {
  import opened Options
  import opened Wallets

  datatype Status = Pending | Processing | PendingStock | PendingManual | Delivered | Failed | Canceled

  predicate Closed(s: Status) { s == Delivered || s == Failed || s == Canceled }

  /** `handedOver` says that the delivery columns (text and time) of the row are set. */
  datatype Order = Order(total: int, status: Status, handedOver: bool)

  /** `kept` records the orders whose latest closing failure asked for no refund or found no wallet. */
  datatype Book = Book(wallet: Wallet, orders: map<nat, Order>, kept: set<nat>)
  {
    function Spends(id: nat): seq<Row> { Matching(wallet.rows, SpendOrder, InternalOrderRef, id) }
    function Refunds(id: nat): seq<Row> { Matching(wallet.rows, RefundOrder, InternalOrderRef, id) }
    function MainTaken(id: nat): int { MainTakenBy(wallet.rows, InternalOrderRef, id) }
    function CommissionTaken(id: nat): int { CommissionTakenBy(wallet.rows, InternalOrderRef, id) }
  }

  // ---- Atomic steps ----------------------------------------------------------------------

  predicate CanCreate(b: Book, id: nat, total: int) {
    id !in b.orders && total > 0 && total <= b.wallet.main + b.wallet.commission
  }

  function Create(b: Book, id: nat, total: int): Book {
    if CanCreate(b, id, total)
    then Book(Spend(b.wallet, InternalOrderRef, id, total), b.orders[id := Order(total, Pending, false)], b.kept)
    else b
  }

  /** A delivery commit re-reads the status under the row lock. */
  function Commit(b: Book, id: nat): Book {
    if id in b.orders && b.orders[id].status == Pending
    then b.(orders := b.orders[id := b.orders[id].(status := Delivered, handedOver := true)])
    else b
  }

  /** How a refund of `total` is split, from the newest debit row of the order, if there is one. */
  function RefundSplit(spends: seq<Row>, total: int): (int, int) {
    if spends == [] then (total, 0)
    else
      var s := spends[|spends| - 1];
      if s.MainTaken() >= 0 && s.CommissionTaken() >= 0 && s.MainTaken() + s.CommissionTaken() > 0
      then (s.MainTaken(), s.CommissionTaken())
      else (total, 0)
  }

  /** `linked` says that the connection exists and leads to a customer. */
  function Fail(b: Book, id: nat, refund: bool, linked: bool): Book {
    if id !in b.orders || Closed(b.orders[id].status) then b
    else
      var total := b.orders[id].total;
      var split := RefundSplit(b.Spends(id), total);
      Book(if refund && linked then GiveBack(b.wallet, InternalOrderRef, id, total, split.0, split.1)
           else b.wallet,
           b.orders[id := b.orders[id].(status := Failed)],
           if refund && linked then b.kept - {id} else b.kept + {id})
  }

  /** The parking write: no status test of its own. */
  function Park(b: Book, id: nat, to: Status): Book {
    if id in b.orders then b.(orders := b.orders[id := b.orders[id].(status := to)]) else b
  }

  /** The owner's manual delivery write: no status test of its own. */
  function HandOver(b: Book, id: nat): Book {
    if id in b.orders
    then b.(orders := b.orders[id := b.orders[id].(status := Delivered, handedOver := true)])
    else b
  }

  // ---- Runs ------------------------------------------------------------------------------

  /** The book together with the callers whose earlier status read let them proceed. */
  datatype World = World(book: Book, sawPending: set<nat>, sawOpen: set<nat>)

  datatype Event =
    | Creation(id: nat, total: int)
    | FulfilRead(id: nat)
    | Delivery(id: nat)
    | Parking(id: nat, toStock: bool)
    | OwnerRead(id: nat)
    | OwnerDelivery(id: nat)
    | Failure(id: nat, refund: bool, linked: bool)
    | Elsewhere(row: Row)

  /** Any other posting to the same wallet: it re-reads the balances and has another reference. */
  predicate FitsElsewhere(w: Wallet, r: Row) {
    && r.refKind != InternalOrderRef
    && (r.currency == VND ==>
          && r.before == w.main
          && r.commissionBefore.Some? == r.commissionAfter.Some?
          && (r.commissionBefore.Some? ==> r.commissionBefore.value == w.commission))
  }

  function PostElsewhere(w: Wallet, r: Row): Wallet {
    if !FitsElsewhere(w, r) then w
    else if r.currency == USDT then w.(rows := w.rows + [r])
    else Post(w, r.after, if r.commissionAfter.Some? then r.commissionAfter.value else w.commission, r)
  }

  function Step(w: World, e: Event): World {
    match e
    case Creation(id, total) => w.(book := Create(w.book, id, total))
    case FulfilRead(id) =>
      if id in w.book.orders && w.book.orders[id].status == Pending
      then w.(sawPending := w.sawPending + {id}) else w
    case Delivery(id) => if id in w.sawPending then w.(book := Commit(w.book, id)) else w
    case Parking(id, toStock) =>
      if id in w.sawPending
      then w.(book := Park(w.book, id, if toStock then PendingStock else PendingManual)) else w
    case OwnerRead(id) =>
      if id in w.book.orders && !Closed(w.book.orders[id].status)
      then w.(sawOpen := w.sawOpen + {id}) else w
    case OwnerDelivery(id) => if id in w.sawOpen then w.(book := HandOver(w.book, id)) else w
    case Failure(id, refund, linked) => w.(book := Fail(w.book, id, refund, linked))
    case Elsewhere(r) => w.(book := w.book.(wallet := PostElsewhere(w.book.wallet, r)))
  }

  function Run(w: World, es: seq<Event>): World
    decreases |es|
  {
    if es == [] then w else Run(Step(w, es[0]), es[1..])
  }

  // ---- What the status promises ----------------------------------------------------------

  /** Commission balance just before the creation debit. */
  function CommissionAtDebit(b: Book, id: nat): int
    requires b.Spends(id) != [] && b.Spends(id)[0].commissionBefore.Some?
  {
    b.Spends(id)[0].commissionBefore.value
  }

  ghost predicate DebitedOnce(b: Book, id: nat) {
    && id in b.orders && b.orders[id].total > 0
    && |b.Spends(id)| == 1
    && var d := b.Spends(id)[0];
       && d.commissionBefore.Some? && d.commissionAfter.Some?
       && d.CommissionTaken() == Min(d.commissionBefore.value, b.orders[id].total)
       && d.MainTaken() + d.CommissionTaken() == b.orders[id].total
  }

  /** The status of the order tells the truth about goods and money. */
  ghost predicate TruthfulOrder(b: Book, id: nat) {
    && DebitedOnce(b, id)
    && |b.Refunds(id)| <= 1
    && b.orders[id].handedOver == (b.orders[id].status == Delivered)
    && (b.Refunds(id) != [] ==> b.orders[id].status == Failed)
    && (b.orders[id].status == Failed ==> (b.Refunds(id) == [] <==> id in b.kept))
    && (b.Refunds(id) == [] ==>
          && b.MainTaken(id) == b.Spends(id)[0].MainTaken()
          && b.CommissionTaken(id) == b.Spends(id)[0].CommissionTaken())
    && (b.Refunds(id) != [] ==>
          && b.MainTaken(id) == -Min(0, CommissionAtDebit(b, id))
          && b.CommissionTaken(id) == Min(0, CommissionAtDebit(b, id)))
  }

  ghost predicate Untouched(b: Book, id: nat) {
    b.Spends(id) == [] && b.Refunds(id) == [] && b.MainTaken(id) == 0 && b.CommissionTaken(id) == 0
  }

  ghost predicate Truthful(b: Book) {
    forall id: nat :: if id in b.orders then TruthfulOrder(b, id) else Untouched(b, id)
  }

  /** One refund that nets the order to zero, and each part of it exactly if commission was not negative
      when the order was debited. */
  ghost predicate MadeWhole(b: Book, id: nat) {
    && b.Spends(id) != [] && b.Spends(id)[0].commissionBefore.Some?
    && |b.Refunds(id)| == 1
    && b.MainTaken(id) + b.CommissionTaken(id) == 0
    && (b.MainTaken(id) == 0 && b.CommissionTaken(id) == 0 <==> 0 <= CommissionAtDebit(b, id))
  }

  /** The safety a customer and an owner rely on: a delivered order nets exactly its total, a failed one
      nets zero unless its failing step kept the money, and nothing else is ever refunded. */
  ghost predicate Safe(b: Book) {
    forall id <- b.orders ::
      && DebitedOnce(b, id)
      && (b.orders[id].status == Failed && id !in b.kept ==> MadeWhole(b, id) && !b.orders[id].handedOver)
      && (b.orders[id].status != Failed || id in b.kept ==>
            b.Refunds(id) == [] && b.MainTaken(id) + b.CommissionTaken(id) == b.orders[id].total)
  }

  /** An unguarded write is timely when nothing was refunded, and, for parking, nothing handed over. */
  predicate TimelyStep(w: World, e: Event) {
    match e
    case Parking(id, _) =>
      id in w.sawPending && id in w.book.orders ==> !w.book.orders[id].handedOver && w.book.Refunds(id) == []
    case OwnerDelivery(id) => id in w.sawOpen && id in w.book.orders ==> w.book.Refunds(id) == []
    case _ => true
  }

  predicate Timely(w: World, es: seq<Event>)
    decreases |es|
  {
    es != [] ==> TimelyStep(w, es[0]) && Timely(Step(w, es[0]), es[1..])
  }

  ghost predicate AlwaysTruthful(w: World, es: seq<Event>)
    decreases |es|
  {
    Truthful(w.book) && (es != [] ==> AlwaysTruthful(Step(w, es[0]), es[1..]))
  }

  // ---- One step --------------------------------------------------------------------------

  lemma SameOrder(b: Book, b2: Book, id: nat)
    requires id in b.orders && id in b2.orders && b.orders[id] == b2.orders[id]
    requires b2.Spends(id) == b.Spends(id) && b2.Refunds(id) == b.Refunds(id)
    requires b2.MainTaken(id) == b.MainTaken(id) && b2.CommissionTaken(id) == b.CommissionTaken(id)
    requires id in b2.kept <==> id in b.kept
    ensures TruthfulOrder(b, id) ==> TruthfulOrder(b2, id)
  {}

  lemma CreateKeeps(b: Book, id: nat, total: int)
    requires Truthful(b)
    ensures Truthful(Create(b, id, total))
  {
    if CanCreate(b, id, total) {
      var b2 := Create(b, id, total);
      var r := b2.wallet.rows[|b.wallet.rows|];
      forall x: nat ensures if x in b2.orders then TruthfulOrder(b2, x) else Untouched(b2, x) {
        Appended(b.wallet.rows, r, InternalOrderRef, x);
        if x in b.orders { SameOrder(b, b2, x); }
      }
    }
  }

  lemma RefundKeepsOrder(b: Book, id: nat, x: nat)
    requires id in b.orders && !Closed(b.orders[id].status) && TruthfulOrder(b, id)
    requires if x in b.orders then TruthfulOrder(b, x) else Untouched(b, x)
    ensures var b2 := Fail(b, id, true, true); if x in b2.orders then TruthfulOrder(b2, x) else Untouched(b2, x)
  {
    var b2 := Fail(b, id, true, true);
    Appended(b.wallet.rows, b2.wallet.rows[|b.wallet.rows|], InternalOrderRef, x);
    if x in b.orders && x != id { SameOrder(b, b2, x); }
  }

  lemma FailKeeps(b: Book, id: nat, refund: bool, linked: bool)
    requires Truthful(b)
    ensures Truthful(Fail(b, id, refund, linked))
  {
    if id in b.orders && !Closed(b.orders[id].status) {
      assert TruthfulOrder(b, id);
      if refund && linked {
        var b2 := Fail(b, id, refund, linked);
        forall x: nat ensures if x in b2.orders then TruthfulOrder(b2, x) else Untouched(b2, x) {
          assert if x in b.orders then TruthfulOrder(b, x) else Untouched(b, x);
          RefundKeepsOrder(b, id, x);
        }
      } else {
        StatusWrite(b, Fail(b, id, refund, linked), id);
      }
    }
  }

  /** A step that only rewrites one order keeps every other order truthful. */
  lemma StatusWrite(b: Book, b2: Book, id: nat)
    requires Truthful(b) && id in b.orders && id in b2.orders
    requires b2.wallet == b.wallet && b2.orders == b.orders[id := b2.orders[id]]
    requires b2.orders[id].total == b.orders[id].total
    requires b2.orders[id].handedOver == (b2.orders[id].status == Delivered)
    requires b.Refunds(id) != [] ==> b2.orders[id].status == Failed
    requires forall x: nat :: x != id ==> (x in b2.kept <==> x in b.kept)
    requires b2.orders[id].status == Failed ==> (b.Refunds(id) == [] <==> id in b2.kept)
    ensures Truthful(b2)
  {
    forall x: nat ensures if x in b2.orders then TruthfulOrder(b2, x) else Untouched(b2, x) {
      assert if x in b.orders then TruthfulOrder(b, x) else Untouched(b, x);
    }
  }

  lemma ElsewhereKeeps(b: Book, r: Row)
    requires Truthful(b)
    ensures Truthful(b.(wallet := PostElsewhere(b.wallet, r)))
  {
    var b2 := b.(wallet := PostElsewhere(b.wallet, r));
    forall x: nat ensures if x in b2.orders then TruthfulOrder(b2, x) else Untouched(b2, x) {
      Appended(b.wallet.rows, r, InternalOrderRef, x);
      assert if x in b.orders then TruthfulOrder(b, x) else Untouched(b, x);
    }
  }

  /** From a truthful book a step leads to a truthful book exactly when it is timely. */
  lemma StepExact(w: World, e: Event)
    requires Truthful(w.book)
    ensures Truthful(Step(w, e).book) <==> TimelyStep(w, e)
  {
    var b := w.book;
    match e
    case Creation(id, total) => CreateKeeps(b, id, total);
    case FulfilRead(id) =>
    case Delivery(id) =>
      if id in w.sawPending && id in b.orders && b.orders[id].status == Pending {
        assert TruthfulOrder(b, id);
        StatusWrite(b, Commit(b, id), id);
      }
    case Parking(id, toStock) =>
      if id in w.sawPending && id in b.orders {
        assert TruthfulOrder(b, id);
        var b2 := Step(w, e).book;
        if TimelyStep(w, e) { StatusWrite(b, b2, id); } else { assert !TruthfulOrder(b2, id); }
      }
    case OwnerRead(id) =>
    case OwnerDelivery(id) =>
      if id in w.sawOpen && id in b.orders {
        assert TruthfulOrder(b, id);
        var b2 := Step(w, e).book;
        if TimelyStep(w, e) { StatusWrite(b, b2, id); } else { assert !TruthfulOrder(b2, id); }
      }
    case Failure(id, refund, linked) => FailKeeps(b, id, refund, linked);
    case Elsewhere(r) => ElsewhereKeeps(b, r);
  }

  // ---- Whole runs ------------------------------------------------------------------------

  /** Over every run and every interleaving: the statuses stay truthful exactly when no unguarded
      write lands on an order that was meanwhile refunded (or, for parking, handed over). */
  lemma {:induction false} RunExact(w: World, es: seq<Event>)
    requires Truthful(w.book)
    ensures AlwaysTruthful(w, es) <==> Timely(w, es)
    decreases |es|
  {
    if es != [] {
      StepExact(w, es[0]);
      if TimelyStep(w, es[0]) { RunExact(Step(w, es[0]), es[1..]); }
    }
  }

  lemma {:induction false} TimelyRunIsSafe(w: World, es: seq<Event>)
    requires Truthful(w.book) && Timely(w, es)
    ensures Truthful(Run(w, es).book) && Safe(Run(w, es).book)
    decreases |es|
  {
    if es == [] {
      forall id <- w.book.orders ensures TruthfulOrder(w.book, id) {}
    } else {
      StepExact(w, es[0]);
      TimelyRunIsSafe(Step(w, es[0]), es[1..]);
    }
  }

  // ---- Deliveries ------------------------------------------------------------------------

  /** A delivery whose caller read the order in time comes before any failure of the order; `seen` tells
      whether such a caller is there already. */
  predicate DeliveryFirst(seen: bool, es: seq<Event>, id: nat)
    decreases |es|
  {
    es != [] &&
    match es[0]
    case FulfilRead(k) => DeliveryFirst(seen || k == id, es[1..], id)
    case Delivery(k) => (k == id && seen) || DeliveryFirst(seen, es[1..], id)
    case Failure(k, _, _) => k != id && DeliveryFirst(seen, es[1..], id)
    case _ => DeliveryFirst(seen, es[1..], id)
  }

  /** A failure of the order comes before any such delivery. */
  predicate FailureFirst(seen: bool, es: seq<Event>, id: nat)
    decreases |es|
  {
    es != [] &&
    match es[0]
    case FulfilRead(k) => FailureFirst(seen || k == id, es[1..], id)
    case Delivery(k) => !(k == id && seen) && FailureFirst(seen, es[1..], id)
    case Failure(k, _, _) => k == id || FailureFirst(seen, es[1..], id)
    case _ => FailureFirst(seen, es[1..], id)
  }

  lemma ClosedStepStays(w: World, e: Event, id: nat)
    requires id in w.book.orders && Closed(w.book.orders[id].status) && Guarded(e)
    ensures var b := Step(w, e).book; id in b.orders && b.orders[id] == w.book.orders[id]
    ensures Step(w, e).book.Refunds(id) == w.book.Refunds(id)
  {
    StepAppends(w, e);
    var v, v2 := w.book.wallet, Step(w, e).book.wallet;
    if v2.rows != v.rows { RefundsAppended(v.rows, v2.rows[|v.rows|], id); }
  }

  /** Once an order is delivered or failed, nothing in a guarded run changes it or refunds it again. */
  lemma {:induction false} ClosedStays(w: World, es: seq<Event>, id: nat)
    requires id in w.book.orders && Closed(w.book.orders[id].status) && forall e <- es :: Guarded(e)
    ensures var b := Run(w, es).book;
            id in b.orders && b.orders[id] == w.book.orders[id] && b.Refunds(id) == w.book.Refunds(id)
    decreases |es|
  {
    if es != [] {
      assert Guarded(es[0]);
      ClosedStepStays(w, es[0], id);
      ClosedStays(Step(w, es[0]), es[1..], id);
    }
  }

  /** Nobody is on the way with a write whose status test has passed. */
  predicate NobodyComing(w: World, id: nat) { id !in w.sawPending && id !in w.sawOpen }

  /** In every run, with parking and manual deliveries: a closed order that nobody read in time stays exactly as
      it is, because whoever reads it from then on is turned away. */
  lemma {:induction false} ClosedIsFinal(w: World, es: seq<Event>, id: nat)
    requires id in w.book.orders && Closed(w.book.orders[id].status) && NobodyComing(w, id)
    ensures var t := Run(w, es);
      && NobodyComing(t, id) && id in t.book.orders
      && t.book.orders[id] == w.book.orders[id] && t.book.Refunds(id) == w.book.Refunds(id)
    decreases |es|
  {
    if es != [] {
      FinalStep(w, es[0], id);
      ClosedIsFinal(Step(w, es[0]), es[1..], id);
    }
  }

  lemma FinalStep(w: World, e: Event, id: nat)
    requires id in w.book.orders && Closed(w.book.orders[id].status) && NobodyComing(w, id)
    ensures var t := Step(w, e);
      && NobodyComing(t, id) && id in t.book.orders
      && t.book.orders[id] == w.book.orders[id] && t.book.Refunds(id) == w.book.Refunds(id)
  {
    StepAppends(w, e);
    var v, v2 := w.book.wallet, Step(w, e).book.wallet;
    if v2.rows != v.rows { RefundsAppended(v.rows, v2.rows[|v.rows|], id); }
  }

  /** Parking writes the status that it is for. */
  lemma ParkedAs(w: World, id: nat, toStock: bool)
    requires id in w.sawPending && id in w.book.orders
    ensures var o := w.book.orders[id];
            Step(w, Parking(id, toStock)).book.orders
            == w.book.orders[id := Order(o.total, if toStock then PendingStock else PendingManual, o.handedOver)]
  {}

  /** An open order without a debit row is refunded to the main balance. */
  lemma RefundedToMain(b: Book, id: nat)
    requires id in b.orders && !Closed(b.orders[id].status) && b.Spends(id) == []
    ensures var t, total := Fail(b, id, true, true), b.orders[id].total;
      && t.wallet.main == b.wallet.main + total && t.wallet.commission == b.wallet.commission
      && t.Refunds(id) == b.Refunds(id) + [t.wallet.rows[|b.wallet.rows|]]
      && t.wallet.rows[|b.wallet.rows|].amount == total
  {
    RefundsAppended(b.wallet.rows, Fail(b, id, true, true).wallet.rows[|b.wallet.rows|], id);
  }

  lemma PendingStep(w: World, e: Event, id: nat)
    requires Truthful(w.book) && Guarded(e)
    requires id in w.book.orders && w.book.orders[id].status == Pending
    ensures var t, total := Step(w, e), w.book.orders[id].total;
      && Truthful(t.book) && id in t.book.orders
      && t.book.orders[id] == (if e == Delivery(id) && id in w.sawPending then Order(total, Delivered, true)
                               else if e.Failure? && e.id == id then Order(total, Failed, false)
                               else Order(total, Pending, false))
      && (id in t.sawPending <==> id in w.sawPending || e == FulfilRead(id))
      && (t.book.orders[id].status == Delivered ==> t.book.Refunds(id) == [])
  {
    assert TruthfulOrder(w.book, id);
    StepExact(w, e);
    if id in Step(w, e).book.orders { assert TruthfulOrder(Step(w, e).book, id); }
  }

  /** Over every guarded run a pending order ends delivered, with its goods handed over and nothing refunded,
      exactly if a delivery whose caller read it in time comes before its first failure; it ends failed exactly
      if the failure comes first; and otherwise it is still pending. */
  lemma {:induction false} DeliveredExactly(w: World, es: seq<Event>, id: nat)
    requires Truthful(w.book) && forall e <- es :: Guarded(e)
    requires id in w.book.orders && w.book.orders[id].status == Pending
    ensures var b := Run(w, es).book;
      && id in b.orders
      && (b.orders[id].status == Delivered && b.orders[id].handedOver && b.Refunds(id) == []
          <==> DeliveryFirst(id in w.sawPending, es, id))
      && (b.orders[id].status == Failed && !b.orders[id].handedOver <==> FailureFirst(id in w.sawPending, es, id))
      && (b.orders[id].status == Pending
          <==> !DeliveryFirst(id in w.sawPending, es, id) && !FailureFirst(id in w.sawPending, es, id))
    decreases |es|
  {
    assert TruthfulOrder(w.book, id);
    if es != [] {
      var t := Step(w, es[0]);
      assert Guarded(es[0]);
      PendingStep(w, es[0], id);
      if t.book.orders[id].status == Pending {
        DeliveredExactly(t, es[1..], id);
      } else {
        ClosedStays(t, es[1..], id);
      }
    }
  }

  // ---- Failed orders ---------------------------------------------------------------------

  /** The order is failed and nothing was given back. */
  predicate Unrefunded(b: Book, id: nat) { id in b.orders && b.orders[id].status == Failed && b.Refunds(id) == [] }

  /** A failure that closes the order and asks for no refund or finds no wallet. */
  predicate Keeps(w: World, e: Event, id: nat) {
    && e.Failure? && e.id == id && !(e.refund && e.linked)
    && id in w.book.orders && !Closed(w.book.orders[id].status)
  }

  lemma StepAppends(w: World, e: Event)
    ensures var rows, rows2 := w.book.wallet.rows, Step(w, e).book.wallet.rows;
            rows2 == rows || (|rows2| == |rows| + 1 && rows2 == rows + [rows2[|rows|]])
  {}

  lemma RefundsAppended(rows: seq<Row>, r: Row, id: nat)
    ensures Matching(rows + [r], RefundOrder, InternalOrderRef, id)
            == Matching(rows, RefundOrder, InternalOrderRef, id)
               + (if r.Is(RefundOrder, InternalOrderRef, id) then [r] else [])
  {
    Appended(rows, r, InternalOrderRef, id);
  }

  /** A step leaves an order failed without a refund exactly if it is such a failure. */
  lemma KeptExactly(w: World, e: Event, id: nat)
    requires Truthful(w.book)
    ensures !Unrefunded(w.book, id) && Unrefunded(Step(w, e).book, id) <==> Keeps(w, e, id)
  {
    if id in w.book.orders { assert TruthfulOrder(w.book, id); }
    StepAppends(w, e);
    var v, v2 := w.book.wallet, Step(w, e).book.wallet;
    if v2.rows != v.rows { RefundsAppended(v.rows, v2.rows[|v.rows|], id); }
  }

  predicate Guarded(e: Event) { !e.Parking? && !e.OwnerDelivery? }

  lemma UnrefundedStays(w: World, e: Event, id: nat)
    requires Unrefunded(w.book, id) && Guarded(e)
    ensures Unrefunded(Step(w, e).book, id)
  {
    StepAppends(w, e);
    var v, v2 := w.book.wallet, Step(w, e).book.wallet;
    if v2.rows != v.rows { RefundsAppended(v.rows, v2.rows[|v.rows|], id); }
  }

  predicate SomeKeeps(w: World, es: seq<Event>, id: nat)
    decreases |es|
  {
    es != [] && (Keeps(w, es[0], id) || SomeKeeps(Step(w, es[0]), es[1..], id))
  }

  /** Over every guarded run: an order ends failed without a refund exactly if one of the steps was a failure
      that closed it and asked for no refund or found no wallet. */
  lemma {:induction false} MoneyKeptExactly(w: World, es: seq<Event>, id: nat)
    requires Truthful(w.book) && forall e <- es :: Guarded(e)
    ensures Unrefunded(Run(w, es).book, id) <==> Unrefunded(w.book, id) || SomeKeeps(w, es, id)
    decreases |es|
  {
    if es != [] {
      assert Guarded(es[0]);
      StepExact(w, es[0]);
      KeptExactly(w, es[0], id);
      if Unrefunded(w.book, id) { UnrefundedStays(w, es[0], id); }
      MoneyKeptExactly(Step(w, es[0]), es[1..], id);
    }
  }

  /** Only a failure that closes the order writes the record of kept money. */
  lemma KeptRecord(w: World, e: Event, id: nat)
    ensures id in Step(w, e).book.kept <==>
              if e.Failure? && e.id == id && id in w.book.orders && !Closed(w.book.orders[id].status)
              then !(e.refund && e.linked) else id in w.book.kept
  {}

  predicate Pays(e: Event, id: nat) { e.Failure? && e.id == id ==> e.refund && e.linked }

  /** A failed order was refunded, or its money was kept. */
  ghost predicate Answered(b: Book, id: nat) {
    id in b.orders && b.orders[id].status == Failed ==> b.Refunds(id) != [] || id in b.kept
  }

  lemma StepKeepsRefunds(w: World, e: Event, id: nat)
    ensures |Step(w, e).book.Refunds(id)| >= |w.book.Refunds(id)|
    ensures Answered(w.book, id) ==> Answered(Step(w, e).book, id)
  {
    StepAppends(w, e);
    var v, v2 := w.book.wallet, Step(w, e).book.wallet;
    if v2.rows != v.rows { RefundsAppended(v.rows, v2.rows[|v.rows|], id); }
  }

  /** In every run, timely or not, whose failures of an order all ask for the refund and find the wallet,
      the order is refunded once it is failed. */
  lemma {:induction false} FailedIsRefunded(w: World, es: seq<Event>, id: nat)
    requires Answered(w.book, id) && id !in w.book.kept
    requires forall e <- es :: Pays(e, id)
    ensures var b := Run(w, es).book;
      && id !in b.kept && (id in b.orders && b.orders[id].status == Failed ==> b.Refunds(id) != [])
    decreases |es|
  {
    if es != [] {
      assert Pays(es[0], id);
      StepKeepsRefunds(w, es[0], id);
      KeptRecord(w, es[0], id);
      FailedIsRefunded(Step(w, es[0]), es[1..], id);
    }
  }

  /** Without unguarded writes every run is safe: commits and failures may interleave in any way. A failed
      order whose failures all pay is made whole. */
  lemma {:induction false} GuardedRunIsSafe(w: World, es: seq<Event>)
    requires Truthful(w.book) && forall e <- es :: Guarded(e)
    ensures Safe(Run(w, es).book)
    ensures forall id <- Run(w, es).book.orders ::
              Run(w, es).book.orders[id].status == Failed && id !in w.book.kept && (forall e <- es :: Pays(e, id))
              ==> DebitedOnce(Run(w, es).book, id) && MadeWhole(Run(w, es).book, id)
  {
    GuardedRunIsTimely(w, es);
    TimelyRunIsSafe(w, es);
    FailedAreMadeWhole(w, es);
  }

  lemma FailedAreMadeWhole(w: World, es: seq<Event>)
    requires Truthful(w.book) && Timely(w, es)
    ensures forall id <- Run(w, es).book.orders ::
              Run(w, es).book.orders[id].status == Failed && id !in w.book.kept && (forall e <- es :: Pays(e, id))
              ==> DebitedOnce(Run(w, es).book, id) && MadeWhole(Run(w, es).book, id)
  {
    TimelyRunIsSafe(w, es);
    var b := Run(w, es).book;
    forall id | id in b.orders && b.orders[id].status == Failed && id !in w.book.kept && (forall e <- es :: Pays(e, id))
      ensures DebitedOnce(b, id) && MadeWhole(b, id)
    {
      assert if id in w.book.orders then TruthfulOrder(w.book, id) else Untouched(w.book, id);
      FailedIsRefunded(w, es, id);
    }
  }

  /** A desk that starts with no orders, whatever its wallet holds: if unguarded writes are timely and all
      failures pay, every order ends delivered for its total, or failed and made whole, or still open. */
  lemma FreshRunIsSafe(main: int, commission: int, es: seq<Event>)
    requires Timely(Opening(main, commission), es)
    requires forall e <- es, id: nat :: Pays(e, id)
    ensures var b := Run(Opening(main, commission), es).book;
      && Safe(b) && (forall id <- b.orders :: id !in b.kept)
      && Chain(main, commission, b.wallet.rows, b.wallet.main, b.wallet.commission)
  {
    var w := Opening(main, commission);
    OpeningIsTruthful(main, commission);
    TimelyRunIsSafe(w, es);
    RunKeepsChain(main, commission, w, es);
    var b := Run(w, es).book;
    forall id | id in b.orders ensures id !in b.kept {
      forall e | e in es ensures Pays(e, id) {}
      FailedIsRefunded(w, es, id);
    }
  }

  lemma {:induction false} GuardedRunIsTimely(w: World, es: seq<Event>)
    requires forall e <- es :: Guarded(e)
    ensures Timely(w, es)
    decreases |es|
  {
    if es != [] {
      assert Guarded(es[0]);
      GuardedRunIsTimely(Step(w, es[0]), es[1..]);
    }
  }

  lemma StepKeepsChain(m: int, c: int, w: World, e: Event)
    requires Chain(m, c, w.book.wallet.rows, w.book.wallet.main, w.book.wallet.commission)
    ensures var v := Step(w, e).book.wallet; Chain(m, c, v.rows, v.main, v.commission)
  {
    var v, v2 := w.book.wallet, Step(w, e).book.wallet;
    if v2 != v {
      ChainAppended(m, c, v.rows, v.main, v.commission, v2.rows[|v.rows|], v2.main, v2.commission);
    }
  }

  /** Whatever the run, timely or not, the ledger leads from the opening to the current balances. */
  lemma {:induction false} RunKeepsChain(m: int, c: int, w: World, es: seq<Event>)
    requires Chain(m, c, w.book.wallet.rows, w.book.wallet.main, w.book.wallet.commission)
    ensures var v := Run(w, es).book.wallet; Chain(m, c, v.rows, v.main, v.commission)
    decreases |es|
  {
    if es != [] {
      StepKeepsChain(m, c, w, es[0]);
      RunKeepsChain(m, c, Step(w, es[0]), es[1..]);
    }
  }

  // ---- What goes wrong when an unguarded write is late -----------------------------------

  function Opening(main: int, commission: int): World {
    World(Book(Wallet(main, commission, []), map[], {}), {}, {})
  }

  lemma OpeningIsTruthful(main: int, commission: int)
    ensures Truthful(Opening(main, commission).book)
    ensures Chain(main, commission, [], main, commission)
  {}

  /** A parking write on a refunded order reopens it, and the next failure refunds it again. */
  lemma LateParkingRefundsTwice(b: Book, id: nat, to: Status)
    requires Truthful(b) && id in b.orders && b.Refunds(id) != [] && !Closed(to)
    ensures |Fail(Park(b, id, to), id, true, true).Refunds(id)| == 2
  {
    assert TruthfulOrder(b, id);
    FirstRefund(Park(b, id, to), id);
  }

  /** What a late write does to a refunded order, for a caller that read its status in time. */
  lemma LateWrites(w: World, id: nat)
    requires Truthful(w.book) && id in w.book.orders && w.book.Refunds(id) != []
    requires id in w.sawPending && id in w.sawOpen
    ensures |Step(Step(w, Parking(id, false)), Failure(id, true, true)).book.Refunds(id)| == 2
    ensures var w2 := Step(w, OwnerDelivery(id));
            id in w2.book.orders && w2.book.orders[id].handedOver && w2.book.Refunds(id) != []
  {
    LateParkingRefundsTwice(w.book, id, PendingManual);
  }

  /** Such a caller and such an order come about: both reads go first, then the order fails. */
  lemma LateWriterIsReachable(main: int, commission: int, total: int)
    requires 0 < total <= main + commission
    ensures var w1 := Step(Opening(main, commission), Creation(1, total));
            var w := Step(Step(Step(w1, FulfilRead(1)), OwnerRead(1)), Failure(1, true, true));
            && Truthful(w.book) && 1 in w.book.orders && w.book.Refunds(1) != []
            && 1 in w.sawPending && 1 in w.sawOpen
  {
    var w0 := Opening(main, commission);
    var w1 := Step(w0, Creation(1, total));
    CreateKeeps(w0.book, 1, total);
    FirstRefund(w1.book, 1);
    FailKeeps(w1.book, 1, true, true);
  }

  /** The failure of an open order with a reachable wallet posts exactly one more refund row. */
  lemma FirstRefund(b: Book, id: nat)
    requires id in b.orders && !Closed(b.orders[id].status)
    ensures |Fail(b, id, true, true).Refunds(id)| == |b.Refunds(id)| + 1
  {
    Appended(b.wallet.rows, Fail(b, id, true, true).wallet.rows[|b.wallet.rows|], InternalOrderRef, id);
  }

  // ---- The service -----------------------------------------------------------------------

  /** What the lookups before and inside the creation transaction found: a usable key, a published product,
      one valid email per item where they are required, a wallet behind the connection, an active connection. */
  datatype Request = Request(keyUsable: bool, published: bool, emailsValid: bool, walletLinked: bool,
                             connectionActive: bool)

  /** The rows the transactions write: one customer wallet, its ledger and the orders. */
  class OrderDesk {
    var main: int
    var commission: int
    var rows: seq<Row>
    var orders: map<nat, Order>
    ghost var kept: set<nat>

    ghost function View(): Book
      reads this
    {
      Book(Wallet(main, commission, rows), orders, kept)
    }

    constructor (main: int, commission: int)
      ensures View() == Opening(main, commission).book
    {
      this.main, this.commission, rows, orders, kept := main, commission, [], map[], {};
    }

    /** Every refusal leaves the book as it was. */
    method CreateOrder(id: nat, r: Request, unitPrice: int, quantity: int, sourcePrice: int) returns (ok: bool)
      requires id !in orders
      modifies this
      ensures ok <==> r.keyUsable && r.published && r.emailsValid && r.walletLinked && r.connectionActive
                      && 0 < unitPrice && 0 < quantity
                      && 0 <= sourcePrice * quantity <= unitPrice * quantity
                      && unitPrice * quantity <= old(main + commission)
      ensures View() == if ok then Create(old(View()), id, unitPrice * quantity) else old(View())
    {
      if !r.keyUsable || !r.published { return false; }
      if quantity < 1 || !r.emailsValid || unitPrice <= 0 { return false; }
      var total := unitPrice * quantity;
      assert 0 < total;
      if !PriceSafe(total, sourcePrice * quantity) { return false; }
      if !r.walletLinked || !r.connectionActive { return false; }
      var balanceBefore, commissionBefore := main, commission;
      if balanceBefore + commissionBefore < total { return false; }
      var fromCommission := if commissionBefore < total then commissionBefore else total;
      var fromMain := total - fromCommission;
      main := balanceBefore - fromMain;
      commission := commissionBefore - fromCommission;
      rows := rows + [Row(VND, SpendOrder, InternalOrderRef, id, -total, balanceBefore, main,
                          Some(commissionBefore), Some(commission))];
      orders := orders[id := Order(total, Pending, false)];
      return true;
    }

    /** The body shared by the stock, legacy and provider commits. */
    method CommitDelivery(id: nat) returns (committed: bool)
      modifies this
      ensures committed <==> id in old(orders) && old(orders)[id].status == Pending
      ensures committed ==>
                orders == old(orders)[id := Order(old(orders)[id].total, Delivered, true)]
      ensures View() == Commit(old(View()), id)
    {
      if id !in orders || orders[id].status != Pending { return false; }
      orders := orders[id := orders[id].(status := Delivered, handedOver := true)];
      return true;
    }

    method NewestSpend(id: nat) returns (found: Option<Row>)
      ensures found == if View().Spends(id) == [] then None
                       else Some(View().Spends(id)[|View().Spends(id)| - 1])
    {
      var i := |rows|;
      assert rows[..i] == rows;
      while 0 < i
        invariant 0 <= i <= |rows|
        invariant View().Spends(id) == Matching(rows[..i], SpendOrder, InternalOrderRef, id)
      {
        assert rows[..i][..i - 1] == rows[..i - 1];
        i := i - 1;
        if rows[i].Is(SpendOrder, InternalOrderRef, id) { return Some(rows[i]); }
      }
      return None;
    }

    method FailOrder(id: nat, refundBalance: bool, linked: bool)
      modifies this
      ensures View() == Fail(old(View()), id, refundBalance, linked)
    {
      if id !in orders || Closed(orders[id].status) { return; }
      var refundAmount := orders[id].total;
      orders := orders[id := orders[id].(status := Failed)];
      kept := if refundBalance && linked then kept - {id} else kept + {id};
      if !refundBalance || !linked { return; }
      var spendRow := NewestSpend(id);
      var fromMain, fromCommission := refundAmount, 0;
      if spendRow.Some? {
        var mainTaken, commissionTaken := spendRow.value.MainTaken(), spendRow.value.CommissionTaken();
        if 0 <= mainTaken && 0 <= commissionTaken && 0 < mainTaken + commissionTaken {
          fromMain, fromCommission := mainTaken, commissionTaken;
        }
      }
      var commissionBefore, walletBefore := commission, main;
      main := walletBefore + fromMain;
      if 0 < fromCommission { commission := commissionBefore + fromCommission; }
      rows := rows + [Row(VND, RefundOrder, InternalOrderRef, id, refundAmount, walletBefore, main,
                          Some(commissionBefore), Some(commissionBefore + fromCommission))];
    }

    method ParkOrder(id: nat, toStock: bool)
      modifies this`orders
      ensures id in old(orders) ==>
                var o := old(orders)[id];
                orders == old(orders)[id := Order(o.total, if toStock then PendingStock else PendingManual, o.handedOver)]
      ensures View() == Park(old(View()), id, if toStock then PendingStock else PendingManual)
    {
      if id in orders {
        orders := orders[id := orders[id].(status := if toStock then PendingStock else PendingManual)];
      }
    }

    method DeliverByHand(id: nat)
      modifies this`orders
      ensures id in old(orders) ==> orders == old(orders)[id := Order(old(orders)[id].total, Delivered, true)]
      ensures View() == HandOver(old(View()), id)
    {
      if id in orders { orders := orders[id := orders[id].(status := Delivered, handedOver := true)]; }
    }
  }
}
