/** All the operations that re-read a wallet after locking it, mixed on one and the same wallet. */
module SharedWallet {
  import opened Options
  import opened Wallets
  import OrderMoney
  import Refunds
  import TopUps
  import WorkerWallet

  /** The wallet, and what each family of operations keeps beside it. `cases` are orders whose
      customer and whose affiliate are the owner of this wallet. */
  datatype Shared = Shared(wallet: Wallet, orders: map<nat, OrderMoney.Order>, kept: set<nat>,
                           sawPending: set<nat>, sawOpen: set<nat>,
                           topUps: map<nat, TopUps.TopUpRequest>, cases: map<nat, Refunds.Case>)

  datatype Event =
    | Ordering(o: OrderMoney.Event)
    | Working(w: WorkerWallet.Event)
    | ToppingUp(t: TopUps.Event)
    | Refunding(order: nat, back: Amount)
    | Crediting(order: nat, amount: int)
    | Revoking(order: nat, requested: Option<real>)

  function Step(s: Shared, e: Event): Shared {
    match e
    case Ordering(o) =>
      var book := OrderMoney.Book(s.wallet, s.orders, s.kept);
      var w := OrderMoney.Step(OrderMoney.World(book, s.sawPending, s.sawOpen), o);
      s.(wallet := w.book.wallet, orders := w.book.orders, kept := w.book.kept,
         sawPending := w.sawPending, sawOpen := w.sawOpen)
    case Working(o) => s.(wallet := WorkerWallet.Step(s.wallet, o))
    case ToppingUp(o) =>
      var c := TopUps.Step(TopUps.Cashier(s.wallet, s.topUps), o);
      s.(wallet := c.wallet, topUps := c.topUps)
    case Refunding(k, amount) =>
      if k !in s.cases then s
      else
        var c := Refunds.AdminRefund(s.cases[k].(customer := s.wallet), amount);
        s.(wallet := c.customer, cases := s.cases[k := c])
    case Crediting(k, amount) =>
      if k !in s.cases then s
      else
        var c := Refunds.Credit(s.cases[k].(affiliate := s.wallet), amount);
        s.(wallet := c.affiliate, cases := s.cases[k := c])
    case Revoking(k, requested) =>
      if k !in s.cases then s
      else
        var c := Refunds.Revoke(s.cases[k].(affiliate := s.wallet), requested);
        s.(wallet := c.affiliate, cases := s.cases[k := c])
  }

  function Run(s: Shared, es: seq<Event>): Shared
    decreases |es|
  {
    if es == [] then s else Run(Step(s, es[0]), es[1..])
  }

  predicate BonusesNonNegative(s: Shared) { forall id <- s.topUps :: 0 <= s.topUps[id].bonus }

  ghost predicate Consistent(m: int, c: int, s: Shared) {
    BonusesNonNegative(s) && Chain(m, c, s.wallet.rows, s.wallet.main, s.wallet.commission)
  }

  /** A posting of one row that starts at the current balances continues the chain. */
  lemma OneRow(m: int, c: int, w: Wallet, w2: Wallet)
    requires Chain(m, c, w.rows, w.main, w.commission)
    requires |w2.rows| == |w.rows| + 1 && w2.rows == w.rows + [w2.rows[|w.rows|]]
    requires var r := w2.rows[|w.rows|];
             && r.currency == VND && r.before == w.main && r.after == w2.main
             && r.commissionBefore == Some(w.commission) && r.commissionAfter == Some(w2.commission)
    ensures Chain(m, c, w2.rows, w2.main, w2.commission)
  {
    ChainAppended(m, c, w.rows, w.main, w.commission, w2.rows[|w.rows|], w2.main, w2.commission);
  }

  lemma RefundStep(m: int, c: int, s: Shared, e: Event)
    requires (e.Refunding? || e.Crediting? || e.Revoking?)
    requires Consistent(m, c, s)
    ensures Consistent(m, c, Step(s, e))
  {
    var w2 := Step(s, e).wallet;
    if w2 != s.wallet { OneRow(m, c, s.wallet, w2); }
  }

  lemma TopUpStep(m: int, c: int, s: Shared, t: TopUps.Event)
    requires Consistent(m, c, s)
    ensures Consistent(m, c, Step(s, ToppingUp(t)))
  {
    TopUps.PaidIsAbsorbing(TopUps.Cashier(s.wallet, s.topUps), t);
    match t
    case Confirmation(id, external, ub, ua) =>
      if id in s.topUps { TopUps.CreditChainsExactly(m, c, s.wallet, id, s.topUps[id], ub, ua); }
    case Expiry(_) =>
    case Elsewhere(r) =>
      if TopUps.FitsElsewhere(s.wallet, r) {
        var w2 := Step(s, ToppingUp(t)).wallet;
        ChainAppended(m, c, s.wallet.rows, s.wallet.main, s.wallet.commission, r, w2.main, w2.commission);
      }
  }

  lemma StepKeepsConsistent(m: int, c: int, s: Shared, e: Event)
    requires Consistent(m, c, s)
    ensures Consistent(m, c, Step(s, e))
  {
    match e
    case Ordering(o) =>
      var book := OrderMoney.Book(s.wallet, s.orders, s.kept);
      OrderMoney.StepKeepsChain(m, c, OrderMoney.World(book, s.sawPending, s.sawOpen), o);
    case Working(o) =>
      WorkerWallet.RunKeepsChain(m, c, s.wallet, [o]);
      assert WorkerWallet.Run(s.wallet, [o]) == WorkerWallet.Run(WorkerWallet.Step(s.wallet, o), []);
    case ToppingUp(t) => TopUpStep(m, c, s, t);
    case _ => RefundStep(m, c, s, e);
  }

  /** Under every mix and order of these operations the ledger stays a chain that ends at the stored
      balances. */
  lemma {:induction false} RunKeepsConsistent(m: int, c: int, s: Shared, es: seq<Event>)
    requires Consistent(m, c, s)
    ensures Consistent(m, c, Run(s, es))
    decreases |es|
  {
    if es != [] {
      StepKeepsConsistent(m, c, s, es[0]);
      RunKeepsConsistent(m, c, Step(s, es[0]), es[1..]);
    }
  }

  /** So the stored balances are always the opening ones plus the sum of the ledger, main and commission
      separately, and every balance a customer had in between can be read off its rows. */
  lemma LedgerExplainsBalances(m: int, c: int, s: Shared, es: seq<Event>)
    requires Consistent(m, c, s)
    ensures var w := Run(s, es).wallet;
            w.main == m + MainGained(w.rows) && w.commission == c + CommissionGained(w.rows)
  {
    RunKeepsConsistent(m, c, s, es);
    var w := Run(s, es).wallet;
    ChainConserves(m, c, w.rows, w.main, w.commission);
  }

  // ---- The orders among the rest ---------------------------------------------------------

  /** What the order operations see of the shared wallet. */
  function OrderWorld(s: Shared): OrderMoney.World {
    OrderMoney.World(OrderMoney.Book(s.wallet, s.orders, s.kept), s.sawPending, s.sawOpen)
  }

  /** A posting from outside all modelled operations that bears the reference of an internal order. */
  predicate PosesAsOrder(e: Event) {
    match e
    case Working(Elsewhere(r)) => r.refKind == InternalOrderRef
    case ToppingUp(Elsewhere(r)) => r.refKind == InternalOrderRef
    case _ => false
  }

  predicate Foreign(e: OrderMoney.Event) { e.Elsewhere? }

  /** The order operations of a run, in order. */
  function Orderings(es: seq<Event>): seq<OrderMoney.Event> {
    if es == [] then []
    else (if es[0].Ordering? then [es[0].o] else []) + Orderings(es[1..])
  }

  function OwnEvents(os: seq<OrderMoney.Event>): seq<OrderMoney.Event> {
    if os == [] then []
    else (if Foreign(os[0]) then [] else [os[0]]) + OwnEvents(os[1..])
  }

  lemma {:induction false} OwnAppend(a: seq<OrderMoney.Event>, b: seq<OrderMoney.Event>)
    ensures OwnEvents(a + b) == OwnEvents(a) + OwnEvents(b)
    decreases |a|
  {
    if a == [] {
      assert a + b == b;
    } else {
      assert (a + b)[1..] == a[1..] + b;
      OwnAppend(a[1..], b);
    }
  }

  lemma {:induction false} OrderRunAppend(w: OrderMoney.World, a: seq<OrderMoney.Event>, b: seq<OrderMoney.Event>)
    ensures OrderMoney.Run(w, a + b) == OrderMoney.Run(OrderMoney.Run(w, a), b)
    decreases |a|
  {
    if a == [] {
      assert a + b == b;
    } else {
      assert (a + b)[1..] == a[1..] + b;
      OrderRunAppend(OrderMoney.Step(w, a[0]), a[1..], b);
    }
  }

  /** One row that the order operations take for a posting from elsewhere. */
  predicate PostsOne(w: Wallet, w2: Wallet, r: Row) {
    && w2.rows == w.rows + [r] && r.refKind != InternalOrderRef
    && (r.currency == USDT ==> w2.main == w.main && w2.commission == w.commission)
    && (r.currency == VND ==>
          && r.before == w.main && r.after == w2.main
          && (match (r.commissionBefore, r.commissionAfter)
              case (Some(b), Some(a)) => b == w.commission && a == w2.commission
              case (None, None) => w2.commission == w.commission
              case _ => false))
  }

  lemma OnePosting(w: OrderMoney.World, w2: Wallet, r: Row)
    requires PostsOne(w.book.wallet, w2, r)
    ensures OrderMoney.Step(w, OrderMoney.Event.Elsewhere(r)) == w.(book := w.book.(wallet := w2))
  {}

  lemma OneEvent(w: OrderMoney.World, e: OrderMoney.Event)
    ensures OrderMoney.Run(w, [e]) == OrderMoney.Step(w, e)
    ensures OwnEvents([e]) == if Foreign(e) then [] else [e]
  {
    assert [e][1..] == [];
    assert OrderMoney.Run(OrderMoney.Step(w, e), []) == OrderMoney.Step(w, e);
  }

  /** A posting of one row, or of none, is a run of the order operations' world. */
  lemma AtMostOne(w: OrderMoney.World, w2: Wallet) returns (os: seq<OrderMoney.Event>)
    requires w2 == w.book.wallet || (w2.rows != [] && PostsOne(w.book.wallet, w2, w2.rows[|w2.rows| - 1]))
    ensures OrderMoney.Run(w, os) == w.(book := w.book.(wallet := w2)) && OwnEvents(os) == []
  {
    if w2 == w.book.wallet {
      os := [];
    } else {
      var r := w2.rows[|w2.rows| - 1];
      OnePosting(w, w2, r);
      OneEvent(w, OrderMoney.Event.Elsewhere(r));
      os := [OrderMoney.Event.Elsewhere(r)];
    }
  }

  lemma CreditProjects(w: OrderMoney.World, id: nat, t: TopUps.TopUpRequest, ub: int, ua: int)
    returns (os: seq<OrderMoney.Event>)
    requires 0 <= t.bonus
    ensures OrderMoney.Run(w, os) == w.(book := w.book.(wallet := TopUps.CreditTopUp(w.book.wallet, id, t, ub, ua)))
    ensures OwnEvents(os) == []
  {
    var w0 := w.book.wallet;
    var w1 := Post(w0, w0.main + t.amount, w0.commission, TopUps.MainRow(w0, id, t.amount));
    var a := AtMostOne(w, w1);
    var w2 := if 0 < t.bonus then Post(w1, w1.main + t.bonus, w1.commission, TopUps.BonusRow(w1, id, t.bonus)) else w1;
    var b := AtMostOne(w.(book := w.book.(wallet := w1)), w2);
    var w3 := Post(w2, w2.main, w2.commission, TopUps.UsdtRow(id, ub, ua));
    var c := AtMostOne(w.(book := w.book.(wallet := w2)), w3);
    os := a + b + c;
    OrderRunAppend(w, a, b);
    OrderRunAppend(w, a + b, c);
    OwnAppend(a, b);
    OwnAppend(a + b, c);
  }

  lemma StepProjects(s: Shared, e: Event) returns (os: seq<OrderMoney.Event>)
    requires BonusesNonNegative(s) && !PosesAsOrder(e)
    requires e.Ordering? ==> !Foreign(e.o)
    ensures OrderMoney.Run(OrderWorld(s), os) == OrderWorld(Step(s, e))
    ensures OwnEvents(os) == if e.Ordering? then [e.o] else []
  {
    match e
    case Ordering(o) =>
      os := [o];
      OneEvent(OrderWorld(s), o);
    case ToppingUp(Confirmation(id, external, ub, ua)) =>
      if id in s.topUps && TopUps.Payable(s.topUps[id].status, external) {
        os := CreditProjects(OrderWorld(s), id, s.topUps[id], ub, ua);
      } else {
        os := [];
      }
    case _ => os := AtMostOne(OrderWorld(s), Step(s, e).wallet);
  }

  /** Whatever else happens to the wallet, its internal orders live the life of a run of their own operations,
      in the same order, to which all other operations are postings from elsewhere: all that is proved of such
      runs holds on the shared wallet. */
  lemma {:induction false} RunProjects(m: int, c: int, s: Shared, es: seq<Event>) returns (os: seq<OrderMoney.Event>)
    requires Consistent(m, c, s)
    requires forall e <- es :: !PosesAsOrder(e) && (e.Ordering? ==> !Foreign(e.o))
    ensures OrderMoney.Run(OrderWorld(s), os) == OrderWorld(Run(s, es)) && OwnEvents(os) == Orderings(es)
    decreases |es|
  {
    if es == [] {
      os := [];
    } else {
      var a := StepProjects(s, es[0]);
      StepKeepsConsistent(m, c, s, es[0]);
      var b := RunProjects(m, c, Step(s, es[0]), es[1..]);
      os := a + b;
      OrderRunAppend(OrderWorld(s), a, b);
      OwnAppend(a, b);
    }
  }

  lemma {:induction false} OwnAreGuarded(os: seq<OrderMoney.Event>)
    requires forall o <- OwnEvents(os) :: OrderMoney.Guarded(o)
    ensures forall o <- os :: OrderMoney.Guarded(o)
    decreases |os|
  {
    if os != [] {
      if !Foreign(os[0]) { assert os[0] in OwnEvents(os); }
      assert forall o <- OwnEvents(os[1..]) :: o in OwnEvents(os);
      OwnAreGuarded(os[1..]);
    }
  }

  /** So on the shared wallet, too, guarded orders are safe: debited once, delivered or made whole but not both. */
  lemma SharedOrdersAreSafe(m: int, c: int, s: Shared, es: seq<Event>)
    requires Consistent(m, c, s) && OrderMoney.Truthful(OrderWorld(s).book)
    requires forall e <- es :: !PosesAsOrder(e) && (e.Ordering? ==> !Foreign(e.o))
    requires forall o <- Orderings(es) :: OrderMoney.Guarded(o)
    ensures OrderMoney.Safe(OrderWorld(Run(s, es)).book)
  {
    var os := RunProjects(m, c, s, es);
    OwnAreGuarded(os);
    OrderMoney.GuardedRunIsSafe(OrderWorld(s), os);
  }

  // ---- The top-ups and refunds among the rest --------------------------------------------

  function ToppingUps(es: seq<Event>): seq<TopUps.Event> {
    if es == [] then []
    else (if es[0].ToppingUp? then [es[0].t] else []) + ToppingUps(es[1..])
  }

  /** What becomes of top-ups does not depend on the wallet. */
  lemma {:induction false} TopUpsAlone(c: TopUps.Cashier, d: TopUps.Cashier, es: seq<TopUps.Event>)
    requires c.topUps == d.topUps
    ensures TopUps.Run(c, es).topUps == TopUps.Run(d, es).topUps
    decreases |es|
  {
    if es != [] { TopUpsAlone(TopUps.Step(c, es[0]), TopUps.Step(d, es[0]), es[1..]); }
  }

  /** Top-ups live the life of a run of their own operations, and so a top-up ends paid exactly as it would
      alone. */
  lemma {:induction false} TopUpsProject(s: Shared, es: seq<Event>)
    ensures Run(s, es).topUps == TopUps.Run(TopUps.Cashier(s.wallet, s.topUps), ToppingUps(es)).topUps
    decreases |es|
  {
    if es != [] {
      var t := Step(s, es[0]);
      TopUpsProject(t, es[1..]);
      if es[0].ToppingUp? {
        assert ToppingUps(es)[0] == es[0].t && ToppingUps(es)[1..] == ToppingUps(es[1..]);
      } else {
        assert ToppingUps(es) == ToppingUps(es[1..]);
        TopUpsAlone(TopUps.Cashier(t.wallet, t.topUps), TopUps.Cashier(s.wallet, s.topUps), ToppingUps(es[1..]));
      }
    }
  }

  /** The case of an order whose customer owns the wallet. */
  function CaseOf(s: Shared, k: nat): Refunds.Case
    requires k in s.cases
  {
    s.cases[k].(customer := s.wallet)
  }

  /** The refund rows of each case fit its total, and its status tells when they reach it. */
  ghost predicate CasesFit(s: Shared) {
    forall k <- s.cases :: s.cases[k].id == k && Refunds.RefundsFit(CaseOf(s, k))
  }

  /** A posting from outside all modelled operations that bears the reference of an admin refund. */
  predicate PosesAsRefund(e: Event) {
    match e
    case Working(Elsewhere(r)) => r.refKind == AdminRefundRef
    case ToppingUp(Elsewhere(r)) => r.refKind == AdminRefundRef
    case Ordering(Elsewhere(r)) => r.refKind == AdminRefundRef
    case _ => false
  }

  lemma {:induction false} OthersMatchNothing(a: seq<Row>, b: seq<Row>, id: nat)
    requires forall r <- b :: r.refKind != AdminRefundRef || r.refId != id
    ensures Matching(a + b, RefundOrder, AdminRefundRef, id) == Matching(a, RefundOrder, AdminRefundRef, id)
    decreases |b|
  {
    if b == [] {
      assert a + b == a;
    } else {
      var init, last := b[..|b| - 1], b[|b| - 1];
      assert a + b == (a + init) + [last] && ((a + init) + [last])[..|a + init|] == a + init;
      assert last in b && forall r <- init :: r in b;
      OthersMatchNothing(a, init, id);
    }
  }

  /** Only an admin refund of the case itself posts a row with its reference. */
  lemma StepPosts(s: Shared, e: Event, k: nat)
    requires !PosesAsRefund(e) && (forall j <- s.cases :: s.cases[j].id == j)
    requires e.Refunding? ==> e.order != k
    ensures s.wallet.rows <= Step(s, e).wallet.rows
    ensures forall r <- Step(s, e).wallet.rows[|s.wallet.rows|..] :: r.refKind != AdminRefundRef || r.refId != k
  {
    if e.ToppingUp? && e.t.Confirmation? && e.t.id in s.topUps {
      TopUps.CreditPosts(s.wallet, e.t.id, s.topUps[e.t.id], e.t.usdtBefore, e.t.usdtAfter);
    }
  }

  lemma SameRefunds(s: Shared, e: Event, k: nat)
    requires !PosesAsRefund(e) && (forall j <- s.cases :: s.cases[j].id == j)
    requires e.Refunding? ==> e.order != k
    ensures Matching(Step(s, e).wallet.rows, RefundOrder, AdminRefundRef, k)
            == Matching(s.wallet.rows, RefundOrder, AdminRefundRef, k)
  {
    StepPosts(s, e, k);
    var rows := Step(s, e).wallet.rows;
    assert rows == s.wallet.rows + rows[|s.wallet.rows|..];
    OthersMatchNothing(s.wallet.rows, rows[|s.wallet.rows|..], k);
  }

  lemma OtherStepsKeepColumns(s: Shared, e: Event, k: nat)
    requires k in s.cases && (e.Refunding? ==> e.order != k)
    ensures var t := Step(s, e);
      && k in t.cases && t.cases[k].id == s.cases[k].id && t.cases[k].total == s.cases[k].total
      && t.cases[k].status == s.cases[k].status && t.cases[k].payment == s.cases[k].payment
  {}

  lemma FitByColumns(a: Refunds.Case, b: Refunds.Case)
    requires b.id == a.id && b.total == a.total && b.status == a.status && b.payment == a.payment
    requires Matching(b.customer.rows, RefundOrder, AdminRefundRef, a.id)
             == Matching(a.customer.rows, RefundOrder, AdminRefundRef, a.id)
    ensures Refunds.RefundsFit(a) ==> Refunds.RefundsFit(b)
  {}

  lemma OtherStepsKeepCase(s: Shared, e: Event, k: nat)
    requires CasesFit(s) && !PosesAsRefund(e) && k in s.cases
    requires e.Refunding? ==> e.order != k
    ensures var t := Step(s, e); k in t.cases && t.cases[k].id == k && Refunds.RefundsFit(CaseOf(t, k))
  {
    SameRefunds(s, e, k);
    OtherStepsKeepColumns(s, e, k);
    FitByColumns(CaseOf(s, k), CaseOf(Step(s, e), k));
  }

  lemma OwnRefundKeepsCase(s: Shared, k: nat, amount: Amount)
    requires k in s.cases && s.cases[k].id == k && Refunds.RefundsFit(CaseOf(s, k))
    ensures var t := Step(s, Refunding(k, amount));
            k in t.cases && t.cases[k].id == k && Refunds.RefundsFit(CaseOf(t, k))
  {
    var t := Step(s, Refunding(k, amount));
    Refunds.RefundKeepsRefundsFit(CaseOf(s, k), amount);
    assert CaseOf(t, k) == Refunds.AdminRefund(CaseOf(s, k), amount);
  }

  lemma SameCases(s: Shared, e: Event)
    ensures Step(s, e).cases.Keys == s.cases.Keys
  {}

  lemma StepKeepsCasesFit(s: Shared, e: Event)
    requires CasesFit(s) && !PosesAsRefund(e)
    ensures CasesFit(Step(s, e)) && Step(s, e).cases.Keys == s.cases.Keys
  {
    var t := Step(s, e);
    SameCases(s, e);
    forall k | k in t.cases ensures t.cases[k].id == k && Refunds.RefundsFit(CaseOf(t, k)) {
      if e.Refunding? && e.order == k {
        OwnRefundKeepsCase(s, k, e.back);
      } else {
        OtherStepsKeepCase(s, e, k);
      }
    }
  }

  /** On the shared wallet, too, the refunds of each order fit its total, and the order is marked refunded exactly
      when they reach it. */
  lemma {:induction false} RunKeepsCasesFit(s: Shared, es: seq<Event>)
    requires CasesFit(s) && forall e <- es :: !PosesAsRefund(e)
    ensures CasesFit(Run(s, es)) && Run(s, es).cases.Keys == s.cases.Keys
    decreases |es|
  {
    if es != [] {
      StepKeepsCasesFit(s, es[0]);
      RunKeepsCasesFit(Step(s, es[0]), es[1..]);
    }
  }
}
