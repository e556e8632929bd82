/** The worker's debit and refund of a connection wallet. A debit and its refund are matched only by
    counting ledger rows of the order, so one order may be debited and refunded many times. */
module WorkerWallet {
  import opened Options
  import opened Wallets

  function Debits(w: Wallet, id: nat): seq<Row> { Matching(w.rows, SpendOrder, OrderRef, id) }

  function Refunds(w: Wallet, id: nat): seq<Row> { Matching(w.rows, RefundOrder, OrderRef, id) }

  datatype DebitOutcome = InvalidAmount | AlreadyDebited | Insufficient | Debited

  function DebitResult(w: Wallet, id: nat, amount: int): DebitOutcome {
    if amount <= 0 then InvalidAmount
    else if |Debits(w, id)| > |Refunds(w, id)| then AlreadyDebited
    else if w.main + w.commission < amount then Insufficient
    else Debited
  }

  function Debit(w: Wallet, id: nat, amount: int): Wallet {
    if DebitResult(w, id, amount) == Debited then Spend(w, OrderRef, id, amount) else w
  }

  /** The refund reverses the debit row whose position is the number of refunds so far. */
  function Refund(w: Wallet, id: nat): Wallet {
    var n := |Refunds(w, id)|;
    if |Debits(w, id)| <= n then w
    else
      var d := Debits(w, id)[n];
      GiveBack(w, OrderRef, id, d.MainTaken() + d.CommissionTaken(), d.MainTaken(), d.CommissionTaken())
  }

  /** A debit happens exactly if the amount is positive and covered by the two balances together, and the order
      has no outstanding debit; it posts one row and takes the amount. */
  lemma DebitHappensExactly(w: Wallet, id: nat, amount: int)
    ensures var v := Debit(w, id, amount);
      && (v != w <==> 0 < amount && |Debits(w, id)| <= |Refunds(w, id)| && amount <= w.main + w.commission)
      && (v != w ==> |v.rows| == |w.rows| + 1 && v.rows[|w.rows|].amount == -amount
                     && v.main + v.commission == w.main + w.commission - amount)
  {
    if DebitResult(w, id, amount) == Debited { assert |Debit(w, id, amount).rows| == |w.rows| + 1; }
  }

  datatype Event = Debiting(id: nat, amount: int) | Refunding(id: nat) | Elsewhere(row: Row)

  /** Any other posting to the wallet that re-read the balances. */
  predicate FitsElsewhere(w: Wallet, r: Row) {
    && r.currency == VND && r.before == w.main
    && r.commissionBefore.Some? == r.commissionAfter.Some?
    && (r.commissionBefore.Some? ==> r.commissionBefore.value == w.commission)
  }

  function Step(w: Wallet, e: Event): Wallet {
    match e
    case Debiting(id, amount) => Debit(w, id, amount)
    case Refunding(id) => Refund(w, id)
    case Elsewhere(r) =>
      if FitsElsewhere(w, r)
      then Post(w, r.after, if r.commissionAfter.Some? then r.commissionAfter.value else w.commission, r)
      else w
  }

  function Run(w: Wallet, es: seq<Event>): Wallet
    decreases |es|
  {
    if es == [] then w else Run(Step(w, es[0]), es[1..])
  }

  // ---- The pairing invariant -------------------------------------------------------------

  predicate Reverses(refund: Row, debit: Row) {
    && refund.MainTaken() == -debit.MainTaken()
    && refund.CommissionTaken() == -debit.CommissionTaken()
    && refund.amount == -debit.amount
  }

  /** Refunds <= debits <= refunds + 1, and the i-th refund undoes the i-th debit in the main balance and in
      commission. */
  ghost predicate PairedFor(w: Wallet, id: nat) {
    var ds, rs := Debits(w, id), Refunds(w, id);
    && |rs| <= |ds| <= |rs| + 1
    && (forall i :: 0 <= i < |ds| ==>
          ds[i].MainTaken() + ds[i].CommissionTaken() == -ds[i].amount && 0 <= ds[i].MainTaken() && ds[i].amount < 0)
    && (forall i :: 0 <= i < |rs| ==> Reverses(rs[i], ds[i]))
  }

  /** The same for every order. */
  ghost predicate Paired(w: Wallet) {
    forall id: nat :: PairedFor(w, id)
  }

  lemma DebitKeepsPairedFor(w: Wallet, id: nat, amount: int, x: nat)
    requires PairedFor(w, x) && DebitResult(w, id, amount) == Debited
    ensures PairedFor(Debit(w, id, amount), x)
  {
    Appended(w.rows, Debit(w, id, amount).rows[|w.rows|], OrderRef, x);
  }

  lemma RefundRow(w: Wallet, id: nat, x: nat)
    requires |Refunds(w, id)| < |Debits(w, id)|
    ensures var r := Refund(w, id).rows[|w.rows|];
      && Debits(Refund(w, id), x) == Debits(w, x)
      && Refunds(Refund(w, id), x) == if x == id then Refunds(w, x) + [r] else Refunds(w, x)
  {
    Appended(w.rows, Refund(w, id).rows[|w.rows|], OrderRef, x);
  }

  lemma RefundKeepsPairedFor(w: Wallet, id: nat, x: nat)
    requires PairedFor(w, x) && |Refunds(w, id)| < |Debits(w, id)|
    ensures PairedFor(Refund(w, id), x)
  {
    RefundRow(w, id, x);
    var ds, rs := Debits(Refund(w, id), x), Refunds(Refund(w, id), x);
    forall i | 0 <= i < |rs| ensures Reverses(rs[i], ds[i]) {
      if i < |Refunds(w, x)| { assert rs[i] == Refunds(w, x)[i]; }
    }
  }

  /** A posting from elsewhere that would count as a debit or refund of this order. */
  predicate Poses(e: Event, id: nat) {
    && e.Elsewhere? && e.row.refKind == OrderRef && e.row.refId == id
    && (e.row.kind == SpendOrder || e.row.kind == RefundOrder)
  }

  lemma StepKeepsPairedFor(w: Wallet, e: Event, id: nat)
    requires PairedFor(w, id) && !Poses(e, id)
    ensures PairedFor(Step(w, e), id)
  {
    match e
    case Debiting(x, amount) => if DebitResult(w, x, amount) == Debited { DebitKeepsPairedFor(w, x, amount, id); }
    case Refunding(x) => if |Refunds(w, x)| < |Debits(w, x)| { RefundKeepsPairedFor(w, x, id); }
    case Elsewhere(r) => Appended(w.rows, r, OrderRef, id);
  }

  /** For every order: over any run of debits and refunds of any orders, and of other postings of which none
      counts as this order's own, refunds <= debits <= refunds + 1, and the i-th refund undoes the i-th
      debit. Direct purchases and clawbacks of other orders may come and go. */
  lemma {:induction false} RunKeepsPaired(w: Wallet, es: seq<Event>, id: nat)
    requires PairedFor(w, id) && forall e <- es :: !Poses(e, id)
    ensures PairedFor(Run(w, es), id)
    decreases |es|
  {
    if es != [] {
      StepKeepsPairedFor(w, es[0], id);
      RunKeepsPaired(Step(w, es[0]), es[1..], id);
    }
  }

  /** Counting finds the right row: the debit a refund reverses is the outstanding, newest one, and
      both parts of the wallet get back exactly what it took. Without one the refund does nothing. */
  lemma RefundReversesOutstanding(w: Wallet, es: seq<Event>, id: nat)
    requires PairedFor(w, id) && forall e <- es :: !Poses(e, id)
    ensures var v := Run(w, es);
            var ds, v2 := Debits(v, id), Refund(v, id);
            if |ds| == |Refunds(v, id)| then v2 == v
            else
              && ds != []
              && v2.main == v.main + ds[|ds| - 1].MainTaken()
              && v2.commission == v.commission + ds[|ds| - 1].CommissionTaken()
              && |Refunds(v2, id)| == |Debits(v2, id)| == |ds|
  {
    RunKeepsPaired(w, es, id);
    var v := Run(w, es);
    if |Debits(v, id)| != |Refunds(v, id)| {
      Appended(v.rows, Refund(v, id).rows[|v.rows|], OrderRef, id);
    }
  }

  /** While a debit is outstanding a retried debit, of any amount, changes nothing. */
  lemma RetriedDebitIsNoOp(w: Wallet, id: nat, amount: int, again: int)
    requires PairedFor(w, id) && DebitResult(w, id, amount) == Debited
    ensures Debit(Debit(w, id, amount), id, again) == Debit(w, id, amount)
    ensures Refund(Debit(w, id, amount), id).main == w.main
    ensures Refund(Debit(w, id, amount), id).commission == w.commission
  {
    Appended(w.rows, Debit(w, id, amount).rows[|w.rows|], OrderRef, id);
  }

  // ---- Signs -----------------------------------------------------------------------------

  /** After a debit commission is never negative, whatever it was before; the main balance is
      non-negative exactly when it was so before or the debit reached into it. */
  lemma DebitSigns(w: Wallet, id: nat, amount: int)
    requires DebitResult(w, id, amount) == Debited
    ensures var v := Debit(w, id, amount);
            && v.main + v.commission == w.main + w.commission - amount
            && 0 <= v.commission
            && (0 <= v.main <==> 0 <= w.main || w.commission < amount)
  {}

  /** Debits and refunds alone never make a non-negative main balance negative. */
  lemma {:induction false} MainStaysNonNegative(w: Wallet, es: seq<Event>)
    requires Paired(w) && 0 <= w.main
    requires forall e <- es :: !e.Elsewhere?
    ensures 0 <= Run(w, es).main
    decreases |es|
  {
    if es != [] {
      if es[0].Refunding? { assert PairedFor(w, es[0].id); }
      forall x: nat ensures PairedFor(Step(w, es[0]), x) {
        assert PairedFor(w, x);
        StepKeepsPairedFor(w, es[0], x);
      }
      MainStaysNonNegative(Step(w, es[0]), es[1..]);
    }
  }

  lemma {:induction false} RunKeepsChain(m: int, c: int, w: Wallet, es: seq<Event>)
    requires Chain(m, c, w.rows, w.main, w.commission)
    ensures var v := Run(w, es); Chain(m, c, v.rows, v.main, v.commission)
    decreases |es|
  {
    if es != [] {
      var w2 := Step(w, es[0]);
      if w2 != w { ChainAppended(m, c, w.rows, w.main, w.commission, w2.rows[|w.rows|], w2.main, w2.commission); }
      RunKeepsChain(m, c, w2, es[1..]);
    }
  }

  // ---- The USDT mirror of the balance ----------------------------------------------------

  function UsdtAfterDebit(usdt: real, fromMain: int, rate: real): real
    requires rate > 0.0
  {
    var u := usdt - fromMain as real / rate;
    if u < 0.0 then 0.0 else u
  }

  function UsdtAfterRefund(usdt: real, toMain: int, rate: real): real
    requires rate > 0.0
  {
    var u := usdt + toMain as real / rate;
    if u < 0.0 then 0.0 else u
  }

  lemma QuotientsAgree(m: real, r1: real, r2: real)
    requires m >= 0.0 && r1 > 0.0 && r2 > 0.0
    ensures m / r1 == m / r2 <==> m == 0.0 || r1 == r2
  {
    if m / r1 == m / r2 {
      var q := m / r1;
      assert q * r1 == m && q * r2 == m;
      assert q * (r1 - r2) == 0.0;
    }
  }

  /** A refund restores the USDT balance exactly when the debit was not clamped and the rate did not
      matter or did not change; a clamped debit comes back only if the new rate happens to hit. */
  lemma UsdtRestoredExactly(usdt: real, m: int, debitRate: real, refundRate: real)
    requires usdt >= 0.0 && m >= 0 && debitRate > 0.0 && refundRate > 0.0
    ensures UsdtAfterRefund(UsdtAfterDebit(usdt, m, debitRate), m, refundRate) == usdt
            <==> if m as real / debitRate <= usdt then m == 0 || debitRate == refundRate
                 else m as real / refundRate == usdt
  {
    QuotientsAgree(m as real, debitRate, refundRate);
    assert m as real / refundRate >= 0.0;
  }

  // ---- The two transactions --------------------------------------------------------------

  class ConnectionWallet {
    var balance: int
    var commissionBalance: int
    var balanceUsdt: real
    var ledger: seq<Row>

    ghost function View(): Wallet
      reads this
    {
      Wallet(balance, commissionBalance, ledger)
    }

    method DebitBalance(orderId: nat, amount: int, rate: real) returns (outcome: DebitOutcome)
      requires rate > 0.0
      modifies this
      ensures outcome == old(DebitResult(View(), orderId, amount))
      ensures View() == old(Debit(View(), orderId, amount))
      ensures balanceUsdt == if outcome == Debited then UsdtAfterDebit(old(balanceUsdt), old(balance) - balance, rate)
                             else old(balanceUsdt)
    {
      if amount <= 0 { return InvalidAmount; }
      var debitCount := |Matching(ledger, SpendOrder, OrderRef, orderId)|;
      var refundCount := |Matching(ledger, RefundOrder, OrderRef, orderId)|;
      if debitCount > refundCount { return AlreadyDebited; }
      var walletBefore, commissionBefore := balance, commissionBalance;
      if walletBefore + commissionBefore < amount { return Insufficient; }
      var fromCommission := if commissionBefore < amount then commissionBefore else amount;
      var fromMain := amount - fromCommission;
      balance := walletBefore - fromMain;
      commissionBalance := commissionBefore - fromCommission;
      var u := balanceUsdt - fromMain as real / rate;
      balanceUsdt := if u < 0.0 then 0.0 else u;
      ledger := ledger + [Row(VND, SpendOrder, OrderRef, orderId, -amount, walletBefore, balance,
                              Some(commissionBefore), Some(commissionBalance))];
      return Debited;
    }

    method RefundBalance(orderId: nat, rate: real) returns (refunded: bool)
      requires rate > 0.0
      modifies this
      ensures refunded <==> |Refunds(old(View()), orderId)| < |Debits(old(View()), orderId)|
      ensures View() == Refund(old(View()), orderId)
      ensures balanceUsdt == if refunded then UsdtAfterRefund(old(balanceUsdt), balance - old(balance), rate)
                             else old(balanceUsdt)
    {
      var debits := Matching(ledger, SpendOrder, OrderRef, orderId);
      var refunds := |Matching(ledger, RefundOrder, OrderRef, orderId)|;
      if |debits| <= refunds { return false; }
      var debit := debits[refunds];
      var walletBefore, commissionBefore := balance, commissionBalance;
      var refundedMain := debit.before - debit.after;
      var refundedCommission := debit.CommissionTaken();
      balance := walletBefore + refundedMain;
      commissionBalance := commissionBefore + refundedCommission;
      var u := balanceUsdt + refundedMain as real / rate;
      balanceUsdt := if u < 0.0 then 0.0 else u;
      ledger := ledger + [Row(VND, RefundOrder, OrderRef, orderId, refundedMain + refundedCommission,
                              walletBefore, balance, Some(commissionBefore), Some(commissionBalance))];
      return true;
    }
  }
}
