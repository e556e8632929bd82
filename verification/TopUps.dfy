/** Wallet top-ups: confirmed once, possibly after an expiry sweep already cancelled them. */
module TopUps {
  import opened Options
  import opened Wallets

  datatype TopUpStatus = Pending | Paid | Failed | Canceled

  datatype TopUpRequest = TopUpRequest(amount: int, bonus: int, status: TopUpStatus)

  datatype Cashier = Cashier(wallet: Wallet, topUps: map<nat, TopUpRequest>)

  predicate Payable(s: TopUpStatus, confirmedExternally: bool) {
    s == Pending || (s == Canceled && confirmedExternally)
  }

  function MainRow(w: Wallet, id: nat, amount: int): Row {
    Row(VND, TopUp, TopUpRef, id, amount, w.main, w.main + amount, None, None)
  }

  function BonusRow(w: Wallet, id: nat, bonus: int): Row {
    Row(VND, TopUpBonus, TopUpRef, id, bonus, w.main, w.main + bonus, None, None)
  }

  /** The row that mirrors the new balance in USDT; its figures come from a rounded conversion. */
  function UsdtRow(id: nat, before: int, after: int): Row {
    Row(USDT, TopUp, TopUpRef, id, after - before, before, after, None, None)
  }

  /** Main credit, bonus credit if there is a bonus, then the USDT mirror row. */
  function CreditTopUp(w: Wallet, id: nat, t: TopUpRequest, usdtBefore: int, usdtAfter: int): Wallet {
    var w1 := Post(w, w.main + t.amount, w.commission, MainRow(w, id, t.amount));
    var w2 := if 0 < t.bonus then Post(w1, w1.main + t.bonus, w1.commission, BonusRow(w1, id, t.bonus)) else w1;
    Post(w2, w.main + t.amount + t.bonus, w2.commission, UsdtRow(id, usdtBefore, usdtAfter))
  }

  function MarkPaid(c: Cashier, id: nat, confirmedExternally: bool, usdtBefore: int, usdtAfter: int): Cashier {
    if id in c.topUps && Payable(c.topUps[id].status, confirmedExternally)
    then Cashier(CreditTopUp(c.wallet, id, c.topUps[id], usdtBefore, usdtAfter),
                 c.topUps[id := c.topUps[id].(status := Paid)])
    else c
  }

  function Expire(c: Cashier, id: nat): Cashier {
    if id in c.topUps && c.topUps[id].status == Pending
    then c.(topUps := c.topUps[id := c.topUps[id].(status := Canceled)])
    else c
  }

  /** A row of a top-up whose amount is what it says the balance moved by. */
  predicate Explains(r: Row, id: nat) { r.refKind == TopUpRef && r.refId == id && r.after == r.before + r.amount }

  /** A credit posts a row for the amount, one for the bonus if there is one, and at last the mirror row, which
      leads from the old to the new USDT balance; each explains its own move. */
  lemma CreditPosts(w: Wallet, id: nat, t: TopUpRequest, usdtBefore: int, usdtAfter: int)
    ensures var rows := CreditTopUp(w, id, t, usdtBefore, usdtAfter).rows;
            var n := |w.rows|;
      && |rows| == n + (if 0 < t.bonus then 3 else 2) && rows[..n] == w.rows
      && (forall k :: n <= k < |rows| ==> Explains(rows[k], id) && (rows[k].currency == USDT <==> k == |rows| - 1))
      && rows[n].kind == TopUp && rows[n].amount == t.amount
      && (0 < t.bonus ==> rows[n + 1].kind == TopUpBonus && rows[n + 1].amount == t.bonus)
      && rows[|rows| - 1].before == usdtBefore && rows[|rows| - 1].after == usdtAfter
  {
    assert CreditTopUp(w, id, t, usdtBefore, usdtAfter).rows[..|w.rows|] == w.rows;
  }

  datatype Event =
    | Confirmation(id: nat, external: bool, usdtBefore: int, usdtAfter: int)
    | Expiry(id: nat)
    | Elsewhere(row: Row)

  predicate FitsElsewhere(w: Wallet, r: Row) {
    && r.currency == VND && r.before == w.main && r.refKind != TopUpRef
    && r.commissionBefore.Some? == r.commissionAfter.Some?
    && (r.commissionBefore.Some? ==> r.commissionBefore.value == w.commission)
  }

  function Step(c: Cashier, e: Event): Cashier {
    match e
    case Confirmation(id, external, ub, ua) => MarkPaid(c, id, external, ub, ua)
    case Expiry(id) => Expire(c, id)
    case Elsewhere(r) =>
      if FitsElsewhere(c.wallet, r)
      then c.(wallet := Post(c.wallet, r.after,
                             if r.commissionAfter.Some? then r.commissionAfter.value else c.wallet.commission, r))
      else c
  }

  function Run(c: Cashier, es: seq<Event>): Cashier
    decreases |es|
  {
    if es == [] then c else Run(Step(c, es[0]), es[1..])
  }

  /** What the rows of a top-up brought in so far: everything if it is paid, nothing otherwise. */
  ghost predicate CreditedFor(w: Wallet, topUps: map<nat, TopUpRequest>, id: nat) {
    var paid := id in topUps && topUps[id].status == Paid;
    && (id in topUps ==> 0 <= topUps[id].bonus)
    && MainTakenBy(w.rows, TopUpRef, id) == (if paid then -(topUps[id].amount + topUps[id].bonus) else 0)
    && |Matching(w.rows, TopUpBonus, TopUpRef, id)| == (if paid && 0 < topUps[id].bonus then 1 else 0)
  }

  ghost predicate CreditedOnce(c: Cashier) {
    forall id: nat :: CreditedFor(c.wallet, c.topUps, id)
  }

  lemma CreditRows(w: Wallet, id: nat, t: TopUpRequest, ub: int, ua: int, x: nat)
    requires 0 <= t.bonus
    ensures var w2 := CreditTopUp(w, id, t, ub, ua);
            && w2.main == w.main + t.amount + t.bonus && w2.commission == w.commission
            && MainTakenBy(w2.rows, TopUpRef, x)
               == MainTakenBy(w.rows, TopUpRef, x) - (if x == id then t.amount + t.bonus else 0)
            && |Matching(w2.rows, TopUpBonus, TopUpRef, x)|
               == |Matching(w.rows, TopUpBonus, TopUpRef, x)| + (if x == id && 0 < t.bonus then 1 else 0)
  {
    var r1 := MainRow(w, id, t.amount);
    var w1 := Post(w, w.main + t.amount, w.commission, r1);
    var w2 := if 0 < t.bonus then Post(w1, w1.main + t.bonus, w1.commission, BonusRow(w1, id, t.bonus)) else w1;
    Appended(w.rows, r1, TopUpRef, x);
    Appended(w1.rows, BonusRow(w1, id, t.bonus), TopUpRef, x);
    Appended(w2.rows, UsdtRow(id, ub, ua), TopUpRef, x);
  }

  lemma MarkPaidKeeps(c: Cashier, id: nat, external: bool, ub: int, ua: int)
    requires CreditedOnce(c)
    ensures CreditedOnce(MarkPaid(c, id, external, ub, ua))
  {
    var c2 := MarkPaid(c, id, external, ub, ua);
    if c2 != c {
      forall x: nat ensures CreditedFor(c2.wallet, c2.topUps, x) {
        assert CreditedFor(c.wallet, c.topUps, x) && CreditedFor(c.wallet, c.topUps, id);
        CreditRows(c.wallet, id, c.topUps[id], ub, ua, x);
      }
    }
  }

  lemma StepKeepsCreditedOnce(c: Cashier, e: Event)
    requires CreditedOnce(c)
    ensures CreditedOnce(Step(c, e))
  {
    match e
    case Confirmation(id, external, ub, ua) => MarkPaidKeeps(c, id, external, ub, ua);
    case Expiry(_) =>
      forall x: nat ensures CreditedFor(Step(c, e).wallet, Step(c, e).topUps, x) {
        assert CreditedFor(c.wallet, c.topUps, x);
      }
    case Elsewhere(r) =>
      forall x: nat ensures CreditedFor(Step(c, e).wallet, Step(c, e).topUps, x) {
        Appended(c.wallet.rows, r, TopUpRef, x);
        assert CreditedFor(c.wallet, c.topUps, x);
      }
  }

  lemma PaidIsAbsorbing(c: Cashier, e: Event)
    ensures Step(c, e).topUps.Keys == c.topUps.Keys
    ensures forall id <- c.topUps ::
              && Step(c, e).topUps[id] == c.topUps[id].(status := Step(c, e).topUps[id].status)
              && (c.topUps[id].status == Paid ==> Step(c, e).topUps[id].status == Paid)
  {}

  lemma {:induction false} RunKeepsCreditedOnce(c: Cashier, es: seq<Event>)
    requires CreditedOnce(c)
    ensures CreditedOnce(Run(c, es))
    decreases |es|
  {
    if es != [] {
      StepKeepsCreditedOnce(c, es[0]);
      RunKeepsCreditedOnce(Step(c, es[0]), es[1..]);
    }
  }

  // ---- When a top-up ends paid -----------------------------------------------------------

  predicate Confirms(e: Event, id: nat) { e.Confirmation? && e.id == id }

  /** Some confirmation from outside. */
  ghost predicate ConfirmedOutside(es: seq<Event>, id: nat) {
    exists e :: e in es && Confirms(e, id) && e.external
  }

  /** Some confirmation with no expiry before it. */
  ghost predicate ConfirmedInTime(es: seq<Event>, id: nat) {
    exists k :: 0 <= k < |es| && Confirms(es[k], id) && Expiry(id) !in es[..k]
  }

  /** Exactly when a top-up with this status is paid after these events. */
  ghost predicate EndsPaid(status: TopUpStatus, es: seq<Event>, id: nat) {
    match status
    case Paid => true
    case Pending => ConfirmedInTime(es, id) || ConfirmedOutside(es, id)
    case Canceled => ConfirmedOutside(es, id)
    case Failed => false
  }

  lemma FirstOutside(es: seq<Event>, id: nat)
    requires es != []
    ensures ConfirmedOutside(es, id) <==> (Confirms(es[0], id) && es[0].external) || ConfirmedOutside(es[1..], id)
  {
    assert es == [es[0]] + es[1..];
  }

  lemma FirstInTime(es: seq<Event>, id: nat)
    requires es != []
    ensures ConfirmedInTime(es, id) <==> Confirms(es[0], id) || (es[0] != Expiry(id) && ConfirmedInTime(es[1..], id))
  {
    if Confirms(es[0], id) {
      assert Expiry(id) !in es[..0];
    } else {
      if ConfirmedInTime(es, id) {
        var k :| 0 <= k < |es| && Confirms(es[k], id) && Expiry(id) !in es[..k];
        assert es[..k] == [es[0]] + es[1..][..k - 1];
        assert Confirms(es[1..][k - 1], id);
      }
      if es[0] != Expiry(id) && ConfirmedInTime(es[1..], id) {
        var k :| 0 <= k < |es[1..]| && Confirms(es[1..][k], id) && Expiry(id) !in es[1..][..k];
        assert es[..k + 1] == [es[0]] + es[1..][..k];
        assert Confirms(es[k + 1], id);
      }
    }
  }

  /** Over every run a top-up ends paid exactly if it was paid before, or it was confirmed from outside and
      was pending or canceled, or it was pending and some confirmation came before the first expiry. */
  lemma {:induction false} PaidExactly(c: Cashier, es: seq<Event>, id: nat)
    requires id in c.topUps
    ensures Run(c, es).topUps.Keys == c.topUps.Keys
    ensures Run(c, es).topUps[id] == c.topUps[id].(status := Run(c, es).topUps[id].status)
    ensures Run(c, es).topUps[id].status == Paid <==> EndsPaid(c.topUps[id].status, es, id)
    decreases |es|
  {
    if es != [] {
      PaidIsAbsorbing(c, es[0]);
      PaidExactly(Step(c, es[0]), es[1..], id);
      FirstOutside(es, id);
      FirstInTime(es, id);
    }
  }

  lemma {:induction false} PaidStays(c: Cashier, es: seq<Event>, id: nat)
    requires id in c.topUps && c.topUps[id].status == Paid
    ensures id in Run(c, es).topUps && Run(c, es).topUps[id] == c.topUps[id]
    decreases |es|
  {
    if es != [] {
      PaidIsAbsorbing(c, es[0]);
      PaidStays(Step(c, es[0]), es[1..], id);
    }
  }

  /** However often a top-up is confirmed, and however that races with expiry and with whatever else happens
      to the wallet: its rows add up to exactly amount plus bonus if it ends paid and to nothing otherwise,
      which of the two is decided by the run, and a paid one never changes again. */
  lemma RunCreditsOnce(c: Cashier, es: seq<Event>, id: nat)
    requires CreditedOnce(c) && id in c.topUps
    ensures var d := Run(c, es);
      && CreditedOnce(d) && id in d.topUps
      && (d.topUps[id].status == Paid <==> EndsPaid(c.topUps[id].status, es, id))
      && MainTakenBy(d.wallet.rows, TopUpRef, id)
         == (if EndsPaid(c.topUps[id].status, es, id) then -(c.topUps[id].amount + c.topUps[id].bonus) else 0)
      && (c.topUps[id].status == Paid ==> d.topUps[id] == c.topUps[id])
  {
    RunKeepsCreditedOnce(c, es);
    PaidExactly(c, es, id);
    if c.topUps[id].status == Paid { PaidStays(c, es, id); }
    assert CreditedFor(Run(c, es).wallet, Run(c, es).topUps, id);
  }

  /** Over confirmations and expiries of one top-up the balance moves by amount plus bonus exactly if the
      top-up becomes paid, and not at all otherwise. */
  lemma {:induction false} BalanceGrowsOnce(c: Cashier, es: seq<Event>, id: nat)
    requires id in c.topUps
    requires forall e <- es :: (e.Confirmation? || e.Expiry?) && e.id == id
    ensures Run(c, es).wallet.main == c.wallet.main
            + (if c.topUps[id].status != Paid && EndsPaid(c.topUps[id].status, es, id)
               then c.topUps[id].amount + c.topUps[id].bonus else 0)
    decreases |es|
  {
    if es != [] {
      PaidIsAbsorbing(c, es[0]);
      FirstOutside(es, id);
      FirstInTime(es, id);
      BalanceGrowsOnce(Step(c, es[0]), es[1..], id);
    }
  }

  /** The credit is a chain of its own exactly when the bonus is not negative: a negative bonus would
      move the balance without a row. */
  lemma CreditChainsExactly(m: int, c: int, w: Wallet, id: nat, t: TopUpRequest, ub: int, ua: int)
    requires Chain(m, c, w.rows, w.main, w.commission)
    ensures var w2 := CreditTopUp(w, id, t, ub, ua);
            Chain(m, c, w2.rows, w2.main, w2.commission) <==> 0 <= t.bonus
  {
    var r1 := MainRow(w, id, t.amount);
    var w1 := Post(w, w.main + t.amount, w.commission, r1);
    ChainAppended(m, c, w.rows, w.main, w.commission, r1, w1.main, w1.commission);
    var r2 := BonusRow(w1, id, t.bonus);
    ChainAppended(m, c, w1.rows, w1.main, w1.commission, r2, w1.main + t.bonus, w1.commission);
    var w3 := if 0 < t.bonus then Post(w1, w1.main + t.bonus, w1.commission, r2) else w1;
    var r3 := UsdtRow(id, ub, ua);
    ChainAppended(m, c, w3.rows, w3.main, w3.commission, r3, w3.main, w3.commission);
    if t.bonus < 0 {
      var w4 := CreditTopUp(w, id, t, ub, ua);
      assert w4.rows[..|w1.rows|] == w1.rows && w1.rows[..|w.rows|] == w.rows;
    }
  }

  // ---- The service -----------------------------------------------------------------------

  class TopUpDesk {
    var wallet: Wallet
    var topUps: map<nat, TopUpRequest>

    ghost function View(): Cashier
      reads this
    {
      Cashier(wallet, topUps)
    }

    method MarkTopUpPaid(id: nat, confirmedExternally: bool, usdtBefore: int, usdtAfter: int)
      returns (credited: bool)
      modifies this
      ensures credited <==> id in old(topUps) && Payable(old(topUps)[id].status, confirmedExternally)
      ensures View() == MarkPaid(old(View()), id, confirmedExternally, usdtBefore, usdtAfter)
    {
      if id !in topUps { return false; }
      var t := topUps[id];
      var canRecover := t.status == Canceled && confirmedExternally;
      if t.status != Pending && !canRecover { return false; }
      var balanceBefore := wallet.main;
      var mainBalanceAfter := balanceBefore + t.amount;
      var balanceAfter := mainBalanceAfter + t.bonus;
      var rows := wallet.rows + [Row(VND, TopUp, TopUpRef, id, t.amount, balanceBefore, mainBalanceAfter, None, None)];
      if 0 < t.bonus {
        rows := rows + [Row(VND, TopUpBonus, TopUpRef, id, t.bonus, mainBalanceAfter, balanceAfter, None, None)];
      }
      rows := rows + [Row(USDT, TopUp, TopUpRef, id, usdtAfter - usdtBefore, usdtBefore, usdtAfter, None, None)];
      wallet := Wallet(balanceAfter, wallet.commission, rows);
      topUps := topUps[id := t.(status := Paid)];
      return true;
    }

    /** The sweep updates one row at a time; between its listing and each update others may act, so
        every update tests the status again. Only rows it really closed are reported. */
    method ExpirePending(listed: seq<nat>) returns (closed: seq<nat>)
      modifies this`topUps
      ensures topUps.Keys == old(topUps).Keys
      ensures forall id <- topUps ::
                topUps[id] == if id in listed && old(topUps)[id].status == Pending
                              then old(topUps)[id].(status := Canceled) else old(topUps)[id]
      ensures forall id: nat :: id in closed <==> id in listed && id in old(topUps) && old(topUps)[id].status == Pending
      ensures forall i, j :: 0 <= i < j < |closed| ==> closed[i] != closed[j]
    {
      closed := [];
      for k := 0 to |listed|
        invariant topUps.Keys == old(topUps).Keys
        invariant forall id <- topUps ::
                    topUps[id] == if id in listed[..k] && old(topUps)[id].status == Pending
                                  then old(topUps)[id].(status := Canceled) else old(topUps)[id]
        invariant forall id: nat ::
                    id in closed <==> id in listed[..k] && id in old(topUps) && old(topUps)[id].status == Pending
        invariant forall i, j :: 0 <= i < j < |closed| ==> closed[i] != closed[j]
      {
        assert listed[..k + 1] == listed[..k] + [listed[k]];
        var id := listed[k];
        if id in topUps && topUps[id].status == Pending {
          topUps := topUps[id := topUps[id].(status := Canceled)];
          closed := closed + [id];
        }
      }
      assert listed[..|listed|] == listed;
    }
  }
}
