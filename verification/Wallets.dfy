/** The two-part customer wallet (main balance plus spend-only commission) and its ledger.
    Money is an integer number of hundredths of VND. */
module Wallets {
  import opened Options

  datatype Currency = VND | USDT
  datatype RowKind = SpendOrder | RefundOrder | AffiliateCommission | TopUp | TopUpBonus
  datatype RefKind = OrderRef | InternalOrderRef | AdminRefundRef | TopUpRef

  /** One ledger row. The commission columns are nullable; null means "not touched". */
  datatype Row = Row(currency: Currency, kind: RowKind, refKind: RefKind, refId: nat, amount: int,
                     before: int, after: int,
                     commissionBefore: Option<int>, commissionAfter: Option<int>)
  {
    predicate Is(k: RowKind, rk: RefKind, id: nat) {
      kind == k && refKind == rk && refId == id
    }

    /** What left the main balance. */
    function MainTaken(): int { before - after }

    /** What left the commission balance; a missing column reads as zero. */
    function CommissionTaken(): int {
      (if commissionBefore.Some? then commissionBefore.value else 0) -
      (if commissionAfter.Some? then commissionAfter.value else 0)
    }
  }

  type Amount = x: int | 0 < x witness 1

  datatype Wallet = Wallet(main: int, commission: int, rows: seq<Row>)

  /** isOrderPriceSafe: the sale covers its cost, and neither is negative. */
  predicate PriceSafe(totalSale: int, totalSource: int) { 0 <= totalSale && 0 <= totalSource <= totalSale }

  function Min(a: int, b: int): int { if a < b then a else b }

  function Max(a: int, b: int): int { if a < b then b else a }

  // ---- Rows of one reference -------------------------------------------------------------

  /** The rows of one kind and reference, oldest first. */
  function Matching(rows: seq<Row>, k: RowKind, rk: RefKind, id: nat): seq<Row> {
    if rows == [] then []
    else
      var last := rows[|rows| - 1];
      var earlier := Matching(rows[..|rows| - 1], k, rk, id);
      if last.Is(k, rk, id) then earlier + [last] else earlier
  }

  predicate Moves(r: Row, rk: RefKind, id: nat) {
    r.currency == VND && r.refKind == rk && r.refId == id
  }

  /** What the VND rows of one reference took from the main balance, all together. */
  function MainTakenBy(rows: seq<Row>, rk: RefKind, id: nat): int {
    if rows == [] then 0
    else
      var last := rows[|rows| - 1];
      MainTakenBy(rows[..|rows| - 1], rk, id) +
      (if Moves(last, rk, id) then last.MainTaken() else 0)
  }

  function CommissionTakenBy(rows: seq<Row>, rk: RefKind, id: nat): int {
    if rows == [] then 0
    else
      var last := rows[|rows| - 1];
      CommissionTakenBy(rows[..|rows| - 1], rk, id) +
      (if Moves(last, rk, id) then last.CommissionTaken() else 0)
  }

  /** The amounts of some rows, added up. */
  function Amounts(rows: seq<Row>): int {
    if rows == [] then 0 else Amounts(rows[..|rows| - 1]) + rows[|rows| - 1].amount
  }

  lemma AmountsAppended(rows: seq<Row>, r: Row)
    ensures Amounts(rows + [r]) == Amounts(rows) + r.amount
  {
    assert (rows + [r])[..|rows|] == rows;
  }

  lemma Appended(rows: seq<Row>, r: Row, rk: RefKind, id: nat)
    ensures forall k :: Matching(rows + [r], k, rk, id)
                        == if r.Is(k, rk, id) then Matching(rows, k, rk, id) + [r] else Matching(rows, k, rk, id)
    ensures MainTakenBy(rows + [r], rk, id)
            == MainTakenBy(rows, rk, id) + (if Moves(r, rk, id) then r.MainTaken() else 0)
    ensures CommissionTakenBy(rows + [r], rk, id)
            == CommissionTakenBy(rows, rk, id)
               + (if Moves(r, rk, id) then r.CommissionTaken() else 0)
  {
    assert (rows + [r])[..|rows|] == rows;
  }

  // ---- The ledger as a chain -------------------------------------------------------------

  /** The VND rows lead from the balances (m, c) to the balances (m2, c2): each row starts where
      the one before it ended, and a row without commission columns leaves commission alone. */
  ghost predicate Chain(m: int, c: int, rows: seq<Row>, m2: int, c2: int) {
    if rows == [] then m == m2 && c == c2
    else
      var last := rows[|rows| - 1];
      var earlier := rows[..|rows| - 1];
      if last.currency == USDT then Chain(m, c, earlier, m2, c2)
      else
        && last.after == m2
        && last.commissionBefore.Some? == last.commissionAfter.Some?
        && (last.commissionAfter.Some? ==> last.commissionAfter.value == c2)
        && Chain(m, c, earlier, last.before,
                 if last.commissionBefore.Some? then last.commissionBefore.value else c2)
  }

  lemma ChainAppended(m: int, c: int, rows: seq<Row>, m1: int, c1: int, r: Row, m2: int, c2: int)
    requires Chain(m, c, rows, m1, c1)
    requires r.currency == USDT ==> m2 == m1 && c2 == c1
    requires r.currency == VND ==>
      && r.before == m1 && r.after == m2
      && r.commissionBefore.Some? == r.commissionAfter.Some?
      && (if r.commissionBefore.Some? then r.commissionBefore.value == c1 && r.commissionAfter.value == c2
          else c2 == c1)
    ensures Chain(m, c, rows + [r], m2, c2)
  {
    assert (rows + [r])[..|rows|] == rows;
  }

  /** What all VND rows together brought to the main balance and to commission. */
  function MainGained(rows: seq<Row>): int {
    if rows == [] then 0
    else
      var last := rows[|rows| - 1];
      MainGained(rows[..|rows| - 1]) - (if last.currency == VND then last.MainTaken() else 0)
  }

  function CommissionGained(rows: seq<Row>): int {
    if rows == [] then 0
    else
      var last := rows[|rows| - 1];
      CommissionGained(rows[..|rows| - 1]) - (if last.currency == VND then last.CommissionTaken() else 0)
  }

  /** A chain accounts for every hundredth: the closing balances are the opening ones plus what the rows
      say, in each part. */
  lemma {:induction false} ChainConserves(m: int, c: int, rows: seq<Row>, m2: int, c2: int)
    requires Chain(m, c, rows, m2, c2)
    ensures m2 == m + MainGained(rows) && c2 == c + CommissionGained(rows)
    decreases |rows|
  {
    if rows != [] {
      var last, earlier := rows[|rows| - 1], rows[..|rows| - 1];
      if last.currency == USDT { ChainConserves(m, c, earlier, m2, c2); }
      else {
        ChainConserves(m, c, earlier, last.before,
                       if last.commissionBefore.Some? then last.commissionBefore.value else c2);
      }
    }
  }

  // ---- Debit and reversal ----------------------------------------------------------------

  /** Commission is spent first. */
  function SpentFromCommission(w: Wallet, amount: int): int { Min(w.commission, amount) }

  function Post(w: Wallet, main: int, commission: int, r: Row): Wallet {
    Wallet(main, commission, w.rows + [r])
  }

  function Spend(w: Wallet, rk: RefKind, id: nat, amount: int): Wallet {
    var c := SpentFromCommission(w, amount);
    var main := w.main - (amount - c);
    Post(w, main, w.commission - c,
         Row(VND, SpendOrder, rk, id, -amount, w.main, main, Some(w.commission), Some(w.commission - c)))
  }

  function GiveBack(w: Wallet, rk: RefKind, id: nat, amount: int, toMain: int, toCommission: int): Wallet {
    Post(w, w.main + toMain, w.commission + toCommission,
         Row(VND, RefundOrder, rk, id, amount, w.main, w.main + toMain,
             Some(w.commission), Some(w.commission + toCommission)))
  }
}
