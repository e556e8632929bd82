/** Watching external sources: how often to poll, and when a stock list counts as changed. */
module SourceWatch {
  import opened Options
  import opened Strings
  import opened Ranking

  // ---- The polling schedule --------------------------------------------------------------

  function Max(a: int, b: int): int { if a < b then b else a }

  function Min(a: int, b: int): int { if a < b then a else b }

  function CeilDiv(a: nat, b: int): nat
    requires b > 0
  {
    (a + b - 1) / b
  }

  function BatchSize(groups: nat, tick: nat, interval: int): nat
    requires interval > 0
  {
    Max(1, Min(groups, CeilDiv(groups * tick, interval)))
  }

  datatype Schedule = Schedule(intervalMs: int, batch: nat)

  function WatchSchedule(groupCount: int, tickMs: nat, targetMs: int, maxPerMinute: int): Schedule {
    var groups := Max(0, groupCount);
    if groups == 0 then Schedule(targetMs, 0)
    else
      var limited := CeilDiv(groups * 60000, Max(1, maxPerMinute));
      var interval := Max(targetMs, limited);
      Schedule(interval, BatchSize(groups, tickMs, interval))
  }

  /** Without groups nothing is asked, at the target interval. */
  lemma NoGroupsNoRequests(groupCount: int, tickMs: nat, targetMs: int, maxPerMinute: int)
    ensures WatchSchedule(groupCount, tickMs, targetMs, maxPerMinute).batch == 0 <==> groupCount <= 0
    ensures groupCount <= 0 ==> WatchSchedule(groupCount, tickMs, targetMs, maxPerMinute).intervalMs == targetMs
  {}

  // ---- Products --------------------------------------------------------------------------

  lemma ProductOrder(k: nat, a: int, b: int)
    requires a <= b
    ensures k * a <= k * b
  {
    assert k * (b - a) >= 0;
    assert k * b == k * a + k * (b - a);
  }

  lemma Cancels(k: nat, a: int, b: int)
    requires k * a < k * b
    ensures a < b
  {
    if b <= a { ProductOrder(k, b, a); }
  }

  lemma Swap(a: int, b: int, c: int)
    ensures a * (b * c) == b * (a * c)
  {}

  lemma CeilDivBounds(a: nat, b: int)
    requires b > 0
    ensures b * CeilDiv(a, b) >= a && b * (CeilDiv(a, b) - 1) < a
  {
    var q := (a + b - 1) / b;
    assert a + b - 1 == b * q + (a + b - 1) % b;
    assert b * (q - 1) == b * q - b;
  }

  lemma CeilDivLeast(a: nat, b: int, k: int)
    requires b > 0 && b * k >= a
    ensures CeilDiv(a, b) <= k
  {
    CeilDivBounds(a, b);
    Cancels(b, CeilDiv(a, b) - 1, k);
  }

  // ---- The schedule's bounds -------------------------------------------------------------

  lemma RateHolds(limited: nat, interval: int, rate: int, need: nat)
    requires limited <= interval && rate > 0 && rate * limited >= need
    ensures need <= rate * interval
  {
    ProductOrder(rate, limited, interval);
  }

  /** The interval is the least one that reaches the target and keeps one request per group within the
      rate limit. */
  lemma IntervalIsLeast(groups: nat, tickMs: nat, targetMs: int, maxPerMinute: int, other: int)
    requires groups > 0
    ensures var i := WatchSchedule(groups, tickMs, targetMs, maxPerMinute).intervalMs;
      && i >= targetMs && groups * 60000 <= Max(1, maxPerMinute) * i
      && (other >= targetMs && groups * 60000 <= Max(1, maxPerMinute) * other ==> i <= other)
  {
    var rate := Max(1, maxPerMinute);
    var limited := CeilDiv(groups * 60000, rate);
    CeilDivBounds(groups * 60000, rate);
    RateHolds(limited, Max(targetMs, limited), rate, groups * 60000);
    if groups * 60000 <= rate * other { CeilDivLeast(groups * 60000, rate, other); }
  }

  /** A sweep of ceil(groups / batch) ticks starts its last tick within the interval. */
  lemma SweepFits(groups: nat, batch: nat, sweep: nat, tick: nat, interval: int)
    requires batch > 0 && groups > 0 && interval > 0 && tick > 0
    requires batch * (sweep - 1) < groups
    requires batch == groups || groups * tick <= batch * interval
    ensures (sweep - 1) * tick < interval
  {
    if batch == groups {
      Cancels(groups, sweep - 1, 1);
      var k: int := sweep - 1;
      assert k <= 0 && k * tick <= 0;
    } else {
      Swap(batch, tick, sweep - 1);
      ProductOrder(tick, batch * (sweep - 1) + 1, groups);
      assert tick * (batch * (sweep - 1) + 1) == tick * (batch * (sweep - 1)) + tick;
      assert tick * groups == groups * tick;
      Cancels(batch, tick * (sweep - 1), interval);
      assert (sweep - 1) * tick == tick * (sweep - 1);
    }
  }

  /** A batch does not exceed what the rate allows in one tick by a full request. */
  lemma BatchInRate(groups: nat, tick: nat, interval: int, rate: int, batch: nat)
    requires groups > 0 && tick > 0 && rate > 0 && interval > 0 && batch > 0
    requires groups * 60000 <= rate * interval
    requires interval * (batch - 1) < groups * tick
    ensures batch * 60000 < tick * rate + 60000
  {
    ProductOrder(batch - 1, groups * 60000, rate * interval);
    Swap(groups, batch - 1, 60000);
    Swap(batch - 1, rate, interval);
    assert (batch - 1) * interval == interval * (batch - 1);
    ProductOrder(rate, interval * (batch - 1) + 1, groups * tick);
    assert rate * (interval * (batch - 1) + 1) == rate * (interval * (batch - 1)) + rate;
    Swap(rate, groups, tick);
    assert rate * tick == tick * rate;
    Cancels(groups, (batch - 1) * 60000, tick * rate);
  }

  lemma BatchBounds(groups: nat, tick: nat, interval: int)
    requires groups > 0 && tick > 0 && interval > 0
    ensures var batch := BatchSize(groups, tick, interval);
      && 1 <= batch <= groups && interval * (batch - 1) < groups * tick
      && (batch == groups || groups * tick <= batch * interval)
  {
    var wanted := CeilDiv(groups * tick, interval);
    var batch := BatchSize(groups, tick, interval);
    CeilDivBounds(groups * tick, interval);
    assert groups * tick > 0;
    assert wanted > 0 by { assert wanted == 0 ==> interval * wanted == 0; }
    if batch == wanted { assert batch * interval == interval * wanted; }
    else { ProductOrder(interval, batch - 1, wanted - 1); }
  }

  /** A whole sweep of all groups, batch by batch, fits in one interval, and a batch stays within the
      rate up to one request. */
  lemma ScheduleKeepsItsBounds(groups: nat, tickMs: nat, targetMs: int, maxPerMinute: int)
    requires groups > 0 && tickMs > 0 && targetMs > 0
    ensures var s := WatchSchedule(groups, tickMs, targetMs, maxPerMinute);
      && 1 <= s.batch <= groups
      && (CeilDiv(groups, s.batch) - 1) * tickMs < s.intervalMs
      && s.batch * 60000 < tickMs * Max(1, maxPerMinute) + 60000
  {
    var s := WatchSchedule(groups, tickMs, targetMs, maxPerMinute);
    IntervalIsLeast(groups, tickMs, targetMs, maxPerMinute, 0);
    BatchBounds(groups, tickMs, s.intervalMs);
    CeilDivBounds(groups, s.batch);
    SweepFits(groups, s.batch, CeilDiv(groups, s.batch), tickMs, s.intervalMs);
    BatchInRate(groups, tickMs, s.intervalMs, Max(1, maxPerMinute), s.batch);
  }

  // ---- The fingerprint of a stock list ---------------------------------------------------

  /** What a source reports as available: nothing that reads as a finite number, null, or a number. */
  datatype Reported = Unreadable | Null | Count(n: real)

  datatype Product = Product(id: Option<string>, available: Reported, hidden: Option<bool>)

  /** The normal form of a product; no available count stands for "null". */
  datatype Normal = Normal(id: string, available: Option<nat>, hidden: bool)

  function NormalOf(p: Product): Normal {
    Normal(Trim(if p.id.Some? then p.id.value else ""),
           match p.available
           case Unreadable => None
           case Null => Some(0)
           case Count(n) => Some(Max(0, n.Floor)),
           p.hidden == Some(true))
  }

  function AvailableText(a: Option<nat>): string {
    match a
    case None => "null"
    case Some(n) => DecimalNat(n)
  }

  const NUL := '\0'

  function RowText(r: Normal): string {
    r.id + [NUL] + AvailableText(r.available) + [NUL] + (if r.hidden then "1" else "0")
  }

  /** The rows before sorting: those with a blank id are dropped. */
  function Rows(ps: seq<Product>): seq<string> {
    if ps == [] then []
    else
      var row := RowText(NormalOf(ps[|ps| - 1]));
      var earlier := Rows(ps[..|ps| - 1]);
      if [NUL] <= row then earlier else earlier + [row]
  }

  /** The text that is hashed. */
  function FingerprintText(ps: seq<Product>): string {
    Join(Sort(TextLess, Rows(ps)), "\n")
  }

  /** What the text is meant to stand for. */
  function Stocked(ps: seq<Product>): seq<Normal> {
    if ps == [] then []
    else
      var r := NormalOf(ps[|ps| - 1]);
      var earlier := Stocked(ps[..|ps| - 1]);
      if r.id == "" then earlier else earlier + [r]
  }

  predicate PlainIds(ps: seq<Product>) {
    forall p <- ps :: p.id.Some? ==> NUL !in p.id.value && '\n' !in p.id.value
  }

  function Texts(rs: seq<Normal>): (ts: seq<string>)
    ensures |ts| == |rs|
  {
    if rs == [] then [] else Texts(rs[..|rs| - 1]) + [RowText(rs[|rs| - 1])]
  }

  predicate PlainRow(r: Normal) { r.id != "" && NUL !in r.id && '\n' !in r.id }

  // ---- Reading a row back ----------------------------------------------------------------

  lemma {:induction false} DecimalTells(m: nat, n: nat)
    ensures DecimalNat(m) == DecimalNat(n) ==> m == n
  {
    if DecimalNat(m) == DecimalNat(n) {
      assert DecimalNat(m)[|DecimalNat(m)| - 1] == DecimalNat(n)[|DecimalNat(n)| - 1];
      if m >= 10 && n >= 10 {
        assert DecimalNat(m)[..|DecimalNat(m)| - 1] == DecimalNat(m / 10);
        assert DecimalNat(n)[..|DecimalNat(n)| - 1] == DecimalNat(n / 10);
        DecimalTells(m / 10, n / 10);
      }
    }
  }

  lemma AvailableTells(a: Option<nat>, b: Option<nat>)
    ensures AvailableText(a) == AvailableText(b) ==> a == b
    ensures NUL !in AvailableText(a) && '\n' !in AvailableText(a)
  {
    if a.Some? { DecimalNatIsDigits(a.value); }
    if b.Some? { DecimalNatIsDigits(b.value); }
    if a.Some? && b.Some? { DecimalTells(a.value, b.value); }
    if a.Some? { assert DecimalNat(a.value)[0] in DecimalNat(a.value); }
    if b.Some? { assert DecimalNat(b.value)[0] in DecimalNat(b.value); }
  }

  /** The text before the first mark is determined by the whole. */
  lemma CutsAt(a: string, b: string, mark: char, x: string, y: string)
    requires mark !in a && mark !in b && a + [mark] + x == b + [mark] + y
    ensures a == b && x == y
  {
    var s := a + [mark] + x;
    IndexAt(a, mark, x);
    IndexAt(b, mark, y);
    assert s[..|a|] == a && s[..|b|] == b;
    assert s[|a| + 1..] == x && s[|b| + 1..] == y;
  }

  lemma RowTells(r: Normal, q: Normal)
    requires PlainRow(r) && PlainRow(q)
    ensures RowText(r) == RowText(q) ==> r == q
  {
    if RowText(r) == RowText(q) {
      var rh, qh := if r.hidden then "1" else "0", if q.hidden then "1" else "0";
      var ra, qa := AvailableText(r.available), AvailableText(q.available);
      AvailableTells(r.available, q.available);
      AvailableTells(q.available, r.available);
      assert RowText(r) == r.id + [NUL] + (ra + [NUL] + rh);
      assert RowText(q) == q.id + [NUL] + (qa + [NUL] + qh);
      CutsAt(r.id, q.id, NUL, ra + [NUL] + rh, qa + [NUL] + qh);
      CutsAt(ra, qa, NUL, rh, qh);
    }
  }

  lemma RowIsOneLine(r: Normal)
    requires PlainRow(r)
    ensures '\n' !in RowText(r) && RowText(r) != "" && !([NUL] <= RowText(r))
  {
    AvailableTells(r.available, r.available);
    assert RowText(r)[0] == r.id[0];
  }

  // ---- From products to rows and back ----------------------------------------------------

  lemma {:induction false} TrimEndOf(s: string)
    ensures TrimEnd(s) <= s
  {
    if s != "" && IsSpace(s[|s| - 1]) { TrimEndOf(s[..|s| - 1]); }
  }

  lemma TrimmedKeepsOut(s: string, c: char)
    requires c !in s
    ensures c !in Trim(s)
  {
    TrimStartShape(s);
    TrimEndOf(TrimStart(s));
  }

  lemma NormalIsPlain(p: Product)
    requires p.id.Some? ==> NUL !in p.id.value && '\n' !in p.id.value
    ensures var r := NormalOf(p); (r.id != "" ==> PlainRow(r)) && ([NUL] <= RowText(r) <==> r.id == "")
  {
    var id := if p.id.Some? then p.id.value else "";
    TrimmedKeepsOut(id, NUL);
    TrimmedKeepsOut(id, '\n');
    var r := NormalOf(p);
    if r.id != "" { RowIsOneLine(r); } else { assert RowText(r)[0] == NUL; }
  }

  lemma {:induction false} RowsAreTexts(ps: seq<Product>)
    requires PlainIds(ps)
    ensures Rows(ps) == Texts(Stocked(ps)) && forall r <- Stocked(ps) :: PlainRow(r)
    decreases |ps|
  {
    if ps != [] {
      var init, last := ps[..|ps| - 1], ps[|ps| - 1];
      assert last in ps;
      RowsAreTexts(init);
      NormalIsPlain(last);
      var earlier, r := Stocked(init), NormalOf(last);
      if r.id != "" { assert (earlier + [r])[..|earlier|] == earlier; }
    }
  }

  lemma {:induction false} RowTimes(rs: seq<Normal>, r: Normal)
    requires PlainRow(r) && forall x <- rs :: PlainRow(x)
    ensures multiset(Texts(rs))[RowText(r)] == multiset(rs)[r]
    decreases |rs|
  {
    if rs != [] {
      var init, last := rs[..|rs| - 1], rs[|rs| - 1];
      assert last in rs && rs == init + [last];
      RowTimes(init, r);
      RowTells(r, last);
    }
  }

  lemma {:induction false} TextHasRow(rs: seq<Normal>, t: string) returns (r: Normal)
    requires t in Texts(rs)
    ensures r in rs && RowText(r) == t
    decreases |rs|
  {
    var init, last := rs[..|rs| - 1], rs[|rs| - 1];
    if RowText(last) == t { r := last; } else { r := TextHasRow(init, t); }
  }

  lemma TextsNoMore(a: seq<Normal>, b: seq<Normal>, t: string)
    requires (forall x <- a :: PlainRow(x)) && (forall x <- b :: PlainRow(x)) && multiset(a) == multiset(b)
    ensures multiset(Texts(a))[t] <= multiset(Texts(b))[t]
  {
    if t in Texts(a) {
      var r := TextHasRow(a, t);
      RowTimes(a, r);
      RowTimes(b, r);
    }
  }

  /** Equal rows, as multisets, exactly when equal texts. */
  lemma TextsTell(a: seq<Normal>, b: seq<Normal>)
    requires (forall x <- a :: PlainRow(x)) && (forall x <- b :: PlainRow(x))
    ensures multiset(a) == multiset(b) <==> multiset(Texts(a)) == multiset(Texts(b))
  {
    if multiset(a) == multiset(b) {
      forall t ensures multiset(Texts(a))[t] == multiset(Texts(b))[t] {
        TextsNoMore(a, b, t);
        TextsNoMore(b, a, t);
      }
    }
    if multiset(Texts(a)) == multiset(Texts(b)) {
      forall r ensures multiset(a)[r] == multiset(b)[r] {
        if PlainRow(r) {
          RowTimes(a, r);
          RowTimes(b, r);
        } else {
          assert r !in a && r !in b;
        }
      }
    }
  }

  lemma {:induction false} LinesComeBack(rows: seq<string>)
    requires rows != [] && forall t <- rows :: '\n' !in t
    ensures Split(Join(rows, "\n"), '\n') == rows
    decreases |rows|
  {
    assert rows[0] in rows;
    if |rows| == 1 {
      SplitWhole(rows[0], '\n');
    } else {
      LinesComeBack(rows[1..]);
      assert Join(rows, "\n") == rows[0] + ['\n'] + Join(rows[1..], "\n");
      SplitFirst(rows[0], Join(rows[1..], "\n"), '\n');
      assert rows == [rows[0]] + rows[1..];
    }
  }

  lemma LinesTell(a: seq<string>, b: seq<string>)
    requires forall t <- a :: '\n' !in t && t != ""
    requires forall t <- b :: '\n' !in t && t != ""
    ensures Join(a, "\n") == Join(b, "\n") ==> a == b
  {
    if a != [] { LinesComeBack(a); assert a[0] in a; }
    if b != [] { LinesComeBack(b); assert b[0] in b; }
  }

  lemma TextLessIsOrder()
    ensures StrictOrder(TextLess)
    ensures forall s: seq<string> :: TotalOn(TextLess, s)
  {
    forall a { TextLessOrders(a, a, a); }
    forall a, b, c | TextLess(a, b) && TextLess(b, c) ensures TextLess(a, c) { TextLessOrders(a, b, c); }
    forall a, b | a != b ensures TextLess(a, b) || TextLess(b, a) { TextLessOrders(a, b, b); }
  }

  lemma SortedLines(ps: seq<Product>)
    requires PlainIds(ps)
    ensures multiset(Sort(TextLess, Rows(ps))) == multiset(Texts(Stocked(ps)))
    ensures forall t <- Sort(TextLess, Rows(ps)) :: '\n' !in t && t != ""
  {
    RowsAreTexts(ps);
    SortKeeps(TextLess, Rows(ps));
    forall t | t in Sort(TextLess, Rows(ps)) ensures '\n' !in t && t != "" {
      assert t in multiset(Sort(TextLess, Rows(ps)));
      var r := TextHasRow(Stocked(ps), t);
      RowIsOneLine(r);
    }
  }

  /** Two stock lists have the same text exactly when they hold the same normal rows, in any order, each
      as many times. */
  lemma FingerprintIsCanonical(a: seq<Product>, b: seq<Product>)
    requires PlainIds(a) && PlainIds(b)
    ensures FingerprintText(a) == FingerprintText(b) <==> multiset(Stocked(a)) == multiset(Stocked(b))
  {
    SortedLines(a);
    SortedLines(b);
    RowsAreTexts(a);
    RowsAreTexts(b);
    TextsTell(Stocked(a), Stocked(b));
    LinesTell(Sort(TextLess, Rows(a)), Sort(TextLess, Rows(b)));
    if multiset(Stocked(a)) == multiset(Stocked(b)) {
      TextLessIsOrder();
      SortIgnoresOrder(TextLess, Rows(a), Rows(b));
    }
  }

  // ---- What wakes the watcher ------------------------------------------------------------

  function ReadsAs(a: Reported): Option<real> {
    match a
    case Unreadable => None
    case Null => Some(0.0)
    case Count(n) => Some(n)
  }

  /** Both counts are unreadable, or both read as numbers that are below one, or equal when cut to whole
      numbers; null reads as zero. */
  predicate SameCount(a: Reported, b: Reported) {
    match (ReadsAs(a), ReadsAs(b))
    case (Some(x), Some(y)) => (x < 1.0 && y < 1.0) || (x >= 1.0 && y >= 1.0 && x.Floor == y.Floor)
    case (None, None) => true
    case _ => false
  }

  function IdOf(p: Product): string { Trim(if p.id.Some? then p.id.value else "") }

  lemma NormalTells(p: Product, q: Product)
    ensures NormalOf(p) == NormalOf(q) <==>
              IdOf(p) == IdOf(q) && SameCount(p.available, q.available)
              && (p.hidden == Some(true) <==> q.hidden == Some(true))
  {}

  lemma {:induction false} StockedAppends(a: seq<Product>, b: seq<Product>)
    ensures Stocked(a + b) == Stocked(a) + Stocked(b)
    decreases |b|
  {
    if b == [] {
      assert a + b == a;
    } else {
      var init, last := b[..|b| - 1], b[|b| - 1];
      assert (a + b)[..|a + b| - 1] == a + init && (a + b)[|a + b| - 1] == last;
      StockedAppends(a, init);
    }
  }

  /** Changing one product of a list changes its text exactly if the trimmed id, the whole count or the
      visibility changes, or the product is without an id both times. */
  lemma ChangeTells(a: seq<Product>, p: Product, q: Product, b: seq<Product>)
    requires PlainIds(a + [p] + b) && PlainIds(a + [q] + b)
    ensures FingerprintText(a + [p] + b) == FingerprintText(a + [q] + b) <==>
              || (IdOf(p) == "" && IdOf(q) == "")
              || (IdOf(p) == IdOf(q) && SameCount(p.available, q.available)
                  && (p.hidden == Some(true) <==> q.hidden == Some(true)))
  {
    FingerprintIsCanonical(a + [p] + b, a + [q] + b);
    NormalTells(p, q);
    OneStocked(a, p, b);
    OneStocked(a, q, b);
    var rest := multiset(Stocked(a)) + multiset(Stocked(b));
    OneMore(rest, NormalOf(p), NormalOf(q));
  }

  lemma OneStocked(a: seq<Product>, p: Product, b: seq<Product>)
    ensures multiset(Stocked(a + [p] + b))
            == multiset(Stocked(a)) + multiset(Stocked(b)) + (if IdOf(p) == "" then multiset{} else multiset{NormalOf(p)})
  {
    StockedAppends(a + [p], b);
    StockedAppends(a, [p]);
    assert [p][..0] == [] && Stocked([]) == [];
    assert Stocked([p]) == if IdOf(p) == "" then [] else [NormalOf(p)];
  }

  lemma OneMore(rest: multiset<Normal>, x: Normal, y: Normal)
    ensures rest + multiset{x} == rest + multiset{y} <==> x == y
    ensures rest + multiset{x} != rest
  {
    assert (rest + multiset{x})[x] == rest[x] + 1;
    if x != y { assert (rest + multiset{y})[x] == rest[x]; }
  }
}
