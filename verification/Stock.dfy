/** Which stock entries a sale takes, and how batches close as they empty. A transaction that holds the
    product's row lock is one step. */
module Stock {
  import opened Options
  import opened Ranking

  datatype Status = Available | Sold | Extracted

  datatype Entry = Entry(id: string, product: string, batch: Option<string>, text: string, status: Status,
                         uploadedAt: int, soldTo: Option<string>)

  datatype Batch = Batch(priority: int, createdAt: int, cost: Option<int>, closed: bool, expiresAt: Option<int>)

  /** The entries in the order in which the database lists them. */
  datatype Shop = Shop(entries: seq<Entry>, batches: map<string, Batch>)

  // ---- Candidates and their order --------------------------------------------------------

  predicate Sellable(batches: map<string, Batch>, e: Entry, product: string, now: int) {
    && e.product == product && e.status == Available
    && (match e.batch
        case None => true
        case Some(b) =>
          && b in batches && !batches[b].closed
          && (batches[b].expiresAt == None || batches[b].expiresAt.value > now))
  }

  /** An entry together with its batch's columns. */
  datatype Candidate = Candidate(entry: Entry, batch: Option<Batch>)

  function Joined(batches: map<string, Batch>, e: Entry): Candidate {
    Candidate(e, if e.batch.Some? && e.batch.value in batches then Some(batches[e.batch.value]) else None)
  }

  function Candidates(s: Shop, product: string, now: int): seq<Candidate>
    decreases |s.entries|
  {
    if s.entries == [] then []
    else
      var n := |s.entries| - 1;
      var earlier := Candidates(s.(entries := s.entries[..n]), product, now);
      if Sellable(s.batches, s.entries[n], product, now) then earlier + [Joined(s.batches, s.entries[n])] else earlier
  }

  /** countAvailableManualEntries. */
  function CountAvailable(s: Shop, product: string, now: int): nat
    decreases |s.entries|
  {
    if s.entries == [] then 0
    else
      var n := |s.entries| - 1;
      CountAvailable(s.(entries := s.entries[..n]), product, now)
      + (if Sellable(s.batches, s.entries[n], product, now) then 1 else 0)
  }

  function Priority(c: Candidate): int { if c.batch.Some? then c.batch.value.priority else 0 }

  function BatchDate(c: Candidate): int { if c.batch.Some? then c.batch.value.createdAt else 0 }

  /** The comparator: without a batch first, then higher priority, older batch, older upload, id. */
  function Compare(a: Candidate, b: Candidate): int {
    if a.entry.batch == None && b.entry.batch.Some? then -1
    else if a.entry.batch.Some? && b.entry.batch == None then 1
    else if Priority(a) != Priority(b) then Priority(b) - Priority(a)
    else if BatchDate(a) != BatchDate(b) then BatchDate(a) - BatchDate(b)
    else if a.entry.uploadedAt != b.entry.uploadedAt then a.entry.uploadedAt - b.entry.uploadedAt
    else if TextLess(a.entry.id, b.entry.id) then -1
    else if TextLess(b.entry.id, a.entry.id) then 1
    else 0
  }

  predicate Before(a: Candidate, b: Candidate) { Compare(a, b) < 0 }

  /** The comparator is antisymmetric, transitive, and ties only candidates with the same id. */
  lemma CompareOrders(a: Candidate, b: Candidate, c: Candidate)
    ensures Compare(a, b) < 0 <==> Compare(b, a) > 0
    ensures Before(a, b) && Before(b, c) ==> Before(a, c)
    ensures a.entry.id != b.entry.id ==> Before(a, b) || Before(b, a)
    ensures !Before(a, a)
  {
    TextLessOrders(a.entry.id, b.entry.id, c.entry.id);
    TextLessOrders(b.entry.id, a.entry.id, c.entry.id);
  }

  ghost predicate DistinctIds(entries: seq<Entry>) {
    forall i, j :: 0 <= i < j < |entries| ==> entries[i].id != entries[j].id
  }

  ghost predicate DifferentIds(cs: seq<Candidate>) {
    forall i, j :: 0 <= i < j < |cs| ==> cs[i].entry.id != cs[j].entry.id
  }

  lemma BeforeIsStrict()
    ensures StrictOrder(Before)
  {
    forall a { CompareOrders(a, a, a); }
    forall a, b, c | Before(a, b) && Before(b, c) ensures Before(a, c) { CompareOrders(a, b, c); }
  }

  lemma {:induction false} CandidatesAre(s: Shop, product: string, now: int)
    ensures |Candidates(s, product, now)| == CountAvailable(s, product, now)
    ensures forall c :: c in Candidates(s, product, now) <==>
              c.entry in s.entries && Sellable(s.batches, c.entry, product, now) && c == Joined(s.batches, c.entry)
    decreases |s.entries|
  {
    if s.entries != [] {
      var n := |s.entries| - 1;
      CandidatesAre(s.(entries := s.entries[..n]), product, now);
      assert s.entries == s.entries[..n] + [s.entries[n]];
    }
  }

  lemma {:induction false} CandidatesDiffer(s: Shop, product: string, now: int)
    requires DistinctIds(s.entries)
    ensures DifferentIds(Candidates(s, product, now))
    decreases |s.entries|
  {
    if s.entries != [] {
      var n := |s.entries| - 1;
      var t := s.(entries := s.entries[..n]);
      CandidatesDiffer(t, product, now);
      CandidatesAre(t, product, now);
      var earlier := Candidates(t, product, now);
      forall i | 0 <= i < |earlier| ensures earlier[i].entry.id != s.entries[n].id {
        assert earlier[i] in earlier;
      }
    }
  }

  lemma DifferentIdsAreTotal(cs: seq<Candidate>)
    requires DifferentIds(cs)
    ensures TotalOn(Before, cs)
  {
    forall a, b | a in cs && b in cs && a != b ensures Before(a, b) || Before(b, a) {
      var i :| 0 <= i < |cs| && cs[i] == a;
      var j :| 0 <= j < |cs| && cs[j] == b;
      CompareOrders(a, b, b);
      assert i < j || j < i;
    }
  }

  lemma CandidatesTotal(s: Shop, product: string, now: int)
    requires DistinctIds(s.entries)
    ensures TotalOn(Before, Candidates(s, product, now))
  {
    CandidatesDiffer(s, product, now);
    DifferentIdsAreTotal(Candidates(s, product, now));
  }

  // ---- A sale ----------------------------------------------------------------------------

  /** The candidates in selling order. */
  function Ranked(s: Shop, product: string, now: int): seq<Candidate> {
    Sort(Before, Candidates(s, product, now))
  }

  lemma RankedShape(s: Shop, product: string, now: int)
    ensures |Ranked(s, product, now)| == CountAvailable(s, product, now)
    ensures multiset(Ranked(s, product, now)) == multiset(Candidates(s, product, now))
    ensures forall c :: c in Ranked(s, product, now) <==> c in Candidates(s, product, now)
  {
    SortKeeps(Before, Candidates(s, product, now));
    CandidatesAre(s, product, now);
    forall c ensures c in Ranked(s, product, now) <==> c in Candidates(s, product, now) {
      assert c in multiset(Ranked(s, product, now)) <==> c in multiset(Candidates(s, product, now));
    }
  }

  function Ids(cs: seq<Candidate>): set<string> { set c <- cs :: c.entry.id }

  function Marked(e: Entry, ids: set<string>, to: string): Entry {
    if e.id in ids then e.(status := Sold, soldTo := Some(to)) else e
  }

  function MarkSold(entries: seq<Entry>, ids: set<string>, to: string): (r: seq<Entry>)
    ensures |r| == |entries|
    ensures forall i :: 0 <= i < |entries| ==> r[i] == Marked(entries[i], ids, to)
  {
    if entries == [] then []
    else MarkSold(entries[..|entries| - 1], ids, to) + [Marked(entries[|entries| - 1], ids, to)]
  }

  function Remaining(entries: seq<Entry>, b: string): nat {
    if entries == [] then 0
    else
      var last := entries[|entries| - 1];
      Remaining(entries[..|entries| - 1], b) + (if last.batch == Some(b) && last.status == Available then 1 else 0)
  }

  function Touched(cs: seq<Candidate>): set<string> {
    set c <- cs | c.entry.batch.Some? :: c.entry.batch.value
  }

  /** Closes those of the given batches that have no available entry left. */
  function CloseEmpty(entries: seq<Entry>, batches: map<string, Batch>, bs: set<string>): map<string, Batch> {
    map b <- batches :: if b in bs && Remaining(entries, b) == 0 then batches[b].(closed := true) else batches[b]
  }

  function Cost(cs: seq<Candidate>): int {
    if cs == [] then 0
    else
      var last := cs[|cs| - 1];
      Cost(cs[..|cs| - 1]) + (if last.batch.Some? && last.batch.value.cost.Some? then last.batch.value.cost.value else 0)
  }

  function Texts(cs: seq<Candidate>): (ts: seq<string>)
    ensures |ts| == |cs|
  {
    if cs == [] then [] else Texts(cs[..|cs| - 1]) + [cs[|cs| - 1].entry.text]
  }

  /** The first `q` candidates, if there are that many. */
  function Taken(s: Shop, product: string, q: nat, now: int): Option<seq<Candidate>> {
    var ranked := Ranked(s, product, now);
    if |ranked| < q then None else Some(ranked[..q])
  }

  function AfterSale(s: Shop, taken: seq<Candidate>, to: string): Shop {
    var entries := MarkSold(s.entries, Ids(taken), to);
    Shop(entries, CloseEmpty(entries, s.batches, Touched(taken)))
  }

  /** A sale succeeds exactly when the count of available entries suffices. It takes that many different
      entries, all of them sellable, and each comes before every sellable one that stays. */
  lemma SaleTakesTheFirst(s: Shop, product: string, q: nat, now: int)
    requires DistinctIds(s.entries)
    ensures Taken(s, product, q, now).Some? <==> CountAvailable(s, product, now) >= q
    ensures Taken(s, product, q, now).Some? ==>
      var taken := Taken(s, product, q, now).value;
      && |taken| == q
      && (forall c <- taken :: c.entry in s.entries && Sellable(s.batches, c.entry, product, now))
      && DifferentIds(taken)
      && (forall i, c :: 0 <= i < q && c in Candidates(s, product, now) && c !in taken ==> Before(taken[i], c))
  {
    var ranked := Ranked(s, product, now);
    RankedShape(s, product, now);
    if |ranked| >= q {
      RankedDiffer(s, product, now);
      CandidatesAre(s, product, now);
      forall c | c in ranked[..q] ensures c in Candidates(s, product, now) { assert c in ranked; }
      forall i, c | 0 <= i < q && c in Candidates(s, product, now) && c !in ranked[..q] ensures Before(ranked[i], c) {
        assert ranked == ranked[..q] + ranked[q..];
        assert c in ranked[q..];
        var k :| q <= k < |ranked| && ranked[k] == c;
        assert !Before(ranked[k], ranked[i]);
        CompareOrders(ranked[i], ranked[k], c);
      }
    }
  }

  // ---- The order in columns --------------------------------------------------------------

  /** Two entries that a sale tells apart by upload and id only. */
  predicate Level(batches: map<string, Batch>, x: Entry, y: Entry) {
    match (x.batch, y.batch)
    case (None, None) => true
    case (Some(a), Some(b)) =>
      && a in batches && b in batches
      && batches[a].priority == batches[b].priority && batches[a].createdAt == batches[b].createdAt
    case _ => false
  }

  /** `x` is sold sooner than `y`: entries without a batch first, then those of the batch with the higher
      priority, of the older batch, with the older upload, and at last with the smaller id. */
  ghost predicate Sooner(batches: map<string, Batch>, x: Entry, y: Entry) {
    && (x.batch.Some? ==> y.batch.Some?)
    && (x.batch.Some? && x.batch.value in batches && y.batch.value in batches ==>
          var a, b := batches[x.batch.value], batches[y.batch.value];
          a.priority >= b.priority && (a.priority == b.priority ==> a.createdAt <= b.createdAt))
    && (Level(batches, x, y) ==>
          x.uploadedAt <= y.uploadedAt
          && (x.uploadedAt == y.uploadedAt ==> exists k: nat :: DiffersAt(x.id, y.id, k)))
  }

  lemma BeforeIsSooner(batches: map<string, Batch>, x: Entry, y: Entry, product: string, now: int)
    requires Sellable(batches, x, product, now) && Sellable(batches, y, product, now)
    requires Before(Joined(batches, x), Joined(batches, y))
    ensures Sooner(batches, x, y)
  {
    TextLessExactly(x.id, y.id);
  }

  /** A sellable entry that was not taken. */
  predicate Stays(s: Shop, taken: seq<Candidate>, y: Entry, product: string, now: int) {
    y in s.entries && Sellable(s.batches, y, product, now) && forall c <- taken :: c.entry != y
  }

  /** The taken entries are in that order, and each comes before every sellable one that stays. */
  ghost predicate GoesByColumns(s: Shop, taken: seq<Candidate>, product: string, now: int) {
    && (forall i, j :: 0 <= i < j < |taken| ==> Sooner(s.batches, taken[i].entry, taken[j].entry))
    && (forall i, y :: 0 <= i < |taken| && Stays(s, taken, y, product, now) ==> Sooner(s.batches, taken[i].entry, y))
  }

  /** A sale takes its entries in that order, and each of them sooner than every sellable one that stays. */
  lemma SaleGoesByColumns(s: Shop, product: string, q: nat, now: int)
    requires DistinctIds(s.entries) && Taken(s, product, q, now).Some?
    ensures var taken := Taken(s, product, q, now).value;
            |taken| == q && GoesByColumns(s, taken, product, now)
  {
    var ranked, taken := Ranked(s, product, now), Taken(s, product, q, now).value;
    RankedDiffer(s, product, now);
    RankedShape(s, product, now);
    CandidatesAre(s, product, now);
    SaleTakesTheFirst(s, product, q, now);
    forall i, j | 0 <= i < j < q ensures Sooner(s.batches, taken[i].entry, taken[j].entry) {
      assert ranked[i] in ranked && ranked[j] in ranked;
      RankedBefore(s, product, now, i, j);
      BeforeIsSooner(s.batches, taken[i].entry, taken[j].entry, product, now);
    }
    forall i, y | 0 <= i < q && Stays(s, taken, y, product, now)
      ensures Sooner(s.batches, taken[i].entry, y)
    {
      assert Joined(s.batches, y) in Candidates(s, product, now) && Joined(s.batches, y) !in taken;
      assert ranked[i] in ranked;
      BeforeIsSooner(s.batches, taken[i].entry, y, product, now);
    }
  }

  lemma RankedBefore(s: Shop, product: string, now: int, i: nat, j: nat)
    requires DistinctIds(s.entries) && i < j < |Ranked(s, product, now)|
    ensures Before(Ranked(s, product, now)[i], Ranked(s, product, now)[j])
  {
    var ranked := Ranked(s, product, now);
    RankedDiffer(s, product, now);
    assert !Before(ranked[j], ranked[i]) && ranked[i].entry.id != ranked[j].entry.id;
    CompareOrders(ranked[i], ranked[j], ranked[i]);
  }

  // ---- Different ids ---------------------------------------------------------------------

  lemma RankedDiffer(s: Shop, product: string, now: int)
    requires DistinctIds(s.entries)
    ensures Ascending(Before, Ranked(s, product, now))
    ensures DifferentIds(Ranked(s, product, now))
  {
    BeforeIsStrict();
    CandidatesTotal(s, product, now);
    SortAscends(Before, Candidates(s, product, now));
    CandidatesDiffer(s, product, now);
    RankedShape(s, product, now);
    OncePerId(Candidates(s, product, now), Ranked(s, product, now));
  }

  lemma OnlyOnce(a: seq<Candidate>, k: nat)
    requires k < |a| && DifferentIds(a)
    ensures multiset(a)[a[k]] == 1
  {
    assert a == a[..k] + [a[k]] + a[k + 1..];
    assert a[k] !in a[..k] && a[k] !in a[k + 1..];
  }

  lemma NotTwice(b: seq<Candidate>, i: nat, j: nat)
    requires i < j < |b| && multiset(b)[b[i]] == 1
    ensures b[i] != b[j]
  {
    assert b == b[..i] + [b[i]] + b[i + 1..];
    assert b[j] == b[i + 1..][j - i - 1];
    assert b[j] in multiset(b[i + 1..]);
  }

  lemma IdTells(a: seq<Candidate>, x: Candidate, y: Candidate)
    requires DifferentIds(a) && x in a && y in a && x != y
    ensures x.entry.id != y.entry.id
  {
    var k :| 0 <= k < |a| && a[k] == x;
    var l :| 0 <= l < |a| && a[l] == y;
    assert k < l || l < k;
  }

  /** Rearranging elements with different ids keeps the ids different. */
  lemma OncePerId(a: seq<Candidate>, b: seq<Candidate>)
    requires multiset(a) == multiset(b)
    requires DifferentIds(a)
    ensures DifferentIds(b)
  {
    forall i, j | 0 <= i < j < |b| ensures b[i].entry.id != b[j].entry.id {
      assert b[i] in multiset(b) && b[j] in multiset(b);
      var k :| 0 <= k < |a| && a[k] == b[i];
      OnlyOnce(a, k);
      NotTwice(b, i, j);
      assert b[j] in multiset(a);
      IdTells(a, b[i], b[j]);
    }
  }

  /** It does not matter in which order the database lists the entries. */
  lemma ListingOrderIsIrrelevant(s: Shop, t: Shop, product: string, q: nat, now: int)
    requires multiset(s.entries) == multiset(t.entries) && s.batches == t.batches && DistinctIds(s.entries)
    ensures Taken(s, product, q, now) == Taken(t, product, q, now)
  {
    BeforeIsStrict();
    CandidatesTotal(s, product, now);
    SameCandidates(s, t, product, now);
    SortIgnoresOrder(Before, Candidates(s, product, now), Candidates(t, product, now));
  }

  lemma {:induction false} CandidateTimes(s: Shop, product: string, now: int, c: Candidate)
    ensures multiset(Candidates(s, product, now))[c]
            == if Sellable(s.batches, c.entry, product, now) && c == Joined(s.batches, c.entry)
               then multiset(s.entries)[c.entry] else 0
    decreases |s.entries|
  {
    if s.entries != [] {
      var n := |s.entries| - 1;
      CandidateTimes(s.(entries := s.entries[..n]), product, now, c);
      assert s.entries == s.entries[..n] + [s.entries[n]];
    }
  }

  lemma SameCandidates(s: Shop, t: Shop, product: string, now: int)
    requires multiset(s.entries) == multiset(t.entries) && s.batches == t.batches
    ensures multiset(Candidates(s, product, now)) == multiset(Candidates(t, product, now))
  {
    forall c ensures multiset(Candidates(s, product, now))[c] == multiset(Candidates(t, product, now))[c] {
      CandidateTimes(s, product, now, c);
      CandidateTimes(t, product, now, c);
    }
  }
}
