/** The list of texts that a product keeps in its metadata beside its stock rows. A delivery from stock reads
    it before any lock, and writes it back, without the texts it hands out, under the locks of order and
    product. */
module DeliveryList {
  /** A list as it was read, and what other deliveries have handed out since. */
  datatype Reading = Reading(list: multiset<string>, since: multiset<string>)

  /** `entries` is the stored list, `due` what it should be: the list at the start without everything that
      was handed out. */
  datatype List = List(entries: multiset<string>, due: multiset<string>, readings: map<nat, Reading>)

  datatype Event = Read(call: nat) | Deliver(call: nat, texts: multiset<string>)

  function Noted(readings: map<nat, Reading>, texts: multiset<string>): map<nat, Reading> {
    map c | c in readings :: readings[c].(since := readings[c].since + texts)
  }

  function Step(s: List, e: Event): List {
    match e
    case Read(call) =>
      if call in s.readings then s else s.(readings := s.readings[call := Reading(s.entries, multiset{})])
    case Deliver(call, texts) =>
      if call !in s.readings then s
      else List(s.readings[call].list - texts, s.due - texts, Noted(s.readings - {call}, texts))
  }

  function Run(s: List, es: seq<Event>): List
    decreases |es|
  {
    if es == [] then s else Run(Step(s, es[0]), es[1..])
  }

  /** Texts come back with this write: some text that others have handed out since the read stands on the
      list read more often than the delivery itself hands it out. */
  predicate BringsBack(s: List, e: Event) {
    && e.Deliver? && e.call in s.readings
    && exists x <- s.readings[e.call].since :: s.readings[e.call].list[x] > e.texts[x]
  }

  ghost predicate ReadingsRight(s: List) {
    forall c <- s.readings :: s.due == s.readings[c].list - s.readings[c].since
  }

  lemma TakenTwice(a: multiset<string>, b: multiset<string>, c: multiset<string>)
    ensures a - b - c == a - (b + c)
  {}

  /** Taking `b` away first makes no difference to taking `c` away exactly if `c` leaves none of it. */
  lemma TakenAnyway(a: multiset<string>, b: multiset<string>, c: multiset<string>)
    ensures a - c == a - b - c <==> forall x <- b :: a[x] <= c[x]
  {
    if a - c == a - b - c {
      forall x | x in b ensures a[x] <= c[x] {
        assert (a - c)[x] == (a - b - c)[x];
      }
    }
    if forall x <- b :: a[x] <= c[x] {
      forall x ensures (a - c)[x] == (a - b - c)[x] {
        if x !in b { assert (a - b)[x] == a[x]; }
      }
    }
  }

  lemma StepExact(s: List, e: Event)
    requires s.entries == s.due && ReadingsRight(s)
    ensures Step(s, e).entries == Step(s, e).due <==> !BringsBack(s, e)
    ensures ReadingsRight(Step(s, e))
  {
    match e
    case Read(call) => assert s.entries - multiset{} == s.entries;
    case Deliver(call, texts) =>
      if call in s.readings {
        TakenAnyway(s.readings[call].list, s.readings[call].since, texts);
        forall c | c in s.readings ensures s.due - texts == s.readings[c].list - (s.readings[c].since + texts) {
          TakenTwice(s.readings[c].list, s.readings[c].since, texts);
        }
      }
  }

  predicate NoneBringsBack(s: List, es: seq<Event>)
    decreases |es|
  {
    es != [] ==> !BringsBack(s, es[0]) && NoneBringsBack(Step(s, es[0]), es[1..])
  }

  predicate AlwaysRight(s: List, es: seq<Event>)
    decreases |es|
  {
    s.entries == s.due && (es != [] ==> AlwaysRight(Step(s, es[0]), es[1..]))
  }

  /** Over every run of deliveries: the list is throughout what it was without everything handed out exactly
      if no delivery writes back a text that another one has handed out since it read. */
  lemma {:induction false} ListRightExactly(s: List, es: seq<Event>)
    requires s.entries == s.due && ReadingsRight(s)
    ensures AlwaysRight(s, es) <==> NoneBringsBack(s, es)
    decreases |es|
  {
    if es != [] {
      StepExact(s, es[0]);
      if !BringsBack(s, es[0]) { ListRightExactly(Step(s, es[0]), es[1..]); }
    }
  }

  function Stored(texts: multiset<string>): List { List(texts, texts, map[]) }

  lemma OneReads(s: List, call: nat)
    requires s.entries == s.due && ReadingsRight(s) && call !in s.readings
    ensures var t := Step(s, Read(call));
      && t.entries == t.due == s.due && ReadingsRight(t) && t.readings.Keys == s.readings.Keys + {call}
      && t.readings[call] == Reading(s.entries, multiset{}) && forall c <- s.readings :: t.readings[c] == s.readings[c]
  {
    StepExact(s, Read(call));
  }

  /** Two calls may have read the same list. */
  lemma TwoReaders(list: multiset<string>)
    ensures var s := Step(Step(Stored(list), Read(1)), Read(2));
      && s.entries == s.due == list && ReadingsRight(s)
      && s.readings.Keys == {1, 2} && s.readings[1] == s.readings[2] == Reading(list, multiset{})
  {
    var s := Stored(list);
    OneReads(s, 1);
    OneReads(Step(s, Read(1)), 2);
  }

  /** Of two deliveries that read the same list, the one that commits last brings back what the other one
      handed out and it does not, for instance when they hand out different texts of the list. */
  lemma TextsComeBack(s: List, list: multiset<string>, first: multiset<string>, second: multiset<string>)
    requires s.readings.Keys == {1, 2} && s.readings[1] == s.readings[2] == Reading(list, multiset{})
    ensures var t := Step(s, Deliver(1, first));
      && t.entries == list - first && Step(t, Deliver(2, second)).entries == list - second
      && (BringsBack(t, Deliver(2, second)) <==> exists x <- first :: list[x] > second[x])
      && (first <= list && first != multiset{} && first !! second ==> BringsBack(t, Deliver(2, second)))
  {
    var t := Step(s, Deliver(1, first));
    assert 1 in s.readings.Keys && 2 in s.readings.Keys && 2 in t.readings;
    var r := t.readings[2];
    assert r.list == list && r.since == multiset{} + first;
    assert forall x: string :: x in r.since <==> x in first;
    if first <= list && first != multiset{} && first !! second {
      var x :| x in first;
      assert first[x] <= list[x] && second[x] == 0;
    }
  }
}
