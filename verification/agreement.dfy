/** The task generator's answers, the aggregator's answers from extracted events, and when the two agree. */
module EventAnswers {
  import opened Common

  datatype Kind = Buy | Return | Complain | Recommend

  /** People are numbered in alphabetical order. Days run from 0 in the generator and from 1 in the log. */
  datatype Event = Event(kind: Kind, person: nat, item: string, qty: int, day: int)

  datatype Question = CountBuyers(a: string) | BothItems(a: string, b: string) | NetUnits(a: string)
                    | LookupDay(a: string, person: nat) | BoughtThenReturned(a: string)

  /** A list of names is determined by its set, being printed in order. */
  datatype Answer = Number(value: int) | Names(people: set<nat>) | Unknown

  function Of(events: seq<Event>, kind: Kind): seq<Event> {
    if events == [] then []
    else Of(events[..|events| - 1], kind) + if events[|events| - 1].kind == kind then [events[|events| - 1]] else []
  }

  function People(events: seq<Event>, item: string): set<nat> {
    set i | 0 <= i < |events| && events[i].item == item :: events[i].person
  }

  function Units(item: string): Event -> int { (e: Event) => if e.item == item then e.qty else 0 }

  function By(events: seq<Event>, item: string, person: nat): seq<Event> {
    if events == [] then []
    else
      var e := events[|events| - 1];
      By(events[..|events| - 1], item, person) + if e.item == item && e.person == person then [e] else []
  }

  /** The first purchase day of each buyer, starting each from a day later than any. */
  function FirstBuys(buys: seq<Event>, item: string, never: int): map<nat, int> {
    if buys == [] then map[]
    else
      var e, first := buys[|buys| - 1], FirstBuys(buys[..|buys| - 1], item, never);
      if e.item != item then first
      else first[e.person := Min(if e.person in first then first[e.person] else never, e.day)]
  }

  function LaterReturners(refunds: seq<Event>, item: string, first: map<nat, int>): set<nat> {
    set i | 0 <= i < |refunds| && refunds[i].item == item && refunds[i].person in first
      && refunds[i].day > first[refunds[i].person]
      :: refunds[i].person
  }

  function Earliest(events: seq<Event>): int
    requires events != []
  {
    if |events| == 1 then events[0].day else Min(Earliest(events[..|events| - 1]), events[|events| - 1].day)
  }

  /** The generator's answer; None where it would raise, on a purchase that is not there. */
  function AnswerOf(q: Question, events: seq<Event>): Option<Answer> {
    var buys, refunds := Of(events, Buy), Of(events, Return);
    match q
    case CountBuyers(a) => Some(Number(|People(buys, a)|))
    case BothItems(a, b) => Some(Names(People(buys, a) * People(buys, b)))
    case NetUnits(a) => Some(Number(Sum(Units(a), buys) - Sum(Units(a), refunds)))
    case LookupDay(a, person) =>
      var hits := By(buys, a, person);
      if hits == [] then None else Some(Number(hits[0].day + 1))
    case BoughtThenReturned(a) => Some(Names(LaterReturners(refunds, a, FirstBuys(buys, a, 99))))
  }

  /** The aggregator's answer, on events whose days are as the log prints them. */
  function AggregateOf(q: Question, events: seq<Event>): Answer {
    var buys, refunds := Of(events, Buy), Of(events, Return);
    match q
    case CountBuyers(a) => Number(|People(buys, a)|)
    case BothItems(a, b) => Names(People(buys, a) * People(buys, b))
    case NetUnits(a) => Number(Sum(Units(a), buys) - Sum(Units(a), refunds))
    case LookupDay(a, person) =>
      var hits := By(buys, a, person);
      if hits == [] then Unknown else Number(Earliest(hits))
    case BoughtThenReturned(a) => Names(LaterReturners(refunds, a, FirstBuys(buys, a, 1000000000)))
  }

  /** The dictionary loop both share. */
  method FillFirstBuys(buys: seq<Event>, item: string, never: int) returns (first: map<nat, int>)
    ensures first == FirstBuys(buys, item, never)
  {
    first := map[];
    for i := 0 to |buys|
      invariant first == FirstBuys(buys[..i], item, never)
    {
      assert buys[..i + 1][..i] == buys[..i];
      var e := buys[i];
      if e.item == item {
        first := first[e.person := Min(if e.person in first then first[e.person] else never, e.day)];
      }
    }
    assert buys[..|buys|] == buys;
  }

  // ----- The log's events: the same, one day later, in any order -----

  function Later(e: Event): Event { e.(day := e.day + 1) }

  function Printed(events: seq<Event>): seq<Event> { seq(|events|, i requires 0 <= i < |events| => Later(events[i])) }

  ghost predicate Heard(events: seq<Event>, heard: seq<Event>) { multiset(heard) == multiset(Printed(events)) }

  lemma {:induction false} HeardMember(events: seq<Event>, heard: seq<Event>, e: Event)
    requires Heard(events, heard)
    ensures e in events <==> Later(e) in heard
  {
    var printed := Printed(events);
    assert Later(e) in heard <==> Later(e) in multiset(printed);
    if e in events {
      var i :| 0 <= i < |events| && events[i] == e;
      assert printed[i] == Later(e);
    }
    if Later(e) in printed {
      var i :| 0 <= i < |printed| && printed[i] == Later(e);
      assert Later(events[i]) == Later(e);
      assert events[i] == e;
    }
  }

  /** Whoever is heard of, some event is behind it. */
  lemma {:induction false} HeardSource(events: seq<Event>, heard: seq<Event>, h: Event)
    requires Heard(events, heard) && h in heard
    ensures h.(day := h.day - 1) in events
  {
    assert Later(h.(day := h.day - 1)) == h;
    HeardMember(events, heard, h.(day := h.day - 1));
  }

  lemma {:induction false} OfMembers(events: seq<Event>, kind: Kind, e: Event)
    ensures e in Of(events, kind) <==> e in events && e.kind == kind
  {
    if events != [] {
      OfMembers(events[..|events| - 1], kind, e);
    }
  }

  lemma {:induction false} ByMembers(events: seq<Event>, item: string, person: nat, e: Event)
    ensures e in By(events, item, person) <==> e in events && e.item == item && e.person == person
  {
    if events != [] {
      ByMembers(events[..|events| - 1], item, person, e);
    }
  }

  /** Selecting a kind commutes with printing and shuffling. */
  lemma {:induction false} OfHeard(events: seq<Event>, heard: seq<Event>, kind: Kind)
    requires Heard(events, heard)
    ensures Heard(Of(events, kind), Of(heard, kind))
  {
    OfPrinted(events, kind);
    OfBag(heard, kind);
    OfBag(Printed(events), kind);
    forall e
      ensures multiset(Of(heard, kind))[e] == multiset(Of(Printed(events), kind))[e]
    {
    }
  }

  lemma {:induction false} OfBag(events: seq<Event>, kind: Kind)
    ensures forall e :: multiset(Of(events, kind))[e] == if e.kind == kind then multiset(events)[e] else 0
  {
    if events != [] {
      OfBag(events[..|events| - 1], kind);
      assert events == events[..|events| - 1] + [events[|events| - 1]];
    }
  }

  lemma {:induction false} OfPrinted(events: seq<Event>, kind: Kind)
    ensures Of(Printed(events), kind) == Printed(Of(events, kind))
  {
    if events != [] {
      var n := |events| - 1;
      OfPrinted(events[..n], kind);
      assert Printed(events)[..n] == Printed(events[..n]);
    }
  }

  lemma {:induction false} PeopleHeard(events: seq<Event>, heard: seq<Event>, item: string)
    requires Heard(events, heard)
    ensures People(events, item) == People(heard, item)
  {
    forall p | p in People(events, item)
      ensures p in People(heard, item)
    {
      var i :| 0 <= i < |events| && events[i].item == item && events[i].person == p;
      HeardMember(events, heard, events[i]);
      var k :| 0 <= k < |heard| && heard[k] == Later(events[i]);
    }
    forall p | p in People(heard, item)
      ensures p in People(events, item)
    {
      var k :| 0 <= k < |heard| && heard[k].item == item && heard[k].person == p;
      HeardSource(events, heard, heard[k]);
      var i :| 0 <= i < |events| && events[i] == heard[k].(day := heard[k].day - 1);
    }
  }

  lemma {:induction false} UnitsPrinted(events: seq<Event>, item: string)
    ensures Sum(Units(item), Printed(events)) == Sum(Units(item), events)
  {
    if events != [] {
      var n := |events| - 1;
      UnitsPrinted(events[..n], item);
      assert Printed(events)[..n] == Printed(events[..n]);
    }
  }

  /** `first` gives each buyer of the item the earliest day of such a purchase. */
  ghost predicate AreFirst(buys: seq<Event>, item: string, first: map<nat, int>) {
    && (forall i :: 0 <= i < |buys| && buys[i].item == item ==>
      buys[i].person in first && first[buys[i].person] <= buys[i].day)
    && (forall p :: p in first ==>
      exists i :: 0 <= i < |buys| && buys[i].item == item && buys[i].person == p && buys[i].day == first[p])
  }

  lemma {:induction false} FirstBuysAreFirst(buys: seq<Event>, item: string, never: int)
    requires forall i :: 0 <= i < |buys| && buys[i].item == item ==> buys[i].day <= never
    ensures AreFirst(buys, item, FirstBuys(buys, item, never))
  {
    if buys != [] {
      var n := |buys| - 1;
      FirstBuysAreFirst(buys[..n], item, never);
      var before, first := FirstBuys(buys[..n], item, never), FirstBuys(buys, item, never);
      forall p | p in first
        ensures exists i :: 0 <= i < |buys| && buys[i].item == item && buys[i].person == p && buys[i].day == first[p]
      {
        if p in before && first[p] == before[p] {
          var i :| 0 <= i < n && buys[..n][i].item == item && buys[..n][i].person == p && buys[..n][i].day == before[p];
          assert buys[i].day == first[p];
        } else {
          assert buys[n].person == p;
        }
      }
      forall i | 0 <= i < |buys| && buys[i].item == item
        ensures buys[i].person in first && first[buys[i].person] <= buys[i].day
      {
        if i < n {
          assert buys[..n][i].item == item;
        }
      }
    }
  }

  lemma {:induction false} FirstHeard(
      buys: seq<Event>, heard: seq<Event>, item: string, first: map<nat, int>, later: map<nat, int>)
    requires Heard(buys, heard) && AreFirst(buys, item, first) && AreFirst(heard, item, later)
    ensures later.Keys == first.Keys && forall p :: p in first ==> later[p] == first[p] + 1
  {
    forall p | p in first
      ensures p in later && later[p] <= first[p] + 1
    {
      var i :| 0 <= i < |buys| && buys[i].item == item && buys[i].person == p && buys[i].day == first[p];
      HeardMember(buys, heard, buys[i]);
      var k :| 0 <= k < |heard| && heard[k] == Later(buys[i]);
    }
    forall p | p in later
      ensures p in first && first[p] + 1 <= later[p]
    {
      var k :| 0 <= k < |heard| && heard[k].item == item && heard[k].person == p && heard[k].day == later[p];
      HeardSource(buys, heard, heard[k]);
      var i :| 0 <= i < |buys| && buys[i] == heard[k].(day := heard[k].day - 1);
    }
  }

  lemma {:induction false} ReturnersHeard(
      refunds: seq<Event>, heard: seq<Event>, item: string, first: map<nat, int>, later: map<nat, int>)
    requires Heard(refunds, heard) && later.Keys == first.Keys && forall p :: p in first ==> later[p] == first[p] + 1
    ensures LaterReturners(refunds, item, first) == LaterReturners(heard, item, later)
  {
    forall p | p in LaterReturners(refunds, item, first)
      ensures p in LaterReturners(heard, item, later)
    {
      var i :| 0 <= i < |refunds| && refunds[i].item == item && refunds[i].person == p && p in first
        && refunds[i].day > first[p];
      HeardMember(refunds, heard, refunds[i]);
      var k :| 0 <= k < |heard| && heard[k] == Later(refunds[i]);
    }
    forall p | p in LaterReturners(heard, item, later)
      ensures p in LaterReturners(refunds, item, first)
    {
      var k :| 0 <= k < |heard| && heard[k].item == item && heard[k].person == p && p in later
        && heard[k].day > later[p];
      HeardSource(refunds, heard, heard[k]);
      var i :| 0 <= i < |refunds| && refunds[i] == heard[k].(day := heard[k].day - 1);
    }
  }

  lemma {:induction false} EarliestIsLeast(events: seq<Event>)
    requires events != []
    ensures forall e :: e in events ==> Earliest(events) <= e.day
    ensures exists e :: e in events && e.day == Earliest(events)
  {
    var n := |events| - 1;
    assert events == events[..n] + [events[n]];
    if n == 0 {
      assert events[0] in events;
    } else {
      EarliestIsLeast(events[..n]);
      if Earliest(events) == events[n].day {
        assert events[n] in events;
      } else {
        var e :| e in events[..n] && e.day == Earliest(events[..n]);
        assert e in events;
      }
    }
  }

  /** The two answers agree on every question but the day of a purchase, whatever order the events are heard in. */
  lemma {:induction false} AnswersAgree(q: Question, events: seq<Event>, heard: seq<Event>)
    requires Heard(events, heard) && !q.LookupDay?
    requires forall i :: 0 <= i < |events| ==> 0 <= events[i].day < 60
    ensures AnswerOf(q, events) == Some(AggregateOf(q, heard))
  {
    var buys, refunds, heardBuys, heardRefunds :=
      Of(events, Buy), Of(events, Return), Of(heard, Buy), Of(heard, Return);
    OfHeard(events, heard, Buy);
    OfHeard(events, heard, Return);
    PeopleHeard(buys, heardBuys, q.a);
    match q
    case CountBuyers(a) =>
    case BothItems(a, b) => PeopleHeard(buys, heardBuys, b);
    case NetUnits(a) =>
      NetHeard(buys, heardBuys, a);
      NetHeard(refunds, heardRefunds, a);
    case BoughtThenReturned(a) =>
      DaysWithin(events, heard);
      LaterReturnersHeard(buys, heardBuys, refunds, heardRefunds, a);
  }

  lemma {:induction false} LaterReturnersHeard(
      buys: seq<Event>, heardBuys: seq<Event>, refunds: seq<Event>, heardRefunds: seq<Event>, a: string)
    requires Heard(buys, heardBuys) && Heard(refunds, heardRefunds)
    requires forall i :: 0 <= i < |buys| ==> buys[i].day <= 99
    requires forall i :: 0 <= i < |heardBuys| ==> heardBuys[i].day <= 1000000000
    ensures LaterReturners(refunds, a, FirstBuys(buys, a, 99)) ==
      LaterReturners(heardRefunds, a, FirstBuys(heardBuys, a, 1000000000))
  {
    var first, later := FirstBuys(buys, a, 99), FirstBuys(heardBuys, a, 1000000000);
    FirstBuysAreFirst(buys, a, 99);
    FirstBuysAreFirst(heardBuys, a, 1000000000);
    FirstHeard(buys, heardBuys, a, first, later);
    ReturnersHeard(refunds, heardRefunds, a, first, later);
  }

  lemma {:induction false} NetHeard(buys: seq<Event>, heardBuys: seq<Event>, a: string)
    requires Heard(buys, heardBuys)
    ensures Sum(Units(a), heardBuys) == Sum(Units(a), buys)
  {
    UnitsPrinted(buys, a);
    SumPermutation(Units(a), heardBuys, Printed(buys));
  }

  lemma {:induction false} DaysWithin(events: seq<Event>, heard: seq<Event>)
    requires Heard(events, heard) && forall i :: 0 <= i < |events| ==> 0 <= events[i].day < 60
    ensures forall i :: 0 <= i < |Of(events, Buy)| ==> Of(events, Buy)[i].day <= 99
    ensures forall i :: 0 <= i < |Of(heard, Buy)| ==> Of(heard, Buy)[i].day <= 1000000000
  {
    forall i | 0 <= i < |Of(events, Buy)|
      ensures Of(events, Buy)[i].day <= 99
    {
      OfMembers(events, Buy, Of(events, Buy)[i]);
    }
    forall i | 0 <= i < |Of(heard, Buy)|
      ensures Of(heard, Buy)[i].day <= 1000000000
    {
      OfMembers(heard, Buy, Of(heard, Buy)[i]);
      HeardSource(events, heard, Of(heard, Buy)[i]);
    }
  }

  // ----- What the answers mean -----

  /** The people of whom some event tells that they bought, or returned, the item. */
  function Doers(events: seq<Event>, kind: Kind, item: string): set<nat> {
    set e | e in events && e.kind == kind && e.item == item :: e.person
  }

  /** The people who returned the item on a later day than one on which they bought it. */
  ghost function BackLater(events: seq<Event>, item: string): set<nat> {
    set e, h | e in events && e.kind == Buy && e.item == item
               && h in events && h.kind == Return && h.item == item && h.person == e.person && e.day < h.day
      :: e.person
  }

  /** The quantity of a purchase of the item, less that of a return. */
  function NetOf(item: string): Event -> int {
    (e: Event) =>
      if e.item == item && e.kind == Buy then e.qty else if e.item == item && e.kind == Return then -e.qty else 0
  }

  predicate BoughtBy(e: Event, item: string, person: nat) { e.kind == Buy && e.item == item && e.person == person }

  ghost predicate IsFirstHit(events: seq<Event>, k: int, item: string, person: nat) {
    && 0 <= k < |events| && BoughtBy(events[k], item, person)
    && forall i :: 0 <= i < k ==> !BoughtBy(events[i], item, person)
  }

  /** The generator's answers are the true ones, and the day it looks up is that of the first purchase listed. */
  lemma {:induction false} AnswersAreTrue(q: Question, events: seq<Event>)
    requires forall i :: 0 <= i < |events| ==> 0 <= events[i].day < 60
    ensures match q
      case CountBuyers(a) => AnswerOf(q, events) == Some(Number(|Doers(events, Buy, a)|))
      case BothItems(a, b) => AnswerOf(q, events) == Some(Names(Doers(events, Buy, a) * Doers(events, Buy, b)))
      case NetUnits(a) => AnswerOf(q, events) == Some(Number(Sum(NetOf(a), events)))
      case BoughtThenReturned(a) => AnswerOf(q, events) == Some(Names(BackLater(events, a)))
      case LookupDay(a, person) =>
        && (AnswerOf(q, events).None? <==> forall e :: e in events ==> !BoughtBy(e, a, person))
        && forall k :: IsFirstHit(events, k, a, person) ==> AnswerOf(q, events) == Some(Number(events[k].day + 1))
  {
    match q
    case CountBuyers(a) => PeopleAreDoers(events, Buy, a);
    case BothItems(a, b) =>
      PeopleAreDoers(events, Buy, a);
      PeopleAreDoers(events, Buy, b);
    case NetUnits(a) => NetIsSum(events, a);
    case LookupDay(a, person) => LookupIsTrue(events, a, person);
    case BoughtThenReturned(a) => ReturnersAreBackLater(events, a);
  }

  lemma {:induction false} LookupIsTrue(events: seq<Event>, a: string, person: nat)
    ensures var answer := AnswerOf(LookupDay(a, person), events);
      && (answer.None? <==> forall e :: e in events ==> !BoughtBy(e, a, person))
      && forall k :: IsFirstHit(events, k, a, person) ==> answer == Some(Number(events[k].day + 1))
  {
    FirstHit(events, a, person);
    if By(Of(events, Buy), a, person) != [] {
      var l :| IsFirstHit(events, l, a, person) && By(Of(events, Buy), a, person)[0] == events[l];
      assert events[l] in events;
      assert forall k :: IsFirstHit(events, k, a, person) ==> k == l;
    }
  }

  lemma {:induction false} PeopleAreDoers(events: seq<Event>, kind: Kind, item: string)
    ensures People(Of(events, kind), item) == Doers(events, kind, item)
  {
    var chosen := Of(events, kind);
    forall e
      ensures e in chosen <==> e in events && e.kind == kind
    {
      OfMembers(events, kind, e);
    }
    forall p | p in Doers(events, kind, item)
      ensures p in People(chosen, item)
    {
      var e :| e in events && e.kind == kind && e.item == item && e.person == p;
      var i :| 0 <= i < |chosen| && chosen[i] == e;
    }
    forall p | p in People(chosen, item)
      ensures p in Doers(events, kind, item)
    {
      var i :| 0 <= i < |chosen| && chosen[i].item == item && chosen[i].person == p;
      assert chosen[i] in chosen;
    }
  }

  lemma {:induction false} NetIsSum(events: seq<Event>, item: string)
    ensures Sum(Units(item), Of(events, Buy)) - Sum(Units(item), Of(events, Return)) == Sum(NetOf(item), events)
  {
    if events != [] {
      var n := |events| - 1;
      NetIsSum(events[..n], item);
      UnitsSnoc(events, Buy, item);
      UnitsSnoc(events, Return, item);
    }
  }

  lemma {:induction false} UnitsSnoc(events: seq<Event>, kind: Kind, item: string)
    requires events != []
    ensures var n := |events| - 1;
      Sum(Units(item), Of(events, kind)) == Sum(Units(item), Of(events[..n], kind))
        + if events[n].kind == kind && events[n].item == item then events[n].qty else 0
  {
    var n := |events| - 1;
    if events[n].kind == kind {
      SumAppend(Units(item), Of(events[..n], kind), events[n]);
    } else {
      assert Of(events, kind) == Of(events[..n], kind);
    }
  }

  /** The first hit is the first such purchase among all the events. */
  lemma {:induction false} FirstHit(events: seq<Event>, item: string, person: nat)
    ensures var hits := By(Of(events, Buy), item, person);
      && (hits == [] ==> forall e :: e in events ==> !BoughtBy(e, item, person))
      && (hits != [] ==> exists k :: IsFirstHit(events, k, item, person) && hits[0] == events[k])
  {
    if events != [] {
      var n := |events| - 1;
      FirstHit(events[..n], item, person);
      assert events[..n + 1] == events == events[..n] + [events[n]];
      OneMoreHit(events, item, person, n);
      if By(Of(events[..n], Buy), item, person) == [] {
        assert forall i :: 0 <= i < n ==> events[i] in events[..n];
        assert BoughtBy(events[n], item, person) ==> IsFirstHit(events, n, item, person);
      } else {
        var k :| IsFirstHit(events[..n], k, item, person) && By(Of(events[..n], Buy), item, person)[0] == events[k];
        assert IsFirstHit(events, k, item, person);
      }
    }
  }

  lemma {:induction false} OneMoreHit(events: seq<Event>, item: string, person: nat, n: nat)
    requires n < |events|
    ensures By(Of(events[..n + 1], Buy), item, person)
         == By(Of(events[..n], Buy), item, person) + if BoughtBy(events[n], item, person) then [events[n]] else []
  {
    assert events[..n + 1][..n] == events[..n];
    var buys := Of(events[..n], Buy);
    if events[n].kind == Buy {
      assert Of(events[..n + 1], Buy) == buys + [events[n]];
      assert (buys + [events[n]])[..|buys|] == buys;
    } else {
      assert Of(events[..n + 1], Buy) == buys;
    }
  }

  lemma {:induction false} ReturnersAreBackLater(events: seq<Event>, item: string)
    requires forall i :: 0 <= i < |events| ==> 0 <= events[i].day < 60
    ensures LaterReturners(Of(events, Return), item, FirstBuys(Of(events, Buy), item, 99)) == BackLater(events, item)
  {
    var buys, refunds, first := Of(events, Buy), Of(events, Return), FirstBuys(Of(events, Buy), item, 99);
    forall e
      ensures (e in buys <==> e in events && e.kind == Buy) && (e in refunds <==> e in events && e.kind == Return)
    {
      OfMembers(events, Buy, e);
      OfMembers(events, Return, e);
    }
    assert forall i :: 0 <= i < |buys| ==> buys[i] in events;
    FirstBuysAreFirst(buys, item, 99);
    BackLaterReturn(events, buys, refunds, item, first);
    ReturnersCameBack(events, buys, refunds, item, first);
  }

  lemma {:induction false} BackLaterReturn(
      events: seq<Event>, buys: seq<Event>, refunds: seq<Event>, item: string, first: map<nat, int>)
    requires forall e :: e in events && e.kind == Buy ==> e in buys
    requires forall e :: e in events && e.kind == Return ==> e in refunds
    requires AreFirst(buys, item, first)
    ensures BackLater(events, item) <= LaterReturners(refunds, item, first)
  {
    forall p | p in BackLater(events, item)
      ensures p in LaterReturners(refunds, item, first)
    {
      var e, h :| e in events && e.kind == Buy && e.item == item && e.person == p
                  && h in events && h.kind == Return && h.item == item && h.person == p && e.day < h.day;
      var i :| 0 <= i < |refunds| && refunds[i] == h;
      var k :| 0 <= k < |buys| && buys[k] == e;
    }
  }

  lemma {:induction false} ReturnersCameBack(
      events: seq<Event>, buys: seq<Event>, refunds: seq<Event>, item: string, first: map<nat, int>)
    requires forall e :: e in buys ==> e in events && e.kind == Buy
    requires forall e :: e in refunds ==> e in events && e.kind == Return
    requires AreFirst(buys, item, first)
    ensures LaterReturners(refunds, item, first) <= BackLater(events, item)
  {
    forall p | p in LaterReturners(refunds, item, first)
      ensures p in BackLater(events, item)
    {
      var i :| 0 <= i < |refunds| && refunds[i].item == item && refunds[i].person == p && p in first
               && refunds[i].day > first[p];
      var k :| 0 <= k < |buys| && buys[k].item == item && buys[k].person == p && buys[k].day == first[p];
      assert buys[k] in buys && refunds[i] in refunds;
    }
  }

  ghost predicate SameHits(hits: seq<Event>, found: seq<Event>) { forall e :: e in hits <==> Later(e) in found }

  lemma {:induction false} HitsHeard(buys: seq<Event>, heard: seq<Event>, item: string, person: nat)
    requires Heard(buys, heard)
    ensures SameHits(By(buys, item, person), By(heard, item, person))
  {
    forall e
      ensures e in By(buys, item, person) <==> Later(e) in By(heard, item, person)
    {
      HeardMember(buys, heard, e);
      ByMembers(buys, item, person, e);
      ByMembers(heard, item, person, Later(e));
    }
  }

  predicate FirstIsEarliest(hits: seq<Event>) { forall i :: 0 <= i < |hits| ==> hits[0].day <= hits[i].day }

  lemma {:induction false} LeastHeard(hits: seq<Event>, found: seq<Event>)
    requires SameHits(hits, found)
    ensures hits == [] <==> found == []
    ensures hits != [] ==> (Earliest(found) == hits[0].day + 1 <==> FirstIsEarliest(hits))
  {
    if found != [] {
      assert Later(found[0].(day := found[0].day - 1)) == found[0];
      EarliestIsLeast(found);
      var e :| e in found && e.day == Earliest(found);
      assert Later(e.(day := e.day - 1)) == e;
      var k :| 0 <= k < |hits| && hits[k] == e.(day := e.day - 1);
    }
    assert hits != [] ==> Later(hits[0]) in found;
    forall i | 0 <= i < |hits|
      ensures found != [] && Earliest(found) <= hits[i].day + 1
    {
      assert Later(hits[i]) in found;
    }
  }

  /**
   * On the day of a purchase the two agree exactly when the first such purchase in the generator's order is
   * also the earliest.
   */
  lemma {:induction false} LookupAgreesExactly(a: string, person: nat, events: seq<Event>, heard: seq<Event>)
    requires Heard(events, heard)
    ensures var hits := By(Of(events, Buy), a, person);
      var answer, found := AnswerOf(LookupDay(a, person), events), AggregateOf(LookupDay(a, person), heard);
      && (answer.None? <==> hits == []) && (found.Unknown? <==> hits == [])
      && (hits != [] ==> (answer == Some(found) <==> FirstIsEarliest(hits)))
  {
    var buys, heardBuys := Of(events, Buy), Of(heard, Buy);
    OfHeard(events, heard, Buy);
    var hits, found := By(buys, a, person), By(heardBuys, a, person);
    assert hits == [] <==> found == [] by {
      HitsHeard(buys, heardBuys, a, person);
      LeastHeard(hits, found);
    }
    assert hits != [] ==> (Earliest(found) == hits[0].day + 1 <==> FirstIsEarliest(hits)) by {
      HitsHeard(buys, heardBuys, a, person);
      LeastHeard(hits, found);
    }
    assert AnswerOf(LookupDay(a, person), events) == if hits == [] then None else Some(Number(hits[0].day + 1));
    assert AggregateOf(LookupDay(a, person), heard) == if found == [] then Unknown else Number(Earliest(found));
  }
}
