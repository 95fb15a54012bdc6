/** How the task generator builds a task's events, and what its repairs guarantee for the questions asked of them. */
module TaskEvents {
  import opened Common
  import opened EventAnswers

  datatype Type = CountOfBuyers | BothOfItems | NetOfUnits | ThenReturned | DayOfPurchase
                | TopBuyer | PurchaseSpan | BusiestDay | SameDayCross

  const DAYS := 60

  /** The generator's random draws; each stands for any value of its range. */
  datatype Draws = Draws(
    first: nat -> Event,                    // the events drawn first
    plant: nat -> Event,                    // purchases of the item asked about
    plantB: (nat, nat) -> Event,            // purchases of the second item, given the person of an earlier purchase
    asked: nat,                             // the person a lookup asks about
    other: nat -> nat,                      // someone else, for each event taken from that person
    lookup: Event,                          // that person's one purchase
    extraDay: int,                          // the day of an added unit
    cross: (nat, nat) -> Event,             // returns by someone other than the given buyer
    wait: nat -> int)                       // days between a purchase and its return

  predicate Fair(e: Event, people: set<nat>) { e.person in people && 1 <= e.qty <= 6 && 0 <= e.day < DAYS }

  ghost predicate FairDraws(d: Draws, people: set<nat>, a: string, b: string) {
    && (forall k {:trigger d.first(k)} :: Fair(d.first(k), people))
    && (forall k {:trigger d.plant(k)} :: Fair(d.plant(k), people) && d.plant(k).kind == Buy && d.plant(k).item == a)
    && (forall k, p {:trigger d.plantB(k, p)} :: p in people ==>
      Fair(d.plantB(k, p), people) && d.plantB(k, p).kind == Buy && d.plantB(k, p).item == b)
    && d.asked in people
    && (forall k {:trigger d.other(k)} :: d.other(k) in people && d.other(k) != d.asked)
    && Fair(d.lookup, people) && d.lookup.kind == Buy && d.lookup.item == a && d.lookup.person == d.asked
    && 0 <= d.extraDay < DAYS
    && (forall k, p {:trigger d.cross(k, p)} ::
      Fair(d.cross(k, p), people) && d.cross(k, p).person != p && Returned(d.cross(k, p), a) && d.cross(k, p).qty <= 3)
    && (forall k {:trigger d.wait(k)} :: 1 <= d.wait(k) <= 9)
  }

  ghost predicate AllFair(events: seq<Event>, people: set<nat>) {
    forall i :: 0 <= i < |events| ==> Fair(events[i], people)
  }

  predicate Sale(e: Event, a: string) { e.kind == Buy && e.item == a }

  predicate Returned(e: Event, a: string) { e.kind == Return && e.item == a }

  function Buyers(events: seq<Event>, a: string): set<nat> {
    set i | 0 <= i < |events| && Sale(events[i], a) :: events[i].person
  }

  function Bought(a: string, p: nat): Event -> int {
    (e: Event) => if Sale(e, a) && e.person == p then e.qty else 0
  }

  function Total(events: seq<Event>, a: string, p: nat): int { Sum(Bought(a, p), events) }

  /** The alphabetically first of the people who bought the most. */
  ghost predicate FirstLeader(events: seq<Event>, a: string, w: nat) {
    && w in Buyers(events, a)
    && forall p :: p in Buyers(events, a) ==>
      Total(events, a, p) < Total(events, a, w) || (Total(events, a, p) == Total(events, a, w) && w <= p)
  }

  ghost predicate SoleLeader(events: seq<Event>, a: string, w: nat) {
    w in Buyers(events, a) && forall p :: p in Buyers(events, a) && p != w ==> Total(events, a, p) < Total(events, a, w)
  }

  // ----- The lookup repair -----

  /** Takes every sale of the item away from the person asked about and gives them one, the first. */
  method PlantLookup(events: seq<Event>, a: string, asked: nat, other: nat -> nat, lookup: Event)
    returns (out: seq<Event>)
    requires events != [] && Sale(lookup, a) && lookup.person == asked
    requires forall k {:trigger other(k)} :: other(k) != asked
    ensures |out| == |events| && out[0] == lookup
    ensures forall i :: 0 < i < |out| ==>
      out[i] == if Sale(events[i], a) && events[i].person == asked then events[i].(person := other(i)) else events[i]
    ensures By(Of(out, Buy), a, asked) == [lookup]
  {
    out := events;
    for k := 0 to |events|
      invariant |out| == |events|
      invariant forall i :: k <= i < |out| ==> out[i] == events[i]
      invariant forall i :: 0 <= i < k ==>
        out[i] == if Sale(events[i], a) && events[i].person == asked then events[i].(person := other(i)) else events[i]
    {
      if out[k].item == a && out[k].person == asked && out[k].kind == Buy {
        out := out[k := Event(Buy, other(k), a, out[k].qty, out[k].day)];
      }
    }
    out := out[0 := lookup];
    OnlySale(out, a, asked, |out|);
    assert out[..|out|] == out;
  }

  lemma {:induction false} OnlySale(events: seq<Event>, a: string, p: nat, n: nat)
    requires 0 < n <= |events| && Sale(events[0], a) && events[0].person == p
    requires forall i :: 0 < i < |events| ==> !(Sale(events[i], a) && events[i].person == p)
    ensures By(Of(events[..n], Buy), a, p) == [events[0]]
  {
    OneMoreHit(events, a, p, n - 1);
    if n > 1 {
      OnlySale(events, a, p, n - 1);
    }
  }

  // ----- The tie-breaking repair -----

  function Totals(events: seq<Event>, a: string): map<nat, int> {
    if events == [] then map[]
    else
      var e, before := events[|events| - 1], Totals(events[..|events| - 1], a);
      if Sale(e, a) then before[e.person := (if e.person in before then before[e.person] else 0) + e.qty] else before
  }

  lemma {:induction false} TotalsMean(events: seq<Event>, a: string)
    ensures Totals(events, a).Keys == Buyers(events, a)
    ensures forall p :: Total(events, a, p) == if p in Totals(events, a) then Totals(events, a)[p] else 0
  {
    if events != [] {
      var n := |events| - 1;
      TotalsMean(events[..n], a);
      BuyersSnoc(events, a);
    }
  }

  lemma {:induction false} BuyersSnoc(events: seq<Event>, a: string)
    requires events != []
    ensures var n := |events| - 1;
      Buyers(events, a) == Buyers(events[..n], a) + if Sale(events[n], a) then {events[n].person} else {}
  {
    var n := |events| - 1;
    forall p | p in Buyers(events[..n], a)
      ensures p in Buyers(events, a)
    {
      var i :| 0 <= i < n && Sale(events[..n][i], a) && events[..n][i].person == p;
      assert Sale(events[i], a);
    }
    forall p | p in Buyers(events, a) && !(Sale(events[n], a) && events[n].person == p)
      ensures p in Buyers(events[..n], a)
    {
      var i :| 0 <= i < |events| && Sale(events[i], a) && events[i].person == p;
      assert Sale(events[..n][i], a);
    }
  }

  method FillTotals(events: seq<Event>, a: string) returns (totals: map<nat, int>)
    ensures totals == Totals(events, a)
  {
    totals := map[];
    for i := 0 to |events|
      invariant totals == Totals(events[..i], a)
    {
      assert events[..i + 1][..i] == events[..i];
      var e := events[i];
      if e.kind == Buy && e.item == a {
        totals := totals[e.person := (if e.person in totals then totals[e.person] else 0) + e.qty];
      }
    }
    assert events[..|events|] == events;
  }

  /** The leaders of a table: its highest total, the first of those who have it, and whether others have it too. */
  method Leaders(totals: map<nat, int>) returns (leader: nat, tied: bool)
    requires totals != map[]
    ensures leader in totals
    ensures forall p :: p in totals ==>
      totals[p] < totals[leader] || (totals[p] == totals[leader] && leader <= p)
    ensures tied <==> exists p :: p in totals && p != leader && totals[p] == totals[leader]
  {
    var left := totals.Keys;
    leader :| leader in left;
    left := left - {leader};
    tied := false;
    while left != {}
      invariant leader in totals && leader !in left && left <= totals.Keys
      invariant forall p :: p in totals && p !in left ==>
        totals[p] < totals[leader] || (totals[p] == totals[leader] && leader <= p)
      invariant tied <==> exists p :: p in totals && p !in left && p != leader && totals[p] == totals[leader]
      decreases left
    {
      var p :| p in left;
      left := left - {p};
      if totals[p] > totals[leader] {
        leader, tied := p, false;
      } else if totals[p] == totals[leader] {
        tied := true;
        if p < leader {
          leader := p;
        }
      }
    }
  }

  lemma {:induction false} LeaderIsUnique(events: seq<Event>, a: string, v: nat, w: nat)
    requires FirstLeader(events, a, v) && FirstLeader(events, a, w)
    ensures v == w
  {
  }

  /** One unit more leaves the first leader alone at the top. */
  lemma {:induction false} OneUnitDecides(events: seq<Event>, a: string, leader: nat, out: seq<Event>)
    requires FirstLeader(events, a, leader) && Buyers(out, a) == Buyers(events, a)
    requires forall p :: Total(out, a, p) == Total(events, a, p) + if p == leader then 1 else 0
    ensures SoleLeader(out, a, leader)
  {
  }

  lemma {:induction false} LeaderOfTotals(events: seq<Event>, a: string, totals: map<nat, int>, leader: nat, tied: bool)
    requires totals == Totals(events, a) && leader in totals
    requires forall p :: p in totals ==> totals[p] < totals[leader] || (totals[p] == totals[leader] && leader <= p)
    requires tied <==> exists p :: p in totals && p != leader && totals[p] == totals[leader]
    ensures FirstLeader(events, a, leader) && (!tied ==> SoleLeader(events, a, leader))
  {
    TotalsMean(events, a);
  }

  method FirstSale(events: seq<Event>, a: string, p: nat) returns (k: nat)
    requires p in Buyers(events, a)
    ensures k < |events| && Sale(events[k], a) && events[k].person == p
    ensures forall i :: 0 <= i < k ==> !(Sale(events[i], a) && events[i].person == p)
  {
    k := 0;
    while !(Sale(events[k], a) && events[k].person == p)
      invariant 0 <= k < |events|
      invariant forall i :: 0 <= i < k ==> !(Sale(events[i], a) && events[i].person == p)
      decreases |events| - k
    {
      k := k + 1;
    }
  }

  /** When several people share the top total, gives the first of them one unit more. */
  method BreakTie(events: seq<Event>, a: string, people: set<nat>, extraDay: int) returns (out: seq<Event>, leader: nat)
    requires Buyers(events, a) != {} && AllFair(events, people) && 0 <= extraDay < DAYS
    ensures |events| <= |out| <= |events| + 1 && AllFair(out, people)
    ensures forall w :: FirstLeader(events, a, w) <==> w == leader
    ensures SoleLeader(out, a, leader)
  {
    TotalsMean(events, a);
    var totals := FillTotals(events, a);
    var tied;
    leader, tied := Leaders(totals);
    LeaderOfTotals(events, a, totals, leader, tied);
    forall w | FirstLeader(events, a, w)
      ensures w == leader
    {
      LeaderIsUnique(events, a, w, leader);
    }
    out := events;
    if tied {
      out := AddUnit(events, a, people, leader, extraDay);
    }
  }

  method AddUnit(events: seq<Event>, a: string, people: set<nat>, leader: nat, extraDay: int) returns (out: seq<Event>)
    requires FirstLeader(events, a, leader) && AllFair(events, people) && 0 <= extraDay < DAYS
    ensures |events| <= |out| <= |events| + 1 && AllFair(out, people) && SoleLeader(out, a, leader)
  {
    var k := FirstSale(events, a, leader);
    if events[k].qty < 6 {
      out := events[k := Event(Buy, leader, a, events[k].qty + 1, events[k].day)];
      OneUnitMore(events, a, leader, k, out);
    } else {
      out := events + [Event(Buy, leader, a, 1, extraDay)];
      OneUnitAdded(events, a, leader, extraDay, out);
      assert leader in people by {
        assert events[k].person in people;
      }
    }
    OneUnitDecides(events, a, leader, out);
  }

  lemma {:induction false} OneUnitMore(events: seq<Event>, a: string, leader: nat, k: nat, out: seq<Event>)
    requires k < |events| && Sale(events[k], a) && events[k].person == leader
    requires out == events[k := events[k].(qty := events[k].qty + 1)]
    ensures Buyers(out, a) == Buyers(events, a)
    ensures forall p :: Total(out, a, p) == Total(events, a, p) + if p == leader then 1 else 0
  {
    forall p
      ensures Total(out, a, p) == Total(events, a, p) + if p == leader then 1 else 0
    {
      SumUpdate(Bought(a, p), events, k, out[k]);
    }
    forall p
      ensures p in Buyers(out, a) <==> p in Buyers(events, a)
    {
      if p in Buyers(events, a) {
        var i :| 0 <= i < |events| && Sale(events[i], a) && events[i].person == p;
        assert Sale(out[i], a) && out[i].person == p;
      }
      if p in Buyers(out, a) {
        var i :| 0 <= i < |out| && Sale(out[i], a) && out[i].person == p;
        assert Sale(events[i], a) && events[i].person == p;
      }
    }
  }

  lemma {:induction false} OneUnitAdded(events: seq<Event>, a: string, leader: nat, day: int, out: seq<Event>)
    requires leader in Buyers(events, a) && out == events + [Event(Buy, leader, a, 1, day)]
    ensures Buyers(out, a) == Buyers(events, a)
    ensures forall p :: Total(out, a, p) == Total(events, a, p) + if p == leader then 1 else 0
  {
    assert out[..|events|] == events;
    BuyersSnoc(out, a);
  }

  // ----- The whole generator -----

  /** The first three events, as far as there are so many, are purchases of the item. */
  predicate StartsWithSales(events: seq<Event>, a: string) {
    forall i :: 0 <= i < 3 && i < |events| ==> Sale(events[i], a)
  }

  /** A return of the item by someone else on the day of a purchase. */
  predicate OnSameDay(buyer: Event, e: Event, a: string) {
    Sale(buyer, a) && Returned(e, a) && e.day == buyer.day && e.person != buyer.person
  }

  /** A return by the buyer on a later day, or on the last day when the purchase was made on it. */
  predicate LaterReturn(buyer: Event, e: Event, a: string) {
    && Sale(buyer, a) && Returned(e, a) && e.person == buyer.person && e.qty == 1
    && (e.day > buyer.day || e.day == buyer.day == DAYS - 1)
  }

  /** What each repair guarantees about the events it leaves. */
  ghost predicate Repaired(t: Type, events: seq<Event>, a: string, b: string, asked: nat) {
    && (t.BothOfItems? && |events| > 3 ==> exists e :: e in events && Sale(e, b))
    && (t.DayOfPurchase? ==> |By(Of(events, Buy), a, asked)| == 1)
    && (t.TopBuyer? ==> exists w :: SoleLeader(events, a, w))
    && (t.SameDayCross? && |events| > 3 ==> exists buyer, e :: buyer in events && e in events && OnSameDay(buyer, e, a))
    && (t.ThenReturned? && |events| > 6 ==>
      exists buyer, e :: buyer in events && e in events && LaterReturn(buyer, e, a))
  }

  /** The draws, with the first events made purchases of the items asked about. */
  method Drawn(t: Type, n: nat, people: set<nat>, a: string, b: string, d: Draws) returns (events: seq<Event>)
    requires FairDraws(d, people, a, b)
    ensures |events| == n && AllFair(events, people) && StartsWithSales(events, a)
    ensures t.BothOfItems? ==> forall i :: 3 <= i < 6 && i < n ==> Sale(events[i], b)
  {
    events := [];
    for k := 0 to n
      invariant |events| == k && AllFair(events, people)
    {
      events := events + [d.first(k)];
    }
    for k := 0 to if n < 3 then n else 3
      invariant |events| == n && AllFair(events, people) && forall i :: 0 <= i < k ==> Sale(events[i], a)
    {
      events := events[k := d.plant(k)];
    }
    if t.BothOfItems? && n > 3 {
      for k := 3 to if n < 6 then n else 6
        invariant |events| == n && AllFair(events, people) && StartsWithSales(events, a)
        invariant forall i :: 3 <= i < k ==> Sale(events[i], b)
      {
        events := events[k := d.plantB(k, events[k - 3].person)];
      }
    }
  }

  /** Returns planted on the purchases that start the list; every other event stays. */
  method PlantReturns(t: Type, drawn: seq<Event>, people: set<nat>, a: string, b: string, d: Draws)
    returns (events: seq<Event>)
    requires FairDraws(d, people, a, b) && AllFair(drawn, people) && StartsWithSales(drawn, a)
    ensures |events| == |drawn| && AllFair(events, people) && StartsWithSales(events, a)
    ensures t.SameDayCross? ==> forall k :: 3 <= k < 5 && k < |events| ==>
      OnSameDay(events[k - 3], events[k], a) && events[k].qty <= 3
    ensures t.ThenReturned? ==> forall k :: 6 <= k < 9 && k < |events| ==> LaterReturn(events[k - 6], events[k], a)
    ensures forall k :: 0 <= k < |events| && !(t.SameDayCross? && 3 <= k < 5) && !(t.ThenReturned? && 6 <= k < 9) ==>
      events[k] == drawn[k]
  {
    events := drawn;
    var n := |events|;
    if t.SameDayCross? && n > 3 {
      for k := 3 to if n < 5 then n else 5
        invariant |events| == n && AllFair(events, people) && StartsWithSales(events, a)
        invariant forall i :: 3 <= i < k ==> OnSameDay(events[i - 3], events[i], a) && events[i].qty <= 3
        invariant forall i :: 0 <= i < n && !(3 <= i < k) ==> events[i] == drawn[i]
      {
        var buyer := events[k - 3];
        events := events[k := d.cross(k, buyer.person).(day := buyer.day)];
      }
    }
    if t.ThenReturned? && n > 6 {
      for k := 6 to if n < 9 then n else 9
        invariant |events| == n && AllFair(events, people) && StartsWithSales(events, a)
        invariant forall i :: 6 <= i < k ==> LaterReturn(events[i - 6], events[i], a)
        invariant forall i :: 0 <= i < n && !(6 <= i < k) ==> events[i] == drawn[i]
      {
        var buyer := events[k - 6];
        events := events[k := Event(Return, buyer.person, a, 1, Min(DAYS - 1, buyer.day + d.wait(k)))];
      }
    }
  }

  /** The events of a task before they are shuffled; None where the generator raises, on a repair of no events. */
  method MakeEvents(t: Type, n: nat, people: set<nat>, a: string, b: string, d: Draws) returns (r: Option<seq<Event>>)
    requires FairDraws(d, people, a, b)
    ensures r.None? <==> n == 0 && (t.DayOfPurchase? || t.TopBuyer?)
    ensures r.Some? ==> AllFair(r.value, people) && n <= |r.value| <= n + 1 && (|r.value| == n + 1 ==> t.TopBuyer?)
    ensures r.Some? ==> Repaired(t, r.value, a, b, d.asked)
    ensures r.Some? && n > 0 ==> Buyers(r.value, a) != {}
  {
    var events := Drawn(t, n, people, a, b, d);
    if n == 0 {
      return if t.DayOfPurchase? || t.TopBuyer? then None else Some(events);
    }
    assert events[0].person in Buyers(events, a);
    if t.DayOfPurchase? {
      ghost var before := events;
      events := PlantLookup(events, a, d.asked, d.other, d.lookup);
      assert AllFair(events, people) by {
        forall i | 0 < i < |events|
          ensures Fair(events[i], people)
        {
          assert Fair(before[i], people) && d.other(i) in people;
        }
      }
      assert events[0].person in Buyers(events, a);
    } else if t.TopBuyer? {
      var leader;
      events, leader := BreakTie(events, a, people, d.extraDay);
    } else {
      events := PlantReturns(t, events, people, a, b, d);
      assert events[0].person in Buyers(events, a);
      if t.BothOfItems? && n > 3 {
        assert Sale(events[3], b);
      }
      if t.SameDayCross? && n > 3 {
        assert OnSameDay(events[0], events[3], a);
      }
      if t.ThenReturned? && n > 6 {
        assert LaterReturn(events[0], events[6], a);
      }
    }
    r := Some(events);
  }

  // ----- After the shuffle -----

  lemma {:induction false} ByCount(events: seq<Event>, a: string, p: nat)
    ensures forall e :: multiset(By(events, a, p))[e] == if e.item == a && e.person == p then multiset(events)[e] else 0
  {
    if events != [] {
      var n := |events| - 1;
      ByCount(events[..n], a, p);
      assert events == events[..n] + [events[n]];
    }
  }

  lemma {:induction false} SameSize<T>(s: seq<T>, t: seq<T>)
    requires multiset(s) == multiset(t)
    ensures |s| == |t|
  {
    assert |multiset(s)| == |s|;
    assert |multiset(t)| == |t|;
  }

  lemma {:induction false} LookupSurvives(events: seq<Event>, shuffled: seq<Event>, a: string, asked: nat)
    requires multiset(shuffled) == multiset(events)
    ensures |By(Of(shuffled, Buy), a, asked)| == |By(Of(events, Buy), a, asked)|
  {
    OfShuffled(events, shuffled);
    ByShuffled(Of(events, Buy), Of(shuffled, Buy), a, asked);
    SameSize(By(Of(shuffled, Buy), a, asked), By(Of(events, Buy), a, asked));
  }

  lemma {:induction false} OfShuffled(events: seq<Event>, shuffled: seq<Event>)
    requires multiset(shuffled) == multiset(events)
    ensures multiset(Of(shuffled, Buy)) == multiset(Of(events, Buy))
  {
    OfBag(events, Buy);
    OfBag(shuffled, Buy);
  }

  lemma {:induction false} ByShuffled(events: seq<Event>, shuffled: seq<Event>, a: string, p: nat)
    requires multiset(shuffled) == multiset(events)
    ensures multiset(By(shuffled, a, p)) == multiset(By(events, a, p))
  {
    ByCount(events, a, p);
    ByCount(shuffled, a, p);
  }

  /** The repairs hold in any order of the events. */
  lemma {:induction false} RepairsSurviveShuffling(
      t: Type, events: seq<Event>, shuffled: seq<Event>, a: string, b: string, asked: nat)
    requires Repaired(t, events, a, b, asked) && multiset(shuffled) == multiset(events)
    ensures Repaired(t, shuffled, a, b, asked)
  {
    if t.DayOfPurchase? {
      LookupSurvives(events, shuffled, a, asked);
    }
    if t.TopBuyer? {
      var w :| SoleLeader(events, a, w);
      LeaderSurvives(events, shuffled, a, w);
    }
    SameSize(events, shuffled);
    forall e | e in events
      ensures e in shuffled
    {
      assert e in multiset(shuffled);
    }
  }

  lemma {:induction false} LeaderSurvives(events: seq<Event>, shuffled: seq<Event>, a: string, w: nat)
    requires SoleLeader(events, a, w) && multiset(shuffled) == multiset(events)
    ensures SoleLeader(shuffled, a, w)
  {
    forall p
      ensures Total(shuffled, a, p) == Total(events, a, p)
    {
      SumPermutation(Bought(a, p), shuffled, events);
    }
    BuyersWithin(events, shuffled, a);
    BuyersWithin(shuffled, events, a);
  }

  lemma {:induction false} BuyersWithin(events: seq<Event>, shuffled: seq<Event>, a: string)
    requires multiset(shuffled) == multiset(events)
    ensures Buyers(events, a) <= Buyers(shuffled, a)
  {
    forall p | p in Buyers(events, a)
      ensures p in Buyers(shuffled, a)
    {
      var i :| 0 <= i < |events| && Sale(events[i], a) && events[i].person == p;
      assert events[i] in multiset(shuffled);
      var k :| 0 <= k < |shuffled| && shuffled[k] == events[i];
    }
  }

  /** On a generated lookup task the aggregator's answer is the generator's, whatever order the events are heard in. */
  lemma {:induction false} LookupTaskAgrees(
      events: seq<Event>, shuffled: seq<Event>, heard: seq<Event>, a: string, b: string, asked: nat)
    requires Repaired(DayOfPurchase, events, a, b, asked) && multiset(shuffled) == multiset(events)
    requires Heard(shuffled, heard)
    ensures AnswerOf(LookupDay(a, asked), shuffled) == Some(AggregateOf(LookupDay(a, asked), heard))
  {
    RepairsSurviveShuffling(DayOfPurchase, events, shuffled, a, b, asked);
    LookupAgreesExactly(a, asked, shuffled, heard);
  }
}
