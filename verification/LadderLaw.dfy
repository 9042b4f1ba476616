/** What the live five-level ladder shows after any run of updates, measured against the full book. */
module LadderLaw {
  import opened Ladder
  import opened BestLevels
  import opened OrderBook

  // ---- runs

  ghost function Run(us: seq<UpdateRecord>): Book {
    ApplyAll(EMPTY_BOOK, us)
  }

  /** What the feed owes the store: positive prices and quantities, and a NEW that fits. */
  ghost predicate Acceptable(b: Book, u: UpdateRecord) {
    u.New? ==> u.price > 0.0 && u.qty > 0 && Fits(SideOf(b, u.side), u.id, u.price, u.qty)
  }

  ghost predicate Lawful(us: seq<UpdateRecord>) {
    forall k :: 0 <= k < |us| ==> Acceptable(Run(us[..k]), us[k])
  }

  /** Every live price has a level. */
  ghost predicate AllShown(b: BookSide) {
    forall p :: Live(b.orders, p) ==> HasPrice(b.levels, p)
  }

  /** The update is a DELETE of the side's last order at a price that has a level. */
  ghost predicate TakesLevel(side: Side, b: Book, u: UpdateRecord) {
    var s := SideOf(b, side);
    && u.Delete? && u.id in s.orders && (side.Sell? ==> u.id !in b.buy.orders)
    && HasPrice(s.levels, s.orders[u.id].price)
    && !Live(s.orders - {u.id}, s.orders[u.id].price)
  }

  /** How many updates took a level since the ladder last showed every live price. */
  ghost function Removals(side: Side, us: seq<UpdateRecord>): nat {
    if us == [] then 0
    else
      var n := |us| - 1;
      if AllShown(SideOf(Run(us), side)) then 0
      else Removals(side, us[..n]) + if TakesLevel(side, Run(us[..n]), us[n]) then 1 else 0
  }

  /** The full-depth ladder of a side. */
  ghost function Aggregate(side: Side, orders: Orders): seq<Depth> {
    var ps := Arrange(side, LivePrices(orders));
    seq(|ps|, i requires 0 <= i < |ps| => Depth(ps[i], Total(orders, ps[i])))
  }

  // ---- what one update does to the missing prices

  lemma LevelsLive(side: Side, b: BookSide)
    requires Agree(side, b)
    ensures Prices(b.levels) <= LivePrices(b.orders)
    ensures forall p :: p in LivePrices(b.orders) <==> Live(b.orders, p)
  {
    forall i | 0 <= i < |b.levels|
      ensures b.levels[i].price in LivePrices(b.orders)
    {
      assert Live(b.orders, b.levels[i].price);
    }
  }

  /** Inserting a level never loosens the bound below four: what it pushes out is the worst level. */
  lemma InsertBeaten(side: Side, ls: seq<Depth>, ps: set<Price>, d: Depth, k: int)
    requires Sorted(side, ls) && |ls| <= 5 && Prices(ls) <= ps && Beaten(side, ls, ps, k) && k <= 4
    requires d.price > 0.0 && !HasPrice(ls, d.price)
    ensures Beaten(side, Place(side, Kept(ls), d), ps + {d.price}, k)
  {
    var kept := Kept(ls);
    var r := Place(side, kept, d);
    PlaceSorted(side, kept, d);
    forall p | p in ps + {d.price} && p !in Prices(r)
      ensures Beating(side, r, p) >= k
    {
      BeatingPlace(side, kept, d, p);
      if |ls| == 5 {
        BeatingSplit(side, ls[..4], ls[4..], p);
        assert ls[..4] + ls[4..] == ls;
        assert Without(ls, 4) == ls[..4];
        WithoutSorted(side, ls, 4);
        if p == ls[4].price || Better(side, ls[4].price, p) {
          AllBeating(side, ls[..4], p);
        }
      }
    }
  }

  lemma NewLive(b: BookSide, id: int, o: Order)
    requires id !in b.orders
    ensures LivePrices(b.orders[id := o]) == LivePrices(b.orders) + {o.price}
  {
    var orders := b.orders[id := o];
    forall p | p in LivePrices(b.orders) + {o.price}
      ensures p in LivePrices(orders)
    {
      if p in LivePrices(b.orders) {
        var k :| k in b.orders && b.orders[k].price == p;
        assert k in orders && orders[k].price == p;
      } else {
        assert orders[id].price == p;
      }
    }
  }

  lemma NewBeaten(side: Side, b: BookSide, id: int, p: Price, qty: int, k: int)
    requires Agree(side, b) && p > 0.0 && qty > 0 && Fits(b, id, p, qty)
    requires Beaten(side, b.levels, LivePrices(b.orders), k) && k <= 4
    ensures var b' := NewOrder(side, b, id, p, qty);
      Beaten(side, b'.levels, LivePrices(b'.orders), k) && |b'.levels| >= |b.levels|
  {
    var b' := NewOrder(side, b, id, p, qty);
    LevelsLive(side, b);
    if id !in b.orders { NewLive(b, id, Order(p, qty)); }
    if Live(b.orders, p) {
      assert LivePrices(b'.orders) == LivePrices(b.orders);
      SamePrices(side, b.levels, b'.levels, LivePrices(b.orders), k);
    } else {
      NotShown(side, b, p);
      InsertBeaten(side, b.levels, LivePrices(b.orders), Depth(p, Narrow(Total(b'.orders, p))), k);
      PlaceSorted(side, Kept(b.levels), Depth(p, Narrow(Total(b'.orders, p))));
    }
  }

  lemma DropBeaten(side: Side, b: BookSide, id: int, k: int)
    requires Agree(side, b) && Beaten(side, b.levels, LivePrices(b.orders), k)
    ensures var b' := DropOrder(b, id);
      && |b'.levels| <= |b.levels|
      && Beaten(side, b'.levels, LivePrices(b'.orders), if |b'.levels| < |b.levels| then k - 1 else k)
  {
    if id in b.orders {
      var b' := DropOrder(b, id);
      var p := b.orders[id].price;
      DropKeepsAgreement(side, b, id);
      LevelsLive(side, b);
      LevelsLive(side, b');
      forall q | q in LivePrices(b'.orders)
        ensures q in LivePrices(b.orders)
      {
        var j :| j in b'.orders && b'.orders[j].price == q;
        assert b.orders[j].price == q;
      }
      if HasPrice(b.levels, p) && !Live(b'.orders, p) {
        var i := IndexOf(b.levels, p);
        WithoutSorted(side, b.levels, i);
        forall q | q in LivePrices(b'.orders) && q !in Prices(b'.levels)
          ensures Beating(side, b'.levels, q) >= k - 1
        {
          BeatingWithout(side, b.levels, i, q);
        }
      } else {
        SamePrices(side, b.levels, b'.levels, LivePrices(b.orders), k);
      }
    }
  }

  // ---- the law, over every run

  lemma {:induction false} RunLaw(side: Side, us: seq<UpdateRecord>)
    requires Lawful(us)
    ensures var b := SideOf(Run(us), side);
      Agree(side, b) && Beaten(side, b.levels, LivePrices(b.orders), 4 - Removals(side, us))
    decreases |us|
  {
    if us == [] {
    } else {
      var n := |us| - 1;
      var u := us[n];
      forall k | 0 <= k < n
        ensures Acceptable(Run(us[..n][..k]), us[..n][k])
      {
        assert us[..n][..k] == us[..k];
      }
      RunLaw(side, us[..n]);
      var before := SideOf(Run(us[..n]), side);
      StepLaw(side, Run(us[..n]), u, 4 - Removals(side, us[..n]));
      var after := SideOf(Run(us), side);
      if AllShown(after) { LevelsLive(side, after); ShownBeaten(side, after); }
    }
  }

  lemma ShownBeaten(side: Side, b: BookSide)
    requires AllShown(b) && Agree(side, b)
    ensures forall k :: Beaten(side, b.levels, LivePrices(b.orders), k)
  {
    LevelsLive(side, b);
  }

  lemma StepLaw(side: Side, b: Book, u: UpdateRecord, k: int)
    requires Agree(side, SideOf(b, side)) && Acceptable(b, u) && k <= 4
    requires Beaten(side, SideOf(b, side).levels, LivePrices(SideOf(b, side).orders), k)
    ensures var s, s' := SideOf(b, side), SideOf(Apply(b, u), side);
      && Agree(side, s')
      && (|s'.levels| < |s.levels| <==> TakesLevel(side, b, u))
      && Beaten(side, s'.levels, LivePrices(s'.orders), if TakesLevel(side, b, u) then k - 1 else k)
  {
    var s, s' := SideOf(b, side), SideOf(Apply(b, u), side);
    match u
    case New(at, id, p, qty) =>
      if at == side {
        NewKeepsAgreement(side, s, id, p, qty);
        NewBeaten(side, s, id, p, qty, k);
      }
    case Delete(id) =>
      if id in s.orders && (side.Sell? ==> id !in b.buy.orders) {
        assert s' == DropOrder(s, id);
        DropKeepsAgreement(side, s, id);
        DropBeaten(side, s, id, k);
      }
    case Invalid =>
  }

  /**
   After any run, every level shows a live price with its full quantity, and the first 4 - d levels
   are the best 4 - d of the full book, d being the number of DELETEs that took the last order of a
   shown price since the ladder last showed every live price.
   */
  lemma LadderIsBest(side: Side, us: seq<UpdateRecord>, i: nat)
    requires Lawful(us)
    ensures var b := SideOf(Run(us), side);
      var full := Aggregate(side, b.orders);
      && Agree(side, b)
      && (i < 4 - Removals(side, us) ==> (i < |b.levels| <==> i < |full|))
      && (i < 4 - Removals(side, us) && i < |b.levels| ==> i < |full| && b.levels[i] == full[i])
  {
    RunLaw(side, us);
    var b := SideOf(Run(us), side);
    LevelsLive(side, b);
    if i < 4 - Removals(side, us) {
      FirstLevels(side, b.levels, LivePrices(b.orders), 4 - Removals(side, us), i);
    }
  }

  // ---- path independence

  ghost predicate AtMostFive(side: Side, us: seq<UpdateRecord>) {
    forall k :: 0 <= k <= |us| ==> |LivePrices(SideOf(Run(us[..k]), side).orders)| <= 5
  }

  lemma StepShown(side: Side, b: Book, u: UpdateRecord)
    requires Agree(side, SideOf(b, side)) && Acceptable(b, u) && AllShown(SideOf(b, side))
    requires |LivePrices(SideOf(Apply(b, u), side).orders)| <= 5
    ensures AllShown(SideOf(Apply(b, u), side))
  {
    var s, s' := SideOf(b, side), SideOf(Apply(b, u), side);
    match u
    case New(at, id, p, qty) =>
      if at == side { NewShown(side, s, id, p, qty); }
    case Delete(id) =>
      if s' != s { DropShown(side, s, id); }
    case Invalid =>
  }

  lemma ShownPrices(side: Side, s: BookSide)
    requires Agree(side, s)
    ensures AllShown(s) <==> Prices(s.levels) == LivePrices(s.orders)
    ensures |Prices(s.levels)| == |s.levels|
  {
    LevelsLive(side, s);
    PricesSize(side, s.levels);
    if Prices(s.levels) == LivePrices(s.orders) {
      forall p | Live(s.orders, p)
        ensures HasPrice(s.levels, p)
      {
        PricesHas(s.levels, p);
      }
    } else if AllShown(s) {
      forall p | p in LivePrices(s.orders)
        ensures p in Prices(s.levels)
      {
        PricesHas(s.levels, p);
      }
    }
  }

  lemma NewShown(side: Side, s: BookSide, id: int, p: Price, qty: int)
    requires Agree(side, s) && p > 0.0 && qty > 0 && Fits(s, id, p, qty) && AllShown(s)
    requires |LivePrices(NewOrder(side, s, id, p, qty).orders)| <= 5
    ensures AllShown(NewOrder(side, s, id, p, qty))
  {
    if Live(s.orders, p) {
      MoreShown(side, s, id, p, qty);
    } else {
      NewKeepsAgreement(side, s, id, p, qty);
      ShownPrices(side, s);
      NewLive(s, id, Order(p, qty));
      NewPriceShown(side, s, id, p, qty);
      ShownPrices(side, NewOrder(side, s, id, p, qty));
    }
  }

  lemma MoreShown(side: Side, s: BookSide, id: int, p: Price, qty: int)
    requires AllShown(s) && Live(s.orders, p)
    ensures AllShown(NewOrder(side, s, id, p, qty))
  {
    var s' := NewOrder(side, s, id, p, qty);
    forall q | Live(s'.orders, q)
      ensures HasPrice(s'.levels, q)
    {
      var k :| k in s'.orders && s'.orders[k].price == q;
      assert q != p ==> s.orders[k].price == q;
      var i := IndexOf(s.levels, q);
      assert s'.levels[i].price == q;
    }
  }

  lemma NewPriceShown(side: Side, s: BookSide, id: int, p: Price, qty: int)
    requires Agree(side, s) && p > 0.0 && !Live(s.orders, p) && Prices(s.levels) == LivePrices(s.orders)
    requires id !in s.orders && |LivePrices(s.orders) + {p}| <= 5
    ensures Prices(NewOrder(side, s, id, p, qty).levels) == LivePrices(s.orders) + {p}
  {
    NotShown(side, s, p);
    PricesHas(s.levels, p);
    PricesSize(side, s.levels);
    assert Kept(s.levels) == s.levels;
    PlaceSorted(side, s.levels, Depth(p, Narrow(Total(s.orders[id := Order(p, qty)], p))));
  }

  lemma DropShown(side: Side, s: BookSide, id: int)
    requires Agree(side, s) && AllShown(s)
    ensures AllShown(DropOrder(s, id))
  {
    if id in s.orders {
      var s' := DropOrder(s, id);
      var gone := s.orders[id].price;
      DropKeepsAgreement(side, s, id);
      forall p | Live(s'.orders, p)
        ensures HasPrice(s'.levels, p)
      {
        var k :| k in s'.orders && s'.orders[k].price == p;
        assert s.orders[k].price == p;
        var i := IndexOf(s.levels, p);
        if HasPrice(s.levels, gone) && !Live(s'.orders, gone) {
          WithoutSorted(side, s.levels, IndexOf(s.levels, gone));
          PricesHas(s.levels, p);
          PricesHas(s'.levels, p);
        } else {
          assert s'.levels[i].price == p;
        }
      }
    }
  }

  lemma {:induction false} RunShown(side: Side, us: seq<UpdateRecord>)
    requires Lawful(us) && AtMostFive(side, us)
    ensures AllShown(SideOf(Run(us), side))
    decreases |us|
  {
    if us != [] {
      var n := |us| - 1;
      forall k | 0 <= k <= n
        ensures us[..n][..k] == us[..k]
      {
      }
      assert Lawful(us[..n]) && AtMostFive(side, us[..n]);
      RunShown(side, us[..n]);
      RunLaw(side, us[..n]);
      assert us[..|us|] == us;
      StepShown(side, Run(us[..n]), us[n]);
    }
  }

  lemma ShownIsAggregate(side: Side, b: BookSide)
    requires Agree(side, b) && AllShown(b)
    ensures b.levels == Aggregate(side, b.orders)
  {
    var full := Aggregate(side, b.orders);
    var n := |b.levels| + |full| + 1;
    LevelsLive(side, b);
    ShownBeaten(side, b);
    FirstLevels(side, b.levels, LivePrices(b.orders), n, |b.levels|);
    FirstLevels(side, b.levels, LivePrices(b.orders), n, |full|);
    forall i: nat | i < |full|
      ensures b.levels[i] == full[i]
    {
      FirstLevels(side, b.levels, LivePrices(b.orders), n, i);
    }
  }

  /** A side that never has more than five live prices shows exactly the sorted aggregate of its orders. */
  lemma LadderIsAggregate(side: Side, us: seq<UpdateRecord>)
    requires Lawful(us) && AtMostFive(side, us)
    ensures SideOf(Run(us), side).levels == Aggregate(side, SideOf(Run(us), side).orders)
  {
    RunLaw(side, us);
    RunShown(side, us);
    ShownIsAggregate(side, SideOf(Run(us), side));
  }

  /** Two such runs that leave the same orders live leave the same ladder. */
  lemma PathIndependence(side: Side, us: seq<UpdateRecord>, vs: seq<UpdateRecord>)
    requires Lawful(us) && AtMostFive(side, us) && Lawful(vs) && AtMostFive(side, vs)
    requires SideOf(Run(us), side).orders == SideOf(Run(vs), side).orders
    ensures SideOf(Run(us), side) == SideOf(Run(vs), side)
  {
    LadderIsAggregate(side, us);
    LadderIsAggregate(side, vs);
  }

  /** Sending the NEW of a live order again changes nothing. */
  lemma ResendChangesNothing(b: Book, side: Side, id: int, qty: int)
    requires Agree(side, SideOf(b, side)) && id in SideOf(b, side).orders
    ensures Apply(b, New(side, id, SideOf(b, side).orders[id].price, qty)) == b
  {
    var s := SideOf(b, side);
    var p := s.orders[id].price;
    assert Live(s.orders, p);
    TotalSign(s.orders, p);
    NarrowExact(Total(s.orders, p));
  }

  // ---- when a full ladder stays the best five

  /** The five levels are the five best live prices. */
  ghost predicate BestFive(side: Side, b: BookSide) {
    var full := Aggregate(side, b.orders);
    |b.levels| == 5 && |full| >= 5 && b.levels == full[..5]
  }

  lemma BestFiveBeats(side: Side, b: BookSide)
    requires Agree(side, b) && |b.levels| == 5
    ensures BestFive(side, b) <==> Beaten(side, b.levels, LivePrices(b.orders), 5)
  {
    LevelsLive(side, b);
    ArrangeOrdered(side, LivePrices(b.orders));
    var full := Arrange(side, LivePrices(b.orders));
    if BestFive(side, b) {
      forall i | 0 <= i < 5
        ensures full[i] in Prices(b.levels)
      {
        assert b.levels[i].price == full[i];
      }
      forall p | p in LivePrices(b.orders) && p !in Prices(b.levels)
        ensures Beating(side, b.levels, p) >= 5
      {
        var j :| 0 <= j < |full| && full[j] == p;
        forall i | 0 <= i < 5
          ensures Better(side, b.levels[i].price, p)
        {
          assert b.levels[i].price == full[i];
        }
        AllBeating(side, b.levels, p);
      }
    }
    if Beaten(side, b.levels, LivePrices(b.orders), 5) {
      forall i: nat | i < 5
        ensures i < |full| && b.levels[i] == Aggregate(side, b.orders)[i]
      {
        FirstLevels(side, b.levels, LivePrices(b.orders), 5, i);
      }
      FirstLevels(side, b.levels, LivePrices(b.orders), 5, 4);
      assert b.levels == Aggregate(side, b.orders)[..5];
    }
  }

  /**
   A new price on a full ladder of the five best: the five best are shown again exactly when the
   newcomer beats the last of them. A worse one takes the last place all the same.
   */
  lemma BestFiveKept(side: Side, b: BookSide, id: int, p: Price, qty: int)
    requires Agree(side, b) && BestFive(side, b) && p > 0.0 && qty > 0
    requires Fits(b, id, p, qty) && !Live(b.orders, p)
    ensures BestFive(side, NewOrder(side, b, id, p, qty)) <==> Better(side, p, b.levels[4].price)
  {
    var b' := NewOrder(side, b, id, p, qty);
    var d := Depth(p, Narrow(Total(b'.orders, p)));
    NewKeepsAgreement(side, b, id, p, qty);
    NotShown(side, b, p);
    PlaceSorted(side, b.levels[..4], d);
    BestFiveBeats(side, b);
    BestFiveBeats(side, b');
    NewLive(b, id, Order(p, qty));
    LevelsLive(side, b);
    BeatenKept(side, b.levels, LivePrices(b.orders), d);
  }

  lemma BeatenKept(side: Side, ls: seq<Depth>, ps: set<Price>, d: Depth)
    requires Sorted(side, ls) && |ls| == 5 && d.price > 0.0 && !HasPrice(ls, d.price)
    requires Prices(ls) <= ps && Beaten(side, ls, ps, 5)
    ensures Beaten(side, Place(side, ls[..4], d), ps + {d.price}, 5) <==> Better(side, d.price, ls[4].price)
  {
    Dropped(side, ls, d);
    PlaceSorted(side, ls[..4], d);
    BeatingBound(side, Place(side, ls[..4], d), ls[4].price);
    assert ls[4].price in Prices(ls);
    if Better(side, d.price, ls[4].price) {
      forall q | q in ps + {d.price} && q !in Prices(Place(side, ls[..4], d))
        ensures Beating(side, Place(side, ls[..4], d), q) >= 5
      {
        Outside(side, ls, d, q, ps);
      }
    }
  }

  /** The level pushed out, seen from the new ladder. */
  lemma Dropped(side: Side, ls: seq<Depth>, d: Depth)
    requires Sorted(side, ls) && |ls| == 5 && d.price > 0.0 && !HasPrice(ls, d.price)
    ensures var r := Place(side, ls[..4], d);
      ls[4].price !in Prices(r) && (Beating(side, r, ls[4].price) == 5 <==> Better(side, d.price, ls[4].price))
  {
    PlaceSorted(side, ls[..4], d);
    BeatingPlace(side, ls[..4], d, ls[4].price);
    AllBeating(side, ls[..4], ls[4].price);
    assert Without(ls, 4) == ls[..4];
    WithoutSorted(side, ls, 4);
  }

  lemma Outside(side: Side, ls: seq<Depth>, d: Depth, q: Price, ps: set<Price>)
    requires Sorted(side, ls) && |ls| == 5 && d.price > 0.0 && !HasPrice(ls, d.price)
    requires Better(side, d.price, ls[4].price) && Beaten(side, ls, ps, 5)
    requires q in ps && q !in Prices(Place(side, ls[..4], d))
    ensures Beating(side, Place(side, ls[..4], d), q) >= 5
  {
    Dropped(side, ls, d);
    PlaceSorted(side, ls[..4], d);
    BeatingPlace(side, ls[..4], d, q);
    assert Without(ls, 4) == ls[..4];
    WithoutSorted(side, ls, 4);
    if q != ls[4].price {
      BeatingWithout(side, ls, 4, q);
      BeatingBound(side, ls, q);
    }
  }

  lemma {:induction false} BeatingBound(side: Side, ls: seq<Depth>, p: Price)
    ensures Beating(side, ls, p) <= |ls|
    ensures Beating(side, ls, p) == |ls| ==> forall i :: 0 <= i < |ls| ==> Better(side, ls[i].price, p)
  {
    if ls != [] { BeatingBound(side, ls[1..], p); }
  }
}
