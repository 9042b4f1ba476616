/** When the live ladder shows the best five prices of the full book, update by update. */
module BestFiveLaw {
  import opened Ladder
  import opened BestLevels
  import opened OrderBook
  import opened LadderLaw

  /** The ladder is the sorted aggregate of the live orders, cut off behind five levels. */
  ghost predicate ShowsBest(side: Side, s: BookSide) {
    var full := Aggregate(side, s.orders);
    s.levels == if |full| <= 5 then full else full[..5]
  }

  /**
   What keeps it so. A new price needs a free slot or must beat the last level; the last order at a
   shown price may only go while every live price has a level.
   */
  ghost predicate KeepsBest(side: Side, b: Book, u: UpdateRecord) {
    var s := SideOf(b, side);
    match u
    case New(at, _, p, _) =>
      at == side ==> Live(s.orders, p) || |s.levels| < 5 || Better(side, p, s.levels[|s.levels| - 1].price)
    case Delete(_) => AllShown(s) || !TakesLevel(side, b, u)
    case Invalid => true
  }

  lemma FewLevels(side: Side, s: BookSide)
    requires Agree(side, s) && Beaten(side, s.levels, LivePrices(s.orders), 5) && |s.levels| < 5
    ensures AllShown(s)
  {
    LevelsLive(side, s);
    forall p | Live(s.orders, p)
      ensures HasPrice(s.levels, p)
    {
      BeatingBound(side, s.levels, p);
      PricesHas(s.levels, p);
    }
  }

  lemma AggregateShown(side: Side, s: BookSide)
    requires Agree(side, s) && s.levels == Aggregate(side, s.orders)
    ensures AllShown(s)
  {
    var best := Arrange(side, LivePrices(s.orders));
    ArrangeOrdered(side, LivePrices(s.orders));
    LevelsLive(side, s);
    forall p | Live(s.orders, p)
      ensures HasPrice(s.levels, p)
    {
      assert p in best;
      var i :| 0 <= i < |best| && best[i] == p;
      assert s.levels[i].price == p;
    }
  }

  /** The ladder shows the best exactly when every missing price is beaten by five levels. */
  lemma BestIsBeaten(side: Side, s: BookSide)
    requires Agree(side, s)
    ensures ShowsBest(side, s) <==> Beaten(side, s.levels, LivePrices(s.orders), 5)
  {
    var full := Aggregate(side, s.orders);
    if ShowsBest(side, s) {
      if |full| <= 5 {
        AggregateShown(side, s);
        ShownBeaten(side, s);
      } else {
        BestFiveBeats(side, s);
      }
    }
    if Beaten(side, s.levels, LivePrices(s.orders), 5) {
      if |s.levels| == 5 {
        BestFiveBeats(side, s);
      } else {
        FewLevels(side, s);
        ShownIsAggregate(side, s);
      }
    }
  }

  // ---- NEW

  lemma MoreKeepsBest(side: Side, s: BookSide, id: int, p: Price, qty: int)
    requires Agree(side, s) && p > 0.0 && qty > 0 && Fits(s, id, p, qty) && Live(s.orders, p)
    requires Beaten(side, s.levels, LivePrices(s.orders), 5)
    ensures var t := NewOrder(side, s, id, p, qty); Beaten(side, t.levels, LivePrices(t.orders), 5)
  {
    var t := NewOrder(side, s, id, p, qty);
    LevelsLive(side, s);
    if id !in s.orders { NewLive(s, id, Order(p, qty)); }
    SamePrices(side, s.levels, t.levels, LivePrices(s.orders), 5);
  }

  lemma FreeSlotKeepsBest(side: Side, s: BookSide, id: int, p: Price, qty: int)
    requires Agree(side, s) && p > 0.0 && qty > 0 && Fits(s, id, p, qty) && !Live(s.orders, p)
    requires Beaten(side, s.levels, LivePrices(s.orders), 5) && |s.levels| < 5
    ensures AllShown(NewOrder(side, s, id, p, qty))
  {
    FewLevels(side, s);
    ShownPrices(side, s);
    NewLive(s, id, Order(p, qty));
    NewShown(side, s, id, p, qty);
  }

  lemma NewKeepsBest(side: Side, s: BookSide, id: int, p: Price, qty: int)
    requires Agree(side, s) && p > 0.0 && qty > 0 && Fits(s, id, p, qty) && ShowsBest(side, s)
    ensures ShowsBest(side, NewOrder(side, s, id, p, qty))
       <==> Live(s.orders, p) || |s.levels| < 5 || Better(side, p, s.levels[|s.levels| - 1].price)
  {
    var t := NewOrder(side, s, id, p, qty);
    NewKeepsAgreement(side, s, id, p, qty);
    BestIsBeaten(side, s);
    BestIsBeaten(side, t);
    if Live(s.orders, p) {
      MoreKeepsBest(side, s, id, p, qty);
    } else if |s.levels| < 5 {
      FreeSlotKeepsBest(side, s, id, p, qty);
      ShownBeaten(side, t);
    } else {
      BestFiveBeats(side, s);
      BestFiveKept(side, s, id, p, qty);
      NewBeaten(side, s, id, p, qty, 4);
      BestFiveBeats(side, t);
    }
  }

  // ---- DELETE

  /** A live price without a level stays so when another price's level goes: four levels cannot be the best. */
  lemma GapOpens(side: Side, s: BookSide, id: int)
    requires Agree(side, s) && Beaten(side, s.levels, LivePrices(s.orders), 5) && !AllShown(s)
    requires id in s.orders && HasPrice(s.levels, s.orders[id].price) && !Live(s.orders - {id}, s.orders[id].price)
    ensures var t := DropOrder(s, id);
      |t.levels| == 4 && !Beaten(side, t.levels, LivePrices(t.orders), 5)
  {
    var t := DropOrder(s, id);
    if |s.levels| < 5 { FewLevels(side, s); }
    DropKeepsAgreement(side, s, id);
    WithoutSorted(side, s.levels, IndexOf(s.levels, s.orders[id].price));
    var q :| Live(s.orders, q) && !HasPrice(s.levels, q);
    var k :| k in s.orders && s.orders[k].price == q;
    assert k in t.orders && t.orders[k].price == q;
    LevelsLive(side, t);
    PricesHas(s.levels, q);
    PricesHas(t.levels, q);
    BeatingBound(side, t.levels, q);
  }

  lemma DropKeepsBest(side: Side, s: BookSide, id: int)
    requires Agree(side, s) && ShowsBest(side, s) && id in s.orders
    ensures ShowsBest(side, DropOrder(s, id))
       <==> AllShown(s) || !HasPrice(s.levels, s.orders[id].price) || Live(s.orders - {id}, s.orders[id].price)
  {
    var t := DropOrder(s, id);
    DropKeepsAgreement(side, s, id);
    BestIsBeaten(side, s);
    BestIsBeaten(side, t);
    if AllShown(s) {
      DropShown(side, s, id);
      ShownBeaten(side, t);
    } else if HasPrice(s.levels, s.orders[id].price) && !Live(s.orders - {id}, s.orders[id].price) {
      GapOpens(side, s, id);
    } else {
      DropBeaten(side, s, id, 5);
    }
  }

  // ---- every update, every run

  /** From any state that shows the best, every update the feed may send keeps it so exactly under the condition. */
  lemma UpdateKeepsBest(side: Side, b: Book, u: UpdateRecord)
    requires Agree(side, SideOf(b, side)) && Acceptable(b, u) && ShowsBest(side, SideOf(b, side))
    ensures ShowsBest(side, SideOf(Apply(b, u), side)) <==> KeepsBest(side, b, u)
  {
    match u
    case New(at, id, p, qty) =>
      if at == side { NewKeepsBest(side, SideOf(b, side), id, p, qty); }
    case Delete(id) =>
      if id in SideOf(b, side).orders && (side.Sell? ==> id !in b.buy.orders) {
        DropKeepsBest(side, SideOf(b, side), id);
      }
    case Invalid =>
  }

  lemma LawfulPrefix(us: seq<UpdateRecord>, k: nat)
    requires Lawful(us) && k <= |us|
    ensures Lawful(us[..k])
  {
    assert forall i :: 0 <= i < k ==> us[..k][..i] == us[..i];
  }

  lemma RunStep(side: Side, us: seq<UpdateRecord>, k: nat)
    requires Lawful(us) && k < |us|
    ensures Agree(side, SideOf(Run(us[..k]), side)) && Acceptable(Run(us[..k]), us[k])
    ensures Run(us[..k + 1]) == Apply(Run(us[..k]), us[k])
  {
    LawfulPrefix(us, k);
    RunLaw(side, us[..k]);
    assert us[..k + 1][..k] == us[..k];
  }

  lemma StartsBest(side: Side)
    ensures ShowsBest(side, SideOf(Run([]), side))
  {
    assert LivePrices(map[]) == {};
  }

  lemma BestStep(side: Side, us: seq<UpdateRecord>, k: nat)
    requires Lawful(us) && k < |us| && ShowsBest(side, SideOf(Run(us[..k]), side))
    ensures ShowsBest(side, SideOf(Run(us[..k + 1]), side)) <==> KeepsBest(side, Run(us[..k]), us[k])
  {
    RunStep(side, us, k);
    UpdateKeepsBest(side, Run(us[..k]), us[k]);
  }

  lemma {:induction false} KeptBest(side: Side, us: seq<UpdateRecord>, n: nat)
    requires Lawful(us) && n <= |us|
    requires forall k :: 0 <= k < n ==> KeepsBest(side, Run(us[..k]), us[k])
    ensures ShowsBest(side, SideOf(Run(us[..n]), side))
  {
    if n == 0 {
      StartsBest(side);
    } else {
      KeptBest(side, us, n - 1);
      BestStep(side, us, n - 1);
    }
  }

  /** A run shows the best throughout exactly when each of its updates meets the condition. */
  lemma RunShowsBest(side: Side, us: seq<UpdateRecord>)
    requires Lawful(us)
    ensures (forall k :: 0 <= k <= |us| ==> ShowsBest(side, SideOf(Run(us[..k]), side)))
       <==> (forall k :: 0 <= k < |us| ==> KeepsBest(side, Run(us[..k]), us[k]))
  {
    if forall k :: 0 <= k <= |us| ==> ShowsBest(side, SideOf(Run(us[..k]), side)) {
      forall k | 0 <= k < |us|
        ensures KeepsBest(side, Run(us[..k]), us[k])
      {
        BestStep(side, us, k);
        assert ShowsBest(side, SideOf(Run(us[..k + 1]), side));
      }
    }
    if forall k :: 0 <= k < |us| ==> KeepsBest(side, Run(us[..k]), us[k]) {
      forall k | 0 <= k <= |us|
        ensures ShowsBest(side, SideOf(Run(us[..k]), side))
      {
        KeptBest(side, us, k);
      }
    }
  }

  // ---- the DELETE that fails

  /** Buy orders at 1, 2, ..., n, each better than all before it. */
  function Rising(n: nat): seq<UpdateRecord> {
    if n == 0 then [] else Rising(n - 1) + [New(Buy, n, n as real, 1)]
  }

  ghost predicate RisingBook(n: nat, b: Book) {
    && b.sell == EMPTY_BOOK.sell
    && (forall id :: id in b.buy.orders <==> 1 <= id <= n)
    && (forall id :: id in b.buy.orders ==> b.buy.orders[id] == Order(id as real, 1))
    && (n > 0 ==> HasPrice(b.buy.levels, n as real))
  }

  lemma LawfulSnoc(us: seq<UpdateRecord>, u: UpdateRecord)
    requires Lawful(us) && Acceptable(Run(us), u)
    ensures Lawful(us + [u]) && Run(us + [u]) == Apply(Run(us), u)
  {
    assert (us + [u])[..|us|] == us;
    assert forall k :: 0 <= k < |us| ==> (us + [u])[..k] == us[..k];
  }

  lemma RisingFresh(n: nat, b: Book)
    requires n > 0 && RisingBook(n - 1, b) && Agree(Buy, b.buy)
    ensures !Live(b.buy.orders, n as real) && Total(b.buy.orders, n as real) == 0
    ensures Acceptable(b, New(Buy, n, n as real, 1)) && KeepsBest(Buy, b, New(Buy, n, n as real, 1))
  {
    TotalSign(b.buy.orders, n as real);
    NotShown(Buy, b.buy, n as real);
    forall i | 0 <= i < |b.buy.levels|
      ensures Better(Buy, n as real, b.buy.levels[i].price)
    {
      assert Live(b.buy.orders, b.buy.levels[i].price);
    }
  }

  lemma RisingNext(n: nat, b: Book)
    requires n > 0 && RisingBook(n - 1, b) && Agree(Buy, b.buy)
    requires !Live(b.buy.orders, n as real)
    ensures RisingBook(n, Apply(b, New(Buy, n, n as real, 1)))
  {
    var p := n as real;
    NotShown(Buy, b.buy, p);
    TopLevel(b.buy.levels, p, Total(b.buy.orders[n := Order(p, 1)], p));
  }

  lemma TopLevel(ls: seq<Depth>, p: Price, qty: int)
    requires Sorted(Buy, ls) && |ls| <= 5 && p > 0.0 && !HasPrice(ls, p)
    ensures HasPrice(Insert(Buy, ls, p, qty), p)
  {
    var d := Depth(p, Narrow(qty));
    InsertedLevels(Buy, ls, p, qty, d);
    var i :| 0 <= i < |Insert(Buy, ls, p, qty)| && Insert(Buy, ls, p, qty)[i] == d;
  }

  ghost predicate RisingBest(n: nat, us: seq<UpdateRecord>) {
    && Lawful(us) && RisingBook(n, Run(us))
    && Agree(Buy, Run(us).buy) && ShowsBest(Buy, Run(us).buy)
  }

  lemma RisingKeeps(n: nat, us: seq<UpdateRecord>)
    requires n > 0 && RisingBest(n - 1, us)
    ensures RisingBest(n, us + [New(Buy, n, n as real, 1)])
  {
    var b, u := Run(us), New(Buy, n, n as real, 1);
    RisingFresh(n, b);
    RisingNext(n, b);
    UpdateKeepsBest(Buy, b, u);
    NewKeepsAgreement(Buy, b.buy, n, n as real, 1);
    LawfulSnoc(us, u);
  }

  lemma RisingStarts()
    ensures RisingBest(0, [])
  {
    StartsBest(Buy);
  }

  /** Every one of these NEWs meets the condition. */
  lemma {:induction false} RisingShowsBest(n: nat, us: seq<UpdateRecord>)
    requires us == Rising(n)
    ensures RisingBest(n, us)
  {
    if n == 0 {
      RisingStarts();
    } else {
      var front := Rising(n - 1);
      RisingShowsBest(n - 1, front);
      RisingKeeps(n, front);
    }
  }

  /** If all of them were shown, the level of n - k would be behind k others. */
  lemma {:induction false} RankOf(n: nat, b: Book, k: nat) returns (i: nat)
    requires k < n && RisingBook(n, b) && Agree(Buy, b.buy) && AllShown(b.buy)
    ensures k <= i < |b.buy.levels| && b.buy.levels[i].price == (n - k) as real
  {
    var p := (n - k) as real;
    assert b.buy.orders[n - k].price == p;
    assert HasPrice(b.buy.levels, p);
    i := IndexOf(b.buy.levels, p);
    if k > 0 {
      var j := RankOf(n, b, k - 1);
      assert Better(Buy, b.buy.levels[j].price, b.buy.levels[i].price);
    }
  }

  lemma SixLive(n: nat, b: Book)
    requires n >= 6 && RisingBook(n, b) && Agree(Buy, b.buy)
    ensures !AllShown(b.buy)
  {
    if AllShown(b.buy) {
      var i := RankOf(n, b, 5);
    }
  }

  /** After six or more of them, deleting the best order leaves four levels and a live price that has none. */
  lemma DeleteOpensGap(n: nat)
    requires n >= 6
    ensures Lawful(Rising(n) + [Delete(n)])
    ensures ShowsBest(Buy, Run(Rising(n)).buy) && !KeepsBest(Buy, Run(Rising(n)), Delete(n))
    ensures var s := Run(Rising(n) + [Delete(n)]).buy;
      !ShowsBest(Buy, s) && |s.levels| == 4 && !AllShown(s)
  {
    var b := Run(Rising(n));
    RisingShowsBest(n, Rising(n));
    LawfulSnoc(Rising(n), Delete(n));
    SixLive(n, b);
    OnlyOrder(n, b);
    BestIsBeaten(Buy, b.buy);
    GapOpens(Buy, b.buy, n);
    UpdateKeepsBest(Buy, b, Delete(n));
    var s := DropOrder(b.buy, n);
    DropKeepsAgreement(Buy, b.buy, n);
    if AllShown(s) { ShownBeaten(Buy, s); }
  }

  lemma OnlyOrder(n: nat, b: Book)
    requires n > 0 && RisingBook(n, b)
    ensures n in b.buy.orders && b.buy.orders[n].price == n as real && HasPrice(b.buy.levels, n as real)
    ensures !Live(b.buy.orders - {n}, n as real)
  {
  }
}
