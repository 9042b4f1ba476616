/**
 One symbol's order book on values: the live orders of each side, the ladder kept beside them,
 and what one market data update does to both.
 */
module OrderBook {
  import opened Wrappers
  import opened Ladder

  datatype Order = Order(price: Price, qty: int)

  type Orders = map<int, Order>

  /** The live orders of one side by id, and the levels its ladder shows. */
  datatype BookSide = BookSide(orders: Orders, levels: seq<Depth>)

  datatype Book = Book(buy: BookSide, sell: BookSide)

  /** NEW names a side; DELETE only an id; any other action is logged and ignored. */
  datatype UpdateRecord = New(side: Side, id: int, price: Price, qty: int) | Delete(id: int) | Invalid

  const EMPTY_BOOK := Book(BookSide(map[], []), BookSide(map[], []))

  function SideOf(b: Book, side: Side): BookSide {
    if side.Buy? then b.buy else b.sell
  }

  function WithSide(b: Book, side: Side, s: BookSide): Book {
    if side.Buy? then b.(buy := s) else b.(sell := s)
  }

  // ---- quantities at a price

  function At(o: Order, p: Price): int {
    if o.price == p then o.qty else 0
  }

  /** The quantity of all orders at price p. */
  ghost function Total(orders: Orders, p: Price): int
    decreases |orders|
  {
    if orders.Keys == {} then 0
    else
      var id := AnyOf(orders.Keys);
      RemoveSize(orders, id);
      At(orders[id], p) + Total(orders - {id}, p)
  }

  lemma RemoveSize(orders: Orders, id: int)
    requires id in orders
    ensures |orders - {id}| == |orders| - 1
  {
    assert (orders - {id}).Keys == orders.Keys - {id};
    assert |orders.Keys - {id}| == |orders.Keys| - 1;
  }

  /** The order in which the orders are added up does not matter. */
  lemma {:induction false} TotalRemove(orders: Orders, id: int, p: Price)
    requires id in orders
    ensures Total(orders, p) == At(orders[id], p) + Total(orders - {id}, p)
    decreases |orders|
  {
    var k := AnyOf(orders.Keys);
    if k != id {
      RemoveSize(orders, k);
      RemoveSize(orders, id);
      TotalRemove(orders - {k}, id, p);
      TotalRemove(orders - {id}, k, p);
      assert orders - {k} - {id} == orders - {id} - {k};
    }
  }

  lemma TotalAdd(orders: Orders, id: int, o: Order, p: Price)
    requires id !in orders
    ensures Total(orders[id := o], p) == Total(orders, p) + At(o, p)
  {
    TotalRemove(orders[id := o], id, p);
    assert orders[id := o] - {id} == orders;
  }

  ghost predicate Live(orders: Orders, p: Price) {
    exists id :: id in orders && orders[id].price == p
  }

  ghost function LivePrices(orders: Orders): set<Price> {
    set id | id in orders :: orders[id].price
  }

  ghost predicate Positive(orders: Orders) {
    forall id :: id in orders ==> orders[id].price > 0.0 && orders[id].qty > 0
  }

  lemma {:induction false} TotalSign(orders: Orders, p: Price)
    requires Positive(orders)
    ensures Total(orders, p) >= 0
    ensures Live(orders, p) <==> Total(orders, p) > 0
    decreases |orders|
  {
    if orders.Keys != {} {
      var id := AnyOf(orders.Keys);
      TotalRemove(orders, id, p);
      RemoveSize(orders, id);
      TotalSign(orders - {id}, p);
      if Live(orders, p) && orders[id].price != p {
        var k :| k in orders && orders[k].price == p;
        assert k in orders - {id};
      }
    }
  }

  // ---- updates

  ghost function NewOrder(side: Side, b: BookSide, id: int, p: Price, qty: int): BookSide {
    var orders := if id in b.orders then b.orders else b.orders[id := Order(p, qty)];
    BookSide(orders,
             if Live(b.orders, p) then Update(b.levels, p, Total(orders, p))
             else Insert(side, b.levels, p, Total(orders, p)))
  }

  ghost function DropOrder(b: BookSide, id: int): BookSide {
    if id !in b.orders then b
    else BookSide(b.orders - {id}, Reduce(b.levels, b.orders[id].price, b.orders[id].qty))
  }

  ghost function Apply(b: Book, u: UpdateRecord): Book {
    match u
    case New(side, id, p, qty) => WithSide(b, side, NewOrder(side, SideOf(b, side), id, p, qty))
    case Delete(id) =>
      if id in b.buy.orders then b.(buy := DropOrder(b.buy, id)) else b.(sell := DropOrder(b.sell, id))
    case Invalid => b
  }

  ghost function ApplyAll(b: Book, us: seq<UpdateRecord>): Book {
    if us == [] then b else Apply(ApplyAll(b, us[..|us| - 1]), us[|us| - 1])
  }

  // ---- the ladder agrees with the orders

  /** Every level shows a live price with the quantity of all its orders. */
  ghost predicate Agree(side: Side, b: BookSide) {
    && Positive(b.orders)
    && Sorted(side, b.levels)
    && |b.levels| <= 5
    && (forall i :: 0 <= i < |b.levels| ==>
          && Live(b.orders, b.levels[i].price)
          && b.levels[i].qty == Total(b.orders, b.levels[i].price) <= MAX_QTY)
  }

  /** What the total at p will be once the order has been added. */
  ghost function NextTotal(b: BookSide, id: int, p: Price, qty: int): int {
    Total(b.orders, p) + if id in b.orders then 0 else qty
  }

  /**
   When a NEW keeps the ladder in agreement: its id is fresh on its side or its price is already
   live there, and the level it writes fits 32 bits.
   */
  ghost predicate Fits(b: BookSide, id: int, p: Price, qty: int) {
    && (id !in b.orders || Live(b.orders, p))
    && (!Live(b.orders, p) || HasPrice(b.levels, p) ==> NextTotal(b, id, p, qty) <= MAX_QTY)
  }

  lemma NarrowExact(q: int)
    requires q >= 0
    ensures Narrow(q) == q <==> q <= MAX_QTY
    ensures Narrow(q) <= MAX_QTY
  {
  }

  lemma OtherTotals(b: BookSide, id: int, o: Order, p: Price)
    requires Positive(b.orders) && o.price > 0.0 && o.qty > 0 && id !in b.orders && p != o.price
    ensures Total(b.orders[id := o], p) == Total(b.orders, p)
    ensures Live(b.orders[id := o], p) <==> Live(b.orders, p)
  {
    TotalAdd(b.orders, id, o, p);
    TotalSign(b.orders, p);
    TotalSign(b.orders[id := o], p);
  }

  lemma NotShown(side: Side, b: BookSide, p: Price)
    requires Agree(side, b) && !Live(b.orders, p)
    ensures !HasPrice(b.levels, p) && !HasPrice(Kept(b.levels), p) && Sorted(side, Kept(b.levels))
  {
  }

  /** A NEW with a fresh id for a price that was not live. */
  lemma NewPrice(side: Side, b: BookSide, id: int, p: Price, qty: int)
    requires Agree(side, b) && p > 0.0 && qty > 0 && !Live(b.orders, p) && id !in b.orders
    ensures Agree(side, NewOrder(side, b, id, p, qty)) <==> qty <= MAX_QTY
    ensures Total(b.orders, p) == 0 && Total(b.orders[id := Order(p, qty)], p) == qty
  {
    NotShown(side, b, p);
    TotalSign(b.orders, p);
    TotalAdd(b.orders, id, Order(p, qty), p);
    NarrowExact(qty);
    FreshLevel(side, b, id, Order(p, qty));
    assert NewOrder(side, b, id, p, qty).levels == Place(side, Kept(b.levels), Depth(p, Narrow(qty)));
  }

  lemma FreshLevel(side: Side, b: BookSide, id: int, o: Order)
    requires Agree(side, b) && id !in b.orders && o.price > 0.0 && o.qty > 0 && !Live(b.orders, o.price)
    requires Sorted(side, Kept(b.levels)) && !HasPrice(Kept(b.levels), o.price)
    requires Total(b.orders[id := o], o.price) == o.qty
    ensures Agree(side, BookSide(b.orders[id := o], Place(side, Kept(b.levels), Depth(o.price, Narrow(o.qty)))))
      <==> o.qty <= MAX_QTY
  {
    var kept, d := Kept(b.levels), Depth(o.price, Narrow(o.qty));
    var k, r, orders := Beating(side, kept, o.price), Place(side, kept, d), b.orders[id := o];
    NarrowExact(o.qty);
    PlaceSorted(side, kept, d);
    PlacedLevels(side, kept, d);
    assert r[k] == d && orders[id].price == o.price;
    forall i | 0 <= i < |r| && i != k
      ensures Live(orders, r[i].price) && r[i].qty == Total(orders, r[i].price) <= MAX_QTY
    {
      KeptLevel(side, b, id, o, if i < k then i else i - 1);
    }
  }

  lemma KeptLevel(side: Side, b: BookSide, id: int, o: Order, j: nat)
    requires Agree(side, b) && id !in b.orders && o.price > 0.0 && o.qty > 0 && !Live(b.orders, o.price)
    requires j < |Kept(b.levels)|
    ensures var l, orders := Kept(b.levels)[j], b.orders[id := o];
      Live(orders, l.price) && l.qty == Total(orders, l.price) <= MAX_QTY
  {
    assert Kept(b.levels)[j] == b.levels[j];
    OtherTotals(b, id, o, b.levels[j].price);
  }

  /** A NEW that repeats a live id at a price that was not live shows a level nobody stands behind. */
  lemma PhantomLevel(side: Side, b: BookSide, id: int, p: Price, qty: int)
    requires Agree(side, b) && p > 0.0 && !Live(b.orders, p) && id in b.orders
    ensures var b' := NewOrder(side, b, id, p, qty);
      HasPrice(b'.levels, p) && !Live(b'.orders, p) && !Agree(side, b')
  {
    var b' := NewOrder(side, b, id, p, qty);
    NotShown(side, b, p);
    var kept, d := Kept(b.levels), Depth(p, Narrow(Total(b.orders, p)));
    PlaceAt(side, kept, d);
    assert b'.levels[Beating(side, kept, p)].price == p;
  }

  /** A NEW for a price that was live. */
  lemma MoreAtPrice(side: Side, b: BookSide, id: int, p: Price, qty: int)
    requires Agree(side, b) && p > 0.0 && qty > 0 && Live(b.orders, p)
    ensures Agree(side, NewOrder(side, b, id, p, qty)) <==> Fits(b, id, p, qty)
  {
    var b' := NewOrder(side, b, id, p, qty);
    var o := Order(p, qty);
    if id !in b.orders {
      TotalAdd(b.orders, id, o, p);
      assert b'.orders[id].price == p;
    }
    TotalSign(b.orders, p);
    NarrowExact(Total(b'.orders, p));
    forall i | 0 <= i < |b.levels| && b.levels[i].price != p
      ensures Live(b'.orders, b.levels[i].price) && Total(b'.orders, b.levels[i].price) == Total(b.orders, b.levels[i].price)
    {
      if id !in b.orders { OtherTotals(b, id, o, b.levels[i].price); }
    }
    if HasPrice(b.levels, p) {
      var k := IndexOf(b.levels, p);
      assert b'.levels[k] == Depth(p, Narrow(Total(b'.orders, p)));
    }
  }

  /** A NEW keeps the ladder in agreement with the orders exactly when it fits. */
  lemma NewKeepsAgreement(side: Side, b: BookSide, id: int, p: Price, qty: int)
    requires Agree(side, b) && p > 0.0 && qty > 0
    ensures Agree(side, NewOrder(side, b, id, p, qty)) <==> Fits(b, id, p, qty)
  {
    if Live(b.orders, p) {
      MoreAtPrice(side, b, id, p, qty);
    } else if id in b.orders {
      PhantomLevel(side, b, id, p, qty);
    } else {
      NewPrice(side, b, id, p, qty);
    }
  }

  lemma DropTotals(b: BookSide, id: int, p: Price)
    requires Positive(b.orders) && id in b.orders
    ensures Positive(b.orders - {id})
    ensures Total(b.orders - {id}, p) == Total(b.orders, p) - At(b.orders[id], p)
    ensures p != b.orders[id].price ==> (Live(b.orders - {id}, p) <==> Live(b.orders, p))
    ensures Total(b.orders, p) >= At(b.orders[id], p)
    ensures Live(b.orders - {id}, p) <==> Total(b.orders, p) > At(b.orders[id], p)
  {
    TotalRemove(b.orders, id, p);
    TotalSign(b.orders, p);
    TotalSign(b.orders - {id}, p);
  }

  /** A DELETE always keeps it: the level goes exactly with its last order. */
  lemma DropKeepsAgreement(side: Side, b: BookSide, id: int)
    requires Agree(side, b)
    ensures Agree(side, DropOrder(b, id))
    ensures id in b.orders && HasPrice(b.levels, b.orders[id].price) && !Live(b.orders - {id}, b.orders[id].price) ==>
      DropOrder(b, id).levels == Without(b.levels, IndexOf(b.levels, b.orders[id].price))
    ensures id in b.orders && (HasPrice(b.levels, b.orders[id].price) ==> Live(b.orders - {id}, b.orders[id].price)) ==>
      var ls := DropOrder(b, id).levels;
      |ls| == |b.levels| && forall i :: 0 <= i < |ls| ==> ls[i].price == b.levels[i].price
  {
    if id in b.orders {
      var o := b.orders[id];
      var b' := DropOrder(b, id);
      DropTotals(b, id, o.price);
      forall i | 0 <= i < |b.levels| && b.levels[i].price != o.price
        ensures Live(b'.orders, b.levels[i].price) && Total(b'.orders, b.levels[i].price) == Total(b.orders, b.levels[i].price)
      {
        DropTotals(b, id, b.levels[i].price);
      }
      if HasPrice(b.levels, o.price) {
        var k := IndexOf(b.levels, o.price);
        NarrowExact(b.levels[k].qty - o.qty);
        if b.levels[k].qty == o.qty {
          WithoutSorted(side, b.levels, k);
        }
      }
    }
  }
}
