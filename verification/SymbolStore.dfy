/** The store of one symbol (`SymbolDataStore`): two maps of live orders beside the five-level ladder. */
module SymbolStore {
  import opened Ladder
  import opened MarketDepth
  import opened OrderBook

  function AddFresh(orders: Orders, id: int, o: Order): Orders {
    if id in orders then orders else orders[id := o]
  }

  class SymbolDataStore {
    const md5: MarketData5Depth
    var buyOrders: Orders
    var sellOrders: Orders

    ghost const Repr: set<object>

    ghost predicate Valid()
      reads this, Repr
    {
      && Repr == {this, md5, md5.buyDepth, md5.sellDepth}
      && md5.Valid()
      && Priced(buyOrders) && Priced(sellOrders)
    }

    /** The store as a value. */
    ghost function Contents(): Book
      reads this, md5.buyDepth, md5.sellDepth
    {
      Book(BookSide(buyOrders, md5.BuyLevels()), BookSide(sellOrders, md5.SellLevels()))
    }

    /** A store none of whose objects changed is the store it was. */
    twostate lemma Untouched()
      requires old(Valid()) && forall o :: o in Repr ==> unchanged(o)
      ensures Valid() && Contents() == old(Contents())
    {
    }

    constructor ()
      ensures Valid() && fresh(Repr) && Contents() == EMPTY_BOOK
    {
      var m := new MarketData5Depth();
      md5 := m;
      buyOrders, sellOrders := map[], map[];
      Repr := {this, m, m.buyDepth, m.sellDepth};
    }

    /** An id already present keeps its order: `unordered_map::insert`. */
    method AddUpdateNormalQty(id: int, price: Price, qty: int, side: Side)
      modifies this`buyOrders, this`sellOrders
      ensures buyOrders == if side.Buy? then AddFresh(old(buyOrders), id, Order(price, qty)) else old(buyOrders)
      ensures sellOrders == if side.Sell? then AddFresh(old(sellOrders), id, Order(price, qty)) else old(sellOrders)
    {
      if side.Buy? {
        if id !in buyOrders { buyOrders := buyOrders[id := Order(price, qty)]; }
      } else {
        if id !in sellOrders { sellOrders := sellOrders[id := Order(price, qty)]; }
      }
    }

    /** True when the price already has an order, despite its name. */
    method IsPriceNew(price: Price, side: Side) returns (live: bool)
      ensures live <==> Live(if side.Buy? then buyOrders else sellOrders, price)
    {
      var orders := if side.Buy? then buyOrders else sellOrders;
      live := ScanPrice(orders, price);
    }

    method GetTotalQtyForPrice(price: Price, side: Side) returns (qty: int)
      ensures qty == Total(if side.Buy? then buyOrders else sellOrders, price)
    {
      var orders := if side.Buy? then buyOrders else sellOrders;
      qty := ScanTotal(orders, price);
    }

    method DeleteNormalQty(id: int, side: Side)
      requires Valid()
      modifies this`buyOrders, this`sellOrders, md5.buyDepth, md5.sellDepth
      ensures Valid()
      ensures Contents() == WithSide(old(Contents()), side, DropOrder(SideOf(old(Contents()), side), id))
    {
      if side.Buy? {
        DeleteBuyQty(id);
      } else {
        DeleteSellQty(id);
      }
    }

    method DeleteBuyQty(id: int)
      requires Valid()
      modifies this`buyOrders, md5.buyDepth
      ensures Valid()
      ensures Contents() == WithSide(old(Contents()), Buy, DropOrder(SideOf(old(Contents()), Buy), id))
    {
      if id in buyOrders {
        var o := buyOrders[id];
        var found, pos := FindPrice(md5.buyDepth, o.price);
        Filling(Buy, md5.buyDepth[..], md5.BuyLevels());
        if found { md5.DeleteBuyDepthViaId(o.price, pos, o.qty); }
      }
      buyOrders := buyOrders - {id};
    }

    method DeleteSellQty(id: int)
      requires Valid()
      modifies this`sellOrders, md5.sellDepth
      ensures Valid()
      ensures Contents() == WithSide(old(Contents()), Sell, DropOrder(SideOf(old(Contents()), Sell), id))
    {
      if id in sellOrders {
        var o := sellOrders[id];
        var found, pos := FindPrice(md5.sellDepth, o.price);
        Filling(Sell, md5.sellDepth[..], md5.SellLevels());
        if found { md5.DeleteSellDepthViaId(o.price, pos, o.qty); }
      }
      sellOrders := sellOrders - {id};
    }

    method CheckBuySellViaId(id: int)
      requires Valid()
      modifies this`buyOrders, this`sellOrders, md5.buyDepth, md5.sellDepth
      ensures Valid() && Contents() == Apply(old(Contents()), Delete(id))
    {
      if id in buyOrders {
        DeleteNormalQty(id, Buy);
      } else {
        DeleteNormalQty(id, Sell);
      }
    }

    method ApplyNew(side: Side, id: int, price: Price, qty: int)
      requires Valid() && price > 0.0
      modifies this`buyOrders, this`sellOrders, md5.buyDepth, md5.sellDepth
      ensures Valid() && Contents() == Apply(old(Contents()), New(side, id, price, qty))
    {
      var isNew := IsPriceNew(price, side);
      AddUpdateNormalQty(id, price, qty, side);
      var total := GetTotalQtyForPrice(price, side);
      if side.Buy? {
        if !isNew { md5.InsertBuyDepth(price, total); } else { md5.UpdateBuyDepth(price, total); }
      } else {
        if !isNew { md5.InsertSellDepth(price, total); } else { md5.UpdateSellDepth(price, total); }
      }
    }

    method ApplyUpdate(u: UpdateRecord)
      requires Valid() && (u.New? ==> u.price > 0.0)
      modifies Repr
      ensures Valid() && Contents() == Apply(old(Contents()), u)
    {
      match u
      case New(side, id, price, qty) => ApplyNew(side, id, price, qty);
      case Delete(id) => CheckBuySellViaId(id);
      case Invalid =>
    }
  }

  /** Slots that agree with the orders pass the store's own correctness checks. */
  lemma ChecksPass(side: Side, b: BookSide, slots: seq<Depth>)
    requires Agree(side, b) && Shows(side, slots, b.levels)
    ensures side.Buy? ==> BuyDescends(slots)
    ensures side.Sell? ==> SellAscends(slots)
  {
    forall i | 0 <= i < |b.levels|
      ensures slots[i].qty > 0
    {
      TotalSign(b.orders, b.levels[i].price);
    }
  }

  ghost predicate Priced(orders: Orders) {
    forall id :: id in orders ==> orders[id].price > 0.0
  }

  /** The entry an iterator over the map comes to next: any that is left. */
  method Next<K>(rest: set<K>) returns (k: K)
    requires rest != {}
    ensures k in rest
  {
    k :| k in rest;
  }

  /** The loop over an order map, in whatever order the map yields its entries. */
  method ScanPrice(orders: Orders, price: Price) returns (live: bool)
    ensures live <==> Live(orders, price)
  {
    var rest := orders.Keys;
    while rest != {}
      invariant rest <= orders.Keys
      invariant forall id :: id in orders && id !in rest ==> orders[id].price != price
      decreases rest
    {
      var id := Next(rest);
      if orders[id].price == price { return true; }
      rest := rest - {id};
    }
    return false;
  }

  method ScanTotal(orders: Orders, price: Price) returns (qty: int)
    ensures qty == Total(orders, price)
  {
    var rest := orders.Keys;
    qty := 0;
    assert orders - rest == map[];
    while rest != {}
      invariant rest <= orders.Keys
      invariant qty == Total(orders - rest, price)
      decreases rest
    {
      var id := Next(rest);
      if orders[id].price == price { qty := qty + orders[id].qty; }
      ghost var seen := orders - rest;
      rest := rest - {id};
      TotalAdd(seen, id, orders[id], price);
      assert orders - rest == seen[id := orders[id]];
    }
    assert orders - rest == orders;
  }
}
