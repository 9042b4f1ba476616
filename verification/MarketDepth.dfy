/** The live five-level ladder (`MarketData_5Depth`): two arrays shifted, sorted and overwritten in place. */
module MarketDepth {
  import opened Ladder
  import opened SlotArrays

  const DEPTH_SIZE_5 := 5

  /** The five slots show these levels, then empty slots. */
  ghost predicate Shows(side: Side, slots: seq<Depth>, ls: seq<Depth>) {
    |slots| == DEPTH_SIZE_5 && |ls| <= DEPTH_SIZE_5 && Sorted(side, ls) && slots == ls + Pad(DEPTH_SIZE_5 - |ls|)
  }

  // ---- sorting

  ghost predicate InOrder(side: Side, s: seq<Depth>) {
    forall i, j :: 0 <= i < j < |s| ==> !Better(side, s[j].price, s[i].price)
  }

  /** A price names one element. */
  ghost predicate Keyed(s: seq<Depth>) {
    forall i, j :: 0 <= i < |s| && 0 <= j < |s| && s[i].price == s[j].price ==> s[i] == s[j]
  }

  lemma SameFirst(side: Side, s: seq<Depth>, t: seq<Depth>)
    requires multiset(s) == multiset(t) && InOrder(side, s) && InOrder(side, t) && Keyed(s) && s != []
    ensures t != [] && s[0] == t[0]
  {
    assert s[0] in multiset(t) && t[0] in multiset(s);
    assert s[0].price == t[0].price;
  }

  lemma TailMultiset<T>(s: seq<T>)
    requires s != []
    ensures multiset(s[1..]) == multiset(s) - multiset{s[0]}
  {
    assert s == [s[0]] + s[1..];
  }

  /** Sorting has one possible result. */
  lemma {:induction false} SortUnique(side: Side, s: seq<Depth>, t: seq<Depth>)
    requires multiset(s) == multiset(t) && InOrder(side, s) && InOrder(side, t) && Keyed(s)
    ensures s == t
  {
    assert |multiset(s)| == |s| && |multiset(t)| == |t|;
    if s != [] {
      SameFirst(side, s, t);
      TailMultiset(s);
      TailMultiset(t);
      SortUnique(side, s[1..], t[1..]);
      assert s == [s[0]] + s[1..] && t == [t[0]] + t[1..];
    }
  }

  function InsertByPrice(d: Depth, s: seq<Depth>): seq<Depth> {
    if s == [] || d.price > s[0].price then [d] + s else [s[0]] + InsertByPrice(d, s[1..])
  }

  function SortByPrice(s: seq<Depth>): seq<Depth> {
    if s == [] then [] else InsertByPrice(s[0], SortByPrice(s[1..]))
  }

  lemma {:induction false} InsertByPriceAdds(d: Depth, s: seq<Depth>)
    ensures multiset(InsertByPrice(d, s)) == multiset(s) + multiset{d}
    ensures |InsertByPrice(d, s)| == |s| + 1
  {
    if s != [] && d.price <= s[0].price {
      InsertByPriceAdds(d, s[1..]);
      assert s == [s[0]] + s[1..];
    }
  }

  lemma {:induction false} InsertByPriceSorts(d: Depth, s: seq<Depth>)
    requires InOrder(Buy, s)
    ensures InOrder(Buy, InsertByPrice(d, s))
  {
    if s != [] && d.price <= s[0].price {
      InsertByPriceSorts(d, s[1..]);
      InsertByPriceAdds(d, s[1..]);
      var r := InsertByPrice(d, s[1..]);
      forall k | 0 <= k < |r|
        ensures !Better(Buy, r[k].price, s[0].price)
      {
        assert r[k] in multiset(r);
      }
    }
  }

  lemma {:induction false} SortByPriceSorts(s: seq<Depth>)
    ensures InOrder(Buy, SortByPrice(s)) && multiset(SortByPrice(s)) == multiset(s) && |SortByPrice(s)| == |s|
  {
    if s != [] {
      SortByPriceSorts(s[1..]);
      InsertByPriceSorts(s[0], SortByPrice(s[1..]));
      InsertByPriceAdds(s[0], SortByPrice(s[1..]));
      assert s == [s[0]] + s[1..];
    }
  }

  /** `std::sort` by descending price: some permutation that is in order. */
  method StdSort(a: array<Depth>)
    modifies a
    ensures InOrder(Buy, a[..]) && multiset(a[..]) == multiset(old(a[..]))
  {
    var s := SortByPrice(a[..]);
    SortByPriceSorts(a[..]);
    forall i | 0 <= i < a.Length { a[i] := s[i]; }
    assert a[..] == s;
  }

  /** The first n slots are the ones with a price. */
  ghost predicate Filled(s: seq<Depth>, n: nat) {
    n <= |s| && forall k :: 0 <= k < |s| ==> (k < n <==> s[k].price != 0.0)
  }

  /** The priced slots from `from` on are in order and none of them is below an earlier one. */
  ghost predicate Settled(s: seq<Depth>, n: nat, from: int) {
    n <= |s| && forall x, y :: 0 <= x < y < n && y >= from ==> s[x].price <= s[y].price
  }

  /** What the inner loop does to slots j and j + 1. */
  function Exchanged(s: seq<Depth>, j: nat): seq<Depth>
    requires j + 1 < |s|
  {
    if s[j].price > s[j + 1].price && s[j + 1].price != 0.0 then s[j := s[j + 1]][j + 1 := s[j]] else s
  }

  ghost predicate Largest(s: seq<Depth>, n: nat, j: nat) {
    n <= |s| && (j < n ==> forall x :: 0 <= x < j ==> s[x].price <= s[j].price)
  }

  lemma ExchangeKeeps(s: seq<Depth>, n: nat, j: nat, from: nat)
    requires j + 1 < from <= |s| && Filled(s, n) && Settled(s, n, from) && Largest(s, n, j)
    ensures var t := Exchanged(s, j);
      && Filled(t, n) && Settled(t, n, from) && Largest(t, n, j + 1)
      && t[n..] == s[n..] && multiset(t[..n]) == multiset(s[..n])
  {
    var t := Exchanged(s, j);
    if t != s {
      assert j + 1 < n;
      assert t[..n] == s[..n][j := s[j + 1]][j + 1 := s[j]];
    }
  }

  method Exchange(a: array<Depth>, j: nat)
    requires j + 1 < a.Length
    modifies a
    ensures a[..] == Exchanged(old(a[..]), j)
  {
    if a[j].price > a[j + 1].price && a[j + 1].price != 0.0 {
      a[j], a[j + 1] := a[j + 1], a[j];
    }
  }

  /** One pass of the bubble sort: its last slot settles. */
  method BubblePass(a: array<Depth>, i: nat, ghost n: nat)
    requires a.Length == DEPTH_SIZE_5 && i < 4 && Filled(a[..], n) && Settled(a[..], n, 5 - i)
    modifies a
    ensures Filled(a[..], n) && Settled(a[..], n, 4 - i)
    ensures multiset(a[..n]) == multiset(old(a[..n])) && a[n..] == old(a[n..])
  {
    ghost var start := a[..];
    assert a[..n] == start[..n] && a[n..] == start[n..];
    var j := 0;
    while j < 5 - i - 1
      invariant 0 <= j <= 5 - i - 1
      invariant Filled(a[..], n) && Settled(a[..], n, 5 - i) && Largest(a[..], n, j)
      invariant multiset(a[..][..n]) == multiset(start[..n]) && a[..][n..] == start[n..]
    {
      ghost var s := a[..];
      ExchangeKeeps(s, n, j, 5 - i);
      Exchange(a, j);
      j := j + 1;
    }
    assert a[..n] == a[..][..n] && a[n..] == a[..][n..];
  }

  /** The hand-written ascending bubble sort; it never moves an empty slot. */
  method BubbleSort(a: array<Depth>, ghost n: nat)
    requires a.Length == DEPTH_SIZE_5 && Filled(a[..], n)
    modifies a
    ensures InOrder(Sell, a[..n])
    ensures multiset(a[..n]) == multiset(old(a[..n])) && a[n..] == old(a[n..])
  {
    var i := 0;
    while i < 5 - 1
      invariant 0 <= i <= 4
      invariant Filled(a[..], n) && Settled(a[..], n, 5 - i)
      invariant multiset(a[..n]) == multiset(old(a[..n])) && a[n..] == old(a[n..])
    {
      BubblePass(a, i, n);
      i := i + 1;
    }
  }

  // ---- what the sorted arrays show

  lemma KeptSorted(side: Side, ls: seq<Depth>, p: Price)
    requires Sorted(side, ls) && |ls| <= 5 && !HasPrice(ls, p)
    ensures Sorted(side, Kept(ls)) && |Kept(ls)| <= 4 && !HasPrice(Kept(ls), p)
  {
  }

  lemma PlaceMultiset(side: Side, ls: seq<Depth>, d: Depth)
    requires Sorted(side, ls) && d.price > 0.0 && !HasPrice(ls, d.price)
    ensures multiset(Place(side, ls, d)) == multiset([d] + ls)
  {
    PlaceAt(side, ls, d);
    Around(ls, d, Beating(side, ls, d.price));
  }

  lemma Around(ls: seq<Depth>, d: Depth, k: nat)
    requires k <= |ls|
    ensures multiset(ls[..k] + [d] + ls[k..]) == multiset([d] + ls)
  {
    assert ls[..k] + ls[k..] == ls;
  }

  lemma FrontSlots(side: Side, slots: seq<Depth>, ls: seq<Depth>, d: Depth)
    requires Shows(side, slots, ls)
    ensures [d] + slots[..4] == [d] + Kept(ls) + Pad(4 - |Kept(ls)|)
  {
  }

  /** A ladder with its empty slots is in order and a price names one slot value. */
  lemma PaddedInOrder(ls: seq<Depth>, n: nat)
    requires Sorted(Buy, ls)
    ensures InOrder(Buy, ls + Pad(n)) && Keyed(ls + Pad(n))
  {
  }

  lemma SortedKeyed(side: Side, ls: seq<Depth>)
    requires Sorted(side, ls)
    ensures InOrder(side, ls) && Keyed(ls)
  {
  }

  lemma SameAppended(a: seq<Depth>, b: seq<Depth>, c: seq<Depth>)
    requires multiset(a) == multiset(b)
    ensures multiset(a + c) == multiset(b + c)
  {
  }

  /** The slots after the shift, before the sort, hold the levels of the new ladder and its empty slots. */
  lemma ShiftedSlots(slots: seq<Depth>, ls: seq<Depth>, d: Depth)
    requires Shows(Buy, slots, ls) && d.price > 0.0 && !HasPrice(ls, d.price)
    ensures var r := Place(Buy, Kept(ls), d);
      && Sorted(Buy, r) && |r| <= 5
      && multiset(r + Pad(5 - |r|)) == multiset([d] + slots[..4])
  {
    var kept := Kept(ls);
    KeptSorted(Buy, ls, d.price);
    PlaceSorted(Buy, kept, d);
    PlaceMultiset(Buy, kept, d);
    FrontSlots(Buy, slots, ls, d);
    SameAppended([d] + kept, Place(Buy, kept, d), Pad(4 - |kept|));
  }

  /** Whatever the sort does, its result is these levels and their empty slots. */
  lemma SortedTo(r: seq<Depth>, n: nat, sorted: seq<Depth>)
    requires Sorted(Buy, r) && InOrder(Buy, sorted) && multiset(sorted) == multiset(r + Pad(n))
    ensures sorted == r + Pad(n)
  {
    PaddedInOrder(r, n);
    SortUnique(Buy, r + Pad(n), sorted);
  }

  lemma BuyInserted(slots: seq<Depth>, ls: seq<Depth>, p: Price, qty: int, sorted: seq<Depth>)
    requires Shows(Buy, slots, ls) && p > 0.0 && !HasPrice(ls, p)
    requires InOrder(Buy, sorted) && multiset(sorted) == multiset([Depth(p, Narrow(qty))] + slots[..4])
    ensures Shows(Buy, sorted, Insert(Buy, ls, p, qty))
  {
    var d := Depth(p, Narrow(qty));
    var r := Place(Buy, Kept(ls), d);
    ShiftedSlots(slots, ls, d);
    SortedTo(r, 5 - |r|, sorted);
  }

  lemma BuyResorted(slots: seq<Depth>, ls: seq<Depth>, sorted: seq<Depth>)
    requires Shows(Buy, slots, ls) && InOrder(Buy, sorted) && multiset(sorted) == multiset(slots)
    ensures sorted == slots
  {
    SortedTo(ls, 5 - |ls|, sorted);
  }

  lemma SellInserted(slots: seq<Depth>, ls: seq<Depth>, p: Price, qty: int, sorted: seq<Depth>)
    requires Shows(Sell, slots, ls) && p > 0.0 && !HasPrice(ls, p)
    requires |sorted| == 5
    requires var n := |Kept(ls)| + 1;
      var front := [Depth(p, Narrow(qty))] + slots[..4];
      InOrder(Sell, sorted[..n]) && multiset(sorted[..n]) == multiset(front[..n]) && sorted[n..] == front[n..]
    ensures Shows(Sell, sorted, Insert(Sell, ls, p, qty))
  {
    var d := Depth(p, Narrow(qty));
    var kept := Kept(ls);
    var n := |kept| + 1;
    KeptSorted(Sell, ls, p);
    PlaceSorted(Sell, kept, d);
    PlaceMultiset(Sell, kept, d);
    FrontSlots(Sell, slots, ls, d);
    var r := Place(Sell, kept, d);
    assert ([d] + slots[..4])[..n] == [d] + kept;
    SortedKeyed(Sell, r);
    SortUnique(Sell, r, sorted[..n]);
    assert sorted == sorted[..n] + sorted[n..];
  }

  lemma SellResorted(slots: seq<Depth>, ls: seq<Depth>, sorted: seq<Depth>)
    requires Shows(Sell, slots, ls) && |sorted| == 5
    requires var n := |ls|; InOrder(Sell, sorted[..n]) && multiset(sorted[..n]) == multiset(slots[..n]) && sorted[n..] == slots[n..]
    ensures sorted == slots
  {
    var n := |ls|;
    assert slots[..n] == ls;
    SortedKeyed(Sell, ls);
    SortUnique(Sell, ls, sorted[..n]);
    assert sorted == sorted[..n] + sorted[n..];
    assert slots == slots[..n] + slots[n..];
  }

  lemma Filling(side: Side, slots: seq<Depth>, ls: seq<Depth>)
    requires Shows(side, slots, ls)
    ensures Filled(slots, |ls|) && Shown(slots) == ls
    ensures forall p :: p > 0.0 ==> (HasPrice(ls, p) <==> HasPrice(slots, p))
  {
    ShownOf(side, slots, ls, 5 - |ls|);
    assert forall i :: 0 <= i < |ls| ==> slots[i] == ls[i];
  }

  lemma ShiftedFilling(slots: seq<Depth>, ls: seq<Depth>, d: Depth)
    requires Shows(Sell, slots, ls) && d.price > 0.0
    ensures Filled([d] + slots[..4], |Kept(ls)| + 1)
  {
    FrontSlots(Sell, slots, ls, d);
  }

  /** The slots after the sorting that ends an insert show the new levels. */
  lemma SellSorted(slots: seq<Depth>, ls: seq<Depth>, p: Price, qty: int, front: seq<Depth>, n: nat, sorted: seq<Depth>)
    requires Shows(Sell, slots, ls) && p > 0.0 && |sorted| == |front| == 5
    requires if HasPrice(ls, p) then n == |ls| && front == slots
             else n == |Kept(ls)| + 1 && front == [Depth(p, Narrow(qty))] + slots[..4]
    requires n <= 5
    requires InOrder(Sell, sorted[..n]) && multiset(sorted[..n]) == multiset(front[..n]) && sorted[n..] == front[n..]
    ensures Shows(Sell, sorted, Insert(Sell, ls, p, qty)) && Shown(sorted) == Insert(Sell, ls, p, qty)
  {
    if HasPrice(ls, p) {
      SellResorted(slots, ls, sorted);
    } else {
      SellInserted(slots, ls, p, qty, sorted);
    }
    Filling(Sell, sorted, Insert(Sell, ls, p, qty));
  }

  lemma SortedIndex(side: Side, ls: seq<Depth>, i: nat)
    requires Sorted(side, ls) && i < |ls|
    ensures HasPrice(ls, ls[i].price) && IndexOf(ls, ls[i].price) == i
  {
  }

  lemma PositionOf(side: Side, slots: seq<Depth>, ls: seq<Depth>, pos: nat)
    requires Shows(side, slots, ls) && pos < 5 && slots[pos].price > 0.0
    ensures pos < |ls| && slots[pos] == ls[pos] && HasPrice(ls, slots[pos].price) && IndexOf(ls, slots[pos].price) == pos
  {
    SortedIndex(side, ls, if pos < |ls| then pos else 0);
  }

  lemma Overwritten(side: Side, slots: seq<Depth>, ls: seq<Depth>, pos: nat, d: Depth)
    requires Shows(side, slots, ls) && pos < 5 && slots[pos].price == d.price > 0.0
    ensures HasPrice(ls, d.price) && IndexOf(ls, d.price) == pos < |ls|
    ensures Shows(side, slots[pos := d], ls[pos := d]) && Shown(slots[pos := d]) == ls[pos := d]
  {
    PositionOf(side, slots, ls, pos);
    assert slots[pos := d] == ls[pos := d] + Pad(5 - |ls|);
    ShownOf(side, slots[pos := d], ls[pos := d], 5 - |ls|);
  }

  lemma Removed(side: Side, slots: seq<Depth>, ls: seq<Depth>, pos: nat)
    requires Shows(side, slots, ls) && pos < 5 && slots[pos].price > 0.0
    ensures HasPrice(ls, slots[pos].price) && IndexOf(ls, slots[pos].price) == pos < |ls|
    ensures Shows(side, slots[..pos] + slots[pos + 1..] + [EMPTY], Without(ls, pos))
  {
    PositionOf(side, slots, ls, pos);
    WithoutSorted(side, ls, pos);
  }

  // ---- the operations on one side's array

  /** `getPositionFor...Price`: the first slot with this price; `pos` keeps its initial 0 otherwise. */
  method FindPrice(a: array<Depth>, price: Price) returns (found: bool, pos: nat)
    requires a.Length == DEPTH_SIZE_5
    ensures found <==> HasPrice(a[..], price)
    ensures found ==> pos < 5 && a[pos].price == price && forall k :: 0 <= k < pos ==> a[k].price != price
    ensures !found ==> pos == 0
  {
    found, pos := false, 0;
    var i := 0;
    while i < 5
      invariant 0 <= i <= 5 && !found && pos == 0
      invariant forall k :: 0 <= k < i ==> a[k].price != price
    {
      if price == a[i].price {
        assert a[..][i].price == price;
        return true, i;
      }
      i := i + 1;
    }
  }

  class MarketData5Depth {
    const buyDepth: array<Depth>
    const sellDepth: array<Depth>

    ghost predicate Valid()
      reads buyDepth, sellDepth
    {
      && buyDepth != sellDepth
      && Shows(Buy, buyDepth[..], BuyLevels())
      && Shows(Sell, sellDepth[..], SellLevels())
    }

    ghost function BuyLevels(): seq<Depth>
      reads buyDepth
    {
      Shown(buyDepth[..])
    }

    ghost function SellLevels(): seq<Depth>
      reads sellDepth
    {
      Shown(sellDepth[..])
    }

    constructor ()
      ensures Valid() && fresh(buyDepth) && fresh(sellDepth)
      ensures BuyLevels() == [] && SellLevels() == []
    {
      buyDepth := new Depth[DEPTH_SIZE_5](i => EMPTY);
      sellDepth := new Depth[DEPTH_SIZE_5](i => EMPTY);
      new;
      assert buyDepth[..] == Pad(5) && sellDepth[..] == Pad(5);
      assert Shows(Buy, buyDepth[..], []) && Shows(Sell, sellDepth[..], []);
      Filling(Buy, buyDepth[..], []);
      Filling(Sell, sellDepth[..], []);
    }

    method InsertBuyDepth(price: Price, qty: int)
      requires Valid() && price > 0.0
      modifies buyDepth
      ensures Valid() && BuyLevels() == Insert(Buy, old(BuyLevels()), price, qty)
    {
      ghost var slots, ls := buyDepth[..], BuyLevels();
      Filling(Buy, slots, ls);
      var found, pos := FindPrice(buyDepth, price);
      if !found {
        ShiftIn(buyDepth, pos, Depth(price, Narrow(qty)));
        assert buyDepth[..] == [Depth(price, Narrow(qty))] + slots[..4];
      }
      StdSort(buyDepth);
      if found {
        BuyResorted(slots, ls, buyDepth[..]);
      } else {
        BuyInserted(slots, ls, price, qty, buyDepth[..]);
        Filling(Buy, buyDepth[..], Insert(Buy, ls, price, qty));
      }
    }

    method InsertSellDepth(price: Price, qty: int)
      requires Valid() && price > 0.0
      modifies sellDepth
      ensures Valid() && SellLevels() == Insert(Sell, old(SellLevels()), price, qty)
    {
      ghost var slots, ls := sellDepth[..], SellLevels();
      ghost var d := Depth(price, Narrow(qty));
      Filling(Sell, slots, ls);
      var found, pos := FindPrice(sellDepth, price);
      ghost var n := |ls|;
      if !found {
        ShiftIn(sellDepth, pos, Depth(price, Narrow(qty)));
        assert sellDepth[..] == [d] + slots[..4];
        ShiftedFilling(slots, ls, d);
        n := |Kept(ls)| + 1;
      }
      ghost var front := sellDepth[..];
      BubbleSort(sellDepth, n);
      SellSorted(slots, ls, price, qty, front, n, sellDepth[..]);
    }

    method UpdateBuyDepth(price: Price, qty: int)
      requires Valid() && price > 0.0
      modifies buyDepth
      ensures Valid() && BuyLevels() == Update(old(BuyLevels()), price, qty)
    {
      ghost var ls := BuyLevels();
      Filling(Buy, buyDepth[..], ls);
      var found, pos := FindPrice(buyDepth, price);
      if found {
        buyDepth[pos] := Depth(price, Narrow(qty));
        Overwritten(Buy, old(buyDepth[..]), ls, pos, Depth(price, Narrow(qty)));
      }
      ghost var slots := buyDepth[..];
      StdSort(buyDepth);
      BuyResorted(slots, Update(ls, price, qty), buyDepth[..]);
      Filling(Buy, slots, Update(ls, price, qty));
    }

    method UpdateSellDepth(price: Price, qty: int)
      requires Valid() && price > 0.0
      modifies sellDepth
      ensures Valid() && SellLevels() == Update(old(SellLevels()), price, qty)
    {
      ghost var ls := SellLevels();
      Filling(Sell, sellDepth[..], ls);
      var found, pos := FindPrice(sellDepth, price);
      if found {
        sellDepth[pos] := Depth(price, Narrow(qty));
        Overwritten(Sell, old(sellDepth[..]), ls, pos, Depth(price, Narrow(qty)));
      }
      ghost var slots := sellDepth[..];
      Filling(Sell, slots, Update(ls, price, qty));
      BubbleSort(sellDepth, |ls|);
      SellResorted(slots, Update(ls, price, qty), sellDepth[..]);
    }

    method DeleteBuyDepth(price: Price)
      requires Valid() && price > 0.0
      modifies buyDepth
      ensures Valid()
      ensures BuyLevels() == var ls := old(BuyLevels()); if HasPrice(ls, price) then Without(ls, IndexOf(ls, price)) else ls
    {
      ghost var ls := BuyLevels();
      Filling(Buy, buyDepth[..], ls);
      var found, pos := FindPrice(buyDepth, price);
      if found {
        Removed(Buy, buyDepth[..], ls, pos);
        ShiftOut(buyDepth, pos);
        Filling(Buy, buyDepth[..], Without(ls, pos));
      }
    }

    method DeleteSellDepth(price: Price)
      requires Valid() && price > 0.0
      modifies sellDepth
      ensures Valid()
      ensures SellLevels() == var ls := old(SellLevels()); if HasPrice(ls, price) then Without(ls, IndexOf(ls, price)) else ls
    {
      ghost var ls := SellLevels();
      Filling(Sell, sellDepth[..], ls);
      var found, pos := FindPrice(sellDepth, price);
      if found {
        Removed(Sell, sellDepth[..], ls, pos);
        ShiftOut(sellDepth, pos);
        Filling(Sell, sellDepth[..], Without(ls, pos));
      }
    }

    method DeleteBuyDepthViaId(price: Price, pos: nat, qty: int)
      requires Valid() && price > 0.0 && pos < 5 && buyDepth[pos].price == price
      modifies buyDepth
      ensures Valid() && BuyLevels() == Reduce(old(BuyLevels()), price, qty)
    {
      ghost var ls := BuyLevels();
      Filling(Buy, buyDepth[..], ls);
      PositionOf(Buy, buyDepth[..], ls, pos);
      if buyDepth[pos].qty == qty {
        DeleteBuyDepth(price);
      } else if buyDepth[pos].qty > qty {
        var newQty := buyDepth[pos].qty;
        newQty := newQty - qty;
        buyDepth[pos] := buyDepth[pos].(qty := Narrow(newQty));
        Overwritten(Buy, old(buyDepth[..]), ls, pos, Depth(price, Narrow(newQty)));
      }
    }

    method DeleteSellDepthViaId(price: Price, pos: nat, qty: int)
      requires Valid() && price > 0.0 && pos < 5 && sellDepth[pos].price == price
      modifies sellDepth
      ensures Valid() && SellLevels() == Reduce(old(SellLevels()), price, qty)
    {
      ghost var ls := SellLevels();
      Filling(Sell, sellDepth[..], ls);
      PositionOf(Sell, sellDepth[..], ls, pos);
      if sellDepth[pos].qty == qty {
        DeleteSellDepth(price);
      } else if sellDepth[pos].qty > qty {
        var newQty := sellDepth[pos].qty;
        newQty := newQty - qty;
        sellDepth[pos] := sellDepth[pos].(qty := Narrow(newQty));
        Overwritten(Sell, old(sellDepth[..]), ls, pos, Depth(price, Narrow(newQty)));
      }
    }

    method CheckCorrectnessBuy() returns (ok: bool)
      requires buyDepth.Length == DEPTH_SIZE_5 && forall i :: 0 <= i < 5 ==> buyDepth[i].price >= 0.0
      ensures ok <==> BuyDescends(buyDepth[..])
    {
      var i := 1;
      while i < DEPTH_SIZE_5
        invariant 1 <= i <= 5
        invariant BuyDescends(buyDepth[..i])
      {
        if buyDepth[i].price != 0.0 && buyDepth[i].price >= buyDepth[i - 1].price {
          assert buyDepth[..][i] == buyDepth[i] && buyDepth[..][i - 1] == buyDepth[i - 1];
          return false;
        }
        if buyDepth[i - 1].qty == 0 && buyDepth[i].qty != 0 {
          assert buyDepth[..][i] == buyDepth[i] && buyDepth[..][i - 1] == buyDepth[i - 1];
          return false;
        }
        i := i + 1;
      }
      assert buyDepth[..5] == buyDepth[..];
      return true;
    }

    method CheckCorrectnessSell() returns (ok: bool)
      requires sellDepth.Length == DEPTH_SIZE_5
      ensures ok <==> SellAscends(sellDepth[..])
    {
      var i := 1;
      while i < DEPTH_SIZE_5
        invariant 1 <= i <= 5
        invariant SellAscends(sellDepth[..i])
      {
        if sellDepth[i].qty != 0 && sellDepth[i].price <= sellDepth[i - 1].price {
          assert sellDepth[..][i] == sellDepth[i] && sellDepth[..][i - 1] == sellDepth[i - 1];
          return false;
        }
        if sellDepth[i - 1].qty == 0 && sellDepth[i].qty != 0 {
          assert sellDepth[..][i] == sellDepth[i] && sellDepth[..][i - 1] == sellDepth[i - 1];
          return false;
        }
        i := i + 1;
      }
      assert sellDepth[..5] == sellDepth[..];
      return true;
    }
  }

  /** Every priced slot is below all earlier slots, and after a slot without quantity none has any. */
  ghost predicate BuyDescends(s: seq<Depth>) {
    forall i, j :: 0 <= i < j < |s| ==>
      (s[j].price != 0.0 ==> s[j].price < s[i].price) && (s[i].qty == 0 ==> s[j].qty == 0)
  }

  /** Every slot with quantity is above all earlier slots, and they have quantity too. */
  ghost predicate SellAscends(s: seq<Depth>) {
    forall i, j :: 0 <= i < j < |s| && s[j].qty != 0 ==> s[j].price > s[i].price && s[i].qty != 0
  }
}
