/**
 Price ladders on values: a side's levels from best to worst, and what the operations of the
 five-level ladder do to them.
 */
module Ladder {
  type Price = real

  datatype Side = Buy | Sell

  /** One slot of a ladder; (0, 0) is an empty slot. */
  datatype Depth = Depth(price: Price, qty: int)

  const EMPTY := Depth(0.0, 0)
  const MAX_QTY := 0x7fff_ffff

  predicate Better(side: Side, p: Price, q: Price) {
    if side.Buy? then p > q else p < q
  }

  /** What a 32-bit quantity keeps of a 64-bit one. */
  function Narrow(qty: int): int {
    (qty + 0x8000_0000) % 0x1_0000_0000 - 0x8000_0000
  }

  /** It is the one signed 32-bit number that differs from it by a multiple of 2^32. */
  lemma NarrowWraps(qty: int, kept: int)
    requires -0x8000_0000 <= kept < 0x8000_0000
    ensures kept == Narrow(qty) <==> (qty - kept) % 0x1_0000_0000 == 0
  {
    var low := (qty + 0x8000_0000) % 0x1_0000_0000;
    assert qty - kept == 0x1_0000_0000 * ((qty + 0x8000_0000) / 0x1_0000_0000) + (low - 0x8000_0000 - kept);
  }

  /** Levels with positive prices, each better than the next. */
  ghost predicate Sorted(side: Side, ls: seq<Depth>) {
    && (forall i :: 0 <= i < |ls| ==> ls[i].price > 0.0)
    && (forall i, j :: 0 <= i < j < |ls| ==> Better(side, ls[i].price, ls[j].price))
  }

  ghost predicate HasPrice(ls: seq<Depth>, p: Price) {
    exists i :: 0 <= i < |ls| && ls[i].price == p
  }

  ghost function IndexOf(ls: seq<Depth>, p: Price): (i: nat)
    requires HasPrice(ls, p)
    ensures i < |ls| && ls[i].price == p
  {
    var i :| 0 <= i < |ls| && ls[i].price == p; i
  }

  ghost function Prices(ls: seq<Depth>): set<Price> {
    set i | 0 <= i < |ls| :: ls[i].price
  }

  /** How many levels beat price p. */
  function Beating(side: Side, ls: seq<Depth>, p: Price): nat {
    if ls == [] then 0
    else Beating(side, ls[1..], p) + if Better(side, ls[0].price, p) then 1 else 0
  }

  /** The level goes behind the levels that beat it. */
  function Place(side: Side, ls: seq<Depth>, d: Depth): seq<Depth>
  {
    if ls == [] || !Better(side, ls[0].price, d.price) then [d] + ls
    else [ls[0]] + Place(side, ls[1..], d)
  }

  /** The levels that stay when a new one comes in at the front of the five slots. */
  function Kept(ls: seq<Depth>): seq<Depth> {
    if |ls| < 5 then ls else ls[..4]
  }

  /** The live five-level insert: a full ladder first loses its last level, whatever the new price. */
  ghost function Insert(side: Side, ls: seq<Depth>, p: Price, qty: int): seq<Depth> {
    if HasPrice(ls, p) then ls
    else Place(side, Kept(ls), Depth(p, Narrow(qty)))
  }

  ghost function Update(ls: seq<Depth>, p: Price, qty: int): seq<Depth> {
    if HasPrice(ls, p) then ls[IndexOf(ls, p) := Depth(p, Narrow(qty))] else ls
  }

  function Without(ls: seq<Depth>, i: nat): seq<Depth>
    requires i < |ls|
  {
    ls[..i] + ls[i + 1..]
  }

  /** An order of `qty` at p goes: its level goes with the last of its quantity. */
  ghost function Reduce(ls: seq<Depth>, p: Price, qty: int): seq<Depth> {
    if !HasPrice(ls, p) then ls
    else
      var i := IndexOf(ls, p);
      if ls[i].qty == qty then Without(ls, i)
      else if ls[i].qty > qty then ls[i := Depth(p, Narrow(ls[i].qty - qty))]
      else ls
  }

  // ---- slots

  function Pad(n: nat): (r: seq<Depth>)
    ensures |r| == n
  {
    seq(n, i => EMPTY)
  }

  /** The levels shown: the slots before the first empty one. */
  ghost function Shown(slots: seq<Depth>): seq<Depth> {
    if slots == [] || slots[0].price == 0.0 then [] else [slots[0]] + Shown(slots[1..])
  }

  lemma {:induction false} ShownOf(side: Side, slots: seq<Depth>, ls: seq<Depth>, n: nat)
    requires Sorted(side, ls) && slots == ls + Pad(n)
    ensures Shown(slots) == ls
  {
    if ls == [] {
    } else {
      assert slots[1..] == ls[1..] + Pad(n);
      ShownOf(side, slots[1..], ls[1..], n);
    }
  }

  // ---- facts about the operations

  /** The levels that beat a new price come first. */
  lemma {:induction false} BeatingFirst(side: Side, ls: seq<Depth>, p: Price)
    requires Sorted(side, ls) && p > 0.0 && !HasPrice(ls, p)
    ensures var k := Beating(side, ls, p);
      && k <= |ls|
      && (forall i :: 0 <= i < k ==> Better(side, ls[i].price, p))
      && (forall i :: k <= i < |ls| ==> Better(side, p, ls[i].price))
  {
    if ls == [] {
    } else if !Better(side, ls[0].price, p) {
      NoneBeating(side, ls, p);
    } else {
      BeatingFirst(side, ls[1..], p);
      assert forall i :: 0 < i < |ls| ==> ls[i] == ls[1..][i - 1];
    }
  }

  lemma {:induction false} PlaceIs(side: Side, ls: seq<Depth>, d: Depth)
    requires Sorted(side, ls) && d.price > 0.0 && !HasPrice(ls, d.price)
    requires Beating(side, ls, d.price) <= |ls|
    ensures var k := Beating(side, ls, d.price); Place(side, ls, d) == ls[..k] + [d] + ls[k..]
  {
    if ls == [] {
    } else if !Better(side, ls[0].price, d.price) {
      NoneBeating(side, ls, d.price);
    } else {
      PlaceIs(side, ls[1..], d);
      var k := Beating(side, ls[1..], d.price);
      assert ls[..k + 1] == [ls[0]] + ls[1..][..k];
      assert ls[k + 1..] == ls[1..][k..];
    }
  }

  lemma PlaceAt(side: Side, ls: seq<Depth>, d: Depth)
    requires Sorted(side, ls) && d.price > 0.0 && !HasPrice(ls, d.price)
    ensures var k := Beating(side, ls, d.price);
      && k <= |ls|
      && Place(side, ls, d) == ls[..k] + [d] + ls[k..]
      && (forall i :: 0 <= i < k ==> Better(side, ls[i].price, d.price))
      && (forall i :: k <= i < |ls| ==> Better(side, d.price, ls[i].price))
  {
    BeatingFirst(side, ls, d.price);
    PlaceIs(side, ls, d);
  }

  lemma PlacedLevels(side: Side, kept: seq<Depth>, d: Depth)
    requires Sorted(side, kept) && d.price > 0.0 && !HasPrice(kept, d.price)
    ensures var k := Beating(side, kept, d.price);
      var r := Place(side, kept, d);
      && k <= |kept| && |r| == |kept| + 1 && r[k] == d
      && forall i :: 0 <= i < |r| && i != k ==> r[i] == kept[if i < k then i else i - 1]
  {
    PlaceAt(side, kept, d);
  }

  lemma {:induction false} NoneBeating(side: Side, ls: seq<Depth>, p: Price)
    requires forall i :: 0 <= i < |ls| ==> !Better(side, ls[i].price, p)
    ensures Beating(side, ls, p) == 0
  {
    if ls != [] { NoneBeating(side, ls[1..], p); }
  }

  lemma PlacePrices(side: Side, ls: seq<Depth>, d: Depth)
    requires Sorted(side, ls) && d.price > 0.0 && !HasPrice(ls, d.price)
    ensures Prices(Place(side, ls, d)) == Prices(ls) + {d.price}
  {
    PlacedLevels(side, ls, d);
    var k := Beating(side, ls, d.price);
    var r := Place(side, ls, d);
    forall i | 0 <= i < |ls|
      ensures ls[i].price in Prices(r)
    {
      assert ls[i] == r[if i < k then i else i + 1];
    }
    assert r[k].price in Prices(r);
  }

  lemma PlaceSorted(side: Side, ls: seq<Depth>, d: Depth)
    requires Sorted(side, ls) && d.price > 0.0 && !HasPrice(ls, d.price)
    ensures Sorted(side, Place(side, ls, d)) && |Place(side, ls, d)| == |ls| + 1
    ensures Prices(Place(side, ls, d)) == Prices(ls) + {d.price}
  {
    PlacePrices(side, ls, d);
    PlacedLevels(side, ls, d);
    BeatingFirst(side, ls, d.price);
  }

  lemma {:induction false} BeatingSplit(side: Side, a: seq<Depth>, b: seq<Depth>, p: Price)
    ensures Beating(side, a + b, p) == Beating(side, a, p) + Beating(side, b, p)
  {
    if a == [] {
      assert a + b == b;
    } else {
      assert (a + b)[1..] == a[1..] + b;
      BeatingSplit(side, a[1..], b, p);
    }
  }

  lemma BeatingPlace(side: Side, ls: seq<Depth>, d: Depth, p: Price)
    requires Sorted(side, ls) && d.price > 0.0 && !HasPrice(ls, d.price)
    ensures Beating(side, Place(side, ls, d), p) == Beating(side, ls, p) + if Better(side, d.price, p) then 1 else 0
  {
    PlaceAt(side, ls, d);
    var k := Beating(side, ls, d.price);
    BeatingSplit(side, ls[..k], ls[k..], p);
    assert ls[..k] + ls[k..] == ls;
    BeatingSplit(side, ls[..k] + [d], ls[k..], p);
    BeatingSplit(side, ls[..k], [d], p);
  }

  lemma BeatingWithout(side: Side, ls: seq<Depth>, i: nat, p: Price)
    requires i < |ls|
    ensures Beating(side, ls, p) == Beating(side, Without(ls, i), p) + if Better(side, ls[i].price, p) then 1 else 0
  {
    BeatingSplit(side, ls[..i], ls[i..], p);
    assert ls[..i] + ls[i..] == ls;
    BeatingSplit(side, ls[..i], ls[i + 1..], p);
  }

  lemma {:induction false} BeatingSamePrices(side: Side, a: seq<Depth>, b: seq<Depth>, p: Price)
    requires |a| == |b| && forall i :: 0 <= i < |a| ==> a[i].price == b[i].price
    ensures Beating(side, a, p) == Beating(side, b, p)
  {
    if a != [] { BeatingSamePrices(side, a[1..], b[1..], p); }
  }

  lemma {:induction false} AllBeating(side: Side, ls: seq<Depth>, p: Price)
    requires forall i :: 0 <= i < |ls| ==> Better(side, ls[i].price, p)
    ensures Beating(side, ls, p) == |ls|
  {
    if ls != [] { AllBeating(side, ls[1..], p); }
  }

  lemma WithoutSorted(side: Side, ls: seq<Depth>, i: nat)
    requires Sorted(side, ls) && i < |ls|
    ensures Sorted(side, Without(ls, i)) && Prices(Without(ls, i)) == Prices(ls) - {ls[i].price}
  {
    var r := Without(ls, i);
    forall j | 0 <= j < |ls| && j != i
      ensures ls[j].price in Prices(r)
    {
      assert ls[j] == r[if j < i then j else j - 1];
    }
  }

  // ---- what the operations leave, level by level

  lemma PlacedMembers(side: Side, ls: seq<Depth>, d: Depth, x: Depth)
    requires Sorted(side, ls) && d.price > 0.0 && !HasPrice(ls, d.price)
    ensures x in Place(side, ls, d) <==> x == d || x in ls
  {
    PlaceAt(side, ls, d);
    TwoPieces(ls, Beating(side, ls, d.price));
  }

  lemma TwoPieces(ls: seq<Depth>, k: nat)
    requires k <= |ls|
    ensures ls == ls[..k] + ls[k..]
  {
  }

  lemma KeptLevels(side: Side, ls: seq<Depth>, p: Price, x: Depth)
    requires Sorted(side, ls) && |ls| <= 5
    ensures Sorted(side, Kept(ls)) && (HasPrice(Kept(ls), p) ==> HasPrice(ls, p))
    ensures x in Kept(ls) <==> exists i :: 0 <= i < |ls| && i < 4 && ls[i] == x
  {
  }

  /** After an insert of a price that is not shown: the new level, and the old ones but for the fifth. */
  lemma InsertedLevels(side: Side, ls: seq<Depth>, p: Price, qty: int, x: Depth)
    requires Sorted(side, ls) && |ls| <= 5 && p > 0.0 && !HasPrice(ls, p)
    ensures Sorted(side, Insert(side, ls, p, qty))
    ensures x in Insert(side, ls, p, qty) <==>
      x == Depth(p, Narrow(qty)) || exists i :: 0 <= i < |ls| && i < 4 && ls[i] == x
  {
    var kept, d := Kept(ls), Depth(p, Narrow(qty));
    KeptLevels(side, ls, p, x);
    PlaceSorted(side, kept, d);
    PlacedMembers(side, kept, d, x);
  }

  /** After an update: the price's level has the new quantity, all others are as before. */
  lemma UpdatedLevels(side: Side, ls: seq<Depth>, p: Price, qty: int, x: Depth)
    requires Sorted(side, ls)
    ensures Sorted(side, Update(ls, p, qty))
    ensures x in Update(ls, p, qty) <==>
      (x in ls && x.price != p) || (HasPrice(ls, p) && x == Depth(p, Narrow(qty)))
  {
    if HasPrice(ls, p) {
      Replaced(side, ls, IndexOf(ls, p), Depth(p, Narrow(qty)), x);
    }
  }

  lemma Replaced(side: Side, ls: seq<Depth>, i: nat, d: Depth, x: Depth)
    requires Sorted(side, ls) && i < |ls| && ls[i].price == d.price
    ensures Sorted(side, ls[i := d])
    ensures x in ls[i := d] <==> (x in ls && x.price != d.price) || x == d
  {
    var r := ls[i := d];
    assert r[i] == d;
    if x in ls && x.price != d.price {
      var j :| 0 <= j < |ls| && ls[j] == x;
      assert r[j] == x;
    }
    if x in r && x != d {
      var j :| 0 <= j < |r| && r[j] == x;
      assert ls[j] == x && (ls[j].price == ls[i].price ==> j == i);
    }
  }

  /** What is left of a level when an order of that quantity goes: nothing of an equal one, the difference
      of a larger one, and all of a smaller one. */
  ghost predicate Remains(ls: seq<Depth>, qty: int, x: Depth) {
    exists y :: y in ls && y.price == x.price
             && ((y.qty > qty && x.qty == Narrow(y.qty - qty)) || (y.qty < qty && x.qty == y.qty))
  }

  /** After an order's deletion: the others as before, and what remains of its level. */
  lemma ReducedLevels(side: Side, ls: seq<Depth>, p: Price, qty: int, x: Depth)
    requires Sorted(side, ls)
    ensures Sorted(side, Reduce(ls, p, qty))
    ensures x in Reduce(ls, p, qty) <==> if x.price != p then x in ls else Remains(ls, qty, x)
  {
    if HasPrice(ls, p) {
      var i := IndexOf(ls, p);
      assert forall y :: y in ls && y.price == p ==> y == ls[i];
      if ls[i].qty == qty {
        WithoutSorted(side, ls, i);
        assert ls == ls[..i] + [ls[i]] + ls[i + 1..];
        assert x in Without(ls, i) ==> x.price in Prices(Without(ls, i));
      } else if ls[i].qty > qty {
        Replaced(side, ls, i, Depth(p, Narrow(ls[i].qty - qty)), x);
      }
    } else {
      assert x in ls ==> x.price != p;
    }
  }
}
