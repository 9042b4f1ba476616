/**
 The ladder that keeps its slots sorted by searching for the position (`MarketData` with 20 slots,
 the five-slot variant in MarketDepth_5.cpp), and how much of the full price map it shows.
 */
module PositionLadder {
  import opened Ladder
  import opened BestLevels
  import opened SlotArrays

  // ---- on values

  function Take(ls: seq<Depth>, n: nat): seq<Depth> {
    if |ls| <= n then ls else ls[..n]
  }

  /** The level goes to its place; a full ladder loses its last level, or the newcomer if that is last. */
  ghost function InsertSorted(side: Side, ls: seq<Depth>, n: nat, p: Price, qty: int): seq<Depth> {
    if HasPrice(ls, p) then ls else Take(Place(side, ls, Depth(p, qty)), n)
  }

  ghost function Overwrite(ls: seq<Depth>, p: Price, qty: int): seq<Depth> {
    if HasPrice(ls, p) then ls[IndexOf(ls, p) := Depth(p, qty)] else ls
  }

  ghost function Remove(ls: seq<Depth>, p: Price): seq<Depth> {
    if HasPrice(ls, p) then Without(ls, IndexOf(ls, p)) else ls
  }

  /** A side's whole price map, and the ladder beside it. */
  datatype Levels = Levels(all: map<Price, int>, shown: seq<Depth>)

  datatype Op = Insert(price: Price, qty: int) | Update(price: Price, qty: int) | Delete(price: Price)

  ghost function Do(side: Side, n: nat, s: Levels, op: Op): Levels {
    match op
    case Insert(p, q) => Levels(s.all[p := q], InsertSorted(side, s.shown, n, p, q))
    case Update(p, q) => Levels(s.all[p := q], Overwrite(s.shown, p, q))
    case Delete(p) => Levels(s.all - {p}, Remove(s.shown, p))
  }

  /** INSERT is for a price that has no level yet, the others for one that has. */
  ghost predicate Proper(s: Levels, op: Op) {
    op.price > 0.0 && (op.Insert? <==> op.price !in s.all)
  }

  ghost function DoAll(side: Side, n: nat, ops: seq<Op>): Levels {
    if ops == [] then Levels(map[], []) else Do(side, n, DoAll(side, n, ops[..|ops| - 1]), ops[|ops| - 1])
  }

  ghost predicate ProperRun(side: Side, n: nat, ops: seq<Op>) {
    forall k :: 0 <= k < |ops| ==> Proper(DoAll(side, n, ops[..k]), ops[k])
  }

  /** How many deletions were of a price with a level, since every price was last shown. */
  ghost function Lost(side: Side, n: nat, ops: seq<Op>): nat {
    if ops == [] then 0
    else
      var m := |ops| - 1;
      var before, after := DoAll(side, n, ops[..m]), DoAll(side, n, ops);
      if Prices(after.shown) == after.all.Keys then 0
      else Lost(side, n, ops[..m]) + if ops[m].Delete? && HasPrice(before.shown, ops[m].price) then 1 else 0
  }

  /** The ladder is a sorted part of the price map with equal quantities. */
  ghost predicate PartOf(side: Side, n: nat, s: Levels) {
    && Sorted(side, s.shown) && |s.shown| <= n
    && (forall p :: p in s.all ==> p > 0.0)
    && (forall i :: 0 <= i < |s.shown| ==> s.shown[i].price in s.all && s.shown[i].qty == s.all[s.shown[i].price])
  }

  lemma PartPrices(side: Side, n: nat, s: Levels)
    requires PartOf(side, n, s)
    ensures Prices(s.shown) <= s.all.Keys
  {
  }

  lemma InsertBeatenN(side: Side, ls: seq<Depth>, ps: set<Price>, n: nat, d: Depth, k: int)
    requires Sorted(side, ls) && |ls| <= n && Prices(ls) <= ps && Beaten(side, ls, ps, k) && k <= n
    requires d.price > 0.0 && !HasPrice(ls, d.price)
    ensures Beaten(side, Take(Place(side, ls, d), n), ps + {d.price}, k)
  {
    var r := Place(side, ls, d);
    PlaceSorted(side, ls, d);
    if |ls| == n {
      assert Without(r, n) == r[..n];
      WithoutSorted(side, r, n);
      forall p | p in ps + {d.price} && p !in Prices(r[..n])
        ensures Beating(side, r[..n], p) >= k
      {
        BeatingPlace(side, ls, d, p);
        BeatingWithout(side, r, n, p);
        if p == r[n].price || Better(side, r[n].price, p) { AllBeating(side, r[..n], p); }
      }
    } else {
      forall p | p in ps + {d.price} && p !in Prices(r)
        ensures Beating(side, r, p) >= k
      {
        BeatingPlace(side, ls, d, p);
      }
    }
  }

  lemma InsertPart(side: Side, n: nat, s: Levels, p: Price, qty: int)
    requires PartOf(side, n, s) && p > 0.0 && p !in s.all
    ensures !HasPrice(s.shown, p) && PartOf(side, n, Do(side, n, s, Insert(p, qty)))
    ensures |InsertSorted(side, s.shown, n, p, qty)| >= |s.shown|
  {
    var d := Depth(p, qty);
    var k := Beating(side, s.shown, p);
    assert !HasPrice(s.shown, p);
    PlacedLevels(side, s.shown, d);
    PlaceSorted(side, s.shown, d);
    var r := Place(side, s.shown, d);
    forall i | 0 <= i < |r|
      ensures r[i].price in s.all[p := qty] && r[i].qty == s.all[p := qty][r[i].price]
    {
      assert i != k ==> r[i] == s.shown[if i < k then i else i - 1];
    }
  }

  lemma InsertKeeps(side: Side, n: nat, s: Levels, p: Price, qty: int, k: int)
    requires PartOf(side, n, s) && p > 0.0 && p !in s.all
    requires Beaten(side, s.shown, s.all.Keys, k) && k <= n
    ensures var s' := Do(side, n, s, Insert(p, qty));
      PartOf(side, n, s') && Beaten(side, s'.shown, s'.all.Keys, k) && |s'.shown| >= |s.shown|
  {
    InsertPart(side, n, s, p, qty);
    PartPrices(side, n, s);
    InsertBeatenN(side, s.shown, s.all.Keys, n, Depth(p, qty), k);
  }

  lemma UpdateKeeps(side: Side, n: nat, s: Levels, p: Price, qty: int, k: int)
    requires PartOf(side, n, s) && p in s.all && Beaten(side, s.shown, s.all.Keys, k)
    ensures var s' := Do(side, n, s, Update(p, qty));
      PartOf(side, n, s') && Beaten(side, s'.shown, s'.all.Keys, k) && |s'.shown| == |s.shown|
  {
    var s' := Do(side, n, s, Update(p, qty));
    assert s'.all.Keys == s.all.Keys;
    SamePrices(side, s.shown, s'.shown, s.all.Keys, k);
  }

  lemma DeleteKeeps(side: Side, n: nat, s: Levels, p: Price, k: int)
    requires PartOf(side, n, s) && p in s.all && Beaten(side, s.shown, s.all.Keys, k)
    ensures var s' := Do(side, n, s, Delete(p));
      && PartOf(side, n, s') && |s'.shown| <= |s.shown|
      && Beaten(side, s'.shown, s'.all.Keys, if HasPrice(s.shown, p) then k - 1 else k)
  {
    if HasPrice(s.shown, p) {
      var i := IndexOf(s.shown, p);
      WithoutSorted(side, s.shown, i);
      forall q | q in s.all.Keys - {p} && q !in Prices(Without(s.shown, i))
        ensures Beating(side, Without(s.shown, i), q) >= k - 1
      {
        BeatingWithout(side, s.shown, i, q);
      }
      assert (s.all - {p}).Keys == s.all.Keys - {p};
    }
  }

  lemma {:induction false} RunKeeps(side: Side, n: nat, ops: seq<Op>)
    requires ProperRun(side, n, ops)
    ensures var s := DoAll(side, n, ops);
      PartOf(side, n, s) && Beaten(side, s.shown, s.all.Keys, n - Lost(side, n, ops))
    decreases |ops|
  {
    if ops != [] {
      var m := |ops| - 1;
      forall k | 0 <= k < m
        ensures Proper(DoAll(side, n, ops[..m][..k]), ops[..m][k])
      {
        assert ops[..m][..k] == ops[..k];
      }
      RunKeeps(side, n, ops[..m]);
      var s, k := DoAll(side, n, ops[..m]), n - Lost(side, n, ops[..m]);
      match ops[m]
      case Insert(p, q) => InsertKeeps(side, n, s, p, q, k);
      case Update(p, q) => UpdateKeeps(side, n, s, p, q, k);
      case Delete(p) => DeleteKeeps(side, n, s, p, k);
    }
  }

  /**
   After any run the ladder is a sorted part of the price map, and its first n - d levels are the
   n - d best prices, d being the deletions of a price with a level since the ladder last showed every
   price.
   */
  lemma ShowsBest(side: Side, n: nat, ops: seq<Op>, i: nat)
    requires ProperRun(side, n, ops)
    ensures var s := DoAll(side, n, ops);
      var best := Arrange(side, s.all.Keys);
      && PartOf(side, n, s)
      && (i < n - Lost(side, n, ops) ==>
            && (i < |s.shown| <==> i < |best|)
            && (i < |s.shown| ==> s.shown[i].price == best[i] && s.shown[i].qty == s.all[best[i]]))
  {
    RunKeeps(side, n, ops);
    var s := DoAll(side, n, ops);
    PartPrices(side, n, s);
    if i < n - Lost(side, n, ops) {
      FirstLevels(side, s.shown, s.all.Keys, n - Lost(side, n, ops), i);
    }
  }

  lemma {:induction false} NothingLost(side: Side, n: nat, ops: seq<Op>)
    requires ProperRun(side, n, ops) && forall k :: 0 <= k < |ops| ==> !ops[k].Delete?
    ensures Lost(side, n, ops) == 0
    decreases |ops|
  {
    if ops != [] {
      var m := |ops| - 1;
      forall k | 0 <= k < m
        ensures Proper(DoAll(side, n, ops[..m][..k]), ops[..m][k])
      {
        assert ops[..m][..k] == ops[..k];
      }
      NothingLost(side, n, ops[..m]);
      RunKeeps(side, n, ops[..m]);
      var s, k := DoAll(side, n, ops[..m]), n - Lost(side, n, ops[..m]);
      match ops[m]
      case Insert(p, q) => InsertKeeps(side, n, s, p, q, k);
      case Update(p, q) => UpdateKeeps(side, n, s, p, q, k);
      case Delete(_) =>
    }
  }

  /** Without deletions the ladder is exactly the best n of the price map. */
  lemma BestUnderInserts(side: Side, n: nat, ops: seq<Op>, i: nat)
    requires ProperRun(side, n, ops) && forall k :: 0 <= k < |ops| ==> !ops[k].Delete?
    ensures var s := DoAll(side, n, ops);
      var best := Arrange(side, s.all.Keys);
      && (i < |s.shown| <==> i < n && i < |best|)
      && (i < |s.shown| ==> s.shown[i].price == best[i] && best[i] in s.all && s.shown[i].qty == s.all[best[i]])
  {
    NothingLost(side, n, ops);
    ShowsBest(side, n, ops, i);
  }

  // ---- what each operation leaves, level by level

  /** A deletion takes the level of its price and no other. */
  lemma RemovedLevels(side: Side, ls: seq<Depth>, p: Price, d: Depth)
    requires Sorted(side, ls)
    ensures Sorted(side, Remove(ls, p)) && (d in Remove(ls, p) <==> d in ls && d.price != p)
  {
    if HasPrice(ls, p) {
      var k := IndexOf(ls, p);
      WithoutSorted(side, ls, k);
      if d in ls && d.price != p {
        var i :| 0 <= i < |ls| && ls[i] == d;
        assert Without(ls, k)[if i < k then i else i - 1] == d;
      }
    }
  }

  /** An update gives the level of its price the new quantity; a price without one gets none. */
  lemma OverwrittenLevels(side: Side, ls: seq<Depth>, p: Price, qty: int, d: Depth)
    requires Sorted(side, ls)
    ensures Sorted(side, Overwrite(ls, p, qty))
    ensures d in Overwrite(ls, p, qty) <==> if d.price == p then HasPrice(ls, p) && d.qty == qty else d in ls
  {
    var r := Overwrite(ls, p, qty);
    if HasPrice(ls, p) {
      var k := IndexOf(ls, p);
      if d.price == p && d.qty == qty {
        assert r[k] == d;
      }
      if d.price != p && d in ls {
        var i :| 0 <= i < |ls| && ls[i] == d;
        assert r[i] == d;
      }
    }
  }

  lemma PlacedMembers(side: Side, ls: seq<Depth>, level: Depth, d: Depth)
    requires Sorted(side, ls) && level.price > 0.0 && !HasPrice(ls, level.price)
    ensures d in Place(side, ls, level) <==> d in ls || d == level
  {
    PlaceAt(side, ls, level);
    var k := Beating(side, ls, level.price);
    assert ls == ls[..k] + ls[k..];
  }

  lemma CutLast(side: Side, ls: seq<Depth>, n: nat, d: Depth)
    requires Sorted(side, ls) && |ls| == n + 1
    ensures Sorted(side, ls[..n])
    ensures d in ls && d !in ls[..n] ==> forall i :: 0 <= i < n ==> Better(side, ls[i].price, d.price)
  {
    assert ls == ls[..n] + [ls[n]];
  }

  /** An insertion adds the level of its price; only a ladder that was full loses one, which all others beat. */
  lemma InsertedLevels(side: Side, ls: seq<Depth>, n: nat, p: Price, qty: int, d: Depth)
    requires Sorted(side, ls) && |ls| <= n && p > 0.0 && !HasPrice(ls, p)
    ensures var r := InsertSorted(side, ls, n, p, qty);
      && Sorted(side, r) && |r| == (if |ls| < n then |ls| + 1 else n)
      && (d in r ==> d in ls || d == Depth(p, qty))
      && ((d in ls || d == Depth(p, qty)) && d !in r ==>
            |ls| == n && forall i :: 0 <= i < n ==> Better(side, r[i].price, d.price))
  {
    var full := Place(side, ls, Depth(p, qty));
    PlaceSorted(side, ls, Depth(p, qty));
    PlacedMembers(side, ls, Depth(p, qty), d);
    if |ls| == n {
      CutLast(side, full, n, d);
    }
  }

  // ---- the price map, read off the operations

  /** The last operation on the price gave it this quantity. */
  ghost predicate LastGave(ops: seq<Op>, n: nat, p: Price, qty: int)
    requires n <= |ops|
  {
    exists k :: 0 <= k < n && (ops[k] == Insert(p, qty) || ops[k] == Update(p, qty))
             && forall j :: k < j < n ==> ops[j].price != p
  }

  /** The full price map holds what the last operation on each price gave it, and nothing deleted last. */
  lemma {:induction false} MapOfRun(side: Side, size: nat, ops: seq<Op>, n: nat, p: Price, qty: int)
    requires n <= |ops|
    ensures var all := DoAll(side, size, ops[..n]).all;
      p in all && all[p] == qty <==> LastGave(ops, n, p, qty)
  {
    if n > 0 {
      var m := n - 1;
      MapOfRun(side, size, ops, m, p, qty);
      assert ops[..n][..m] == ops[..m];
      if ops[m].price == p {
        assert LastGave(ops, n, p, qty) <==> ops[m] == Insert(p, qty) || ops[m] == Update(p, qty);
      } else {
        LastGaveNext(ops, m, p, qty);
      }
    }
  }

  lemma LastGaveNext(ops: seq<Op>, m: nat, p: Price, qty: int)
    requires m < |ops| && ops[m].price != p
    ensures LastGave(ops, m + 1, p, qty) <==> LastGave(ops, m, p, qty)
  {
    if LastGave(ops, m, p, qty) {
      var k :| 0 <= k < m && (ops[k] == Insert(p, qty) || ops[k] == Update(p, qty))
            && forall j :: k < j < m ==> ops[j].price != p;
      assert forall j :: k < j < m + 1 ==> ops[j].price != p;
    }
  }

  // ---- in place

  ghost predicate Filled(side: Side, slots: seq<Depth>, ls: seq<Depth>) {
    |ls| <= |slots| && Sorted(side, ls) && slots == ls + Pad(|slots| - |ls|)
  }

  lemma FilledShown(side: Side, slots: seq<Depth>, ls: seq<Depth>)
    requires Filled(side, slots, ls)
    ensures Shown(slots) == ls
  {
    ShownOf(side, slots, ls, |slots| - |ls|);
  }

  lemma PositionBeats(side: Side, ls: seq<Depth>, p: Price, k: nat)
    requires k <= |ls|
    requires forall i :: 0 <= i < k ==> Better(side, ls[i].price, p)
    requires forall i :: k <= i < |ls| ==> !Better(side, ls[i].price, p)
    ensures Beating(side, ls, p) == k
  {
    assert ls == ls[..k] + ls[k..];
    BeatingSplit(side, ls[..k], ls[k..], p);
    AllBeating(side, ls[..k], p);
    NoneBeating(side, ls[k..], p);
  }

  lemma PositionFacts(side: Side, ls: seq<Depth>, p: Price, k: nat)
    requires Sorted(side, ls) && k <= |ls|
    requires forall i :: 0 <= i < k ==> Better(side, ls[i].price, p)
    requires k < |ls| ==> !Better(side, ls[k].price, p)
    ensures Beating(side, ls, p) == k
    ensures HasPrice(ls, p) <==> k < |ls| && ls[k].price == p
    ensures HasPrice(ls, p) ==> IndexOf(ls, p) == k
  {
    PositionBeats(side, ls, p, k);
  }

  /** UNSIGNED_INT_16, the quantity parameter of these ladders. */
  type Uint16 = x: int | 0 <= x < 0x1_0000

  /** One side's slots: 20 of them in `MarketData`, 5 in MarketDepth_5.cpp. */
  class SortedDepth {
    const side: Side
    const depth: array<Depth>

    ghost predicate Valid()
      reads depth
    {
      Filled(side, depth[..], Shown(depth[..]))
    }

    constructor (side: Side, size: nat)
      ensures Valid() && fresh(depth) && depth.Length == size && this.side == side && Shown(depth[..]) == []
    {
      this.side := side;
      depth := new Depth[size](i => EMPTY);
      new;
      assert depth[..] == Pad(size);
      FilledShown(side, depth[..], []);
    }

    /** `getPositionFor...Price`: where the price is, or where it would go. */
    method GetPosition(price: Price) returns (found: bool, pos: nat)
      requires Valid()
      ensures found <==> HasPrice(Shown(depth[..]), price)
      ensures pos == Beating(side, Shown(depth[..]), price) <= |Shown(depth[..])|
      ensures found ==> pos == IndexOf(Shown(depth[..]), price)
    {
      ghost var ls := Shown(depth[..]);
      assert forall i :: 0 <= i < depth.Length ==> depth[i] == if i < |ls| then ls[i] else EMPTY;
      found, pos := false, 0;
      while pos < depth.Length && depth[pos] != EMPTY
        invariant 0 <= pos <= |ls| && !found
        invariant forall i :: 0 <= i < pos ==> Better(side, ls[i].price, price)
      {
        if price == depth[pos].price {
          found := true;
          break;
        }
        if Better(side, price, depth[pos].price) {
          break;
        }
        pos := pos + 1;
      }
      PositionFacts(side, ls, price, pos);
    }

    method Insert(price: Price, qty: Uint16)
      requires Valid() && price > 0.0
      modifies depth
      ensures Valid() && Shown(depth[..]) == InsertSorted(side, old(Shown(depth[..])), depth.Length, price, qty)
    {
      ghost var ls, slots, d := Shown(depth[..]), depth[..], Depth(price, qty);
      var found, pos := GetPosition(price);
      if !found {
        if pos >= depth.Length {
          WorseThanAll(side, ls, d);
          return;
        }
        ShiftIn(depth, pos, Depth(price, qty));
        InsertedSlots(side, slots, ls, d, depth[..]);
      }
    }

    method Update(price: Price, qty: Uint16)
      requires Valid() && price > 0.0
      modifies depth
      ensures Valid() && Shown(depth[..]) == Overwrite(old(Shown(depth[..])), price, qty)
    {
      ghost var ls := Shown(depth[..]);
      var found, pos := GetPosition(price);
      if found {
        depth[pos] := Depth(price, qty);
        FilledShown(side, depth[..], Overwrite(ls, price, qty));
      }
    }

    method Delete(price: Price)
      requires Valid() && price > 0.0
      modifies depth
      ensures Valid() && Shown(depth[..]) == Remove(old(Shown(depth[..])), price)
    {
      ghost var ls, slots := Shown(depth[..]), depth[..];
      var found, pos := GetPosition(price);
      if found {
        ShiftOut(depth, pos);
        RemovedSlots(side, slots, ls, pos, depth[..]);
      }
    }
  }

  lemma RemovedIs(slots: seq<Depth>, ls: seq<Depth>, pos: nat, slots': seq<Depth>)
    requires pos < |ls| <= |slots| && slots == ls + Pad(|slots| - |ls|)
    requires slots' == slots[..pos] + slots[pos + 1..] + [EMPTY]
    ensures slots' == Without(ls, pos) + Pad(|slots| - |ls| + 1)
  {
    var n := |slots|;
    assert slots[..pos] == ls[..pos] && slots[pos + 1..] == ls[pos + 1..] + Pad(n - |ls|);
    assert Pad(n - |ls|) + [EMPTY] == Pad(n - |ls| + 1);
  }

  lemma RemovedSlots(side: Side, slots: seq<Depth>, ls: seq<Depth>, pos: nat, slots': seq<Depth>)
    requires Filled(side, slots, ls) && pos < |ls|
    requires slots' == slots[..pos] + slots[pos + 1..] + [EMPTY]
    ensures Filled(side, slots', Without(ls, pos)) && Shown(slots') == Without(ls, pos)
  {
    WithoutSorted(side, ls, pos);
    RemovedIs(slots, ls, pos, slots');
    FilledShown(side, slots', Without(ls, pos));
  }

  /** A newcomer behind every level of a full ladder changes nothing. */
  lemma WorseThanAll(side: Side, ls: seq<Depth>, d: Depth)
    requires Sorted(side, ls) && d.price > 0.0 && !HasPrice(ls, d.price) && Beating(side, ls, d.price) == |ls|
    ensures Take(Place(side, ls, d), |ls|) == ls
  {
    PlaceAt(side, ls, d);
  }

  lemma InsertedIs(side: Side, slots: seq<Depth>, ls: seq<Depth>, d: Depth, slots': seq<Depth>)
    requires |ls| <= |slots| && slots == ls + Pad(|slots| - |ls|) && |slots'| == |slots|
    requires var pos := Beating(side, ls, d.price);
      && pos < |slots| && pos <= |ls|
      && slots' == slots[..pos] + [d] + slots[pos..|slots| - 1]
      && Place(side, ls, d) == ls[..pos] + [d] + ls[pos..]
    ensures var r := Take(Place(side, ls, d), |slots|); |r| <= |slots| && slots' == r + Pad(|slots| - |r|)
  {
    var n, k := |slots|, Beating(side, ls, d.price);
    var r := Take(Place(side, ls, d), n);
    forall i | 0 <= i < n
      ensures slots'[i] == (r + Pad(n - |r|))[i]
    {
      assert i > k ==> slots'[i] == slots[i - 1];
    }
  }

  lemma InsertedSlots(side: Side, slots: seq<Depth>, ls: seq<Depth>, d: Depth, slots': seq<Depth>)
    requires Filled(side, slots, ls) && d.price > 0.0 && !HasPrice(ls, d.price) && |slots'| == |slots|
    requires var pos := Beating(side, ls, d.price);
      && pos < |slots| && pos <= |ls|
      && slots' == slots[..pos] + [d] + slots[pos..|slots| - 1]
    ensures Filled(side, slots', Take(Place(side, ls, d), |slots|))
    ensures Shown(slots') == Take(Place(side, ls, d), |slots|)
  {
    PlaceAt(side, ls, d);
    InsertedIs(side, slots, ls, d, slots');
    PlaceSorted(side, ls, d);
    FilledShown(side, slots', Take(Place(side, ls, d), |slots|));
  }
}
