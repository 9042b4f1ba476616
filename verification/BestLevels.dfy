/** A set of prices best first, and how much of it a ladder shows. */
module BestLevels {
  import opened Wrappers
  import opened Ladder

  lemma {:induction false} BestExists(side: Side, ps: set<Price>)
    requires |ps| > 0
    ensures exists b :: b in ps && forall q :: q in ps && q != b ==> Better(side, b, q)
  {
    var x := AnyOf(ps);
    var rest := ps - {x};
    if |rest| == 0 {
      assert ps == {x};
    } else {
      BestExists(side, rest);
      var b :| b in rest && forall q :: q in rest && q != b ==> Better(side, b, q);
      var w := if Better(side, x, b) then x else b;
      forall q | q in ps && q != w
        ensures Better(side, w, q)
      {
        assert q == x || q in rest;
      }
    }
  }

  ghost function Best(side: Side, ps: set<Price>): (b: Price)
    requires |ps| > 0
    ensures b in ps && forall q :: q in ps && q != b ==> Better(side, b, q)
  {
    BestExists(side, ps);
    var b :| b in ps && forall q :: q in ps && q != b ==> Better(side, b, q);
    b
  }

  ghost function Arrange(side: Side, ps: set<Price>): seq<Price>
    decreases |ps|
  {
    if |ps| == 0 then [] else [Best(side, ps)] + Arrange(side, ps - {Best(side, ps)})
  }

  lemma {:induction false} ArrangeOrdered(side: Side, ps: set<Price>)
    ensures forall i, j :: 0 <= i < j < |Arrange(side, ps)| ==> Better(side, Arrange(side, ps)[i], Arrange(side, ps)[j])
    ensures forall p :: p in ps <==> p in Arrange(side, ps)
    decreases |ps|
  {
    if |ps| > 0 {
      var best := Best(side, ps);
      var tail := Arrange(side, ps - {best});
      ArrangeOrdered(side, ps - {best});
      forall i, j | 0 <= i < j < |[best] + tail|
        ensures Better(side, ([best] + tail)[i], ([best] + tail)[j])
      {
        assert tail[j - 1] in tail && ([best] + tail)[j] == tail[j - 1];
        if i > 0 {
          assert ([best] + tail)[i] == tail[i - 1];
        }
      }
      assert forall p :: p in [best] + tail <==> p == best || p in tail;
    }
  }

  /** Prices missing from the ladder are beaten by at least k of its levels. */
  ghost predicate Beaten(side: Side, ls: seq<Depth>, ps: set<Price>, k: int) {
    forall p :: p in ps && p !in Prices(ls) ==> Beating(side, ls, p) >= k
  }

  lemma {:induction false} PricesSize(side: Side, ls: seq<Depth>)
    requires Sorted(side, ls)
    ensures |Prices(ls)| == |ls|
  {
    if ls != [] {
      assert Without(ls, 0) == ls[1..];
      WithoutSorted(side, ls, 0);
      PricesSize(side, ls[1..]);
      assert ls[0].price in Prices(ls);
    }
  }

  lemma PricesHas(ls: seq<Depth>, p: Price)
    ensures p in Prices(ls) <==> HasPrice(ls, p)
  {
  }

  lemma {:induction false} SomeBeats(side: Side, ls: seq<Depth>, p: Price)
    requires Beating(side, ls, p) >= 1
    ensures exists q :: q in Prices(ls) && Better(side, q, p)
  {
    if Better(side, ls[0].price, p) {
      assert ls[0].price in Prices(ls);
    } else {
      SomeBeats(side, ls[1..], p);
      var q :| q in Prices(ls[1..]) && Better(side, q, p);
      var i :| 0 <= i < |ls[1..]| && ls[1..][i].price == q;
      assert ls[i + 1].price == q;
    }
  }

  /** The best of the prices leads the ladder. */
  lemma BestLeads(side: Side, ls: seq<Depth>, ps: set<Price>, k: int)
    requires Sorted(side, ls) && Prices(ls) <= ps && Beaten(side, ls, ps, k) && k >= 1 && |ps| > 0
    ensures ls != [] && ls[0].price == Best(side, ps)
  {
    var b := Best(side, ps);
    if b !in Prices(ls) {
      SomeBeats(side, ls, b);
    }
    assert b in Prices(ls);
    assert ls[0].price in Prices(ls);
  }

  lemma TailLevels(side: Side, ls: seq<Depth>, ps: set<Price>, k: int)
    requires Sorted(side, ls) && ls != [] && Prices(ls) <= ps && Beaten(side, ls, ps, k)
    ensures Sorted(side, ls[1..]) && Prices(ls[1..]) == Prices(ls) - {ls[0].price}
    ensures Beaten(side, ls[1..], ps - {ls[0].price}, k - 1)
  {
    assert Without(ls, 0) == ls[1..];
    WithoutSorted(side, ls, 0);
  }

  /** Where missing prices are beaten by k levels, the first k levels are the k best prices. */
  lemma {:induction false} FirstLevels(side: Side, ls: seq<Depth>, ps: set<Price>, k: int, i: nat)
    requires Sorted(side, ls) && Prices(ls) <= ps && Beaten(side, ls, ps, k) && i < k
    ensures i < |ls| <==> i < |Arrange(side, ps)|
    ensures i < |ls| ==> ls[i].price == Arrange(side, ps)[i]
    decreases i
  {
    if |ps| == 0 {
      PricesSize(side, ls);
    } else {
      BestLeads(side, ls, ps, k);
      if i > 0 {
        TailLevels(side, ls, ps, k);
        FirstLevels(side, ls[1..], ps - {ls[0].price}, k - 1, i - 1);
      }
    }
  }

  lemma SamePrices(side: Side, ls: seq<Depth>, ls': seq<Depth>, ps: set<Price>, k: int)
    requires |ls| == |ls'| && forall i :: 0 <= i < |ls| ==> ls'[i].price == ls[i].price
    requires Beaten(side, ls, ps, k)
    ensures Beaten(side, ls', ps, k) && Prices(ls') == Prices(ls)
  {
    forall p
      ensures Beating(side, ls', p) == Beating(side, ls, p)
    {
      BeatingSamePrices(side, ls, ls', p);
    }
    assert Prices(ls') == Prices(ls);
  }
}
