/**
 Which orders are live after a run, read off the positions of the updates alone.
 */
module LiveOrders {
  import opened Ladder
  import opened OrderBook
  import opened LadderLaw

  predicate IsNew(u: UpdateRecord, side: Side, id: int) {
    u.New? && u.side == side && u.id == id
  }

  /** Before position j some buy NEW of the id has had no DELETE of the id since. */
  ghost predicate OnBuy(us: seq<UpdateRecord>, j: nat, id: int)
    requires j <= |us|
  {
    exists k :: 0 <= k < j && IsNew(us[k], Buy, id) && forall m :: k < m < j ==> us[m] != Delete(id)
  }

  /** A DELETE reaches the buy side in any case, the sell side only when the id is not on the buy side. */
  ghost predicate Reaches(us: seq<UpdateRecord>, j: nat, side: Side, id: int)
    requires j < |us|
  {
    us[j] == Delete(id) && (side.Sell? ==> !OnBuy(us, j, id))
  }

  /** Since its NEW at position k the id has not been gone from the side. */
  ghost predicate Since(us: seq<UpdateRecord>, k: nat, n: nat, side: Side, id: int)
    requires k < n <= |us|
  {
    IsNew(us[k], side, id) && forall j :: k < j < n ==> !Reaches(us, j, side, id)
  }

  /** The NEW at position k is the first since the id was last gone. */
  ghost predicate Founds(us: seq<UpdateRecord>, k: nat, side: Side, id: int)
    requires k < |us|
  {
    IsNew(us[k], side, id) && forall i :: 0 <= i < k ==> !Since(us, i, k, side, id)
  }

  /** After n updates the side holds this order: what the first NEW since the id was last gone carries. */
  ghost predicate Stands(us: seq<UpdateRecord>, n: nat, side: Side, id: int, o: Order)
    requires n <= |us|
  {
    exists k :: 0 <= k < n && Founds(us, k, side, id) && Since(us, k, n, side, id) && o == Order(us[k].price, us[k].qty)
  }

  ghost function OrdersAfter(us: seq<UpdateRecord>, n: nat, side: Side): Orders
    requires n <= |us|
  {
    SideOf(Run(us[..n]), side).orders
  }

  lemma RunNext(us: seq<UpdateRecord>, n: nat)
    requires n < |us|
    ensures Run(us[..n + 1]) == Apply(Run(us[..n]), us[n])
  {
    assert us[..n + 1][..n] == us[..n];
  }

  lemma BuySince(us: seq<UpdateRecord>, n: nat, id: int)
    requires n <= |us|
    ensures OnBuy(us, n, id) <==> exists k :: 0 <= k < n && Since(us, k, n, Buy, id)
  {
    if OnBuy(us, n, id) {
      var k :| 0 <= k < n && IsNew(us[k], Buy, id) && forall m :: k < m < n ==> us[m] != Delete(id);
      assert Since(us, k, n, Buy, id);
    }
    if exists k :: 0 <= k < n && Since(us, k, n, Buy, id) {
      var k :| 0 <= k < n && Since(us, k, n, Buy, id);
      forall m | k < m < n
        ensures us[m] != Delete(id)
      {
        assert !Reaches(us, m, Buy, id);
      }
    }
  }

  lemma SinceNext(us: seq<UpdateRecord>, k: nat, n: nat, side: Side, id: int)
    requires k < n < |us|
    ensures Since(us, k, n + 1, side, id) <==> Since(us, k, n, side, id) && !Reaches(us, n, side, id)
  {
  }

  ghost predicate SomeSince(us: seq<UpdateRecord>, n: nat, side: Side, id: int)
    requires n <= |us|
  {
    exists k :: 0 <= k < n && Since(us, k, n, side, id)
  }

  lemma SomeSinceNext(us: seq<UpdateRecord>, n: nat, side: Side, id: int)
    requires n < |us|
    ensures SomeSince(us, n + 1, side, id) <==>
      IsNew(us[n], side, id) || (SomeSince(us, n, side, id) && !Reaches(us, n, side, id))
  {
    assert Since(us, n, n + 1, side, id) <==> IsNew(us[n], side, id);
    if SomeSince(us, n, side, id) && !Reaches(us, n, side, id) {
      var k :| 0 <= k < n && Since(us, k, n, side, id);
      SinceNext(us, k, n, side, id);
    }
    if SomeSince(us, n + 1, side, id) && !IsNew(us[n], side, id) {
      var k :| 0 <= k < n + 1 && Since(us, k, n + 1, side, id);
      SinceNext(us, k, n, side, id);
    }
  }

  /** What the update does to the ids of a side. */
  lemma LiveNext(us: seq<UpdateRecord>, n: nat, side: Side, id: int)
    requires n < |us| && (OnBuy(us, n, id) <==> id in OrdersAfter(us, n, Buy))
    ensures id in OrdersAfter(us, n + 1, side) <==>
      IsNew(us[n], side, id) || (id in OrdersAfter(us, n, side) && !Reaches(us, n, side, id))
  {
    RunNext(us, n);
  }

  /** The id is live exactly when some NEW of it has not been followed by a DELETE that reaches the side. */
  lemma {:induction false} LiveIsSince(us: seq<UpdateRecord>, n: nat, side: Side, id: int)
    requires n <= |us|
    ensures id in OrdersAfter(us, n, side) <==> SomeSince(us, n, side, id)
  {
    if n > 0 {
      LiveIsSince(us, n - 1, side, id);
      LiveIsSince(us, n - 1, Buy, id);
      BuySince(us, n - 1, id);
      LiveNext(us, n - 1, side, id);
      SomeSinceNext(us, n - 1, side, id);
    }
  }

  /** One update more: the order stood and is not reached, or this update is its founding NEW. */
  lemma StandsNext(us: seq<UpdateRecord>, n: nat, side: Side, id: int, o: Order)
    requires n < |us|
    ensures Stands(us, n + 1, side, id, o) <==>
      || (Stands(us, n, side, id, o) && !Reaches(us, n, side, id))
      || (Founds(us, n, side, id) && o == Order(us[n].price, us[n].qty))
  {
    forall k | 0 <= k < n
      ensures Since(us, k, n + 1, side, id) <==> Since(us, k, n, side, id) && !Reaches(us, n, side, id)
    {
      SinceNext(us, k, n, side, id);
    }
    if Founds(us, n, side, id) {
      assert Since(us, n, n + 1, side, id);
    }
  }

  ghost predicate Holds(us: seq<UpdateRecord>, n: nat, side: Side, id: int, o: Order)
    requires n <= |us|
  {
    id in OrdersAfter(us, n, side) && OrdersAfter(us, n, side)[id] == o
  }

  /** What the update does: it takes the order away, brings it, or leaves it as it is. */
  lemma HoldsNext(us: seq<UpdateRecord>, n: nat, side: Side, id: int, o: Order)
    requires n < |us|
    ensures Holds(us, n + 1, side, id, o) <==>
      || (Holds(us, n, side, id, o) && !Reaches(us, n, side, id))
      || (Founds(us, n, side, id) && o == Order(us[n].price, us[n].qty))
  {
    LiveIsSince(us, n, side, id);
    LiveIsSince(us, n, Buy, id);
    BuySince(us, n, id);
    RunNext(us, n);
  }

  /** After any run an id is live on a side with an order exactly when that order stands. */
  lemma {:induction false} OrdersOfRun(us: seq<UpdateRecord>, n: nat, side: Side, id: int, o: Order)
    requires n <= |us|
    ensures id in OrdersAfter(us, n, side) && OrdersAfter(us, n, side)[id] == o <==> Stands(us, n, side, id, o)
    decreases n
  {
    if n > 0 {
      OrdersOfRun(us, n - 1, side, id, o);
      StandsNext(us, n - 1, side, id, o);
      HoldsNext(us, n - 1, side, id, o);
    }
  }
}
