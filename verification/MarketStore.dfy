/** The stores of all symbols (`MarketDataStore`) and the batches of updates they are fed. */
module MarketStore {
  import opened Ladder
  import opened MarketDepth
  import opened OrderBook
  import opened SymbolStore

  datatype Symbol = Symbol(name: string)

  datatype Record = Record(symbol: Symbol, update: UpdateRecord)

  /** What is sent for a symbol: the five slots of each side. */
  datatype Published = Published(symbol: Symbol, buy: seq<Depth>, sell: seq<Depth>)

  /** The updates of one symbol in a batch. */
  function Own(batch: seq<Record>, symbol: Symbol): seq<UpdateRecord> {
    if batch == [] then []
    else
      var last := batch[|batch| - 1];
      Own(batch[..|batch| - 1], symbol) + if last.symbol == symbol then [last.update] else []
  }

  /** Each record of a symbol gives the symbol's next update. */
  lemma {:induction false} OwnAt(batch: seq<Record>, symbol: Symbol, i: nat)
    requires i < |batch| && batch[i].symbol == symbol
    ensures var k := |Own(batch[..i], symbol)|;
      k < |Own(batch, symbol)| && Own(batch, symbol)[k] == batch[i].update
    decreases |batch|
  {
    var n := |batch|;
    if i < n - 1 {
      OwnAt(batch[..n - 1], symbol, i);
      assert batch[..n - 1][..i] == batch[..i];
    }
  }

  /** And each update of a symbol comes from such a record. */
  lemma {:induction false} OwnFrom(batch: seq<Record>, symbol: Symbol, k: nat) returns (i: nat)
    requires k < |Own(batch, symbol)|
    ensures i < |batch| && batch[i].symbol == symbol && |Own(batch[..i], symbol)| == k
    decreases |batch|
  {
    var n := |batch|;
    if k < |Own(batch[..n - 1], symbol)| {
      i := OwnFrom(batch[..n - 1], symbol, k);
      assert batch[..n - 1][..i] == batch[..i];
    } else {
      i := n - 1;
    }
  }

  function Symbols(batch: seq<Record>): set<Symbol> {
    set r | r in batch :: r.symbol
  }

  /** The slots sent show exactly the ladders of this book. */
  ghost predicate Sends(p: Published, b: Book) {
    Shows(Buy, p.buy, b.buy.levels) && Shows(Sell, p.sell, b.sell.levels)
  }

  lemma OwnAppend(batch: seq<Record>, i: nat, symbol: Symbol, b: Book)
    requires i < |batch|
    ensures ApplyAll(b, Own(batch[..i + 1], symbol)) ==
      if batch[i].symbol == symbol then Apply(ApplyAll(b, Own(batch[..i], symbol)), batch[i].update)
      else ApplyAll(b, Own(batch[..i], symbol))
  {
    assert batch[..i + 1][..i] == batch[..i];
    var us := Own(batch[..i], symbol);
    assert (us + [batch[i].update])[..|us|] == us;
    assert us + [] == us;
  }

  /** The books after one record: an unknown symbol's record changes nothing. */
  ghost function ApplyTo(books: map<Symbol, Book>, r: Record): map<Symbol, Book> {
    if r.symbol in books then books[r.symbol := Apply(books[r.symbol], r.update)] else books
  }

  class MarketDataStore {
    var dataMap: map<Symbol, SymbolDataStore>
    var registered: set<Symbol>    // _registeredSymbols, by the symbol of the store pointed to
    var sent: seq<Published>       // what the publisher was given
    ghost var Owned: set<object>   // the objects the stores are made of
    ghost var Books: map<Symbol, Book>   // the stores as values

    ghost predicate Valid()
      reads this, Owned
    {
      && this !in Owned
      && registered <= dataMap.Keys == Books.Keys
      && (forall s {:trigger StoreValid(s)} :: s in dataMap ==> StoreValid(s))
      && (forall s, t {:trigger Apart(s, t)} :: s in dataMap && t in dataMap && s != t ==> Apart(s, t))
    }

    ghost predicate StoreValid(s: Symbol)
      requires s in dataMap && s in Books
      reads this`dataMap, this`Books, this`Owned, Owned
    {
      && dataMap[s] in Owned && dataMap[s].Repr <= Owned
      && dataMap[s].Valid() && dataMap[s].Contents() == Books[s]
    }

    ghost predicate Apart(s: Symbol, t: Symbol)
      requires s in dataMap && t in dataMap
      reads this`dataMap
    {
      dataMap[s].Repr !! dataMap[t].Repr
    }

    constructor ()
      ensures Valid() && Books == map[] && registered == {} && sent == []
    {
      dataMap, registered, sent, Owned, Books := map[], {}, [], {}, map[];
    }

    method UpdateMDForTT(symbol: Symbol)
      requires Valid()
      modifies this`dataMap, this`Owned, this`Books
      ensures Valid() && Books == if symbol in old(Books) then old(Books) else old(Books)[symbol := EMPTY_BOOK]
    {
      if symbol !in dataMap {
        var store := new SymbolDataStore();
        dataMap := dataMap[symbol := store];
        Owned := Owned + store.Repr;
        Books := Books[symbol := EMPTY_BOOK];
        forall s | s in dataMap
          ensures StoreValid(s)
        {
          if s != symbol { assert old(StoreValid(s)); }
        }
        forall s, t | s in dataMap && t in dataMap && s != t
          ensures Apart(s, t)
        {
          if s != symbol { assert old(StoreValid(s)); }
          if t != symbol { assert old(StoreValid(t)); }
          if s != symbol && t != symbol { assert old(Apart(s, t)); }
        }
      }
    }

    /** An update of an unknown symbol is dropped. */
    method ApplyRecord(r: Record)
      requires Valid() && (r.update.New? ==> r.update.price > 0.0)
      modifies this`registered, this`Books, Owned
      ensures Valid() && Books == ApplyTo(old(Books), r)
      ensures registered == old(registered) + {r.symbol} * old(Books.Keys)
    {
      if r.symbol in dataMap {
        UpdateStore(r);
        registered := registered + {r.symbol};
      }
    }

    method UpdateStore(r: Record)
      requires Valid() && r.symbol in dataMap && (r.update.New? ==> r.update.price > 0.0)
      modifies this`Books, Owned
      ensures Valid() && Books == ApplyTo(old(Books), r)
    {
      var store := dataMap[r.symbol];
      assert StoreValid(r.symbol);
      store.ApplyUpdate(r.update);
      Books := ApplyTo(Books, r);
      forall s | s in dataMap && s != r.symbol
        ensures StoreValid(s)
      {
        assert old(StoreValid(s)) && Apart(s, r.symbol);
        dataMap[s].Untouched();
      }
      forall s, t | s in dataMap && t in dataMap && s != t
        ensures Apart(s, t)
      {
        assert old(Apart(s, t));
      }
    }

    /** Sends every registered store once, in the set's order, and forgets the registrations. */
    method MessageUpdatesProcessed() returns (ghost out: seq<Published>)
      requires Valid()
      modifies this`registered, this`sent
      ensures Valid() && registered == {}
      ensures sent == old(sent) + out
      ensures AllOf(out, old(registered), Books)
    {
      var rest := registered;
      ghost var done: set<Symbol> := {};
      out := [];
      while rest != {}
        invariant Valid() && registered == old(registered) == done + rest && done !! rest
        invariant sent == old(sent) + out && AllOf(out, done, Books)
        decreases rest
      {
        var s := Next(rest);
        var store := dataMap[s];
        assert StoreValid(s);
        var p := Published(s, store.md5.buyDepth[..], store.md5.sellDepth[..]);
        OneMore(out, done, Books, p);
        sent, out := sent + [p], out + [p];
        rest, done := rest - {s}, done + {s};
      }
      assert done == old(registered);
      registered := {};
    }

    /**
     A whole batch: every known symbol's store is what its own updates make of it, and every symbol
     touched (or still registered from before) is sent once, as it stands at the end of the batch.
     */
    method AddUpdateRecords(batch: seq<Record>) returns (ghost out: seq<Published>)
      requires Valid() && forall r :: r in batch && r.update.New? ==> r.update.price > 0.0
      modifies this`registered, this`sent, this`Books, Owned
      ensures Valid() && registered == {} && sent == old(sent) + out
      ensures Books.Keys == old(Books.Keys)
      ensures forall s :: s in Books ==> Books[s] == ApplyAll(old(Books)[s], Own(batch, s))
      ensures AllOf(out, old(registered) + Symbols(batch) * Books.Keys, Books)
    {
      var i := 0;
      assert batch[..0] == [];
      while i < |batch|
        invariant 0 <= i <= |batch| && Valid() && sent == old(sent)
        invariant registered == old(registered) + Symbols(batch[..i]) * old(Books.Keys)
        invariant Isolated(old(Books), batch[..i], Books)
      {
        IsolatedStep(old(Books), batch, i, Books);
        ApplyRecord(batch[i]);
        assert batch[..i + 1] == batch[..i] + [batch[i]];
        assert Symbols(batch[..i + 1]) == Symbols(batch[..i]) + {batch[i].symbol};
        i := i + 1;
      }
      assert batch[..i] == batch;
      out := MessageUpdatesProcessed();
    }
  }

  /** Every symbol's book is what its own updates of the batch make of it. */
  ghost predicate Isolated(before: map<Symbol, Book>, batch: seq<Record>, after: map<Symbol, Book>) {
    && after.Keys == before.Keys
    && forall s :: s in before ==> after[s] == ApplyAll(before[s], Own(batch, s))
  }

  lemma IsolatedStep(before: map<Symbol, Book>, batch: seq<Record>, i: nat, after: map<Symbol, Book>)
    requires i < |batch| && Isolated(before, batch[..i], after)
    ensures Isolated(before, batch[..i + 1], ApplyTo(after, batch[i]))
  {
    forall s | s in before
      ensures ApplyTo(after, batch[i])[s] == ApplyAll(before[s], Own(batch[..i + 1], s))
    {
      OwnAppend(batch, i, s, before[s]);
    }
  }

  /** One message for each of these symbols and no others, showing its book. */
  ghost predicate AllOf(out: seq<Published>, symbols: set<Symbol>, books: map<Symbol, Book>) {
    && (forall i, j :: 0 <= i < j < |out| ==> out[i].symbol != out[j].symbol)
    && (forall i :: 0 <= i < |out| ==>
          out[i].symbol in symbols && out[i].symbol in books && Sends(out[i], books[out[i].symbol]))
    && (forall s :: s in symbols ==> exists i :: 0 <= i < |out| && out[i].symbol == s)
  }

  lemma OneMore(out: seq<Published>, symbols: set<Symbol>, books: map<Symbol, Book>, p: Published)
    requires AllOf(out, symbols, books) && p.symbol !in symbols
    requires p.symbol in books && Sends(p, books[p.symbol])
    ensures AllOf(out + [p], symbols + {p.symbol}, books)
  {
    var out' := out + [p];
    forall s | s in symbols + {p.symbol}
      ensures exists i :: 0 <= i < |out'| && out'[i].symbol == s
    {
      if s == p.symbol {
        assert out'[|out|].symbol == s;
      } else {
        var i :| 0 <= i < |out| && out[i].symbol == s;
        assert out'[i].symbol == s;
      }
    }
  }
}
