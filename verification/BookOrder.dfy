// Book order: reading a side level by level gives its whole sequence, and
// inserting a sequence in its own order gives it back (src/book.rs:541-573).

module BookOrder {
  import opened Types
  import opened SpecBook
  import opened SpecInvariant
  import opened SpecQueues
  import opened SpecConfig
  import opened Chunks
  import opened StoreState
  import opened LevelView
  import opened Glue
  import opened BookState

  // ---- level by level --------------------------------------------------------------

  // The queues of the listed prices, one after the other.
  function ByLevel(q: seq<RestingOrder>, levels: seq<(Price, Qty)>): seq<RestingOrder> {
    if levels == [] then []
    else ByLevel(q, levels[..|levels| - 1]) + AtPrice(q, levels[|levels| - 1].0)
  }

  lemma ByLevelNone(q: seq<RestingOrder>, levels: seq<(Price, Qty)>)
    ensures ByLevel(q, levels[..0]) == []
  {
  }

  lemma ByLevelNext(q: seq<RestingOrder>, levels: seq<(Price, Qty)>, i: nat)
    requires i < |levels|
    ensures ByLevel(q, levels[..i + 1]) == ByLevel(q, levels[..i]) + AtPrice(q, levels[i].0)
  {
    assert levels[..i + 1][..i] == levels[..i];
  }

  // The orders at prices other than `p`.
  function OffPrice(q: seq<RestingOrder>, p: Price): seq<RestingOrder> {
    if q == [] then [] else (if q[0].price == p then [] else [q[0]]) + OffPrice(q[1..], p)
  }

  lemma {:induction false} OffPriceOk(q: seq<RestingOrder>, p: Price, r: Price)
    ensures |AtPrice(q, p)| + |OffPrice(q, p)| == |q|
    ensures r != p ==> AtPrice(OffPrice(q, p), r) == AtPrice(q, r)
    ensures forall o :: o in OffPrice(q, p) <==> o in q && o.price != p
  {
    if q != [] {
      OffPriceOk(q[1..], p, r);
      var rest := OffPrice(q[1..], p);
      if q[0].price == p {
        assert OffPrice(q, p) == rest;
      } else {
        assert OffPrice(q, p) == [q[0]] + rest && OffPrice(q, p)[1..] == rest;
      }
      assert forall o :: o in q <==> o == q[0] || o in q[1..];
    }
  }

  // The worst price of a sorted side is at its back.
  lemma {:induction false} WorstLast(side: Side, q: seq<RestingOrder>, p: Price)
    requires Sorted(side, q) && forall o :: o in q ==> !Better(side, p, o.price)
    ensures q == OffPrice(q, p) + AtPrice(q, p)
  {
    if q != [] {
      WorstLast(side, q[1..], p);
      if q[0].price == p {
        AllAt(side, q, p);
      }
    }
  }

  lemma {:induction false} AllAt(side: Side, q: seq<RestingOrder>, p: Price)
    requires Sorted(side, q) && q != [] && q[0].price == p && forall o :: o in q ==> !Better(side, p, o.price)
    ensures OffPrice(q, p) == [] && AtPrice(q, p) == q
  {
    if |q| > 1 {
      assert !Better(side, q[1].price, q[0].price) && q[1] in q;
      AllAt(side, q[1..], p);
    }
  }

  lemma {:induction false} OffPriceSorted(side: Side, q: seq<RestingOrder>, p: Price)
    requires Sorted(side, q)
    ensures Sorted(side, OffPrice(q, p))
  {
    if q != [] {
      OffPriceSorted(side, q[1..], p);
      OffPriceOk(q[1..], p, p);
      var rest := OffPrice(q[1..], p);
      if q[0].price != p {
        forall i, j | 0 <= i < j < |rest| + 1
          ensures !Better(side, ([q[0]] + rest)[j].price, ([q[0]] + rest)[i].price)
        {
          if i == 0 {
            assert rest[j - 1] in q[1..];
            var k :| 0 <= k < |q| - 1 && q[1..][k] == rest[j - 1];
            assert q[k + 1] == rest[j - 1];
          }
        }
      }
    }
  }

  // `levels` lists, best first, exactly the prices of `q`.
  ghost predicate Listing(side: Side, q: seq<RestingOrder>, levels: seq<(Price, Qty)>) {
    && (forall i, j :: 0 <= i < j < |levels| ==> Better(side, levels[i].0, levels[j].0))
    && (forall o :: o in q ==> Listed(levels, o.price))
  }

  lemma {:induction false} ByLevelAll(side: Side, q: seq<RestingOrder>, levels: seq<(Price, Qty)>)
    requires Sorted(side, q) && Listing(side, q, levels)
    ensures ByLevel(q, levels) == q
    decreases |levels|
  {
    assert q != [] ==> Listed(levels, q[0].price);
    if levels != [] {
      var n := |levels| - 1;
      var p := levels[n].0;
      var rest := OffPrice(q, p);
      OffPriceOk(q, p, p);
      OffPriceSorted(side, q, p);
      LastIsWorst(side, q, levels);
      WorstLast(side, q, p);
      ShorterListing(side, q, levels);
      ByLevelAll(side, rest, levels[..n]);
      ByLevelSame(q, p, levels[..n]);
    }
  }

  lemma LastIsWorst(side: Side, q: seq<RestingOrder>, levels: seq<(Price, Qty)>)
    requires Listing(side, q, levels) && levels != []
    ensures forall o :: o in q ==> !Better(side, levels[|levels| - 1].0, o.price)
  {
    forall o | o in q
      ensures !Better(side, levels[|levels| - 1].0, o.price)
    {
      assert Listed(levels, o.price);
    }
  }

  lemma ShorterListing(side: Side, q: seq<RestingOrder>, levels: seq<(Price, Qty)>)
    requires Listing(side, q, levels) && levels != []
    ensures Listing(side, OffPrice(q, levels[|levels| - 1].0), levels[..|levels| - 1])
    ensures forall i :: 0 <= i < |levels| - 1 ==> levels[i].0 != levels[|levels| - 1].0
  {
    var n := |levels| - 1;
    OffPriceOk(q, levels[n].0, levels[n].0);
    forall o | o in OffPrice(q, levels[n].0)
      ensures Listed(levels[..n], o.price)
    {
      assert Listed(levels, o.price);
      var i :| 0 <= i < |levels| && levels[i].0 == o.price;
      assert levels[..n][i].0 == o.price;
    }
  }

  lemma {:induction false} ByLevelSame(q: seq<RestingOrder>, p: Price, levels: seq<(Price, Qty)>)
    requires forall i :: 0 <= i < |levels| ==> levels[i].0 != p
    ensures ByLevel(OffPrice(q, p), levels) == ByLevel(q, levels)
  {
    if levels != [] {
      ByLevelSame(q, p, levels[..|levels| - 1]);
      OffPriceOk(q, p, levels[|levels| - 1].0);
    }
  }

  // Different prices that all have orders are no more than the orders.
  lemma {:induction false} LevelsAtMost(side: Side, q: seq<RestingOrder>, levels: seq<(Price, Qty)>)
    requires forall i, j :: 0 <= i < j < |levels| ==> Better(side, levels[i].0, levels[j].0)
    requires forall i :: 0 <= i < |levels| ==> AtPrice(q, levels[i].0) != []
    ensures |levels| <= |q|
    decreases |levels|
  {
    if levels != [] {
      var n := |levels| - 1;
      var rest := OffPrice(q, levels[n].0);
      OffPriceOk(q, levels[n].0, levels[n].0);
      forall i | 0 <= i < n
        ensures AtPrice(rest, levels[..n][i].0) != []
      {
        OffPriceOk(q, levels[n].0, levels[i].0);
      }
      LevelsAtMost(side, rest, levels[..n]);
    }
  }

  // An unbounded depth list lists every price that has orders.
  lemma DepthLists(l: Layout, q: Orders, cfg: BookConfig, side: Side, n: nat, levels: seq<(Price, Qty)>)
    requires l.Ok() && Sides(l, q, cfg, None) && DepthOk(side, l.Index(side), n, levels) && |q.Own(side)| < n
    ensures Listing(side, q.Own(side), levels)
    ensures forall i :: 0 <= i < |levels| ==> levels[i].0 in l.Index(side)
    ensures forall p :: p in l.Index(side) ==> !l.Index(side)[p].IsEmpty()
    ensures ByLevel(q.Own(side), levels) == q.Own(side)
  {
    hide StoreOk, Queues, Indexed, AtPrice, ByLevel, Sorted, UniqueIds;
    var (idx, s) := (l.Index(side), q.Own(side));
    SideParts(l, q, cfg, None, side);
    forall p: Price
      ensures p in idx <==> AtPrice(s, p) != []
      ensures p in idx ==> !idx[p].IsEmpty()
    {
      MarkedIff(l.chunks, l.used, l.top, l.free, l.chain, side, idx, s, p);
    }
    LevelsAtMost(side, s, levels);
    forall o | o in s
      ensures Listed(levels, o.price)
    {
      AtPriceIn(s, o.price, o);
      assert o.price in idx;
    }
    ByLevelAll(side, s, levels);
  }

  // ---- rebuilding a side -------------------------------------------------------------

  // The book after inserting the orders one by one.
  function Loaded(s: seq<RestingOrder>): Orders {
    if s == [] then Orders([], [])
    else
      var o := s[|s| - 1];
      var q := Loaded(s[..|s| - 1]);
      q.WithOwn(o.side, Insert(q.Own(o.side), o))
  }

  lemma LoadedNext(s: seq<RestingOrder>, i: nat)
    requires i < |s|
    ensures var q := Loaded(s[..i]);
            Loaded(s[..i + 1]) == q.WithOwn(s[i].side, Insert(q.Own(s[i].side), s[i]))
  {
    assert s[..i + 1][..i] == s[..i];
  }

  lemma {:induction false} InsertIds(s: seq<RestingOrder>, o: RestingOrder)
    ensures Ids(Insert(s, o)) == Ids(s) + {o.orderId} && |Insert(s, o)| == |s| + 1
  {
    if s == [] || Better(o.side, o.price, s[0].price) {
      IdsTail([o] + s);
      assert ([o] + s)[1..] == s;
    } else {
      InsertIds(s[1..], o);
      IdsTail(s);
      IdsTail([s[0]] + Insert(s[1..], o));
      assert ([s[0]] + Insert(s[1..], o))[1..] == Insert(s[1..], o);
    }
  }

  lemma {:induction false} LoadedIds(s: seq<RestingOrder>)
    ensures var q := Loaded(s); Ids(q.bids) + Ids(q.asks) == Ids(s) && |q.bids| + |q.asks| == |s|
  {
    if s != [] {
      var n := |s| - 1;
      var o, q := s[n], Loaded(s[..n]);
      LoadedIds(s[..n]);
      InsertIds(q.Own(o.side), o);
      assert Ids(s) == Ids(s[..n]) + {o.orderId} by { IdsSnoc(s); }
    }
  }

  lemma IdsSnoc(s: seq<RestingOrder>)
    requires s != []
    ensures Ids(s) == Ids(s[..|s| - 1]) + {s[|s| - 1].orderId}
  {
    var n := |s| - 1;
    forall id | id in Ids(s)
      ensures id in Ids(s[..n]) + {s[n].orderId}
    {
      var i :| 0 <= i < |s| && s[i].orderId == id;
      assert i < n ==> s[..n][i].orderId == id;
    }
    forall id | id in Ids(s[..n])
      ensures id in Ids(s)
    {
      var i :| 0 <= i < n && s[..n][i].orderId == id;
      assert s[i].orderId == id;
    }
  }

  // An order no better than the rest goes to the back.
  lemma {:induction false} InsertBack(s: seq<RestingOrder>, o: RestingOrder)
    requires forall i :: 0 <= i < |s| ==> !Better(o.side, o.price, s[i].price)
    ensures Insert(s, o) == s + [o]
  {
    if s != [] {
      InsertBack(s[1..], o);
    }
  }

  lemma {:induction false} LoadedSide(side: Side, before: seq<RestingOrder>, s: seq<RestingOrder>)
    requires Sorted(side, s) && forall i :: 0 <= i < |s| ==> s[i].side == side
    requires Loaded(before).Own(side) == []
    ensures Loaded(before + s) == Loaded(before).WithOwn(side, s)
  {
    hide Loaded, Insert;
    if s == [] {
      assert before + s == before;
    } else {
      var n := |s| - 1;
      LoadedSide(side, before, s[..n]);
      LoadedSnoc(before + s[..n], s[n]);
      assert before + s[..n] + [s[n]] == before + s;
      LastNotBetter(side, s);
      InsertBack(s[..n], s[n]);
      assert s[..n] + [s[n]] == s;
    }
  }

  lemma LoadedSnoc(s: seq<RestingOrder>, o: RestingOrder)
    ensures var q := Loaded(s); Loaded(s + [o]) == q.WithOwn(o.side, Insert(q.Own(o.side), o))
  {
    assert (s + [o])[..|s|] == s;
  }

  lemma LastNotBetter(side: Side, s: seq<RestingOrder>)
    requires Sorted(side, s) && s != []
    ensures var n := |s| - 1;
            Sorted(side, s[..n]) && forall i :: 0 <= i < n ==> !Better(side, s[n].price, s[..n][i].price)
  {
  }

  // Inserting a book's orders in book order reproduces the book, so a restored
  // book continues exactly as the original would.
  lemma LoadedBook(b: Book)
    requires WellFormed(b)
    ensures Loaded(b.bids + b.asks) == Orders(b.bids, b.asks)
  {
    hide Sorted, UniqueIds, Ids;
    LoadedSide(Bid, [], b.bids);
    assert [] + b.bids == b.bids;
    LoadedSide(Ask, b.bids, b.asks);
  }

  lemma UniqueBook(b: Book)
    requires WellFormed(b)
    ensures UniqueIds(b.bids + b.asks)
  {
    var s := b.bids + b.asks;
    forall i, j | 0 <= i < j < |s|
      ensures s[i].orderId != s[j].orderId
    {
      if i < |b.bids| <= j {
        assert b.bids[i].orderId in Ids(b.bids) && b.asks[j - |b.bids|].orderId in Ids(b.asks);
      }
    }
  }

  // What `restore` asks of a document's orders: they differ, fit the capacity
  // and have a place on the book.
  ghost predicate Insertable(cfg: BookConfig, s: seq<RestingOrder>) {
    && UniqueIds(s) && |s| <= cfg.maxOrders
    && (forall i :: 0 <= i < |s| ==> OrderOk(s[i].side, cfg, s[i]))
  }

  // Then they make a well-formed book.
  ghost predicate Loadable(cfg: BookConfig, s: seq<RestingOrder>) {
    && Insertable(cfg, s)
    && Uncrossed(Loaded(s).bids, Loaded(s).asks)
    && AllMayRest(s)
  }

  lemma {:induction false} LoadedMembers(s: seq<RestingOrder>)
    ensures forall x :: x in s <==> x in Loaded(s).bids || x in Loaded(s).asks
  {
    if s != [] {
      var n := |s| - 1;
      LoadedMembers(s[..n]);
      InsertMembers(Loaded(s[..n]).Own(s[n].side), s[n]);
      assert s == s[..n] + [s[n]];
    }
  }

  lemma LoadedMayRest(s: seq<RestingOrder>)
    ensures AllMayRest(s) <==> AllMayRest(Loaded(s).bids) && AllMayRest(Loaded(s).asks)
  {
    hide Loaded;
    LoadedMembers(s);
  }

  lemma BookInsertable(b: Book, cfg: BookConfig)
    requires WellFormed(b) && UniqueIds(b.bids + b.asks)
    ensures Insertable(cfg, b.bids + b.asks) <==> Fits(cfg, b)
  {
    hide UniqueIds, Sorted, Holdable;
    var s := b.bids + b.asks;
    forall i | 0 <= i < |s|
      ensures s[i].qty > 0
    {
      if i < |b.bids| {
        assert OrderOk(Bid, b.cfg, b.bids[i]);
      } else {
        assert OrderOk(Ask, b.cfg, b.asks[i - |b.bids|]);
      }
    }
    assert forall o :: o in b.bids || o in b.asks <==> o in s;
    if Insertable(cfg, s) {
      forall o | o in s
        ensures Holdable(cfg, o.price)
      {
        var i :| 0 <= i < |s| && s[i] == o;
        assert OrderOk(s[i].side, cfg, s[i]);
      }
    }
  }

  // The orders of a book, under any configuration: they can be inserted exactly
  // when it can hold them, and that gives a well-formed book with the same sides.
  lemma BookLoadable(b: Book, cfg: BookConfig)
    requires WellFormed(b)
    ensures Loaded(b.bids + b.asks) == Orders(b.bids, b.asks)
    ensures Insertable(cfg, b.bids + b.asks) <==> Fits(cfg, b)
    ensures Loadable(cfg, b.bids + b.asks) <==> Fits(cfg, b)
  {
    hide UniqueIds, SideOk, Ids, Loaded, Insertable, Fits;
    LoadedBook(b);
    UniqueBook(b);
    BookInsertable(b, cfg);
    assert forall o :: o in b.bids + b.asks <==> o in b.bids || o in b.asks;
  }

  lemma NotBefore(s: seq<RestingOrder>, i: nat)
    requires i < |s| && UniqueIds(s)
    ensures s[i].orderId !in Ids(s[..i])
  {
    forall j | 0 <= j < i
      ensures s[..i][j].orderId != s[i].orderId
    {
    }
  }

  // The next order of a document is not on the book yet.
  lemma NextUnmapped(l: Layout, q: Orders, cfg: BookConfig, ids: map<OrderId, u32>, s: seq<RestingOrder>, i: nat)
    requires l.Ok() && Sides(l, q, cfg, None) && IdsOk(l.chunks, ids, None)
    requires i < |s| && UniqueIds(s) && q == Loaded(s[..i])
    ensures s[i].orderId !in ids && |q.bids| + |q.asks| == i
  {
    hide StoreOk, Sides, IdsOk, OrderAt, Loaded, Ids, UniqueIds;
    LoadedIds(s[..i]);
    NotBefore(s, i);
    if s[i].orderId in ids {
      IdGet(l.chunks, ids, None, s[i].orderId);
      OnBook(l, q, cfg, ids[s[i].orderId]);
    }
  }

  // A book whose parts agree is well formed once it is uncrossed and holds only
  // orders that may rest.
  lemma WellFormedFrom(l: Layout, q: Orders, cfg: BookConfig, seqNo: nat, ids: map<OrderId, u32>)
    requires l.Ok() && Sides(l, q, cfg, None) && IdsOk(l.chunks, ids, None)
    requires |q.bids| + |q.asks| <= cfg.maxOrders
    ensures WellFormed(AsBook(q, seqNo, cfg)) <==>
              Uncrossed(q.bids, q.asks) && AllMayRest(q.bids) && AllMayRest(q.asks)
  {
    hide StoreOk, Queues, Indexed, IdsOk, OrderAt, Sorted, UniqueIds, AllMayRest;
    SideParts(l, q, cfg, None, Bid);
    SideParts(l, q, cfg, None, Ask);
    forall i, j | 0 <= i < |q.bids| && 0 <= j < |q.asks|
      ensures q.bids[i].orderId != q.asks[j].orderId
    {
      assert OrderOk(Bid, cfg, q.bids[i]) && OrderOk(Ask, cfg, q.asks[j]);
      OrderMapped(l.chunks, l.chain, Bid, q.bids, ids, None, q.bids[i]);
      OrderMapped(l.chunks, l.chain, Ask, q.asks, ids, None, q.asks[j]);
    }
  }

  // ---- aggregated depth ------------------------------------------------------------

  // Each price of a side with its wrapped total, in the order the side meets them.
  function Levels(q: seq<RestingOrder>): seq<(Price, Qty)>
    decreases |q|
  {
    if q == [] then []
    else
      var p := q[0].price;
      OffPriceOk(q, p, p);
      FirstAtPrice(q);
      [(p, Wrap(SumQty(AtPrice(q, p))))] + Levels(OffPrice(q, p))
  }

  lemma FirstAtPrice(q: seq<RestingOrder>)
    requires q != []
    ensures |OffPrice(q, q[0].price)| < |q|
  {
    OffPriceOk(q, q[0].price, q[0].price);
    AtPriceIn(q, q[0].price, q[0]);
  }

  lemma {:induction false} LevelsOk(side: Side, q: seq<RestingOrder>)
    requires Sorted(side, q)
    ensures Listing(side, q, Levels(q))
    ensures forall i :: 0 <= i < |Levels(q)| ==>
              AtPrice(q, Levels(q)[i].0) != [] && Levels(q)[i].1 == Wrap(SumQty(AtPrice(q, Levels(q)[i].0)))
    decreases |q|
  {
    hide Sorted, AtPrice, OffPrice, Wrap, SumQty;
    if q != [] {
      var p := q[0].price;
      var rest := OffPrice(q, p);
      FirstAtPrice(q);
      AtPriceIn(q, p, q[0]);
      OffPriceOk(q, p, p);
      OffPriceSorted(side, q, p);
      LevelsOk(side, rest);
      var ls := Levels(rest);
      assert Levels(q) == [(p, Wrap(SumQty(AtPrice(q, p))))] + ls;
      forall i | 0 <= i < |ls|
        ensures Better(side, p, ls[i].0) && AtPrice(q, ls[i].0) == AtPrice(rest, ls[i].0)
      {
        AtPriceIn(rest, ls[i].0, AtPrice(rest, ls[i].0)[0]);
        OffPriceOk(q, p, ls[i].0);
        FirstBest(side, q, AtPrice(rest, ls[i].0)[0]);
      }
      forall o | o in q
        ensures Listed(Levels(q), o.price)
      {
        if o.price == p {
          assert Levels(q)[0].0 == p;
        } else {
          var i :| 0 <= i < |ls| && ls[i].0 == o.price;
          assert Levels(q)[i + 1].0 == o.price;
        }
      }
    }
  }

  lemma FirstBest(side: Side, q: seq<RestingOrder>, o: RestingOrder)
    requires Sorted(side, q) && o in q
    ensures !Better(side, o.price, q[0].price)
  {
    var i :| 0 <= i < |q| && q[i] == o;
    assert i > 0 ==> !Better(side, q[i].price, q[0].price);
  }

  function FirstN<T>(s: seq<T>, n: nat): seq<T> {
    if n < |s| then s[..n] else s
  }

  // An index that agrees with the side lists exactly its first `n` levels.
  lemma DepthIs(l: Layout, q: Orders, cfg: BookConfig, side: Side, n: nat, out: seq<(Price, Qty)>)
    requires l.Ok() && Sides(l, q, cfg, None) && DepthOk(side, l.Index(side), n, out)
    ensures out == FirstN(Levels(q.Own(side)), n)
  {
    hide StoreOk, Queues, Indexed, AtPrice, Sorted, UniqueIds, Levels, DepthOk, Wrap, SumQty;
    var (idx, s) := (l.Index(side), q.Own(side));
    SideParts(l, q, cfg, None, side);
    LevelsOk(side, s);
    forall p: Price
      ensures p in idx <==> AtPrice(s, p) != []
      ensures p in idx ==> idx[p].total == Wrap(SumQty(AtPrice(s, p)))
    {
      MarkedIff(l.chunks, l.used, l.top, l.free, l.chain, side, idx, s, p);
    }
    forall p: Price | p in idx
      ensures Listed(Levels(s), p)
    {
      AtPriceIn(s, p, AtPrice(s, p)[0]);
    }
    FirstNOk(side, idx, Levels(s), n);
    DepthUnique(side, idx, n, out, FirstN(Levels(s), n));
  }

  lemma FirstNOk(side: Side, idx: View, ls: seq<(Price, Qty)>, n: nat)
    requires forall i :: 0 <= i < |ls| ==> ls[i].0 in idx && ls[i].1 == idx[ls[i].0].total
    requires forall i, j :: 0 <= i < j < |ls| ==> Better(side, ls[i].0, ls[j].0)
    requires forall p: Price :: p in idx ==> Listed(ls, p)
    ensures DepthOk(side, idx, n, FirstN(ls, n))
  {
    var out := FirstN(ls, n);
    forall p | p in idx
      ensures Listed(out, p) || (|out| == n && forall i :: 0 <= i < |out| ==> Better(side, out[i].0, p))
    {
      var j :| 0 <= j < |ls| && ls[j].0 == p;
      if j < |out| { assert out[j].0 == p; }
    }
  }

  // The marked prices are the prices of the orders.
  lemma MarkedPrices(l: Layout, q: Orders, cfg: BookConfig, side: Side)
    requires l.Ok() && Sides(l, q, cfg, None)
    ensures |l.Index(side)| == |set o | o in q.Own(side) :: o.price|
  {
    hide StoreOk, Queues, Indexed, AtPrice, Sorted, UniqueIds;
    var (idx, s) := (l.Index(side), q.Own(side));
    var prices := set o | o in s :: o.price;
    SideParts(l, q, cfg, None, side);
    forall p: Price
      ensures p in idx <==> p in prices
    {
      MarkedIff(l.chunks, l.used, l.top, l.free, l.chain, side, idx, s, p);
      if AtPrice(s, p) != [] { AtPriceIn(s, p, AtPrice(s, p)[0]); }
      if p in prices {
        var o :| o in s && o.price == p;
        AtPriceIn(s, p, o);
      }
    }
    assert idx.Keys == prices;
  }
}
