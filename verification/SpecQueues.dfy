// One price level of a priority-ordered sequence: how each change of the whole
// sequence looks at a single price.

module SpecQueues {
  import opened Types
  import opened SpecBook
  import opened SpecInvariant

  lemma {:induction false} AtPriceIn(s: seq<RestingOrder>, p: Price, o: RestingOrder)
    ensures o in AtPrice(s, p) <==> o in s && o.price == p
  {
    if s != [] {
      AtPriceIn(s[1..], p, o);
      assert o in s <==> o == s[0] || o in s[1..];
    }
  }

  lemma {:induction false} AtPriceWithout(s: seq<RestingOrder>, p: Price, id: OrderId)
    ensures AtPrice(Without(s, id), p) == Without(AtPrice(s, p), id)
  {
    if s != [] {
      AtPriceWithout(s[1..], p, id);
      if s[0].orderId == id {
        assert Without(s, id) == Without(s[1..], id);
      } else {
        assert Without(s, id) == [s[0]] + Without(s[1..], id);
        assert Without(s, id)[1..] == Without(s[1..], id);
      }
      if s[0].price == p {
        assert AtPrice(s, p)[1..] == AtPrice(s[1..], p);
      } else {
        assert AtPrice(s, p) == AtPrice(s[1..], p);
        assert AtPrice([s[0]] + Without(s[1..], id), p) == AtPrice(Without(s[1..], id), p) by {
          assert ([s[0]] + Without(s[1..], id))[1..] == Without(s[1..], id);
        }
      }
    }
  }

  lemma {:induction false} AtPriceWithQty(s: seq<RestingOrder>, p: Price, id: OrderId, qty: Qty)
    ensures AtPrice(WithQty(s, id, qty), p) == WithQty(AtPrice(s, p), id, qty)
  {
    if s != [] {
      AtPriceWithQty(s[1..], p, id, qty);
      assert WithQty(s, id, qty)[1..] == WithQty(s[1..], id, qty);
      if s[0].price == p {
        assert AtPrice(s, p)[1..] == AtPrice(s[1..], p);
      } else {
        assert AtPrice(s, p) == AtPrice(s[1..], p);
      }
    }
  }

  // No order of a sorted sequence is at a price better than its first.
  lemma {:induction false} AtPriceBetter(side: Side, s: seq<RestingOrder>, p: Price)
    requires Sorted(side, s) && (s == [] || Better(side, p, s[0].price))
    ensures AtPrice(s, p) == []
  {
    if s != [] {
      assert |s| > 1 ==> !Better(side, s[1].price, s[0].price);
      AtPriceBetter(side, s[1..], p);
    }
  }

  lemma {:induction false} AtPriceInsert(side: Side, s: seq<RestingOrder>, o: RestingOrder, p: Price)
    requires Sorted(side, s) && o.side == side
    ensures AtPrice(Insert(s, o), p) == AtPrice(s, p) + (if p == o.price then [o] else [])
  {
    if s == [] || Better(side, o.price, s[0].price) {
      assert ([o] + s)[1..] == s;
      AtPriceBetter(side, s, o.price);
    } else {
      AtPriceInsert(side, s[1..], o, p);
      assert Insert(s, o)[1..] == Insert(s[1..], o);
    }
  }

  // The best price's queue starts with the first order.
  lemma AtPriceFirst(side: Side, s: seq<RestingOrder>, p: Price)
    requires Sorted(side, s) && AtPrice(s, p) != []
    requires forall i :: 0 <= i < |s| ==> !Better(side, s[i].price, p)
    ensures s != [] && s[0].price == p && s[0] == AtPrice(s, p)[0] && AtPrice(s[1..], p) == AtPrice(s, p)[1..]
  {
    var o := AtPrice(s, p)[0];
    AtPriceIn(s, p, o);
    var i :| 0 <= i < |s| && s[i] == o;
    assert i > 0 ==> !Better(side, s[i].price, s[0].price);
  }

  lemma {:induction false} WithoutOne(a: seq<RestingOrder>, o: RestingOrder, b: seq<RestingOrder>)
    requires UniqueIds(a + [o] + b)
    ensures Without(a + [o] + b, o.orderId) == a + b
  {
    var s := a + [o] + b;
    UniqueTail(s);
    if a == [] {
      assert s[1..] == b;
      WithoutAbsent(b, o.orderId);
    } else {
      assert s[1..] == a[1..] + [o] + b;
      assert s[|a|] == o;
      WithoutOne(a[1..], o, b);
    }
  }

  lemma {:induction false} WithQtyOne(a: seq<RestingOrder>, o: RestingOrder, b: seq<RestingOrder>, qty: Qty)
    requires UniqueIds(a + [o] + b)
    ensures WithQty(a + [o] + b, o.orderId, qty) == a + [o.(qty := qty)] + b
  {
    var s := a + [o] + b;
    UniqueTail(s);
    if a == [] {
      assert s[1..] == b;
      WithQtyNone(b, o.orderId, qty);
    } else {
      assert s[1..] == a[1..] + [o] + b;
      assert s[|a|] == o;
      WithQtyOne(a[1..], o, b, qty);
    }
  }

  lemma {:induction false} WithQtyNone(s: seq<RestingOrder>, id: OrderId, qty: Qty)
    requires id !in Ids(s)
    ensures WithQty(s, id, qty) == s
  {
    if s != [] {
      IdsTail(s);
      WithQtyNone(s[1..], id, qty);
    }
  }

  // A level of a sequence with unique ids has unique ids.
  lemma {:induction false} AtPriceUnique(s: seq<RestingOrder>, p: Price)
    requires UniqueIds(s)
    ensures UniqueIds(AtPrice(s, p)) && Ids(AtPrice(s, p)) <= Ids(s)
  {
    if s != [] {
      UniqueTail(s);
      IdsTail(s);
      AtPriceUnique(s[1..], p);
      if s[0].price == p {
        UniqueCons(s[0], AtPrice(s[1..], p));
        IdsTail(AtPrice(s, p));
        assert AtPrice(s, p)[1..] == AtPrice(s[1..], p);
      }
    }
  }

  // An order is the only one with its id.
  lemma SameIdSame(s: seq<RestingOrder>, o: RestingOrder, o': RestingOrder)
    requires UniqueIds(s) && o in s && o' in s && o.orderId == o'.orderId
    ensures o == o'
  {
    LookupUnique(s, o);
    LookupUnique(s, o');
  }

  lemma InIds(s: seq<RestingOrder>, o: RestingOrder)
    requires o in s
    ensures o.orderId in Ids(s)
  {
    var i :| 0 <= i < |s| && s[i] == o;
    assert s[i].orderId in Ids(s);
  }

  // Quantity resting at prices in [lo, hi].
  function InRange(q: seq<RestingOrder>, lo: int, hi: int): nat {
    if q == [] then 0
    else (if lo <= q[0].price <= hi then q[0].qty else 0) + InRange(q[1..], lo, hi)
  }

  // The index range of a bounded taker is what crosses its bound.
  lemma {:induction false} InRangeIsAvailable(side: Side, price: Price, q: seq<RestingOrder>, lo: int, hi: int)
    requires forall i :: 0 <= i < |q| ==> (Crosses(side, Some(price), q[i].price) <==> lo <= q[i].price <= hi)
    ensures InRange(q, lo, hi) == Available(side, Some(price), q)
  {
    if q != [] {
      assert forall i :: 0 <= i < |q[1..]| ==> q[1..][i] == q[i + 1];
      InRangeIsAvailable(side, price, q[1..], lo, hi);
    }
  }
}
