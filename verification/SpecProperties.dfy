// Properties of one match and one New on the reference book: price-time
// priority, traded quantities, fill-or-kill and post-only.

module SpecProperties {
  import opened Types
  import opened SpecBook
  import opened SpecInvariant

  // ---- price-time priority ------------------------------------------------

  // Each maker fully filled at its own price, closed right after its trade.
  function FillLog(taker: OrderId, makers: seq<RestingOrder>): seq<Event> {
    if makers == [] then []
    else
      var m := makers[0];
      [Trade(m.orderId, taker, m.price, m.qty), Closed(m.orderId, Filled)] + FillLog(taker, makers[1..])
  }

  // The first `k` makers are filled, and either matching stops between orders
  // or maker `k` is filled in part and keeps its place.
  ghost predicate PriorityFill(side: Side, bound: Option<Price>, taker: OrderId, qty: Qty,
                               opp: seq<RestingOrder>, r: CrossResult, k: nat)
  {
    && k <= |opp| && SumQty(opp[..k]) <= qty
    && (forall i :: 0 <= i < k ==> Crosses(side, bound, opp[i].price))
    && var left := qty - SumQty(opp[..k]);
       if k < |opp| && Crosses(side, bound, opp[k].price) && 0 < left < opp[k].qty then
         && r.qty == 0
         && r.opp == [opp[k].(qty := opp[k].qty - left)] + opp[k + 1..]
         && r.events == FillLog(taker, opp[..k]) + [Trade(opp[k].orderId, taker, opp[k].price, left)]
       else
         && r.qty == left
         && r.opp == opp[k..]
         && r.events == FillLog(taker, opp[..k])
         && (left == 0 || k == |opp| || !Crosses(side, bound, opp[k].price))
  }

  // How many makers a match fills completely.
  function FilledMakers(side: Side, bound: Option<Price>, qty: Qty, opp: seq<RestingOrder>): (k: nat)
    ensures k <= |opp|
  {
    if opp == [] || qty == 0 || qty < opp[0].qty || !Crosses(side, bound, opp[0].price) then 0
    else 1 + FilledMakers(side, bound, qty - opp[0].qty, opp[1..])
  }

  // Slices of `opp` seen from its tail.
  lemma FirstMakers(taker: OrderId, opp: seq<RestingOrder>, k: nat)
    requires k < |opp|
    ensures opp[k + 1..] == opp[1..][k..]
    ensures k + 1 < |opp| ==> opp[k + 1] == opp[1..][k] && opp[k + 2..] == opp[1..][k + 1..]
    ensures SumQty(opp[..k + 1]) == opp[0].qty + SumQty(opp[1..][..k])
    ensures FillLog(taker, opp[..k + 1])
         == [Trade(opp[0].orderId, taker, opp[0].price, opp[0].qty), Closed(opp[0].orderId, Filled)]
           + FillLog(taker, opp[1..][..k])
  {
    assert opp[..k + 1][0] == opp[0] && opp[..k + 1][1..] == opp[1..][..k];
  }

  lemma CrossFillsNone(side: Side, bound: Option<Price>, taker: OrderId, qty: Qty, opp: seq<RestingOrder>)
    requires opp == [] || qty == 0 || qty < opp[0].qty || !Crosses(side, bound, opp[0].price)
    ensures PriorityFill(side, bound, taker, qty, opp, Cross(side, bound, taker, qty, opp), 0)
  {
    assert opp[..0] == [];
  }

  // The matcher's recursion against the closed form.
  lemma {:induction false} CrossIsPriorityFill(side: Side, bound: Option<Price>, taker: OrderId, qty: Qty,
                                               opp: seq<RestingOrder>)
    ensures PriorityFill(side, bound, taker, qty, opp, Cross(side, bound, taker, qty, opp),
                         FilledMakers(side, bound, qty, opp))
    decreases |opp|
  {
    hide PriorityFill, Crosses;
    if opp == [] || qty == 0 || qty < opp[0].qty || !Crosses(side, bound, opp[0].price) {
      CrossFillsNone(side, bound, taker, qty, opp);
    } else {
      var k := FilledMakers(side, bound, qty - opp[0].qty, opp[1..]);
      CrossIsPriorityFill(side, bound, taker, qty - opp[0].qty, opp[1..]);
      PriorityFillStep(side, bound, taker, qty, opp, Cross(side, bound, taker, qty - opp[0].qty, opp[1..]), k);
    }
  }

  lemma PriorityFillStep(side: Side, bound: Option<Price>, taker: OrderId, qty: Qty, opp: seq<RestingOrder>,
                         r: CrossResult, k: nat)
    requires opp != [] && opp[0].qty <= qty && Crosses(side, bound, opp[0].price)
    requires PriorityFill(side, bound, taker, qty - opp[0].qty, opp[1..], r, k)
    ensures var m := opp[0];
            var r' := r.(events := [Trade(m.orderId, taker, m.price, m.qty), Closed(m.orderId, Filled)] + r.events);
            PriorityFill(side, bound, taker, qty, opp, r', k + 1)
  {
    FirstMakers(taker, opp, k);
    forall i | 0 <= i < k + 1
      ensures Crosses(side, bound, opp[i].price)
    {
      if i > 0 { assert opp[i] == opp[1..][i - 1]; }
    }
  }

  // ---- quantities of a match ---------------------------------------------

  function Traded(events: seq<Event>): nat {
    if events == [] then 0
    else (if events[0].Trade? then events[0].qty else 0) + Traded(events[1..])
  }

  lemma {:induction false} TradedAppend(a: seq<Event>, b: seq<Event>)
    ensures Traded(a + b) == Traded(a) + Traded(b)
  {
    if a == [] {
      assert a + b == b;
    } else {
      assert (a + b)[1..] == a[1..] + b;
      TradedAppend(a[1..], b);
    }
  }

  lemma {:induction false} NothingAvailable(side: Side, bound: Option<Price>, opp: seq<RestingOrder>)
    requires Sorted(side.Opposite(), opp)
    requires opp == [] || !Crosses(side, bound, opp[0].price)
    ensures Available(side, bound, opp) == 0
  {
    if |opp| > 1 {
      assert !Better(side.Opposite(), opp[1].price, opp[0].price);
    }
    if opp != [] {
      NothingAvailable(side, bound, opp[1..]);
    }
  }

  // A match trades exactly what it wants or exactly what is there.
  lemma {:induction false} CrossTrades(side: Side, bound: Option<Price>, taker: OrderId, qty: Qty,
                                       opp: seq<RestingOrder>)
    requires Sorted(side.Opposite(), opp)
    ensures var r := Cross(side, bound, taker, qty, opp);
            && r.qty <= qty
            && Traded(r.events) == qty - r.qty
            && SumQty(opp) == SumQty(r.opp) + qty - r.qty
            && qty - r.qty == (var a := Available(side, bound, opp); if a < qty then a else qty)
    decreases |opp|
  {
    hide Sorted, Crosses, Traded;
    TradedNone();
    if qty == 0 {
    } else if opp == [] || !Crosses(side, bound, opp[0].price) {
      NothingAvailable(side, bound, opp);
    } else if qty < opp[0].qty {
      var reduced := [opp[0].(qty := opp[0].qty - qty)] + opp[1..];
      assert reduced[1..] == opp[1..];
      TradedLast([], Trade(opp[0].orderId, taker, opp[0].price, qty));
      assert [] + [Trade(opp[0].orderId, taker, opp[0].price, qty)]
             == [Trade(opp[0].orderId, taker, opp[0].price, qty)];
    } else {
      var m := opp[0];
      SortedTail(side.Opposite(), opp);
      CrossTrades(side, bound, taker, qty - m.qty, opp[1..]);
      TradedFill(m, taker, Cross(side, bound, taker, qty - m.qty, opp[1..]).events);
    }
  }

  lemma TradedNone()
    ensures Traded([]) == 0
  {
  }

  lemma TradedLast(a: seq<Event>, e: Event)
    ensures Traded(a + [e]) == Traded(a) + (if e.Trade? then e.qty else 0)
  {
    TradedAppend(a, [e]);
    assert [e][1..] == [];
  }

  lemma TradedFill(m: RestingOrder, taker: OrderId, rest: seq<Event>)
    ensures Traded([Trade(m.orderId, taker, m.price, m.qty), Closed(m.orderId, Filled)] + rest) == m.qty + Traded(rest)
  {
    var head := [Trade(m.orderId, taker, m.price, m.qty), Closed(m.orderId, Filled)];
    TradedAppend(head, rest);
    assert head[1..] == [Closed(m.orderId, Filled)];
    assert Traded(head) == m.qty;
  }

  lemma SortedTail(side: Side, s: seq<RestingOrder>)
    requires Sorted(side, s) && s != []
    ensures Sorted(side, s[1..])
  {
  }

  // ---- fill-or-kill and post-only ------------------------------------------

  // The check compares a wrapped sum where the specification asks for the true
  // one. The two decide alike exactly when the true sum fits a u64 or the check
  // lets the order pass (its guard fails), since a wrapped sum is never too large.
  lemma FokDecisionExact(b: Book, side: Side, price: Price, qty: Qty)
    ensures var a := Available(side, Some(price), b.Opp(side));
            (FokRefused(b, side, price, qty) <==> a < qty) <==> (a < TWO_TO_64 || qty <= Wrap(a))
  {
    var a := Available(side, Some(price), b.Opp(side));
    assert a < TWO_TO_64 ==> Wrap(a) == a;
  }

  // The orders of a run that reaches such a book: two asks of 2^63.
  function BigAsk(id: OrderId): Command {
    New(id, Ask, Limit, 5, 0x8000_0000_0000_0000, Gtc)
  }

  function BigAskAt(id: OrderId): RestingOrder {
    RestingOrder(id, Ask, Gtc, 5, 0x8000_0000_0000_0000)
  }

  lemma BigAskRests(b: Book, id: OrderId)
    requires b.bids == [] && Lookup(b.asks, id).None? && |b.asks| < b.cfg.maxOrders && PriceOk(b.cfg, 5)
    requires Insert(b.asks, BigAskAt(id)) == b.asks + [BigAskAt(id)]
    ensures Apply(b, BigAsk(id)).book == b.(asks := b.asks + [BigAskAt(id)], seqNo := b.seqNo + 1)
  {
    hide Insert;
    var big: Qty := 0x8000_0000_0000_0000;
    assert Cross(Ask, Some(5), id, big, []) == CrossResult([], big, []);
  }

  lemma BigAsks(cfg: BookConfig)
    requires cfg.maxOrders >= 3 && PriceOk(cfg, 5)
    ensures Run(EmptyBook(cfg), [BigAsk(1), BigAsk(2)]).book == Book([], [BigAskAt(1), BigAskAt(2)], 2, cfg)
  {
    var (c, d) := (BigAsk(1), BigAsk(2));
    BigAskRests(EmptyBook(cfg), 1);
    var b := Apply(EmptyBook(cfg), c).book;
    assert [] + [BigAskAt(1)] == [BigAskAt(1)];
    SecondAsk();
    BigAskRests(b, 2);
    RunTwo(EmptyBook(cfg), c, d);
  }

  lemma SecondAsk()
    ensures var s := [BigAskAt(1)]; Lookup(s, 2).None? && Insert(s, BigAskAt(2)) == s + [BigAskAt(2)]
  {
    var s := [BigAskAt(1)];
    assert s[1..] == [];
    assert Insert([], BigAskAt(2)) == [BigAskAt(2)];
  }

  lemma RunTwo(b: Book, c: Command, d: Command)
    ensures Run(b, [c, d]).book == Apply(Apply(b, c).book, d).book
  {
    hide Apply;
    var b1 := Apply(b, c).book;
    assert [c, d][1..] == [d] && [d][1..] == [];
    assert Run(b1, [d]).book == Run(Apply(b1, d).book, []).book;
  }

  // Two asks of 2^63 wrap to a fillable quantity of 0: after the run that rests
  // them, an order for 1 is refused although 2^64 is there.
  lemma FokWrapsWitness()
    ensures var b := Run(EmptyBook(BookConfig(0, 10, 8, LadderKind)), [BigAsk(1), BigAsk(2)]).book;
            && Available(Bid, Some(5), b.asks) == TWO_TO_64
            && Apply(b, New(3, Bid, Limit, 5, 1, Fok)).events == [Rejected(3, FokCannotFill)]
  {
    hide Run, Insert;
    var cfg := BookConfig(0, 10, 8, LadderKind);
    BigAsks(cfg);
    var asks := [BigAskAt(1), BigAskAt(2)];
    assert asks[1..] == [BigAskAt(2)];
    assert asks[1..][1..] == [];
    assert Available(Bid, Some(5), asks[1..]) == BigAskAt(2).qty;
    LookupOk(asks, 3);
    LookupOk([], 3);
    assert Wrap(TWO_TO_64) == 0;
    assert Find(Book([], asks, 2, cfg), 3).None?;
  }

  // An admitted FOK order fills completely; a refused one changes only `seqNo`.
  lemma FokAllOrNothing(b: Book, c: Command)
    requires WellFormed(b) && c.New? && c.otype.Limit? && c.tif.Fok?
    ensures var out := ApplyNew(b, c);
            if NewRefusal(b, c).None? then
              && out.events == Cross(c.side, Some(c.price), c.orderId, c.qty, b.Opp(c.side)).events
                 + [Closed(c.orderId, Filled)]
              && Traded(out.events) == c.qty <= Available(c.side, Some(c.price), b.Opp(c.side))
            else
              out.book == b.(seqNo := b.seqNo + 1) && |out.events| == 1 && out.events[0].Rejected?
  {
    if NewRefusal(b, c).None? {
      var opp := b.Opp(c.side);
      var a := Available(c.side, Some(c.price), opp);
      assert Wrap(a) <= a;
      CrossTrades(c.side, Some(c.price), c.orderId, c.qty, opp);
      var r := Cross(c.side, Some(c.price), c.orderId, c.qty, opp);
      TradedAppend(r.events, [Closed(c.orderId, Filled)]);
    }
  }

  // A post-only limit order never trades: it rests whole or is refused.
  lemma PostOnlyNeverTrades(b: Book, c: Command)
    requires c.New? && c.otype.Limit? && c.tif.PostOnly?
    ensures var out := ApplyNew(b, c);
            if NewRefusal(b, c).None? then
              && out.events == [Accepted(c.orderId, c.qty)]
              && out.book.Opp(c.side) == b.Opp(c.side)
              && out.book.Own(c.side) == Insert(b.Own(c.side), RestingOrder(c.orderId, c.side, c.tif, c.price, c.qty))
            else
              out.book == b.(seqNo := b.seqNo + 1) && |out.events| == 1 && out.events[0].Rejected?
  {
  }
}
