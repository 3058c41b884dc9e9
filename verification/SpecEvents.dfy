// The event stream as a record of the live book: folding the events of a run
// gives its live orders.

module SpecEvents {
  import opened Types
  import opened SpecBook
  import opened SpecInvariant

  // One event, as a client that sees nothing else would apply it.
  function Follow(live: map<OrderId, Qty>, e: Event): map<OrderId, Qty> {
    match e
    case Accepted(id, leaves) => live[id := leaves]
    case Rejected(_, _) => live
    case Trade(maker, _, _, qty) =>
      if maker in live && qty <= live[maker] then live[maker := live[maker] - qty] else live
    case Closed(id, _) => live - {id}
    case Replaced(id, _, qty) => live[id := qty]
  }

  function FollowAll(live: map<OrderId, Qty>, events: seq<Event>): map<OrderId, Qty>
    decreases |events|
  {
    if events == [] then live else FollowAll(Follow(live, events[0]), events[1..])
  }

  ghost predicate HasQtys(live: map<OrderId, Qty>, s: seq<RestingOrder>) {
    forall i :: 0 <= i < |s| ==> s[i].orderId in live && live[s[i].orderId] == s[i].qty
  }

  // `live` is exactly the map from live ids to resting quantities.
  ghost predicate Describes(live: map<OrderId, Qty>, b: Book) {
    && live.Keys == Ids(b.bids) + Ids(b.asks)
    && HasQtys(live, b.bids)
    && HasQtys(live, b.asks)
  }

  lemma DescribesUnique(live: map<OrderId, Qty>, live': map<OrderId, Qty>, b: Book)
    requires Describes(live, b) && Describes(live', b)
    ensures live == live'
  {
    forall id | id in live
      ensures live[id] == live'[id]
    {
      if id in Ids(b.bids) {
        var i :| 0 <= i < |b.bids| && b.bids[i].orderId == id;
      } else {
        var i :| 0 <= i < |b.asks| && b.asks[i].orderId == id;
      }
    }
  }

  lemma {:induction false} FollowAppend(live: map<OrderId, Qty>, a: seq<Event>, b: seq<Event>)
    ensures FollowAll(live, a + b) == FollowAll(FollowAll(live, a), b)
    decreases |a|
  {
    if a == [] {
      assert a + b == b;
    } else {
      assert (a + b)[1..] == a[1..] + b;
      FollowAppend(Follow(live, a[0]), a[1..], b);
    }
  }

  lemma {:induction false} FollowLast(live: map<OrderId, Qty>, a: seq<Event>, e: Event)
    ensures FollowAll(live, a + [e]) == Follow(FollowAll(live, a), e)
  {
    FollowAppend(live, a, [e]);
    assert FollowAll(FollowAll(live, a), [e]) == FollowAll(Follow(FollowAll(live, a), e), []);
  }

  // What following a match against `opp`, leaving `left` of it, must give.
  ghost predicate MatchFollowed(live: map<OrderId, Qty>, live': map<OrderId, Qty>, opp: seq<RestingOrder>,
                                left: seq<RestingOrder>)
  {
    && Ids(left) <= Ids(opp)
    && live'.Keys == live.Keys - (Ids(opp) - Ids(left))
    && HasQtys(live', left)
    && forall id :: id in live && id !in Ids(opp) ==> live'[id] == live[id]
  }

  lemma {:induction false} FollowCross(live: map<OrderId, Qty>, side: Side, bound: Option<Price>, taker: OrderId,
                                       qty: Qty, opp: seq<RestingOrder>)
    requires UniqueIds(opp) && HasQtys(live, opp)
    ensures var r := Cross(side, bound, taker, qty, opp);
            MatchFollowed(live, FollowAll(live, r.events), opp, r.opp)
    decreases |opp|
  {
    hide Follow, FollowAll, HasQtys, MatchFollowed, Ids, UniqueIds;
    if qty == 0 || opp == [] || !Crosses(side, bound, opp[0].price) {
      FollowNone(live, opp);
    } else if qty < opp[0].qty {
      var m := opp[0];
      FollowHead(live, opp);
      FollowPartial(live, m, qty, opp);
      FollowTrade(live, m, taker, qty);
    } else {
      var m := opp[0];
      var r := Cross(side, bound, taker, qty - m.qty, opp[1..]);
      var live1 := live[m.orderId := 0] - {m.orderId};
      FollowHead(live, opp);
      UniqueTail(opp);
      FollowFirst(live, m, m.qty, opp[1..]);
      FollowCross(live1, side, bound, taker, qty - m.qty, opp[1..]);
      FollowFilled(live, live1, FollowAll(live1, r.events), opp, r.opp);
      FollowFill(live, m, taker);
      FollowAppend(live, [Trade(m.orderId, taker, m.price, m.qty), Closed(m.orderId, Filled)], r.events);
    }
  }

  lemma FollowNone(live: map<OrderId, Qty>, opp: seq<RestingOrder>)
    requires HasQtys(live, opp)
    ensures MatchFollowed(live, FollowAll(live, []), opp, opp)
  {
  }

  lemma FollowHead(live: map<OrderId, Qty>, opp: seq<RestingOrder>)
    requires HasQtys(live, opp) && opp != []
    ensures opp[0].orderId in live && live[opp[0].orderId] == opp[0].qty && HasQtys(live, opp[1..])
  {
  }

  lemma FollowTrade(live: map<OrderId, Qty>, m: RestingOrder, taker: OrderId, qty: Qty)
    requires m.orderId in live && live[m.orderId] == m.qty && qty <= m.qty
    ensures FollowAll(live, [Trade(m.orderId, taker, m.price, qty)]) == live[m.orderId := m.qty - qty]
  {
    FollowLast(live, [], Trade(m.orderId, taker, m.price, qty));
    assert [] + [Trade(m.orderId, taker, m.price, qty)] == [Trade(m.orderId, taker, m.price, qty)];
  }

  lemma FollowFill(live: map<OrderId, Qty>, m: RestingOrder, taker: OrderId)
    requires m.orderId in live && live[m.orderId] == m.qty
    ensures FollowAll(live, [Trade(m.orderId, taker, m.price, m.qty), Closed(m.orderId, Filled)])
            == live[m.orderId := 0] - {m.orderId}
  {
    FollowTwo(live, Trade(m.orderId, taker, m.price, m.qty), Closed(m.orderId, Filled));
  }

  lemma FollowTwo(live: map<OrderId, Qty>, e: Event, f: Event)
    ensures FollowAll(live, [e, f]) == Follow(Follow(live, e), f)
  {
    FollowLast(live, [e], f);
    FollowLast(live, [], e);
    assert [e] + [f] == [e, f] && [] + [e] == [e];
  }

  lemma FollowPartial(live: map<OrderId, Qty>, m: RestingOrder, qty: Qty, opp: seq<RestingOrder>)
    requires opp != [] && m == opp[0] && UniqueIds(opp) && HasQtys(live, opp) && qty < m.qty
    ensures MatchFollowed(live, live[m.orderId := m.qty - qty], opp, [m.(qty := m.qty - qty)] + opp[1..])
  {
    var reduced := [m.(qty := m.qty - qty)] + opp[1..];
    UniqueTail(opp);
    IdsTail(opp);
    IdsTail(reduced);
    assert reduced[1..] == opp[1..];
    FollowFirst(live, m, qty, opp[1..]);
  }

  lemma FollowFilled(live: map<OrderId, Qty>, live1: map<OrderId, Qty>, live': map<OrderId, Qty>,
                     opp: seq<RestingOrder>, left: seq<RestingOrder>)
    requires opp != [] && UniqueIds(opp) && opp[0].orderId in live
    requires live1 == live[opp[0].orderId := 0] - {opp[0].orderId}
    requires MatchFollowed(live1, live', opp[1..], left)
    ensures MatchFollowed(live, live', opp, left)
  {
    UniqueTail(opp);
    IdsTail(opp);
  }

  // A trade against the first order leaves every later order's entry alone.
  lemma FollowFirst(live: map<OrderId, Qty>, m: RestingOrder, qty: Qty, rest: seq<RestingOrder>)
    requires m.orderId in live && live[m.orderId] == m.qty && qty <= m.qty
    requires m.orderId !in Ids(rest) && HasQtys(live, rest)
    ensures HasQtys(live[m.orderId := m.qty - qty], rest)
    ensures HasQtys(live[m.orderId := m.qty - qty] - {m.orderId}, rest)
  {
    forall i | 0 <= i < |rest|
      ensures rest[i].orderId != m.orderId
    {
      assert rest[i].orderId in Ids(rest);
    }
  }

  lemma {:induction false} HasQtysInsert(live: map<OrderId, Qty>, s: seq<RestingOrder>, o: RestingOrder)
    requires HasQtys(live, s) && o.orderId in live && live[o.orderId] == o.qty
    ensures HasQtys(live, Insert(s, o))
  {
    if s != [] && !Better(o.side, o.price, s[0].price) {
      HasQtysInsert(live, s[1..], o);
    }
  }

  lemma {:induction false} HasQtysWithout(live: map<OrderId, Qty>, s: seq<RestingOrder>, id: OrderId)
    requires HasQtys(live, s)
    ensures HasQtys(live - {id}, Without(s, id))
  {
    if s != [] {
      HasQtysWithout(live, s[1..], id);
    }
  }

  lemma {:induction false} HasQtysWithQty(live: map<OrderId, Qty>, s: seq<RestingOrder>, id: OrderId, qty: Qty)
    requires HasQtys(live, s)
    ensures HasQtys(live[id := qty], WithQty(s, id, qty))
  {
    if s != [] {
      HasQtysWithQty(live, s[1..], id, qty);
    }
  }

  // An entry for an id that is not in `s` does not matter to `s`.
  lemma HasQtysOther(live: map<OrderId, Qty>, s: seq<RestingOrder>, id: OrderId, qty: Qty)
    requires HasQtys(live, s) && id !in Ids(s)
    ensures HasQtys(live[id := qty], s) && HasQtys(live - {id}, s)
  {
    forall i | 0 <= i < |s|
      ensures s[i].orderId != id
    {
      assert s[i].orderId in Ids(s);
    }
  }

  // `Describes` with the two sides named from the taker's point of view.
  ghost predicate DescribesSides(live: map<OrderId, Qty>, own: seq<RestingOrder>, opp: seq<RestingOrder>) {
    live.Keys == Ids(own) + Ids(opp) && HasQtys(live, own) && HasQtys(live, opp)
  }

  lemma FollowMatch(live: map<OrderId, Qty>, side: Side, bound: Option<Price>, taker: OrderId, qty: Qty,
                    own: seq<RestingOrder>, opp: seq<RestingOrder>)
    requires UniqueIds(opp) && DescribesSides(live, own, opp) && Ids(own) !! Ids(opp)
    ensures var r := Cross(side, bound, taker, qty, opp);
            DescribesSides(FollowAll(live, r.events), own, r.opp) && Ids(r.opp) <= Ids(opp)
  {
    FollowCross(live, side, bound, taker, qty, opp);
    forall i | 0 <= i < |own|
      ensures own[i].orderId !in Ids(opp)
    {
      assert own[i].orderId in Ids(own);
    }
  }

  lemma FollowRest(live: map<OrderId, Qty>, cfg: BookConfig, own: seq<RestingOrder>, opp: seq<RestingOrder>,
                   o: RestingOrder)
    requires DescribesSides(live, own, opp) && o.orderId !in Ids(own) + Ids(opp)
    requires SideOk(o.side, cfg, own) && OrderOk(o.side, cfg, o)
    ensures DescribesSides(live[o.orderId := o.qty], Insert(own, o), opp)
  {
    HasQtysOther(live, own, o.orderId, o.qty);
    HasQtysOther(live, opp, o.orderId, o.qty);
    HasQtysInsert(live[o.orderId := o.qty], own, o);
    InsertOk(o.side, cfg, own, o);
  }

  lemma FollowRemove(live: map<OrderId, Qty>, side: Side, cfg: BookConfig, own: seq<RestingOrder>,
                     opp: seq<RestingOrder>, id: OrderId)
    requires DescribesSides(live, own, opp) && id !in Ids(opp) && SideOk(side, cfg, own)
    ensures DescribesSides(live - {id}, Without(own, id), opp)
  {
    WithoutOk(side, cfg, own, id);
    HasQtysWithout(live, own, id);
    HasQtysOther(live, opp, id, 0);
  }

  lemma DescribesFrom(live: map<OrderId, Qty>, b: Book, side: Side)
    ensures Describes(live, b) <==> DescribesSides(live, b.Own(side), b.Opp(side))
  {
  }

  // The book after a match against `opp` and a change of the taker's own side.
  lemma FollowTaker(live: map<OrderId, Qty>, b: Book, b': Book, side: Side, events: seq<Event>, e: Event,
                    live': map<OrderId, Qty>, own: seq<RestingOrder>, opp: seq<RestingOrder>)
    requires b'.Own(side) == own && b'.Opp(side) == opp
    requires live' == Follow(FollowAll(live, events), e)
    requires DescribesSides(live', own, opp)
    ensures Describes(FollowAll(live, events + [e]), b')
  {
    FollowLast(live, events, e);
    DescribesFrom(live', b', side);
  }

  lemma NewFollows(live: map<OrderId, Qty>, b: Book, c: Command)
    requires WellFormed(b) && Describes(live, b) && c.New? && NewRefusal(b, c).None?
    ensures Describes(FollowAll(live, ApplyNew(b, c).events), ApplyNew(b, c).book)
  {
    hide HasQtys, Ids, Sorted, UniqueIds, Cross, Insert, Find, FokRefused, FollowAll;
    FindOk(b, c.orderId);
    var own, opp := b.Own(c.side), b.Opp(c.side);
    DescribesFrom(live, b, c.side);
    FollowMatch(live, c.side, Bound(c), c.orderId, c.qty, own, opp);
    var r := Cross(c.side, Bound(c), c.orderId, c.qty, opp);
    var live' := FollowAll(live, r.events);
    if r.qty > 0 && Rests(c) {
      var o := RestingOrder(c.orderId, c.side, c.tif, c.price, r.qty);
      FollowRest(live', b.cfg, own, r.opp, o);
      FollowTaker(live, b, ApplyNew(b, c).book, c.side, r.events, Accepted(c.orderId, r.qty),
                  live'[c.orderId := r.qty], Insert(own, o), r.opp);
    } else {
      assert live' - {c.orderId} == live';
      FollowTaker(live, b, ApplyNew(b, c).book, c.side, r.events,
                  Closed(c.orderId, if r.qty == 0 then Filled else Expired), live', own, r.opp);
    }
  }

  lemma RequoteFollows(live: map<OrderId, Qty>, b: Book, c: Command, o: RestingOrder)
    requires WellFormed(b) && Describes(live, b) && c.Replace? && ReplaceRefusal(b, c).None?
    requires Find(b, c.orderId) == Some(o) && !KeepsPriority(o, c)
    ensures Describes(FollowAll(live, ApplyReplace(b, c).events), ApplyReplace(b, c).book)
  {
    hide HasQtys, Ids, Sorted, UniqueIds, Cross, Insert, Without, Find, FollowAll;
    FindOk(b, c.orderId);
    var own, opp := b.Own(o.side), b.Opp(o.side);
    DescribesFrom(live, b, o.side);
    FollowMatch(live, o.side, Some(c.price), c.orderId, c.qty, own, opp);
    var r := Cross(o.side, Some(c.price), c.orderId, c.qty, opp);
    var live' := FollowAll(live, r.events);
    var own' := Without(own, c.orderId);
    FollowRemove(live', o.side, b.cfg, own, r.opp, c.orderId);
    if r.qty > 0 {
      var o' := RestingOrder(c.orderId, o.side, o.tif, c.price, r.qty);
      WithoutOk(o.side, b.cfg, own, c.orderId);
      FollowRest(live' - {c.orderId}, b.cfg, own', r.opp, o');
      assert (live' - {c.orderId})[c.orderId := r.qty] == live'[c.orderId := r.qty];
      FollowTaker(live, b, ApplyReplace(b, c).book, o.side, r.events, Replaced(c.orderId, c.price, r.qty),
                  live'[c.orderId := r.qty], Insert(own', o'), r.opp);
    } else {
      FollowTaker(live, b, ApplyReplace(b, c).book, o.side, r.events, Closed(c.orderId, Filled),
                  live' - {c.orderId}, own', r.opp);
    }
  }

  lemma KeepFollows(live: map<OrderId, Qty>, b: Book, c: Command, o: RestingOrder)
    requires WellFormed(b) && Describes(live, b) && c.Replace? && ReplaceRefusal(b, c).None?
    requires Find(b, c.orderId) == Some(o) && KeepsPriority(o, c)
    ensures Describes(FollowAll(live, ApplyReplace(b, c).events), ApplyReplace(b, c).book)
  {
    hide HasQtys, Ids, Sorted, UniqueIds, WithQty, Find, FollowAll;
    FindOk(b, c.orderId);
    DescribesFrom(live, b, o.side);
    FollowNothing(live);
    var own, opp := b.Own(o.side), b.Opp(o.side);
    WithQtyOk(o.side, b.cfg, own, c.orderId, c.qty);
    HasQtysWithQty(live, own, c.orderId, c.qty);
    HasQtysOther(live, opp, c.orderId, c.qty);
    assert [] + [Replaced(c.orderId, c.price, c.qty)] == [Replaced(c.orderId, c.price, c.qty)];
    FollowTaker(live, b, ApplyReplace(b, c).book, o.side, [], Replaced(c.orderId, c.price, c.qty),
                live[c.orderId := c.qty], WithQty(own, c.orderId, c.qty), opp);
  }

  lemma FollowNothing(live: map<OrderId, Qty>)
    ensures FollowAll(live, []) == live
  {
  }

  lemma CancelFollows(live: map<OrderId, Qty>, b: Book, id: OrderId)
    requires WellFormed(b) && Describes(live, b) && Find(b, id).Some?
    ensures Describes(FollowAll(live, ApplyCancel(b, id).events), ApplyCancel(b, id).book)
  {
    hide HasQtys, Ids, Sorted, UniqueIds, Without, Find, FollowAll;
    FollowNothing(live);
    FindOk(b, id);
    var side := Find(b, id).value.side;
    DescribesFrom(live, b, side);
    FollowRemove(live, side, b.cfg, b.Own(side), b.Opp(side), id);
    assert [] + [Closed(id, Cancelled)] == [Closed(id, Cancelled)];
    FollowTaker(live, b, ApplyCancel(b, id).book, side, [], Closed(id, Cancelled),
                live - {id}, Without(b.Own(side), id), b.Opp(side));
  }

  lemma RefuseFollows(live: map<OrderId, Qty>, b: Book, id: OrderId, reason: RejectReason)
    requires Describes(live, b)
    ensures Describes(FollowAll(live, Refuse(b, id, reason).events), Refuse(b, id, reason).book)
  {
    FollowLast(live, [], Rejected(id, reason));
    assert [] + [Rejected(id, reason)] == [Rejected(id, reason)];
  }

  lemma ApplyFollows(live: map<OrderId, Qty>, b: Book, c: Command)
    requires WellFormed(b) && Describes(live, b)
    ensures Describes(FollowAll(live, Apply(b, c).events), Apply(b, c).book)
  {
    match c
    case New(id, _, _, _, _, _) =>
      var refusal := NewRefusal(b, c);
      if refusal.Some? { RefuseFollows(live, b, id, refusal.value); } else { NewFollows(live, b, c); }
    case Cancel(id) =>
      if Find(b, id).None? { RefuseFollows(live, b, id, UnknownOrderId); } else { CancelFollows(live, b, id); }
    case Replace(id, _, _) =>
      var refusal := ReplaceRefusal(b, c);
      if refusal.Some? {
        RefuseFollows(live, b, id, refusal.value);
      } else if KeepsPriority(Find(b, id).value, c) {
        KeepFollows(live, b, c, Find(b, id).value);
      } else {
        RequoteFollows(live, b, c, Find(b, id).value);
      }
  }

  // Folding the events of any run gives exactly the live ids and quantities.
  lemma {:induction false} RunFollows(live: map<OrderId, Qty>, b: Book, cs: seq<Command>)
    requires WellFormed(b) && Describes(live, b)
    ensures Describes(FollowAll(live, Run(b, cs).events), Run(b, cs).book)
    decreases |cs|
  {
    if cs != [] {
      var first := Apply(b, cs[0]);
      ApplyKeeps(b, cs[0]);
      ApplyFollows(live, b, cs[0]);
      RunFollows(FollowAll(live, first.events), first.book, cs[1..]);
      FollowAppend(live, first.events, Run(first.book, cs[1..]).events);
    }
  }
}
