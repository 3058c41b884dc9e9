// Time priority over whole runs: the order of a side is price first and arrival
// second, where an order arrives when a command rests it or makes it lose its
// place (src/book.rs:171-189, src/book.rs:243-303).

module SpecArrival {
  import opened Types
  import opened SpecBook
  import opened SpecInvariant

  // When and at which price an order took its place.
  datatype Arrival = Arrival(at: nat, price: Price)

  // Does the command put its order at the back of a level?
  predicate Arrives(b: Book, c: Command) {
    match c
    case New(id, side, _, _, qty, _) =>
      NewRefusal(b, c).None? && Rests(c) && Cross(side, Bound(c), id, qty, b.Opp(side)).qty > 0
    case Cancel(_) => false
    case Replace(id, price, qty) =>
      ReplaceRefusal(b, c).None?
      && var o := Find(b, id).value;
         !KeepsPriority(o, c) && Cross(o.side, Some(price), id, qty, b.Opp(o.side)).qty > 0
  }

  // The last arrival of every id, before command number `n` and after it.
  function Stamped(st: map<OrderId, Arrival>, b: Book, c: Command, n: nat): map<OrderId, Arrival> {
    if Arrives(b, c) && !c.Cancel? then st[c.orderId := Arrival(n, c.price)] else st
  }

  function RunStamped(st: map<OrderId, Arrival>, b: Book, cs: seq<Command>, n: nat): map<OrderId, Arrival>
    decreases |cs|
  {
    if cs == [] then st
    else RunStamped(Stamped(st, b, cs[0], n), Apply(b, cs[0]).book, cs[1..], n + 1)
  }

  // Better price first, earlier arrival first at one price.
  ghost predicate Before(side: Side, st: map<OrderId, Arrival>, x: RestingOrder, y: RestingOrder) {
    && x.orderId in st && y.orderId in st
    && (Better(side, x.price, y.price) || (x.price == y.price && st[x.orderId].at < st[y.orderId].at))
  }

  // The order took its place before command `n`, at the price it rests at.
  ghost predicate Placed(st: map<OrderId, Arrival>, n: nat, o: RestingOrder) {
    o.orderId in st && st[o.orderId].at < n && st[o.orderId].price == o.price
  }

  ghost predicate Ranked(side: Side, st: map<OrderId, Arrival>, n: nat, s: seq<RestingOrder>) {
    && (forall o :: o in s ==> Placed(st, n, o))
    && (forall i, j :: 0 <= i < j < |s| ==> Before(side, st, s[i], s[j]))
  }

  ghost predicate BookRanked(st: map<OrderId, Arrival>, n: nat, b: Book) {
    Ranked(Bid, st, n, b.bids) && Ranked(Ask, st, n, b.asks)
  }

  // ---- what each change of a side does -----------------------------------------

  lemma RankedTail(side: Side, st: map<OrderId, Arrival>, n: nat, s: seq<RestingOrder>)
    requires Ranked(side, st, n, s) && s != []
    ensures Ranked(side, st, n, s[1..]) && Placed(st, n, s[0])
    ensures forall o :: o in s[1..] ==> Before(side, st, s[0], o)
  {
    forall o | o in s[1..]
      ensures Before(side, st, s[0], o)
    {
      var i :| 0 <= i < |s| - 1 && s[1..][i] == o;
      assert s[i + 1] == o;
    }
  }

  lemma RankedCons(side: Side, st: map<OrderId, Arrival>, n: nat, o: RestingOrder, s: seq<RestingOrder>)
    requires Ranked(side, st, n, s) && Placed(st, n, o) && forall x :: x in s ==> Before(side, st, o, x)
    ensures Ranked(side, st, n, [o] + s)
  {
    hide Before, Placed;
  }

  lemma RankedLater(side: Side, st: map<OrderId, Arrival>, n: nat, m: nat, s: seq<RestingOrder>)
    requires Ranked(side, st, n, s) && n <= m
    ensures Ranked(side, st, m, s)
  {
    hide Before;
    forall o | o in s
      ensures Placed(st, m, o)
    {
      assert Placed(st, n, o);
    }
  }

  // A stamp for an id that is not on the side does not matter to it.
  lemma RankedOther(side: Side, st: map<OrderId, Arrival>, n: nat, s: seq<RestingOrder>, id: OrderId, a: Arrival)
    requires Ranked(side, st, n, s) && id !in Ids(s)
    ensures Ranked(side, st[id := a], n, s)
  {
    var st' := st[id := a];
    forall i | 0 <= i < |s|
      ensures s[i].orderId != id && Placed(st', n, s[i])
    {
      assert s[i].orderId in Ids(s) && Placed(st, n, s[i]);
    }
    forall i, j | 0 <= i < j < |s|
      ensures Before(side, st', s[i], s[j])
    {
      assert Before(side, st, s[i], s[j]);
    }
  }

  lemma {:induction false} RankedWithout(side: Side, st: map<OrderId, Arrival>, n: nat, s: seq<RestingOrder>,
                                         id: OrderId)
    requires Ranked(side, st, n, s)
    ensures Ranked(side, st, n, Without(s, id))
  {
    hide Ranked, Before, Placed;
    if s == [] {
    } else {
      RankedTail(side, st, n, s);
      RankedWithout(side, st, n, s[1..], id);
      var rest := Without(s[1..], id);
      if s[0].orderId == id {
        assert Without(s, id) == rest;
      } else {
        forall o | o in rest
          ensures Before(side, st, s[0], o)
        {
          WithoutIn(s[1..], id, o);
        }
        RankedCons(side, st, n, s[0], rest);
      }
    }
  }

  // Arrival and price are what ranks an order.
  lemma SameRank(side: Side, st: map<OrderId, Arrival>, n: nat, x: RestingOrder, y: RestingOrder, y': RestingOrder)
    requires y.orderId == y'.orderId && y.price == y'.price
    ensures Before(side, st, x, y) <==> Before(side, st, x, y')
    ensures Before(side, st, y, x) <==> Before(side, st, y', x)
    ensures Placed(st, n, y) <==> Placed(st, n, y')
  {
  }

  lemma {:induction false} RankedWithQty(side: Side, st: map<OrderId, Arrival>, n: nat, s: seq<RestingOrder>,
                                         id: OrderId, qty: Qty)
    requires Ranked(side, st, n, s)
    ensures Ranked(side, st, n, WithQty(s, id, qty))
  {
    hide Ranked, Before, Placed;
    if s == [] {
    } else {
      RankedTail(side, st, n, s);
      RankedWithQty(side, st, n, s[1..], id, qty);
      var (head, rest) := (if s[0].orderId == id then s[0].(qty := qty) else s[0], WithQty(s[1..], id, qty));
      forall o | o in rest
        ensures Before(side, st, head, o)
      {
        var x := WithQtyIn(s[1..], id, qty, o);
        SameRank(side, st, n, s[0], x, o);
        SameRank(side, st, n, o, s[0], head);
      }
      SameRank(side, st, n, head, s[0], head);
      RankedCons(side, st, n, head, rest);
    }
  }

  lemma FirstOfAll(side: Side, st: map<OrderId, Arrival>, n: nat, s: seq<RestingOrder>, o: RestingOrder)
    requires Ranked(side, st, n, s) && s != [] && Better(side, o.price, s[0].price) && o.orderId in st
    ensures forall x :: x in s ==> Before(side, st, o, x)
  {
    forall x | x in s
      ensures Before(side, st, o, x)
    {
      var i :| 0 <= i < |s| && s[i] == x;
      assert Placed(st, n, x);
      assert i > 0 ==> Before(side, st, s[0], s[i]);
    }
  }

  // The newest arrival is the last of its level and ahead of every worse price.
  lemma {:induction false} RankedInsert(side: Side, st: map<OrderId, Arrival>, n: nat, s: seq<RestingOrder>,
                                        o: RestingOrder)
    requires Ranked(side, st, n, s) && o.side == side && o.orderId in st && st[o.orderId] == Arrival(n, o.price)
    ensures Ranked(side, st, n + 1, Insert(s, o))
  {
    hide Ranked;
    RankedLater(side, st, n, n + 1, s);
    if s == [] {
      RankedCons(side, st, n + 1, o, s);
    } else if Better(side, o.price, s[0].price) {
      FirstOfAll(side, st, n, s, o);
      RankedCons(side, st, n + 1, o, s);
    } else {
      RankedTail(side, st, n, s);
      RankedInsert(side, st, n, s[1..], o);
      InsertMembers(s[1..], o);
      RankedCons(side, st, n + 1, s[0], Insert(s[1..], o));
    }
  }

  lemma {:induction false} RankedCross(side: Side, st: map<OrderId, Arrival>, n: nat, bound: Option<Price>,
                                       taker: OrderId, qty: Qty, opp: seq<RestingOrder>)
    requires Ranked(side.Opposite(), st, n, opp)
    ensures Ranked(side.Opposite(), st, n, Cross(side, bound, taker, qty, opp).opp)
    decreases |opp|
  {
    hide Ranked, Before, Placed, Crosses;
    if qty > 0 && opp != [] && Crosses(side, bound, opp[0].price) {
      var m := opp[0];
      RankedTail(side.Opposite(), st, n, opp);
      if qty < m.qty {
        var left := m.(qty := m.qty - qty);
        forall o | o in opp[1..]
          ensures Before(side.Opposite(), st, left, o)
        {
          SameRank(side.Opposite(), st, n, o, m, left);
        }
        SameRank(side.Opposite(), st, n, m, m, left);
        RankedCons(side.Opposite(), st, n, left, opp[1..]);
      } else {
        RankedCross(side, st, n, bound, taker, qty - m.qty, opp[1..]);
      }
    }
  }

  // ---- every command ---------------------------------------------------------------

  // `BookRanked` with the two sides named from the taker's point of view.
  lemma RankedSides(st: map<OrderId, Arrival>, n: nat, b: Book, side: Side)
    ensures BookRanked(st, n, b) <==> Ranked(side, st, n, b.Own(side)) && Ranked(side.Opposite(), st, n, b.Opp(side))
  {
    hide Ranked;
  }

  // A match, and the taker's remainder at the back of its level.
  lemma RankedRest(st: map<OrderId, Arrival>, n: nat, own: seq<RestingOrder>, opp: seq<RestingOrder>, o: RestingOrder)
    requires Ranked(o.side, st, n, own) && Ranked(o.side.Opposite(), st, n, opp)
    requires o.orderId !in Ids(own) && o.orderId !in Ids(opp)
    ensures var st' := st[o.orderId := Arrival(n, o.price)];
            Ranked(o.side, st', n + 1, Insert(own, o)) && Ranked(o.side.Opposite(), st', n + 1, opp)
  {
    hide Ranked, Insert, Ids;
    RankedOther(o.side, st, n, own, o.orderId, Arrival(n, o.price));
    RankedOther(o.side.Opposite(), st, n, opp, o.orderId, Arrival(n, o.price));
    var st' := st[o.orderId := Arrival(n, o.price)];
    RankedInsert(o.side, st', n, own, o);
    RankedLater(o.side.Opposite(), st', n, n + 1, opp);
  }

  lemma RankedBook(st: map<OrderId, Arrival>, n: nat, b: Book)
    requires BookRanked(st, n, b)
    ensures BookRanked(st, n + 1, b)
  {
    hide Ranked;
    RankedLater(Bid, st, n, n + 1, b.bids);
    RankedLater(Ask, st, n, n + 1, b.asks);
  }

  lemma NewRanked(st: map<OrderId, Arrival>, n: nat, b: Book, c: Command)
    requires WellFormed(b) && BookRanked(st, n, b) && c.New? && NewRefusal(b, c).None?
    ensures BookRanked(Stamped(st, b, c, n), n + 1, ApplyNew(b, c).book)
  {
    hide Ranked, SideOk, AllMayRest, Ids, Cross, Insert, Find, FokRefused;
    var (own, opp) := (b.Own(c.side), b.Opp(c.side));
    var out := ApplyNew(b, c).book;
    RankedSides(st, n, b, c.side);
    RankedCross(c.side, st, n, Bound(c), c.orderId, c.qty, opp);
    var r := Cross(c.side, Bound(c), c.orderId, c.qty, opp);
    if r.qty > 0 && Rests(c) {
      FindOk(b, c.orderId);
      CrossOk(c.side, b.cfg, Bound(c), c.orderId, c.qty, opp);
      RankedRest(st, n, own, r.opp, RestingOrder(c.orderId, c.side, c.tif, c.price, r.qty));
      RankedSides(Stamped(st, b, c, n), n + 1, out, c.side);
    } else {
      RankedSides(st, n, out, c.side);
      RankedBook(st, n, out);
    }
  }

  lemma RequoteRanked(st: map<OrderId, Arrival>, n: nat, b: Book, c: Command, o: RestingOrder)
    requires WellFormed(b) && BookRanked(st, n, b) && c.Replace? && ReplaceRefusal(b, c).None?
    requires Find(b, c.orderId) == Some(o) && !KeepsPriority(o, c)
    ensures BookRanked(Stamped(st, b, c, n), n + 1, ApplyReplace(b, c).book)
  {
    hide Ranked, SideOk, AllMayRest, Ids, Cross, Insert, Without, Find;
    FindOk(b, c.orderId);
    var (own, opp) := (b.Own(o.side), b.Opp(o.side));
    var (own', out) := (Without(own, c.orderId), ApplyReplace(b, c).book);
    RankedSides(st, n, b, o.side);
    RankedWithout(o.side, st, n, own, c.orderId);
    RankedCross(o.side, st, n, Some(c.price), c.orderId, c.qty, opp);
    var r := Cross(o.side, Some(c.price), c.orderId, c.qty, opp);
    if r.qty > 0 {
      WithoutOk(o.side, b.cfg, own, c.orderId);
      CrossOk(o.side, b.cfg, Some(c.price), c.orderId, c.qty, opp);
      RankedRest(st, n, own', r.opp, RestingOrder(c.orderId, o.side, o.tif, c.price, r.qty));
      RankedSides(Stamped(st, b, c, n), n + 1, out, o.side);
    } else {
      RankedSides(st, n, out, o.side);
      RankedBook(st, n, out);
    }
  }

  lemma KeepRanked(st: map<OrderId, Arrival>, n: nat, b: Book, c: Command, o: RestingOrder)
    requires WellFormed(b) && BookRanked(st, n, b) && c.Replace? && ReplaceRefusal(b, c).None?
    requires Find(b, c.orderId) == Some(o) && KeepsPriority(o, c)
    ensures BookRanked(st, n, ApplyReplace(b, c).book)
  {
    hide Ranked, WellFormed, WithQty, Find;
    RankedSides(st, n, b, o.side);
    RankedWithQty(o.side, st, n, b.Own(o.side), c.orderId, c.qty);
    RankedSides(st, n, ApplyReplace(b, c).book, o.side);
  }

  lemma CancelRanked(st: map<OrderId, Arrival>, n: nat, b: Book, id: OrderId)
    requires BookRanked(st, n, b)
    ensures BookRanked(st, n, ApplyCancel(b, id).book)
  {
    hide Ranked, Without, Find;
    if Find(b, id).Some? {
      var side := Find(b, id).value.side;
      RankedSides(st, n, b, side);
      RankedWithout(side, st, n, b.Own(side), id);
      RankedSides(st, n, ApplyCancel(b, id).book, side);
    }
  }

  // Every command keeps both sides ranked, its own order stamped if it arrives.
  lemma ApplyRanked(st: map<OrderId, Arrival>, n: nat, b: Book, c: Command)
    requires WellFormed(b) && BookRanked(st, n, b)
    ensures BookRanked(Stamped(st, b, c, n), n + 1, Apply(b, c).book)
  {
    hide Ranked, WellFormed, Cross, Insert, Without, WithQty, Find, FokRefused;
    match c
    case New(_, _, _, _, _, _) =>
      if NewRefusal(b, c).None? { NewRanked(st, n, b, c); } else { RankedBook(st, n, Apply(b, c).book); }
    case Cancel(id) =>
      CancelRanked(st, n, b, id);
      RankedBook(st, n, Apply(b, c).book);
    case Replace(id, _, _) =>
      if ReplaceRefusal(b, c).Some? {
        RankedBook(st, n, Apply(b, c).book);
      } else if KeepsPriority(Find(b, id).value, c) {
        KeepRanked(st, n, b, c, Find(b, id).value);
        RankedBook(st, n, Apply(b, c).book);
      } else {
        RequoteRanked(st, n, b, c, Find(b, id).value);
      }
  }

  lemma {:induction false} RunRanked(st: map<OrderId, Arrival>, n: nat, b: Book, cs: seq<Command>)
    requires WellFormed(b) && BookRanked(st, n, b)
    ensures BookRanked(RunStamped(st, b, cs, n), n + |cs|, Run(b, cs).book)
    decreases |cs|
  {
    hide BookRanked, WellFormed, Apply, Stamped;
    if cs != [] {
      ApplyKeeps(b, cs[0]);
      ApplyRanked(st, n, b, cs[0]);
      RunRanked(Stamped(st, b, cs[0], n), n + 1, Apply(b, cs[0]).book, cs[1..]);
    }
  }

  // After any run from an empty book, each side is its orders by price and, at one
  // price, by arrival.
  lemma RunInArrivalOrder(cfg: BookConfig, cs: seq<Command>)
    ensures var b := Run(EmptyBook(cfg), cs).book;
            var st := RunStamped(map[], EmptyBook(cfg), cs, 0);
            && (forall o :: o in b.bids || o in b.asks ==> Placed(st, |cs|, o))
            && (forall i, j :: 0 <= i < j < |b.bids| ==> Before(Bid, st, b.bids[i], b.bids[j]))
            && (forall i, j :: 0 <= i < j < |b.asks| ==> Before(Ask, st, b.asks[i], b.asks[j]))
  {
    hide Run, RunStamped, Before, Placed;
    RunRanked(map[], 0, EmptyBook(cfg), cs);
  }

  lemma HasMember(t: seq<RestingOrder>)
    ensures t == [] || exists o :: o in t
  {
    if t != [] { assert t[0] in t; }
  }

  lemma SameFirst(side: Side, st: map<OrderId, Arrival>, x: RestingOrder, s: seq<RestingOrder>, y: RestingOrder,
                  t: seq<RestingOrder>)
    requires forall o :: o in s ==> Before(side, st, x, o)
    requires forall o :: o in t ==> Before(side, st, y, o)
    requires (y == x || y in s) && (x == y || x in t)
    ensures x == y
  {
  }

  // That leaves no choice: the orders and their arrivals determine the side.
  lemma {:induction false} RankedUnique(side: Side, st: map<OrderId, Arrival>, n: nat, s: seq<RestingOrder>,
                                        t: seq<RestingOrder>)
    requires Ranked(side, st, n, s) && Ranked(side, st, n, t) && forall o :: o in s <==> o in t
    ensures s == t
    decreases |s|
  {
    hide Ranked, Placed;
    if s == [] {
      HasMember(t);
    } else {
      assert s[0] in s;
      RankedTail(side, st, n, s);
      RankedTail(side, st, n, t);
      assert t[0] in t;
      SameFirst(side, st, s[0], s[1..], t[0], t[1..]);
      forall o
        ensures o in s[1..] <==> o in t[1..]
      {
        assert o in s <==> o == s[0] || o in s[1..];
        assert o in t <==> o == t[0] || o in t[1..];
      }
      RankedUnique(side, st, n, s[1..], t[1..]);
    }
  }

  // ---- no overtaking -------------------------------------------------------------------

  // Does some command of the run put the order with this id at the back of a level?
  predicate RunArrives(b: Book, cs: seq<Command>, id: OrderId)
    decreases |cs|
  {
    cs != [] && ((Arrives(b, cs[0]) && cs[0].orderId == id) || RunArrives(Apply(b, cs[0]).book, cs[1..], id))
  }

  lemma {:induction false} StampKept(st: map<OrderId, Arrival>, n: nat, b: Book, cs: seq<Command>, id: OrderId)
    requires id in st && !RunArrives(b, cs, id)
    ensures id in RunStamped(st, b, cs, n) && RunStamped(st, b, cs, n)[id] == st[id]
    decreases |cs|
  {
    hide Apply, Arrives;
    if cs != [] {
      StampKept(Stamped(st, b, cs[0], n), n + 1, Apply(b, cs[0]).book, cs[1..], id);
    }
  }

  // Any well-formed book is ranked by the positions of its orders.
  function Position(s: seq<RestingOrder>, id: OrderId): (i: nat)
    requires id in Ids(s)
    ensures i < |s| && s[i].orderId == id
  {
    IdsTail(s);
    if s[0].orderId == id then 0 else 1 + Position(s[1..], id)
  }

  function PositionStamps(s: seq<RestingOrder>): map<OrderId, Arrival> {
    map id | id in Ids(s) :: Arrival(Position(s, id), s[Position(s, id)].price)
  }

  lemma PositionsRank(side: Side, s: seq<RestingOrder>, st: map<OrderId, Arrival>)
    requires Sorted(side, s) && UniqueIds(s)
    requires forall id :: id in Ids(s) ==> id in st && st[id] == PositionStamps(s)[id]
    ensures Ranked(side, st, |s|, s)
  {
    forall i | 0 <= i < |s|
      ensures s[i].orderId in st && st[s[i].orderId] == Arrival(i, s[i].price)
    {
      assert s[i].orderId in Ids(s);
    }
  }

  lemma AnyRanked(b: Book) returns (st: map<OrderId, Arrival>, n: nat)
    requires WellFormed(b)
    ensures BookRanked(st, n, b)
  {
    hide Sorted, UniqueIds, Ids, Ranked, Position;
    st := PositionStamps(b.bids) + PositionStamps(b.asks);
    n := |b.bids| + |b.asks|;
    PositionsRank(Bid, b.bids, st);
    PositionsRank(Ask, b.asks, st);
    RankedLater(Bid, st, |b.bids|, n, b.bids);
    RankedLater(Ask, st, |b.asks|, n, b.asks);
  }

  // Of two orders at one price, the one ahead stays ahead over every run that
  // neither re-enters nor requotes them, for as long as both are on the book.
  lemma NoOvertaking(b: Book, cs: seq<Command>, side: Side, i: nat, j: nat, k: nat, l: nat)
    requires WellFormed(b) && i < j < |b.Own(side)| && b.Own(side)[i].price == b.Own(side)[j].price
    requires !RunArrives(b, cs, b.Own(side)[i].orderId) && !RunArrives(b, cs, b.Own(side)[j].orderId)
    requires var s := Run(b, cs).book.Own(side);
             && k < |s| && s[k].orderId == b.Own(side)[i].orderId
             && l < |s| && s[l].orderId == b.Own(side)[j].orderId
    ensures var s := Run(b, cs).book.Own(side);
            k < l && s[k].price == s[l].price == b.Own(side)[i].price
  {
    hide Run, RunStamped, RunArrives, WellFormed;
    var st, n := AnyRanked(b);
    RunRanked(st, n, b, cs);
    var (x, y, s) := (b.Own(side)[i], b.Own(side)[j], Run(b, cs).book.Own(side));
    var st' := RunStamped(st, b, cs, n);
    assert Before(side, st, x, y) && Placed(st, n, x) && Placed(st, n, y);
    StampKept(st, n, b, cs, x.orderId);
    StampKept(st, n, b, cs, y.orderId);
    assert Placed(st', n + |cs|, s[k]) && Placed(st', n + |cs|, s[l]);
    assert l < k ==> Before(side, st', s[l], s[k]);
  }
}
