// What every command keeps true of the specification book, and the sequence
// lemmas that show it.

module SpecInvariant {
  import opened Types
  import opened SpecBook

  // ---- predicates ---------------------------------------------------------

  ghost predicate Sorted(side: Side, s: seq<RestingOrder>) {
    forall i, j :: 0 <= i < j < |s| ==> !Better(side, s[j].price, s[i].price)
  }

  ghost predicate UniqueIds(s: seq<RestingOrder>) {
    forall i, j :: 0 <= i < j < |s| ==> s[i].orderId != s[j].orderId
  }

  // An order the book's structures can hold.
  ghost predicate OrderOk(side: Side, cfg: BookConfig, o: RestingOrder) {
    o.side == side && o.qty > 0 && Holdable(cfg, o.price)
  }

  // A side in priority order that the book's structures can hold.
  ghost predicate SideOk(side: Side, cfg: BookConfig, s: seq<RestingOrder>) {
    && Sorted(side, s)
    && UniqueIds(s)
    && forall i :: 0 <= i < |s| ==> OrderOk(side, cfg, s[i])
  }

  // Immediate-or-cancel and fill-or-kill orders never rest.
  ghost predicate AllMayRest(s: seq<RestingOrder>) {
    forall o :: o in s ==> o.tif.Gtc? || o.tif.PostOnly?
  }

  // The best bid is strictly below the best ask whenever both exist.
  ghost predicate Uncrossed(bids: seq<RestingOrder>, asks: seq<RestingOrder>) {
    bids != [] && asks != [] ==> bids[0].price < asks[0].price
  }

  ghost predicate WellFormed(b: Book) {
    && SideOk(Bid, b.cfg, b.bids)
    && SideOk(Ask, b.cfg, b.asks)
    && AllMayRest(b.bids) && AllMayRest(b.asks)
    && Ids(b.bids) !! Ids(b.asks)
    && Uncrossed(b.bids, b.asks)
    && |b.bids| + |b.asks| <= b.cfg.maxOrders
  }

  // Every order rests at a price that a command could have named. On a ladder that
  // is part of being well formed; an ordered map could hold others.
  ghost predicate Priced(cfg: BookConfig, s: seq<RestingOrder>) {
    forall o :: o in s ==> PriceOk(cfg, o.price)
  }

  ghost predicate BookPriced(b: Book) {
    Priced(b.cfg, b.bids) && Priced(b.cfg, b.asks)
  }

  // ---- one sequence -------------------------------------------------------

  lemma IdsTail(s: seq<RestingOrder>)
    requires s != []
    ensures Ids(s) == {s[0].orderId} + Ids(s[1..])
  {
    forall id | id in Ids(s)
      ensures id in {s[0].orderId} + Ids(s[1..])
    {
      var i :| 0 <= i < |s| && s[i].orderId == id;
      if i > 0 { assert s[1..][i - 1].orderId == id; }
    }
    forall id | id in Ids(s[1..])
      ensures id in Ids(s)
    {
      var i :| 0 <= i < |s| - 1 && s[1..][i].orderId == id;
      assert s[i + 1].orderId == id;
    }
  }

  lemma UniqueTail(s: seq<RestingOrder>)
    requires s != [] && UniqueIds(s)
    ensures UniqueIds(s[1..]) && s[0].orderId !in Ids(s[1..])
  {
  }

  lemma UniqueCons(o: RestingOrder, s: seq<RestingOrder>)
    requires UniqueIds(s) && o.orderId !in Ids(s)
    ensures UniqueIds([o] + s)
  {
    forall i, j | 0 <= i < j < |s| + 1
      ensures ([o] + s)[i].orderId != ([o] + s)[j].orderId
    {
      if i == 0 { assert s[j - 1].orderId in Ids(s); }
    }
  }

  lemma SideTail(side: Side, cfg: BookConfig, s: seq<RestingOrder>)
    requires s != [] && SideOk(side, cfg, s)
    ensures SideOk(side, cfg, s[1..])
    ensures Ids(s) == {s[0].orderId} + Ids(s[1..]) && s[0].orderId !in Ids(s[1..])
  {
    IdsTail(s);
    UniqueTail(s);
  }

  lemma SideCons(side: Side, cfg: BookConfig, o: RestingOrder, s: seq<RestingOrder>)
    requires SideOk(side, cfg, s) && OrderOk(side, cfg, o) && o.orderId !in Ids(s)
    requires s != [] ==> !Better(side, s[0].price, o.price)
    ensures SideOk(side, cfg, [o] + s)
    ensures Ids([o] + s) == {o.orderId} + Ids(s)
  {
    UniqueCons(o, s);
    IdsTail([o] + s);
    assert ([o] + s)[1..] == s;
  }

  lemma {:induction false} InsertOk(side: Side, cfg: BookConfig, s: seq<RestingOrder>, o: RestingOrder)
    requires SideOk(side, cfg, s) && OrderOk(side, cfg, o) && o.orderId !in Ids(s)
    ensures SideOk(side, cfg, Insert(s, o))
    ensures Ids(Insert(s, o)) == Ids(s) + {o.orderId}
    ensures |Insert(s, o)| == |s| + 1 && SumQty(Insert(s, o)) == SumQty(s) + o.qty
    ensures Insert(s, o)[0] == (if s == [] || Better(side, o.price, s[0].price) then o else s[0])
  {
    if s == [] || Better(side, o.price, s[0].price) {
      SideCons(side, cfg, o, s);
      assert ([o] + s)[1..] == s;
    } else {
      SideTail(side, cfg, s);
      InsertOk(side, cfg, s[1..], o);
      var rest := Insert(s[1..], o);
      SideCons(side, cfg, s[0], rest);
      assert ([s[0]] + rest)[1..] == rest;
    }
  }

  lemma {:induction false} WithoutAbsent(s: seq<RestingOrder>, id: OrderId)
    requires id !in Ids(s)
    ensures Without(s, id) == s
  {
    if s != [] {
      IdsTail(s);
      WithoutAbsent(s[1..], id);
    }
  }

  lemma {:induction false} WithoutOk(side: Side, cfg: BookConfig, s: seq<RestingOrder>, id: OrderId)
    requires SideOk(side, cfg, s)
    ensures SideOk(side, cfg, Without(s, id))
    ensures Ids(Without(s, id)) == Ids(s) - {id}
    ensures |Without(s, id)| == |s| - (if id in Ids(s) then 1 else 0)
    ensures Without(s, id) != [] ==> s != [] && !Better(side, Without(s, id)[0].price, s[0].price)
  {
    if s != [] {
      SideTail(side, cfg, s);
      WithoutOk(side, cfg, s[1..], id);
      if s[0].orderId == id {
        WithoutAbsent(s[1..], id);
        assert Without(s, id) == s[1..];
      } else {
        SideCons(side, cfg, s[0], Without(s[1..], id));
      }
    }
  }

  lemma {:induction false} WithQtyOk(side: Side, cfg: BookConfig, s: seq<RestingOrder>, id: OrderId, qty: Qty)
    requires SideOk(side, cfg, s) && qty > 0
    ensures SideOk(side, cfg, WithQty(s, id, qty))
    ensures Ids(WithQty(s, id, qty)) == Ids(s)
    ensures |WithQty(s, id, qty)| == |s|
    ensures s != [] ==> WithQty(s, id, qty)[0].price == s[0].price
  {
    if s != [] {
      SideTail(side, cfg, s);
      WithQtyOk(side, cfg, s[1..], id, qty);
      SideCons(side, cfg, if s[0].orderId == id then s[0].(qty := qty) else s[0], WithQty(s[1..], id, qty));
    }
  }

  lemma {:induction false} LookupOk(s: seq<RestingOrder>, id: OrderId)
    ensures Lookup(s, id).Some? <==> id in Ids(s)
    ensures Lookup(s, id).Some? ==> Lookup(s, id).value in s && Lookup(s, id).value.orderId == id
  {
    if s != [] {
      IdsTail(s);
      LookupOk(s[1..], id);
    }
  }

  lemma {:induction false} LookupUnique(s: seq<RestingOrder>, o: RestingOrder)
    requires UniqueIds(s) && o in s
    ensures Lookup(s, o.orderId) == Some(o)
  {
    if s[0] != o {
      UniqueTail(s);
      var i :| 0 <= i < |s| && s[i] == o;
      assert s[1..][i - 1] == o;
      LookupUnique(s[1..], o);
    }
  }

  lemma FindOk(b: Book, id: OrderId)
    requires WellFormed(b)
    ensures Find(b, id).Some? <==> id in Ids(b.bids) + Ids(b.asks)
    ensures Find(b, id).Some? ==>
              var o := Find(b, id).value;
              && o.orderId == id && o in b.Own(o.side) && id in Ids(b.Own(o.side)) && id !in Ids(b.Opp(o.side))
              && OrderOk(o.side, b.cfg, o) && (o.tif.Gtc? || o.tif.PostOnly?)
  {
    LookupOk(b.bids, id);
    LookupOk(b.asks, id);
  }

  // ---- matching -----------------------------------------------------------

  // What a match leaves behind is a well-formed side whose new top no longer crosses.
  lemma {:induction false} CrossOk(side: Side, cfg: BookConfig, bound: Option<Price>, taker: OrderId, qty: Qty,
                                   opp: seq<RestingOrder>)
    requires SideOk(side.Opposite(), cfg, opp)
    ensures var r := Cross(side, bound, taker, qty, opp);
            && SideOk(side.Opposite(), cfg, r.opp)
            && Ids(r.opp) <= Ids(opp) && |r.opp| <= |opp|
            && (r.opp != [] ==> opp != [] && !Better(side.Opposite(), r.opp[0].price, opp[0].price))
            && (r.qty > 0 ==> r.opp == [] || !Crosses(side, bound, r.opp[0].price))
    decreases |opp|
  {
    if qty == 0 || opp == [] || !Crosses(side, bound, opp[0].price) {
    } else {
      SideTail(side.Opposite(), cfg, opp);
      if qty < opp[0].qty {
        SideCons(side.Opposite(), cfg, opp[0].(qty := opp[0].qty - qty), opp[1..]);
      } else {
        CrossOk(side, cfg, bound, taker, qty - opp[0].qty, opp[1..]);
      }
    }
  }

  // ---- where the orders of a changed side come from -----------------------------

  lemma {:induction false} InsertMembers(s: seq<RestingOrder>, o: RestingOrder)
    ensures forall x :: x in Insert(s, o) <==> x in s || x == o
  {
    if s != [] && !Better(o.side, o.price, s[0].price) {
      InsertMembers(s[1..], o);
      assert forall x :: x in s <==> x == s[0] || x in s[1..];
    }
  }

  lemma {:induction false} WithoutIn(s: seq<RestingOrder>, id: OrderId, o: RestingOrder)
    requires o in Without(s, id)
    ensures o in s && o.orderId != id
  {
    if s != [] && (s[0].orderId == id || o != s[0]) {
      WithoutIn(s[1..], id, o);
    }
  }

  // `o` is `x` with another quantity.
  predicate SameOrder(o: RestingOrder, x: RestingOrder) {
    o == x.(qty := o.qty)
  }

  lemma {:induction false} WithQtyIn(s: seq<RestingOrder>, id: OrderId, qty: Qty, o: RestingOrder)
    returns (x: RestingOrder)
    requires o in WithQty(s, id, qty)
    ensures x in s && SameOrder(o, x)
  {
    if o == WithQty(s, id, qty)[0] {
      x := s[0];
    } else {
      x := WithQtyIn(s[1..], id, qty, o);
    }
  }

  lemma {:induction false} CrossIn(side: Side, bound: Option<Price>, taker: OrderId, qty: Qty, opp: seq<RestingOrder>,
                                   o: RestingOrder)
    returns (x: RestingOrder)
    requires o in Cross(side, bound, taker, qty, opp).opp
    ensures x in opp && SameOrder(o, x)
    decreases |opp|
  {
    if qty == 0 || opp == [] || !Crosses(side, bound, opp[0].price) {
      x := o;
    } else if qty < opp[0].qty {
      x := if o in opp[1..] then o else opp[0];
    } else {
      x := CrossIn(side, bound, taker, qty - opp[0].qty, opp[1..], o);
    }
  }

  // Every order of `t` is one of `s`, perhaps with another quantity.
  ghost predicate FromSide(t: seq<RestingOrder>, s: seq<RestingOrder>) {
    forall o :: o in t ==> exists x :: x in s && SameOrder(o, x)
  }

  lemma ChangedSides(s: seq<RestingOrder>, side: Side, bound: Option<Price>, id: OrderId, qty: Qty)
    ensures FromSide(Without(s, id), s) && FromSide(WithQty(s, id, qty), s)
    ensures FromSide(Cross(side, bound, id, qty, s).opp, s)
  {
    hide Without, WithQty, Cross, SameOrder;
    forall o | o in Without(s, id)
      ensures exists x :: x in s && SameOrder(o, x)
    {
      WithoutIn(s, id, o);
      assert SameOrder(o, o) by { SameAsItself(o); }
    }
    forall o | o in WithQty(s, id, qty)
      ensures exists x :: x in s && SameOrder(o, x)
    {
      var x := WithQtyIn(s, id, qty, o);
    }
    forall o | o in Cross(side, bound, id, qty, s).opp
      ensures exists x :: x in s && SameOrder(o, x)
    {
      var x := CrossIn(side, bound, id, qty, s, o);
    }
  }

  lemma SameAsItself(o: RestingOrder)
    ensures SameOrder(o, o)
  {
  }

  // What may rest and at which price does not depend on quantities.
  lemma FromSideKeeps(cfg: BookConfig, t: seq<RestingOrder>, s: seq<RestingOrder>)
    requires FromSide(t, s)
    ensures AllMayRest(s) ==> AllMayRest(t)
    ensures Priced(cfg, s) ==> Priced(cfg, t)
  {
    hide PriceOk;
  }

  lemma ChangesKeep(cfg: BookConfig, s: seq<RestingOrder>, side: Side, bound: Option<Price>, id: OrderId, qty: Qty)
    ensures AllMayRest(s) ==> AllMayRest(Without(s, id)) && AllMayRest(WithQty(s, id, qty))
    ensures AllMayRest(s) ==> AllMayRest(Cross(side, bound, id, qty, s).opp)
    ensures Priced(cfg, s) ==> Priced(cfg, Without(s, id)) && Priced(cfg, WithQty(s, id, qty))
    ensures Priced(cfg, s) ==> Priced(cfg, Cross(side, bound, id, qty, s).opp)
  {
    hide Without, WithQty, Cross, FromSide, AllMayRest, Priced;
    ChangedSides(s, side, bound, id, qty);
    FromSideKeeps(cfg, Without(s, id), s);
    FromSideKeeps(cfg, WithQty(s, id, qty), s);
    FromSideKeeps(cfg, Cross(side, bound, id, qty, s).opp, s);
  }

  lemma InsertKeeps(cfg: BookConfig, s: seq<RestingOrder>, o: RestingOrder)
    ensures AllMayRest(s) && (o.tif.Gtc? || o.tif.PostOnly?) ==> AllMayRest(Insert(s, o))
    ensures Priced(cfg, s) && PriceOk(cfg, o.price) ==> Priced(cfg, Insert(s, o))
  {
    hide Insert, PriceOk;
    InsertMembers(s, o);
  }

  // ---- every command ------------------------------------------------------

  // `own` and `opp` in book order for `side`.
  ghost predicate UncrossedFor(side: Side, own: seq<RestingOrder>, opp: seq<RestingOrder>) {
    if side.Bid? then Uncrossed(own, opp) else Uncrossed(opp, own)
  }

  // Matching at `price` and resting the remainder there leaves the book uncrossed.
  lemma RestOk(side: Side, cfg: BookConfig, own: seq<RestingOrder>, opp: seq<RestingOrder>, o: RestingOrder)
    requires SideOk(side, cfg, own) && OrderOk(side, cfg, o) && o.orderId !in Ids(own)
    requires UncrossedFor(side, own, opp)
    requires opp == [] || !Crosses(side, Some(o.price), opp[0].price)
    ensures SideOk(side, cfg, Insert(own, o)) && UncrossedFor(side, Insert(own, o), opp)
    ensures Ids(Insert(own, o)) == Ids(own) + {o.orderId} && |Insert(own, o)| == |own| + 1
  {
    InsertOk(side, cfg, own, o);
  }

  lemma NewKeeps(b: Book, c: Command)
    requires WellFormed(b) && c.New?
    ensures WellFormed(ApplyNew(b, c).book)
  {
    hide SideOk, AllMayRest, Priced, Ids, Cross, Insert, Find, Available, FokRefused;
    if NewRefusal(b, c).None? {
      FindOk(b, c.orderId);
      var own, opp := b.Own(c.side), b.Opp(c.side);
      CrossOk(c.side, b.cfg, Bound(c), c.orderId, c.qty, opp);
      ChangesKeep(b.cfg, opp, c.side, Bound(c), c.orderId, c.qty);
      var r := Cross(c.side, Bound(c), c.orderId, c.qty, opp);
      if r.qty > 0 && Rests(c) {
        var o := RestingOrder(c.orderId, c.side, c.tif, c.price, r.qty);
        RestOk(c.side, b.cfg, own, r.opp, o);
        InsertKeeps(b.cfg, own, o);
      }
    }
  }

  lemma CancelKeeps(b: Book, id: OrderId)
    requires WellFormed(b)
    ensures WellFormed(ApplyCancel(b, id).book)
  {
    hide SideOk, AllMayRest, Priced, Ids, Without, Find;
    FindOk(b, id);
    if Find(b, id).Some? {
      var side := Find(b, id).value.side;
      ChangesKeep(b.cfg, b.Own(side), side, None, id, 0);
      WithoutOk(side, b.cfg, b.Own(side), id);
    }
  }

  // Leaving the book, matching at the new price and resting the remainder.
  lemma RequoteKeeps(b: Book, c: Command, o: RestingOrder)
    requires WellFormed(b) && c.Replace? && c.qty > 0 && PriceOk(b.cfg, c.price)
    requires Find(b, c.orderId) == Some(o) && !KeepsPriority(o, c)
    ensures WellFormed(ApplyReplace(b, c).book)
  {
    hide SideOk, AllMayRest, Priced, Ids, Cross, Insert, Without, Find;
    FindOk(b, c.orderId);
    var own, opp := b.Own(o.side), b.Opp(o.side);
    WithoutOk(o.side, b.cfg, own, c.orderId);
    CrossOk(o.side, b.cfg, Some(c.price), c.orderId, c.qty, opp);
    ChangesKeep(b.cfg, own, o.side, None, c.orderId, 0);
    ChangesKeep(b.cfg, opp, o.side, Some(c.price), c.orderId, c.qty);
    var own' := Without(own, c.orderId);
    var r := Cross(o.side, Some(c.price), c.orderId, c.qty, opp);
    assert UncrossedFor(o.side, own', r.opp);
    if r.qty > 0 {
      var o' := RestingOrder(c.orderId, o.side, o.tif, c.price, r.qty);
      RestOk(o.side, b.cfg, own', r.opp, o');
      InsertKeeps(b.cfg, own', o');
    }
  }

  lemma ReplaceKeeps(b: Book, c: Command)
    requires WellFormed(b) && c.Replace?
    ensures WellFormed(ApplyReplace(b, c).book)
  {
    hide SideOk, AllMayRest, Priced, Ids, WithQty, Find;
    FindOk(b, c.orderId);
    if ReplaceRefusal(b, c).None? {
      var o := Find(b, c.orderId).value;
      if KeepsPriority(o, c) {
        WithQtyOk(o.side, b.cfg, b.Own(o.side), c.orderId, c.qty);
        ChangesKeep(b.cfg, b.Own(o.side), o.side, None, c.orderId, c.qty);
      } else {
        RequoteKeeps(b, c, o);
      }
    }
  }

  // A command never crosses the book, loses priority order, duplicates an id,
  // overfills it or lets a market, IOC or FOK order rest.
  lemma ApplyKeeps(b: Book, c: Command)
    requires WellFormed(b)
    ensures WellFormed(Apply(b, c).book)
    ensures Apply(b, c).book.cfg == b.cfg
    ensures Apply(b, c).book.seqNo == b.seqNo + |Apply(b, c).events|
  {
    hide WellFormed, Cross, Insert, Find, Without, WithQty;
    match c
    case New(_, _, _, _, _, _) => NewKeeps(b, c);
    case Cancel(id) => CancelKeeps(b, id);
    case Replace(_, _, _) => ReplaceKeeps(b, c);
  }

  lemma {:induction false} RunKeeps(b: Book, cs: seq<Command>)
    requires WellFormed(b)
    ensures WellFormed(Run(b, cs).book)
    ensures Run(b, cs).book.cfg == b.cfg
    ensures Run(b, cs).book.seqNo == b.seqNo + |Run(b, cs).events|
    decreases |cs|
  {
    if cs != [] {
      ApplyKeeps(b, cs[0]);
      RunKeeps(Apply(b, cs[0]).book, cs[1..]);
    }
  }

  // ---- acceptable prices ------------------------------------------------------------

  lemma NewPriced(b: Book, c: Command)
    requires BookPriced(b) && c.New?
    ensures BookPriced(ApplyNew(b, c).book)
  {
    hide Priced, Cross, Insert, Find, FokRefused, PriceOk;
    if NewRefusal(b, c).None? {
      var (own, opp) := (b.Own(c.side), b.Opp(c.side));
      var r := Cross(c.side, Bound(c), c.orderId, c.qty, opp);
      ChangesKeep(b.cfg, opp, c.side, Bound(c), c.orderId, c.qty);
      if r.qty > 0 && Rests(c) {
        InsertKeeps(b.cfg, own, RestingOrder(c.orderId, c.side, c.tif, c.price, r.qty));
      }
    }
  }

  lemma ReplacePriced(b: Book, c: Command)
    requires BookPriced(b) && c.Replace?
    ensures BookPriced(ApplyReplace(b, c).book)
  {
    hide Priced, Cross, Insert, Without, WithQty, Find, PriceOk;
    if ReplaceRefusal(b, c).None? {
      var o := Find(b, c.orderId).value;
      var (own, opp) := (b.Own(o.side), b.Opp(o.side));
      var r := Cross(o.side, Some(c.price), c.orderId, c.qty, opp);
      ChangesKeep(b.cfg, own, o.side, None, c.orderId, c.qty);
      ChangesKeep(b.cfg, opp, o.side, Some(c.price), c.orderId, c.qty);
      if r.qty > 0 {
        InsertKeeps(b.cfg, Without(own, c.orderId), RestingOrder(c.orderId, o.side, o.tif, c.price, r.qty));
      }
    }
  }

  lemma ApplyPriced(b: Book, c: Command)
    requires BookPriced(b)
    ensures BookPriced(Apply(b, c).book)
  {
    hide Priced, Without, Find;
    match c
    case New(_, _, _, _, _, _) => NewPriced(b, c);
    case Replace(_, _, _) => ReplacePriced(b, c);
    case Cancel(id) =>
      if Find(b, id).Some? {
        var own := b.Own(Find(b, id).value.side);
        ChangesKeep(b.cfg, own, Bid, None, id, 0);
      }
  }

  lemma {:induction false} RunPriced(b: Book, cs: seq<Command>)
    requires BookPriced(b)
    ensures BookPriced(Run(b, cs).book)
    decreases |cs|
  {
    hide BookPriced, Apply;
    if cs != [] {
      ApplyPriced(b, cs[0]);
      RunPriced(Apply(b, cs[0]).book, cs[1..]);
    }
  }
}
