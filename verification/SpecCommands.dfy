// What every command does, said of the command and the orders on the book alone:
// when it is refused and why, what it trades, what it leaves behind and where
// (src/book.rs:120-303). None of the statements here uses a part of the reference
// book's own definition of commands.

module SpecCommands {
  import opened Types
  import opened SpecBook
  import opened SpecInvariant
  import opened SpecQueues
  import opened SpecProperties

  // ---- the words of the statements ---------------------------------------------

  function Mine(b: Book, side: Side): seq<RestingOrder> {
    match side
    case Bid => b.bids
    case Ask => b.asks
  }

  function Theirs(b: Book, side: Side): seq<RestingOrder> {
    match side
    case Bid => b.asks
    case Ask => b.bids
  }

  // A ladder accepts the prices of its range, an ordered map every positive price.
  predicate Allowed(cfg: BookConfig, p: Price) {
    match cfg.index
    case LadderKind => cfg.priceMin <= p && p <= cfg.priceMax
    case TreeKind => p >= 1
  }

  ghost predicate Live(b: Book, id: OrderId) {
    exists o :: (o in b.bids || o in b.asks) && o.orderId == id
  }

  predicate Full(b: Book) {
    |b.bids| + |b.asks| >= b.cfg.maxOrders
  }

  // A buyer pays its price or less, a seller gets its price or more.
  predicate NoWorse(side: Side, limit: Price, p: Price) {
    match side
    case Bid => p <= limit
    case Ask => p >= limit
  }

  // Some order on the other side could trade with this price.
  ghost predicate Meets(b: Book, side: Side, price: Price) {
    exists o :: o in Theirs(b, side) && NoWorse(side, price, o.price)
  }

  // And this much quantity could.
  function Offered(b: Book, side: Side, price: Price): nat {
    match side
    case Bid => InRange(b.asks, -0x8000_0000_0000_0000, price)
    case Ask => InRange(b.bids, price, 0x7FFF_FFFF_FFFF_FFFF)
  }

  function Least(a: nat, b: nat): nat {
    if a <= b then a else b
  }

  ghost predicate RefusedAs(b: Book, c: Command, reason: RejectReason) {
    Apply(b, c) == Outcome(b.(seqNo := b.seqNo + 1), [Rejected(c.orderId, reason)])
  }

  predicate NothingRefused(events: seq<Event>) {
    forall i :: 0 <= i < |events| ==> !events[i].Rejected?
  }

  // A New with a quantity, and a price if it is a limit order.
  ghost predicate Sound(b: Book, c: Command)
    requires c.New?
  {
    c.qty > 0 && (c.otype.Limit? ==> Allowed(b.cfg, c.price))
  }

  ghost predicate Fresh(b: Book, c: Command)
    requires c.New?
  {
    Sound(b, c) && !Live(b, c.orderId) && !Full(b)
  }

  // Nothing speaks against the New.
  ghost predicate Welcome(b: Book, c: Command)
    requires c.New?
  {
    && Fresh(b, c)
    && (c.otype.Limit? && c.tif.PostOnly? ==> !Meets(b, c.side, c.price))
    && (c.otype.Limit? && c.tif.Fok? ==> Offered(b, c.side, c.price) % TWO_TO_64 >= c.qty)
  }

  // `t` is `s` with `o` behind every order at its price or a better one.
  ghost predicate Joined(s: seq<RestingOrder>, o: RestingOrder, t: seq<RestingOrder>) {
    exists k :: 0 <= k <= |s| && JoinedAt(s, o, t, k)
  }

  ghost predicate JoinedAt(s: seq<RestingOrder>, o: RestingOrder, t: seq<RestingOrder>, k: nat)
    requires k <= |s|
  {
    && t == s[..k] + [o] + s[k..]
    && (forall j :: 0 <= j < k ==> NoWorse(o.side.Opposite(), o.price, s[j].price))
    && (forall j :: k <= j < |s| ==> !NoWorse(o.side.Opposite(), o.price, s[j].price))
  }

  // The taker took `t` from the makers in their order, each at its own price: all of
  // the first ones, closed right after their trade, and the rest of `t` from the next.
  ghost predicate Takes(makers: seq<RestingOrder>, taker: OrderId, t: nat, log: seq<Event>, left: seq<RestingOrder>) {
    exists k :: 0 <= k <= |makers| && TakesTo(makers, taker, t, log, left, k)
  }

  ghost predicate TakesTo(makers: seq<RestingOrder>, taker: OrderId, t: nat, log: seq<Event>, left: seq<RestingOrder>,
                          k: nat)
    requires k <= |makers|
  {
    var more := t - SumQty(makers[..k]);
    if more == 0 then
      log == FillLog(taker, makers[..k]) && left == makers[k..]
    else
      && k < |makers| && 0 < more < makers[k].qty
      && log == FillLog(taker, makers[..k]) + [Trade(makers[k].orderId, taker, makers[k].price, more)]
      && left == [makers[k].(qty := makers[k].qty - more)] + makers[k + 1..]
  }

  ghost predicate PricesNoWorse(events: seq<Event>, side: Side, limit: Price) {
    forall i :: 0 <= i < |events| && events[i].Trade? ==> NoWorse(side, limit, events[i].price)
  }

  // ---- both sides are in price order -----------------------------------------------

  // The highest bid and the lowest ask come first, and they do not meet.
  lemma SidesInOrder(b: Book)
    requires WellFormed(b)
    ensures forall i, j :: 0 <= i < j < |b.bids| ==> b.bids[i].price >= b.bids[j].price
    ensures forall i, j :: 0 <= i < j < |b.asks| ==> b.asks[i].price <= b.asks[j].price
    ensures forall i, j :: 0 <= i < |b.bids| && 0 <= j < |b.asks| ==> b.bids[i].price < b.asks[j].price
  {
    assert forall i, j :: 0 <= i < j < |b.bids| ==> !Better(Bid, b.bids[j].price, b.bids[i].price);
    assert forall i, j :: 0 <= i < j < |b.asks| ==> !Better(Ask, b.asks[j].price, b.asks[i].price);
  }

  // ---- the reference's tests in these words ------------------------------------------

  lemma LiveIs(b: Book, id: OrderId)
    requires WellFormed(b)
    ensures Find(b, id).Some? <==> Live(b, id)
    ensures Live(b, id) <==> id in Ids(b.bids) + Ids(b.asks)
  {
    hide Sorted, UniqueIds, Find;
    FindOk(b, id);
    if id in Ids(b.bids) {
      var i :| 0 <= i < |b.bids| && b.bids[i].orderId == id;
      assert b.bids[i] in b.bids;
    }
    if id in Ids(b.asks) {
      var i :| 0 <= i < |b.asks| && b.asks[i].orderId == id;
      assert b.asks[i] in b.asks;
    }
    if Live(b, id) {
      var o :| (o in b.bids || o in b.asks) && o.orderId == id;
      if o in b.bids { InIds(b.bids, o); } else { InIds(b.asks, o); }
    }
  }

  lemma AllowedIs(cfg: BookConfig, p: Price)
    ensures PriceOk(cfg, p) <==> Allowed(cfg, p)
  {
  }

  lemma MeetsIs(b: Book, side: Side, price: Price)
    requires WellFormed(b)
    ensures ReachesBest(b, side, price) <==> Meets(b, side, price)
  {
    var opp := Theirs(b, side);
    SidesInOrder(b);
    if opp != [] {
      assert opp[0] in opp;
      if Meets(b, side, price) {
        var o :| o in opp && NoWorse(side, price, o.price);
        var i :| 0 <= i < |opp| && opp[i] == o;
      }
    }
  }

  lemma OfferedIs(b: Book, side: Side, price: Price)
    ensures Available(side, Some(price), b.Opp(side)) == Offered(b, side, price)
  {
    match side
    case Bid => InRangeIsAvailable(side, price, b.asks, -0x8000_0000_0000_0000, price);
    case Ask => InRangeIsAvailable(side, price, b.bids, price, 0x7FFF_FFFF_FFFF_FFFF);
  }

  lemma {:induction false} EverythingOffered(side: Side, s: seq<RestingOrder>)
    ensures Available(side, None, s) == SumQty(s)
  {
    if s != [] {
      EverythingOffered(side, s[1..]);
    }
  }

  lemma WelcomeIs(b: Book, c: Command)
    requires WellFormed(b) && c.New?
    ensures NewRefusal(b, c).None? <==> Welcome(b, c)
    ensures NewRefusal(b, c) == Some(InvalidQty) <==> c.qty == 0
    ensures NewRefusal(b, c) == Some(InvalidPrice) <==> c.qty > 0 && c.otype.Limit? && !Allowed(b.cfg, c.price)
    ensures NewRefusal(b, c) == Some(DuplicateOrderId) <==> Sound(b, c) && Live(b, c.orderId)
    ensures NewRefusal(b, c) == Some(BookFull) <==> Sound(b, c) && !Live(b, c.orderId) && Full(b)
    ensures NewRefusal(b, c) == Some(PostOnlyWouldCross) <==>
              Fresh(b, c) && c.otype.Limit? && c.tif.PostOnly? && Meets(b, c.side, c.price)
    ensures NewRefusal(b, c) == Some(FokCannotFill) <==>
              Fresh(b, c) && c.otype.Limit? && c.tif.Fok? && Offered(b, c.side, c.price) % TWO_TO_64 < c.qty
    ensures NewRefusal(b, c) != Some(UnknownOrderId)
  {
    hide WellFormed, Find, Live, Meets, Offered, PriceOk, Allowed, ReachesBest, Available;
    LiveIs(b, c.orderId);
    AllowedIs(b.cfg, c.price);
    MeetsIs(b, c.side, c.price);
    OfferedIs(b, c.side, c.price);
  }

  // ---- a match ---------------------------------------------------------------------

  lemma {:induction false} CrossPrices(side: Side, bound: Option<Price>, taker: OrderId, qty: Qty,
                                       opp: seq<RestingOrder>)
    ensures var r := Cross(side, bound, taker, qty, opp);
            NothingRefused(r.events) && (bound.Some? ==> PricesNoWorse(r.events, side, bound.value))
    decreases |opp|
  {
    if qty > 0 && opp != [] && qty >= opp[0].qty && Crosses(side, bound, opp[0].price) {
      CrossPrices(side, bound, taker, qty - opp[0].qty, opp[1..]);
    }
  }

  lemma CrossTakes(side: Side, bound: Option<Price>, taker: OrderId, qty: Qty, opp: seq<RestingOrder>)
    ensures var r := Cross(side, bound, taker, qty, opp);
            r.qty <= qty && Takes(opp, taker, qty - r.qty, r.events, r.opp)
  {
    hide Cross, FillLog, SumQty, Crosses;
    CrossIsPriorityFill(side, bound, taker, qty, opp);
    var (r, k) := (Cross(side, bound, taker, qty, opp), FilledMakers(side, bound, qty, opp));
    assert TakesTo(opp, taker, qty - r.qty, r.events, r.opp, k);
  }

  // ---- New: refusals -----------------------------------------------------------------

  lemma AdmittedNothingRefused(b: Book, c: Command)
    requires WellFormed(b) && c.New? && NewRefusal(b, c).None?
    ensures NothingRefused(Apply(b, c).events)
  {
    hide WellFormed, Cross, Insert, NewRefusal;
    CrossPrices(c.side, Bound(c), c.orderId, c.qty, b.Opp(c.side));
  }

  // Why a New is refused, in order of precedence, and when it is not.
  lemma NewRefusals(b: Book, c: Command)
    requires WellFormed(b) && c.New?
    ensures RefusedAs(b, c, InvalidQty) <==> c.qty == 0
    ensures RefusedAs(b, c, InvalidPrice) <==> c.qty > 0 && c.otype.Limit? && !Allowed(b.cfg, c.price)
    ensures RefusedAs(b, c, DuplicateOrderId) <==> Sound(b, c) && Live(b, c.orderId)
    ensures RefusedAs(b, c, BookFull) <==> Sound(b, c) && !Live(b, c.orderId) && Full(b)
    ensures RefusedAs(b, c, PostOnlyWouldCross) <==>
              Fresh(b, c) && c.otype.Limit? && c.tif.PostOnly? && Meets(b, c.side, c.price)
    ensures RefusedAs(b, c, FokCannotFill) <==>
              Fresh(b, c) && c.otype.Limit? && c.tif.Fok? && Offered(b, c.side, c.price) % TWO_TO_64 < c.qty
    ensures NothingRefused(Apply(b, c).events) <==> Welcome(b, c)
  {
    hide WellFormed, NewRefusal, Sound, Fresh, Welcome, Live, Full, Meets, Offered, Allowed, Cross, Insert;
    WelcomeIs(b, c);
    var refusal := NewRefusal(b, c);
    if refusal.None? {
      AdmittedNothingRefused(b, c);
      forall reason
        ensures !RefusedAs(b, c, reason)
      {
        assert [Rejected(c.orderId, reason)][0].Rejected?;
      }
    } else {
      assert Apply(b, c) == Outcome(b.(seqNo := b.seqNo + 1), [Rejected(c.orderId, refusal.value)]);
      assert Apply(b, c).events[0].Rejected?;
    }
  }

  // ---- New: market orders ---------------------------------------------------------------

  // A market order takes what it can get at any price; what is left of it expires.
  lemma MarketNew(b: Book, c: Command)
    requires WellFormed(b) && c.New? && c.otype.Market? && Welcome(b, c)
    ensures var (out, there) := (Apply(b, c), SumQty(Theirs(b, c.side)));
            && Traded(out.events) == Least(c.qty, there)
            && Mine(out.book, c.side) == Mine(b, c.side)
            && out.events != []
            && var n := |out.events| - 1;
               && Takes(Theirs(b, c.side), c.orderId, Least(c.qty, there), out.events[..n], Theirs(out.book, c.side))
               && out.events[n] == Closed(c.orderId, if c.qty <= there then Filled else Expired)
  {
    hide WellFormed, Welcome, NewRefusal, Cross, SumQty, Traded, Takes;
    WelcomeIs(b, c);
    var opp := b.Opp(c.side);
    OppSorted(b, c.side);
    CrossTrades(c.side, None, c.orderId, c.qty, opp);
    EverythingOffered(c.side, opp);
    CrossTakes(c.side, None, c.orderId, c.qty, opp);
    var r := Cross(c.side, None, c.orderId, c.qty, opp);
    var last := Closed(c.orderId, if r.qty == 0 then Filled else Expired);
    TradedLast(r.events, last);
    assert (r.events + [last])[..|r.events|] == r.events;
  }

  lemma OppSorted(b: Book, side: Side)
    requires WellFormed(b)
    ensures Sorted(side.Opposite(), b.Opp(side)) && b.Opp(side) == b.Own(side.Opposite()) == Theirs(b, side)
    ensures b.Own(side) == Mine(b, side)
  {
  }

  lemma PricesLast(events: seq<Event>, e: Event, side: Side, limit: Price)
    requires PricesNoWorse(events, side, limit) && !e.Trade?
    ensures PricesNoWorse(events + [e], side, limit)
  {
    forall i | 0 <= i < |events + [e]| && (events + [e])[i].Trade?
      ensures NoWorse(side, limit, (events + [e])[i].price)
    {
      assert (events + [e])[i] == events[i];
    }
  }

  // Its price and its time in force do not matter.
  lemma MarketIgnores(b: Book, c: Command, price: Price, tif: Tif)
    requires c.New? && c.otype.Market?
    ensures Apply(b, c.(price := price, tif := tif)) == Apply(b, c)
  {
    hide Cross, Insert, Find;
  }

  // ---- New: limit orders ----------------------------------------------------------------

  // Inserting puts an order behind everything at its price or better.
  lemma {:induction false} InsertJoins(s: seq<RestingOrder>, o: RestingOrder) returns (k: nat)
    requires Sorted(o.side, s)
    ensures k <= |s| && JoinedAt(s, o, Insert(s, o), k)
  {
    if s == [] || Better(o.side, o.price, s[0].price) {
      k := 0;
      assert s[..0] + [o] + s[0..] == [o] + s;
      forall j | 0 <= j < |s|
        ensures !NoWorse(o.side.Opposite(), o.price, s[j].price)
      {
        assert j > 0 ==> !Better(o.side, s[j].price, s[0].price);
      }
    } else {
      SortedTail(o.side, s);
      var k' := InsertJoins(s[1..], o);
      k := k' + 1;
      assert s[..k] == [s[0]] + s[1..][..k'] && s[k..] == s[1..][k'..];
      assert Insert(s, o) == s[..k] + [o] + s[k..];
    }
  }

  // What a limit order trades, and what becomes of the rest.
  lemma LimitNew(b: Book, c: Command)
    requires WellFormed(b) && c.New? && c.otype.Limit? && Welcome(b, c)
    ensures var (out, t) := (Apply(b, c), Least(c.qty, Offered(b, c.side, c.price)));
            && Traded(out.events) == t && PricesNoWorse(out.events, c.side, c.price)
            && out.events != []
            && var (n, last) := (|out.events| - 1, out.events[|out.events| - 1]);
               && Takes(Theirs(b, c.side), c.orderId, t, out.events[..n], Theirs(out.book, c.side))
               && if t == c.qty then
                 last == Closed(c.orderId, Filled) && Mine(out.book, c.side) == Mine(b, c.side)
               else if c.tif.Gtc? || c.tif.PostOnly? then
                 && last == Accepted(c.orderId, c.qty - t)
                 && Joined(Mine(b, c.side), RestingOrder(c.orderId, c.side, c.tif, c.price, c.qty - t),
                           Mine(out.book, c.side))
               else
                 last == Closed(c.orderId, Expired) && Mine(out.book, c.side) == Mine(b, c.side)
  {
    hide WellFormed, Welcome, NewRefusal, Cross, SumQty, Traded, Takes, PricesNoWorse, Insert, JoinedAt, Offered;
    WelcomeIs(b, c);
    var opp := b.Opp(c.side);
    OppSorted(b, c.side);
    CrossTrades(c.side, Some(c.price), c.orderId, c.qty, opp);
    OfferedIs(b, c.side, c.price);
    CrossPrices(c.side, Some(c.price), c.orderId, c.qty, opp);
    CrossTakes(c.side, Some(c.price), c.orderId, c.qty, opp);
    var r := Cross(c.side, Some(c.price), c.orderId, c.qty, opp);
    var last := if r.qty == 0 then Closed(c.orderId, Filled)
    else if Rests(c) then Accepted(c.orderId, r.qty) else Closed(c.orderId, Expired);
    TradedLast(r.events, last);
    PricesLast(r.events, last, c.side, c.price);
    assert (r.events + [last])[..|r.events|] == r.events;
    if r.qty > 0 && Rests(c) {
      OwnSorted(b, c.side);
      var k := InsertJoins(b.Own(c.side), RestingOrder(c.orderId, c.side, c.tif, c.price, r.qty));
    }
  }

  lemma OwnSorted(b: Book, side: Side)
    requires WellFormed(b)
    ensures Sorted(side, b.Own(side)) && UniqueIds(b.Own(side))
  {
  }

  // ---- Cancel ---------------------------------------------------------------------------

  // The i-th order of a side is the one its id finds.
  lemma FindAt(b: Book, side: Side, i: nat)
    requires WellFormed(b) && i < |Mine(b, side)|
    ensures Find(b, Mine(b, side)[i].orderId) == Some(Mine(b, side)[i]) && Mine(b, side)[i].side == side
    ensures Mine(b, side) == b.Own(side)
  {
    hide Sorted, Find;
    var o := Mine(b, side)[i];
    assert OrderOk(side, b.cfg, o);
    assert o.orderId in Ids(Mine(b, side));
    FindOk(b, o.orderId);
    SameIdSame(b.Own(side), o, Find(b, o.orderId).value);
  }

  lemma SplitAt(s: seq<RestingOrder>, i: nat)
    requires i < |s|
    ensures s == s[..i] + [s[i]] + s[i + 1..]
  {
  }

  lemma WithoutAt(s: seq<RestingOrder>, i: nat)
    requires i < |s| && UniqueIds(s)
    ensures Without(s, s[i].orderId) == s[..i] + s[i + 1..]
  {
    hide Without, UniqueIds;
    SplitAt(s, i);
    WithoutOne(s[..i], s[i], s[i + 1..]);
  }

  lemma WithQtyAt(s: seq<RestingOrder>, i: nat, qty: Qty)
    requires i < |s| && UniqueIds(s)
    ensures WithQty(s, s[i].orderId, qty) == s[i := s[i].(qty := qty)]
  {
    hide WithQty, UniqueIds;
    SplitAt(s, i);
    WithQtyOne(s[..i], s[i], s[i + 1..], qty);
    assert s[i := s[i].(qty := qty)] == s[..i] + [s[i].(qty := qty)] + s[i + 1..];
  }

  // A live order leaves the book and nothing else changes; any other id is unknown.
  lemma CancelDoes(b: Book, id: OrderId)
    requires WellFormed(b)
    ensures RefusedAs(b, Cancel(id), UnknownOrderId) <==> !Live(b, id)
    ensures forall side, i :: 0 <= i < |Mine(b, side)| && Mine(b, side)[i].orderId == id ==>
              var (out, s) := (Apply(b, Cancel(id)), Mine(b, side));
              && out.events == [Closed(id, Cancelled)] && out.book.seqNo == b.seqNo + 1
              && Mine(out.book, side) == s[..i] + s[i + 1..] && Theirs(out.book, side) == Theirs(b, side)
  {
    hide WellFormed, Find, Without, Live;
    LiveIs(b, id);
    forall side: Side, i | 0 <= i < |Mine(b, side)| && Mine(b, side)[i].orderId == id
      ensures var (out, s) := (Apply(b, Cancel(id)), Mine(b, side));
              && out.events == [Closed(id, Cancelled)] && out.book.seqNo == b.seqNo + 1
              && Mine(out.book, side) == s[..i] + s[i + 1..] && Theirs(out.book, side) == Theirs(b, side)
    {
      FindAt(b, side, i);
      OwnSorted(b, side);
      WithoutAt(Mine(b, side), i);
    }
  }

  // ---- Replace --------------------------------------------------------------------------

  lemma ReplaceNothingRefused(b: Book, c: Command)
    requires WellFormed(b) && c.Replace? && ReplaceRefusal(b, c).None?
    ensures NothingRefused(Apply(b, c).events)
  {
    hide WellFormed, Cross, Insert, Without, WithQty, Find;
    var side := Find(b, c.orderId).value.side;
    CrossPrices(side, Some(c.price), c.orderId, c.qty, b.Opp(side));
  }

  // Why a Replace is refused, in order of precedence, and when it is not.
  lemma ReplaceRefusals(b: Book, c: Command)
    requires WellFormed(b) && c.Replace?
    ensures RefusedAs(b, c, UnknownOrderId) <==> !Live(b, c.orderId)
    ensures RefusedAs(b, c, InvalidQty) <==> Live(b, c.orderId) && c.qty == 0
    ensures RefusedAs(b, c, InvalidPrice) <==> Live(b, c.orderId) && c.qty > 0 && !Allowed(b.cfg, c.price)
    ensures NothingRefused(Apply(b, c).events) <==> Live(b, c.orderId) && c.qty > 0 && Allowed(b.cfg, c.price)
  {
    hide WellFormed, Live, Allowed, PriceOk, Find, Cross, Insert, Without, WithQty;
    LiveIs(b, c.orderId);
    AllowedIs(b.cfg, c.price);
    var refusal := ReplaceRefusal(b, c);
    if refusal.None? {
      ReplaceNothingRefused(b, c);
      forall reason
        ensures !RefusedAs(b, c, reason)
      {
        assert [Rejected(c.orderId, reason)][0].Rejected?;
      }
    } else {
      assert Apply(b, c) == Outcome(b.(seqNo := b.seqNo + 1), [Rejected(c.orderId, refusal.value)]);
      assert Apply(b, c).events[0].Rejected?;
    }
  }

  // The same price and no more quantity: the order stays where it is.
  lemma ReplaceKeepsPlace(b: Book, side: Side, i: nat, qty: Qty)
    requires WellFormed(b) && i < |Mine(b, side)|
    requires var o := Mine(b, side)[i]; 0 < qty <= o.qty && Allowed(b.cfg, o.price)
    ensures var o := Mine(b, side)[i];
            var out := Apply(b, Replace(o.orderId, o.price, qty));
            && out.events == [Replaced(o.orderId, o.price, qty)] && out.book.seqNo == b.seqNo + 1
            && Mine(out.book, side) == Mine(b, side)[i := o.(qty := qty)]
            && Theirs(out.book, side) == Theirs(b, side)
  {
    hide WellFormed, Find, WithQty, Allowed, PriceOk;
    var o := Mine(b, side)[i];
    FindAt(b, side, i);
    OwnSorted(b, side);
    AllowedIs(b.cfg, o.price);
    WithQtyAt(Mine(b, side), i, qty);
  }

  // Another price or more quantity: the order leaves its place, trades like a limit
  // order at the new price, and what is left of it joins the back of its new level.
  lemma ReplaceLosesPlace(b: Book, side: Side, i: nat, price: Price, qty: Qty)
    requires WellFormed(b) && i < |Mine(b, side)| && qty > 0 && Allowed(b.cfg, price)
    requires price != Mine(b, side)[i].price || qty > Mine(b, side)[i].qty
    ensures var (s, o) := (Mine(b, side), Mine(b, side)[i]);
            var (out, t) := (Apply(b, Replace(o.orderId, price, qty)), Least(qty, Offered(b, side, price)));
            && Traded(out.events) == t && PricesNoWorse(out.events, side, price)
            && out.events != []
            && var (n, last) := (|out.events| - 1, out.events[|out.events| - 1]);
               && Takes(Theirs(b, side), o.orderId, t, out.events[..n], Theirs(out.book, side))
               && if t == qty then
                 last == Closed(o.orderId, Filled) && Mine(out.book, side) == s[..i] + s[i + 1..]
               else
                 && last == Replaced(o.orderId, price, qty - t)
                 && Joined(s[..i] + s[i + 1..], o.(price := price, qty := qty - t), Mine(out.book, side))
  {
    hide WellFormed, Find, Without, Insert, Cross, SumQty, Traded, Takes, PricesNoWorse, JoinedAt, Offered;
    hide Allowed, PriceOk, Sorted, UniqueIds;
    var (s, o) := (Mine(b, side), Mine(b, side)[i]);
    FindAt(b, side, i);
    OwnSorted(b, side);
    AllowedIs(b.cfg, price);
    WithoutAt(s, i);
    OppSorted(b, side);
    var opp := b.Opp(side);
    CrossTrades(side, Some(price), o.orderId, qty, opp);
    OfferedIs(b, side, price);
    CrossPrices(side, Some(price), o.orderId, qty, opp);
    CrossTakes(side, Some(price), o.orderId, qty, opp);
    var r := Cross(side, Some(price), o.orderId, qty, opp);
    var last := if r.qty == 0 then Closed(o.orderId, Filled) else Replaced(o.orderId, price, r.qty);
    TradedLast(r.events, last);
    PricesLast(r.events, last, side, price);
    assert (r.events + [last])[..|r.events|] == r.events;
    if r.qty > 0 {
      DropSorted(side, s, i);
      var k := InsertJoins(s[..i] + s[i + 1..], RestingOrder(o.orderId, side, o.tif, price, r.qty));
    }
  }

  lemma DropSorted(side: Side, s: seq<RestingOrder>, i: nat)
    requires Sorted(side, s) && i < |s|
    ensures Sorted(side, s[..i] + s[i + 1..])
  {
    var t := s[..i] + s[i + 1..];
    forall j, k | 0 <= j < k < |t|
      ensures !Better(side, t[k].price, t[j].price)
    {
      assert t[j] == s[if j < i then j else j + 1] && t[k] == s[if k < i then k else k + 1];
    }
  }
}
