// The whole book as values: the store's chunks and the two indexes against the
// two order sequences, and what each step of a command does to them.

module BookState {
  import opened Types
  import opened SpecBook
  import opened SpecInvariant
  import opened SpecQueues
  import opened Chunks
  import opened StoreState
  import opened StoreSteps
  import opened LevelView
  import opened Glue

  // The orders of both sides.
  datatype Orders = Orders(bids: seq<RestingOrder>, asks: seq<RestingOrder>) {
    function Own(side: Side): seq<RestingOrder> {
      if side.Bid? then bids else asks
    }

    function WithOwn(side: Side, s: seq<RestingOrder>): Orders {
      if side.Bid? then this.(bids := s) else this.(asks := s)
    }
  }

  // What the store and the two indexes hold.
  datatype Layout = Layout(chunks: seq<Chunk>, used: nat, top: u32, free: seq<nat>, chain: Chain, bids: View,
                           asks: View) {
    function Index(side: Side): View {
      if side.Bid? then bids else asks
    }

    function WithIndex(side: Side, v: View): Layout {
      if side.Bid? then this.(bids := v) else this.(asks := v)
    }

    ghost predicate Ok() {
      StoreOk(chunks, used, top, free, chain, NIL)
    }

    ghost function Queue(k: LevelKey): seq<RestingOrder> {
      ChainOrders(chunks, ChainAt(chain, k))
    }
  }

  function HandOn(hand: Option<LevelKey>, side: Side): Option<Price> {
    if hand.Some? && hand.value.side == side then Some(hand.value.price) else None
  }

  // One side of the book: queues, levels and sequence agree, except that the
  // index need not know the level in hand.
  ghost predicate Agrees(l: Layout, q: Orders, cfg: BookConfig, hand: Option<LevelKey>, side: Side) {
    SideGlue(l.chunks, l.chain, side, l.Index(side), q.Own(side), cfg, HandOn(hand, side))
  }

  ghost predicate Sides(l: Layout, q: Orders, cfg: BookConfig, hand: Option<LevelKey>) {
    Agrees(l, q, cfg, hand, Bid) && Agrees(l, q, cfg, hand, Ask)
  }

  // Only the store changed, and only at `key`.
  ghost predicate StoreStep(l: Layout, l': Layout, key: LevelKey) {
    && l.Ok() && l'.Ok() && l'.bids == l.bids && l'.asks == l.asks
    && Elsewhere(l.chunks, l.chain, l'.chunks, l'.chain, key)
  }

  // Only the index of one side changed, and only at `key`.
  ghost predicate IndexStep(l: Layout, l': Layout, key: LevelKey) {
    && l' == l.WithIndex(key.side, l'.Index(key.side))
    && forall r: Price :: r != key.price ==>
         (r in l'.Index(key.side) <==> r in l.Index(key.side))
         && (r in l.Index(key.side) ==> l'.Index(key.side)[r] == l.Index(key.side)[r])
  }

  lemma EmptySides(l: Layout, cfg: BookConfig)
    requires l.chain == map[] && l.bids == map[] && l.asks == map[]
    ensures Sides(l, Orders([], []), cfg, None)
    ensures var ids: map<OrderId, u32> := map[]; |ids| == 0 && (l.chunks == [] ==> IdsOk(l.chunks, ids, None))
  {
  }

  // ---- taking a level in hand and putting it back -----------------------------------

  lemma SideParts(l: Layout, q: Orders, cfg: BookConfig, hand: Option<LevelKey>, side: Side)
    requires Sides(l, q, cfg, hand)
    ensures Queues(l.chunks, l.chain, side, q.Own(side))
    ensures Indexed(l.chunks, l.chain, side, l.Index(side), HandOn(hand, side))
    ensures SideOk(side, cfg, q.Own(side))
    ensures SideGlue(l.chunks, l.chain, side, l.Index(side), q.Own(side), cfg, HandOn(hand, side))
  {
    hide Queues, Indexed, SideOk;
  }

  // A marked level is right and non-empty; an unmarked one has no orders.
  lemma LevelMarked(l: Layout, q: Orders, cfg: BookConfig, key: LevelKey)
    requires l.Ok() && Sides(l, q, cfg, None)
    ensures key.price in l.Index(key.side) ==>
              !l.Index(key.side)[key.price].IsEmpty() && LevelDesc(l.Index(key.side)[key.price], l.chunks, l.chain, key)
    ensures key.price !in l.Index(key.side) ==>
              LevelDesc(EMPTY_LEVEL, l.chunks, l.chain, key) && AtPrice(q.Own(key.side), key.price) == []
    ensures l.Queue(key) == AtPrice(q.Own(key.side), key.price)
  {
    hide StoreOk, ChainOrders, AtPrice, Queues, Indexed, SideOk;
    SideParts(l, q, cfg, None, key.side);
    MarkedIff(l.chunks, l.used, l.top, l.free, l.chain, key.side, l.Index(key.side), q.Own(key.side), key.price);
    QueueGet(l.chunks, l.chain, key.side, q.Own(key.side), key.price);
  }

  lemma Take(l: Layout, l': Layout, q: Orders, cfg: BookConfig, key: LevelKey)
    requires Sides(l, q, cfg, None) && IndexStep(l, l', key)
    ensures Sides(l', q, cfg, Some(key))
  {
    hide Queues, Indexed, SideOk;
    SideParts(l, q, cfg, None, key.side);
    SideParts(l, q, cfg, None, key.side.Opposite());
    TakeInHand(l.chunks, l.chain, key.side, key.price, l.Index(key.side), l'.Index(key.side));
  }

  // The level in hand goes back: as it is while it has orders, unmarked once it has none.
  lemma PutBack(l: Layout, l': Layout, q: Orders, cfg: BookConfig, key: LevelKey, lvl: Level)
    requires l.Ok() && Sides(l, q, cfg, Some(key)) && LevelDesc(lvl, l.chunks, l.chain, key)
    requires var idx := l.Index(key.side);
             l' == l.WithIndex(key.side, if lvl.IsEmpty() then idx - {key.price} else idx[key.price := lvl])
    ensures Sides(l', q, cfg, None)
    ensures lvl.IsEmpty() ==> lvl == EMPTY_LEVEL
  {
    hide StoreOk, ChainOrders, Queues, Indexed, SideOk;
    SideParts(l, q, cfg, Some(key), key.side);
    SideParts(l, q, cfg, Some(key), key.side.Opposite());
    LevelFacts(l.chunks, l.used, l.top, l.free, l.chain, key);
    if lvl.IsEmpty() {
      EmptyDesc(lvl, l.chunks, l.chain, key);
      DropLevel(l.chunks, l.chain, key.side, key.price, l.Index(key.side));
    } else {
      WriteBack(l.chunks, l.chain, key.side, key.price, l.Index(key.side), lvl);
    }
  }

  lemma EmptyDesc(lvl: Level, chunks: seq<Chunk>, chain: Chain, key: LevelKey)
    requires LevelDesc(lvl, chunks, chain, key) && key !in chain
    ensures lvl == EMPTY_LEVEL
  {
  }

  // The first order's level is marked and has orders.
  lemma BestMarked(l: Layout, q: Orders, cfg: BookConfig, key: LevelKey)
    requires l.Ok() && Sides(l, q, cfg, None)
    requires q.Own(key.side) != [] && q.Own(key.side)[0].price == key.price
    ensures key.price in l.Index(key.side) && !l.Index(key.side)[key.price].IsEmpty() && Holdable(cfg, key.price)
    ensures LevelDesc(l.Index(key.side)[key.price], l.chunks, l.chain, key)
  {
    hide StoreOk, ChainOrders, AtPrice, Queues, Indexed, LevelDesc;
    var s := q.Own(key.side);
    SideParts(l, q, cfg, None, key.side);
    LevelMarked(l, q, cfg, key);
    AtPriceIn(s, key.price, s[0]);
    assert OrderOk(key.side, cfg, s[0]);
  }

  lemma BestOk(l: Layout, q: Orders, cfg: BookConfig, side: Side, best: Option<Price>)
    requires l.Ok() && Sides(l, q, cfg, None) && BestIs(side, l.Index(side), best)
    ensures best == (if q.Own(side) == [] then None else Some(q.Own(side)[0].price))
  {
    hide StoreOk, Queues, Indexed, SideOk, BestIs;
    SideParts(l, q, cfg, None, side);
    BestGlue(l.chunks, l.used, l.top, l.free, l.chain, side, l.Index(side), q.Own(side), cfg, best);
  }

  // ---- orders and ids -------------------------------------------------------------------

  // A live order is on its side of the book, at a marked and acceptable price.
  lemma OnBook(l: Layout, q: Orders, cfg: BookConfig, loc: nat)
    requires l.Ok() && Sides(l, q, cfg, None) && OrderAt(l.chunks, loc).Some?
    ensures var o := OrderAt(l.chunks, loc).value;
            && o in q.Own(o.side) && o.orderId in Ids(q.Own(o.side)) && o.price in l.Index(o.side)
            && OrderOk(o.side, cfg, o)
  {
    hide StoreOk, Queues, Indexed, OrderAt, ChainOrders, AtPrice, Ids;
    var o := OrderAt(l.chunks, loc).value;
    SideParts(l, q, cfg, None, o.side);
    LiveInSide(l.chunks, l.used, l.top, l.free, l.chain, o.side, q.Own(o.side), loc);
    MarkedIff(l.chunks, l.used, l.top, l.free, l.chain, o.side, l.Index(o.side), q.Own(o.side), o.price);
    InIds(q.Own(o.side), o);
  }

  // The map finds exactly the orders of the book.
  lemma FindMapped(l: Layout, b: Book, ids: map<OrderId, u32>, id: OrderId)
    requires l.Ok() && Sides(l, Orders(b.bids, b.asks), b.cfg, None) && IdsOk(l.chunks, ids, None) && WellFormed(b)
    ensures Find(b, id) == if id in ids then OrderAt(l.chunks, ids[id]) else None
    ensures id in ids <==> Find(b, id).Some?
  {
    hide StoreOk, Sides, IdsOk, OrderAt, Ids, Lookup, Sorted, UniqueIds;
    var q := Orders(b.bids, b.asks);
    FindOk(b, id);
    LookupOk(b.bids, id);
    if id in ids {
      IdGet(l.chunks, ids, None, id);
      OnBook(l, q, b.cfg, ids[id]);
      LookupUnique(q.Own(OrderAt(l.chunks, ids[id]).value.side), OrderAt(l.chunks, ids[id]).value);
    } else {
      Unmapped(l, q, b.cfg, ids, None, id, Bid);
      Unmapped(l, q, b.cfg, ids, None, id, Ask);
    }
  }

  // An unmapped or reserved id is not on the book.
  lemma Unmapped(l: Layout, q: Orders, cfg: BookConfig, ids: map<OrderId, u32>, reserved: Option<OrderId>, id: OrderId,
                 side: Side)
    requires Sides(l, q, cfg, None) && IdsOk(l.chunks, ids, reserved) && (id !in ids || reserved == Some(id))
    ensures id !in Ids(q.Own(side))
  {
    hide Queues, Indexed, SideOk, IdsOk, Ids;
    SideParts(l, q, cfg, None, side);
    if id in Ids(q.Own(side)) {
      IdInSide(l.chunks, l.chain, side, q.Own(side), ids, reserved, id);
    }
  }

  function AsBook(q: Orders, seqNo: nat, cfg: BookConfig): Book {
    Book(q.bids, q.asks, seqNo, cfg)
  }

  lemma NewRefused(b: Book, c: Command)
    requires c.New? && NewRefusal(b, c).Some?
    ensures ApplyNew(b, c) == Outcome(AsBook(Orders(b.bids, b.asks), b.seqNo + 1, b.cfg),
                                      [Rejected(c.orderId, NewRefusal(b, c).value)])
  {
  }

  // The three ways an admitted New ends.
  lemma NewOutcome(b: Book, c: Command, r: CrossResult, q: Orders, q': Orders, e: Event)
    requires c.New? && NewRefusal(b, c).None?
    requires r == Cross(c.side, Bound(c), c.orderId, c.qty, b.Opp(c.side))
    requires q == Orders(b.bids, b.asks).WithOwn(c.side.Opposite(), r.opp)
    requires if r.qty > 0 && Rests(c) then
               q' == q.WithOwn(c.side, Insert(q.Own(c.side), RestingOrder(c.orderId, c.side, c.tif, c.price, r.qty)))
               && e == Accepted(c.orderId, r.qty)
             else q' == q && e == Closed(c.orderId, if r.qty == 0 then Filled else Expired)
    ensures ApplyNew(b, c) == Outcome(AsBook(q', b.seqNo + |r.events| + 1, b.cfg), r.events + [e])
  {
    hide Cross, Insert, NewRefusal;
  }

  lemma CancelOutcome(b: Book, id: OrderId)
    ensures ApplyCancel(b, id) ==
            (var f := Find(b, id);
             var q := Orders(b.bids, b.asks);
             if f.None? then Outcome(AsBook(q, b.seqNo + 1, b.cfg), [Rejected(id, UnknownOrderId)])
             else Outcome(AsBook(q.WithOwn(f.value.side, Without(q.Own(f.value.side), id)), b.seqNo + 1, b.cfg),
                          [Closed(id, Cancelled)]))
  {
    hide Without, Find;
  }

  lemma ReplaceRefused(b: Book, c: Command)
    requires c.Replace? && ReplaceRefusal(b, c).Some?
    ensures ApplyReplace(b, c) == Outcome(AsBook(Orders(b.bids, b.asks), b.seqNo + 1, b.cfg),
                                          [Rejected(c.orderId, ReplaceRefusal(b, c).value)])
  {
  }

  lemma KeepOutcome(b: Book, c: Command, o: RestingOrder)
    requires c.Replace? && ReplaceRefusal(b, c).None? && Find(b, c.orderId) == Some(o) && KeepsPriority(o, c)
    ensures var q := Orders(b.bids, b.asks);
            var q' := q.WithOwn(o.side, WithQty(q.Own(o.side), c.orderId, c.qty));
            ApplyReplace(b, c) == Outcome(AsBook(q', b.seqNo + 1, b.cfg), [Replaced(c.orderId, c.price, c.qty)])
  {
    hide WithQty, Find;
  }

  lemma RequoteOutcome(b: Book, c: Command, o: RestingOrder, r: CrossResult, q: Orders, q': Orders, e: Event)
    requires c.Replace? && ReplaceRefusal(b, c).None? && Find(b, c.orderId) == Some(o) && !KeepsPriority(o, c)
    requires r == Cross(o.side, Some(c.price), c.orderId, c.qty, b.Opp(o.side))
    requires var q0 := Orders(b.bids, b.asks).WithOwn(o.side, Without(b.Own(o.side), c.orderId));
             q == q0.WithOwn(o.side.Opposite(), r.opp)
    requires if r.qty == 0 then q' == q && e == Closed(c.orderId, Filled)
             else q' == q.WithOwn(o.side, Insert(q.Own(o.side), RestingOrder(c.orderId, o.side, o.tif, c.price, r.qty)))
                  && e == Replaced(c.orderId, c.price, r.qty)
    ensures ApplyReplace(b, c) == Outcome(AsBook(q', b.seqNo + |r.events| + 1, b.cfg), r.events + [e])
  {
    hide Cross, Insert, Without, Find;
  }

  lemma ReservedIn(chunks: seq<Chunk>, ids: map<OrderId, u32>, id: OrderId)
    requires IdsOk(chunks, ids, Some(id))
    ensures id in ids
  {
  }

  // An admitted New has an unused id, room for it and an acceptable price.
  lemma Admitted(l: Layout, b: Book, ids: map<OrderId, u32>, c: Command)
    requires l.Ok() && Sides(l, Orders(b.bids, b.asks), b.cfg, None) && IdsOk(l.chunks, ids, None) && WellFormed(b)
    requires c.New? && NewRefusal(b, c).None?
    ensures c.orderId !in ids && c.qty > 0 && |b.bids| + |b.asks| < b.cfg.maxOrders
    ensures Rests(c) ==> PriceOk(b.cfg, c.price)
  {
    hide StoreOk, Sides, IdsOk, OrderAt, WellFormed, Find, FokRefused;
    FindMapped(l, b, ids, c.orderId);
  }

  // Matching an admitted New does not put its id on the book.
  lemma StillUnused(l: Layout, q: Orders, b: Book, ids: map<OrderId, u32>, c: Command)
    requires l.Ok() && Sides(l, q, b.cfg, None) && IdsOk(l.chunks, ids, None) && WellFormed(b)
    requires c.New? && NewRefusal(b, c).None?
    requires var r := Cross(c.side, Bound(c), c.orderId, c.qty, b.Opp(c.side));
             q == Orders(b.bids, b.asks).WithOwn(c.side.Opposite(), r.opp)
    ensures c.orderId !in ids
  {
    hide StoreOk, Sides, IdsOk, OrderAt, Find, FokRefused, Cross, SideOk, Ids;
    FindOk(b, c.orderId);
    CrossOk(c.side, b.cfg, Bound(c), c.orderId, c.qty, b.Opp(c.side));
    if c.orderId in ids {
      IdGet(l.chunks, ids, None, c.orderId);
      OnBook(l, q, b.cfg, ids[c.orderId]);
    }
  }

  // ---- the fill-or-kill check ---------------------------------------------------------------

  function RangeLow(cfg: BookConfig): Price {
    if cfg.index.LadderKind? then cfg.priceMin else -0x8000_0000_0000_0000
  }

  function RangeHigh(cfg: BookConfig): Price {
    if cfg.index.LadderKind? then cfg.priceMax else 0x7FFF_FFFF_FFFF_FFFF
  }

  // The level totals in the taker's price range sum to what crosses its price.
  lemma FillableOk(l: Layout, q: Orders, cfg: BookConfig, side: Side, price: Price)
    requires l.Ok() && Sides(l, q, cfg, None)
    ensures var (lo, hi) := if side.Bid? then (RangeLow(cfg), price) else (price, RangeHigh(cfg));
            Wrap(SumView(l.Index(side.Opposite()), lo, hi))
              == Wrap(Available(side, Some(price), q.Own(side.Opposite())))
  {
    hide StoreOk, Queues, Indexed, AtPrice, SumView, Available, UniqueIds, Sorted, Wrap;
    var opp := side.Opposite();
    var (lo, hi) := if side.Bid? then (RangeLow(cfg), price) else (price, RangeHigh(cfg));
    var (idx, s) := (l.Index(opp), q.Own(opp));
    SideParts(l, q, cfg, None, opp);
    forall p: Price
      ensures (p in idx ==> idx[p].total == Wrap(SumQty(AtPrice(s, p)))) && (p !in idx ==> AtPrice(s, p) == [])
    {
      MarkedIff(l.chunks, l.used, l.top, l.free, l.chain, opp, idx, s, p);
    }
    SumViewIsInRange(idx, s, lo, hi);
    forall i | 0 <= i < |s|
      ensures Crosses(side, Some(price), s[i].price) <==> lo <= s[i].price <= hi
    {
      assert OrderOk(opp, cfg, s[i]);
    }
    InRangeIsAvailable(side, price, s, lo, hi);
  }

  // ---- a store operation at one level ----------------------------------------------------

  lemma StepOk(l: Layout, l': Layout, q: Orders, cfg: BookConfig, key: LevelKey, s: seq<RestingOrder>,
               hand: Option<LevelKey>)
    requires StoreStep(l, l', key) && Sides(l, q, cfg, hand) && (hand.None? || hand == Some(key))
    requires l'.Queue(key) == AtPrice(s, key.price)
    requires forall r: Price :: r != key.price ==> AtPrice(s, r) == AtPrice(q.Own(key.side), r)
    requires SideOk(key.side, cfg, s)
    ensures Sides(l', q.WithOwn(key.side, s), cfg, Some(key))
  {
    hide StoreOk, ChainOrders, AtPrice, Queues, Indexed, SideOk, Elsewhere;
    var other := key.side.Opposite();
    SideParts(l, q, cfg, hand, key.side);
    SideParts(l, q, cfg, hand, other);
    KeysElsewhere(l.chunks, l.used, l.top, l.free, l.chain, l'.chunks, l'.used, l'.top, l'.free, l'.chain, key);
    SameSide(l.chunks, l.chain, l'.chunks, l'.chain, key.side, key.price, l.Index(key.side), q.Own(key.side), s,
             HandOn(hand, key.side));
    OtherSide(l.chunks, l.chain, l'.chunks, l'.chain, key, other, l.Index(other), q.Own(other), cfg,
              HandOn(hand, other));
  }

  lemma AfterPush(l: Layout, l': Layout, q: Orders, cfg: BookConfig, key: LevelKey, o: RestingOrder)
    requires StoreStep(l, l', key) && Sides(l, q, cfg, Some(key))
    requires l'.Queue(key) == l.Queue(key) + [o] && OrderOk(key.side, cfg, o) && o.price == key.price
    requires o.orderId !in Ids(q.Own(key.side))
    ensures Sides(l', q.WithOwn(key.side, Insert(q.Own(key.side), o)), cfg, Some(key))
    ensures |Insert(q.Own(key.side), o)| == |q.Own(key.side)| + 1
  {
    hide StoreOk, ChainOrders, AtPrice, Queues, Indexed, Elsewhere, Insert, Sorted, UniqueIds;
    var s := q.Own(key.side);
    SideParts(l, q, cfg, Some(key), key.side);
    QueueGet(l.chunks, l.chain, key.side, s, key.price);
    InsertedQueue(key.side, s, o);
    InsertOk(key.side, cfg, s, o);
    StepOk(l, l', q, cfg, key, Insert(s, o), Some(key));
  }

  lemma AfterUnlink(l: Layout, l': Layout, q: Orders, cfg: BookConfig, key: LevelKey, o: RestingOrder)
    requires StoreStep(l, l', key) && Sides(l, q, cfg, None)
    requires RemovedOne(l.Queue(key), o, l'.Queue(key)) && o in q.Own(key.side) && o.price == key.price
    ensures Sides(l', q.WithOwn(key.side, Without(q.Own(key.side), o.orderId)), cfg, Some(key))
    ensures |Without(q.Own(key.side), o.orderId)| == |q.Own(key.side)| - 1
  {
    hide StoreOk, ChainOrders, AtPrice, Queues, Indexed, Elsewhere, Without, Sorted, UniqueIds, RemovedOne;
    var s := q.Own(key.side);
    SideParts(l, q, cfg, None, key.side);
    QueueGet(l.chunks, l.chain, key.side, s, key.price);
    RemovedQueue(s, o, l'.Queue(key));
    WithoutOk(key.side, cfg, s, o.orderId);
    InIds(s, o);
    StepOk(l, l', q, cfg, key, Without(s, o.orderId), None);
  }

  lemma AfterSetQty(l: Layout, l': Layout, q: Orders, cfg: BookConfig, key: LevelKey, o: RestingOrder, qty: Qty)
    requires StoreStep(l, l', key) && Sides(l, q, cfg, None) && qty > 0
    requires Requantified(l.Queue(key), o, qty, l'.Queue(key)) && o in q.Own(key.side) && o.price == key.price
    ensures Sides(l', q.WithOwn(key.side, WithQty(q.Own(key.side), o.orderId, qty)), cfg, Some(key))
    ensures |WithQty(q.Own(key.side), o.orderId, qty)| == |q.Own(key.side)|
  {
    hide StoreOk, ChainOrders, AtPrice, Queues, Indexed, Elsewhere, WithQty, Sorted, UniqueIds, Requantified;
    var s := q.Own(key.side);
    SideParts(l, q, cfg, None, key.side);
    QueueGet(l.chunks, l.chain, key.side, s, key.price);
    RequantifiedQueue(s, o, qty, l'.Queue(key));
    WithQtyOk(key.side, cfg, s, o.orderId, qty);
    StepOk(l, l', q, cfg, key, WithQty(s, o.orderId, qty), None);
  }

  // ---- one maker of a match ------------------------------------------------------------------

  // The first order gives up `n`.
  function Reduced(s: seq<RestingOrder>, n: Qty): seq<RestingOrder>
    requires s != [] && n <= s[0].qty
  {
    (if n == s[0].qty then [] else [s[0].(qty := s[0].qty - n)]) + s[1..]
  }

  lemma ReducedOk(side: Side, cfg: BookConfig, s: seq<RestingOrder>, n: Qty)
    requires SideOk(side, cfg, s) && s != [] && n <= s[0].qty
    ensures SideOk(side, cfg, Reduced(s, n))
    ensures |Reduced(s, n)| == |s| - (if n == s[0].qty then 1 else 0)
    ensures Reduced(s, n) != [] ==> !Better(side, Reduced(s, n)[0].price, s[0].price)
  {
    hide UniqueIds, Ids;
    SideTail(side, cfg, s);
    if n == s[0].qty {
      assert Reduced(s, n) == s[1..];
      assert |s| > 1 ==> Reduced(s, n)[0] == s[1];
    } else {
      SideCons(side, cfg, s[0].(qty := s[0].qty - n), s[1..]);
    }
  }

  lemma AfterMatch(l: Layout, l': Layout, q: Orders, cfg: BookConfig, key: LevelKey, n: Qty)
    requires StoreStep(l, l', key) && Sides(l, q, cfg, Some(key))
    requires q.Own(key.side) != [] && q.Own(key.side)[0].price == key.price && n <= q.Own(key.side)[0].qty
    requires l.Queue(key) != [] && l.Queue(key)[0] == q.Own(key.side)[0]
    requires l'.Queue(key) == Reduced(l.Queue(key), n)
    ensures var s := Reduced(q.Own(key.side), n);
            && Sides(l', q.WithOwn(key.side, s), cfg, Some(key))
            && |s| == |q.Own(key.side)| - (if n == q.Own(key.side)[0].qty then 1 else 0)
            && (s != [] ==> !Better(key.side, s[0].price, key.price))
  {
    hide StoreOk, ChainOrders, AtPrice, Queues, Indexed, Elsewhere, SideOk;
    var s := q.Own(key.side);
    SideParts(l, q, cfg, Some(key), key.side);
    QueueGet(l.chunks, l.chain, key.side, s, key.price);
    HeadQueue(s, if n == s[0].qty then [] else [s[0].(qty := s[0].qty - n)]);
    ReducedOk(key.side, cfg, s, n);
    StepOk(l, l', q, cfg, key, Reduced(s, n), Some(key));
  }

  // While the level in hand has orders and nothing rests at a better price,
  // the side's first order is the level's first.
  lemma FirstInHand(l: Layout, q: Orders, cfg: BookConfig, key: LevelKey, lvl: Level)
    requires l.Ok() && Sides(l, q, cfg, Some(key)) && LevelDesc(lvl, l.chunks, l.chain, key) && !lvl.IsEmpty()
    requires q.Own(key.side) != [] ==> !Better(key.side, q.Own(key.side)[0].price, key.price)
    ensures q.Own(key.side) != [] && q.Own(key.side)[0].price == key.price
    ensures l.Queue(key) != [] && l.Queue(key)[0] == q.Own(key.side)[0]
  {
    hide StoreOk, ChainOrders, AtPrice, Queues, Indexed, UniqueIds;
    var s := q.Own(key.side);
    SideParts(l, q, cfg, Some(key), key.side);
    QueueGet(l.chunks, l.chain, key.side, s, key.price);
    LevelFacts(l.chunks, l.used, l.top, l.free, l.chain, key);
    var o := AtPrice(s, key.price)[0];
    AtPriceIn(s, key.price, o);
    NoneBetterThan(key.side, s, key.price);
    AtPriceFirst(key.side, s, key.price);
  }

  lemma NoneBetterThan(side: Side, s: seq<RestingOrder>, p: Price)
    requires Sorted(side, s) && s != [] && !Better(side, s[0].price, p)
    ensures forall i :: 0 <= i < |s| ==> !Better(side, s[i].price, p)
  {
    forall i | 0 <= i < |s|
      ensures !Better(side, s[i].price, p)
    {
      assert i > 0 ==> !Better(side, s[i].price, s[0].price);
    }
  }

  // ---- a match, maker by maker -----------------------------------------------------------------

  function MakerEvents(m: RestingOrder, taker: OrderId, n: Qty): seq<Event> {
    [Trade(m.orderId, taker, m.price, n)] + (if n == m.qty then [Closed(m.orderId, Filled)] else [])
  }

  // Matching `qty0` against `opp0` emits `done` and then matches `qty` against `opp`.
  ghost predicate Progress(side: Side, bound: Option<Price>, taker: OrderId, qty0: Qty, opp0: seq<RestingOrder>,
                           qty: Qty, opp: seq<RestingOrder>, done: seq<Event>) {
    var rest := Cross(side, bound, taker, qty, opp);
    Cross(side, bound, taker, qty0, opp0) == rest.(events := done + rest.events)
  }

  lemma ProgressStart(side: Side, bound: Option<Price>, taker: OrderId, qty: Qty, opp: seq<RestingOrder>)
    ensures Progress(side, bound, taker, qty, opp, qty, opp, [])
  {
    hide Cross;
    var r := Cross(side, bound, taker, qty, opp);
    assert [] + r.events == r.events;
  }

  lemma ProgressMaker(side: Side, bound: Option<Price>, taker: OrderId, qty: Qty, opp: seq<RestingOrder>, n: Qty)
    requires qty > 0 && opp != [] && Crosses(side, bound, opp[0].price)
    requires n == (if qty < opp[0].qty then qty else opp[0].qty)
    ensures Progress(side, bound, taker, qty, opp, qty - n, Reduced(opp, n), MakerEvents(opp[0], taker, n))
  {
    var m := opp[0];
    if qty < m.qty {
      assert Cross(side, bound, taker, 0, Reduced(opp, n)) == CrossResult(Reduced(opp, n), 0, []);
    } else {
      assert Reduced(opp, n) == opp[1..];
    }
  }

  lemma ProgressTrans(side: Side, bound: Option<Price>, taker: OrderId, qty0: Qty, opp0: seq<RestingOrder>,
                      qty1: Qty, opp1: seq<RestingOrder>, done: seq<Event>, qty2: Qty, opp2: seq<RestingOrder>,
                      more: seq<Event>)
    requires Progress(side, bound, taker, qty0, opp0, qty1, opp1, done)
    requires Progress(side, bound, taker, qty1, opp1, qty2, opp2, more)
    ensures Progress(side, bound, taker, qty0, opp0, qty2, opp2, done + more)
  {
    hide Cross;
    var r := Cross(side, bound, taker, qty2, opp2);
    assert done + (more + r.events) == done + more + r.events;
  }

  // A match that has nothing left to do has emitted everything.
  lemma ProgressEnd(side: Side, bound: Option<Price>, taker: OrderId, qty0: Qty, opp0: seq<RestingOrder>,
                    qty: Qty, opp: seq<RestingOrder>, done: seq<Event>)
    requires Progress(side, bound, taker, qty0, opp0, qty, opp, done)
    requires qty == 0 || opp == [] || !Crosses(side, bound, opp[0].price)
    ensures Cross(side, bound, taker, qty0, opp0) == CrossResult(opp, qty, done)
  {
    assert done + [] == done;
  }

  // Two numbered runs of events in a row are one.
  lemma NumberedAppend(log: seq<(nat, Event)>, from: nat, a: seq<Event>, b: seq<Event>)
    ensures log + Numbered(from, a) + Numbered(from + |a|, b) == log + Numbered(from, a + b)
  {
    assert Numbered(from, a + b) == Numbered(from, a) + Numbered(from + |a|, b);
  }

  lemma NumberedNone(log: seq<(nat, Event)>, from: nat)
    ensures log + Numbered(from, []) == log
  {
  }
}
