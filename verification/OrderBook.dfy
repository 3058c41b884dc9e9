// The order book: src/book.rs:33-573. One command changes the store, the id
// map and both price indexes; every command is proved to change the book and
// to emit events exactly as the two-sequence reference book does.

module OrderBooks {
  import opened Types
  import opened SpecBook
  import opened SpecInvariant
  import opened SpecConfig
  import SpecCommands
  import opened Chunks
  import opened StoreState
  import opened StoreSteps
  import opened Stores
  import opened LevelView
  import opened OrderMaps
  import opened PriceIndexes
  import opened Ladders
  import opened Glue
  import opened BookState
  import opened BookOrder
  import opened Probing
  import opened Bitmap

  // Records the numbered events (src/sink.rs:43-61).
  class VecSink {
    var events: seq<(nat, Event)>

    constructor ()
      ensures events == []
    {
      events := [];
    }

    method OnEvent(seqNo: nat, ev: Event)
      modifies this
      ensures events == old(events) + [(seqNo, ev)]
    {
      events := events + [(seqNo, ev)];
    }
  }

  // What a ladder's range must satisfy: non-empty, and its cursors fit a u32 below NIL.
  predicate RangeOk(cfg: BookConfig) {
    cfg.index.LadderKind? ==>
      cfg.priceMin < cfg.priceMax && cfg.priceMax - cfg.priceMin + 1 <= 0xFFFF_FFFF
  }

  ghost predicate FitsConfig(cfg: BookConfig, idx: PriceIndex, side: Side) {
    && idx.Side() == side
    && (cfg.index.LadderKind? <==> idx.Ladder?)
    && (idx.Ladder? ==> idx.ladder.base == cfg.priceMin && idx.ladder.levels.Length == cfg.priceMax - cfg.priceMin + 1)
  }

  method MakeIndex(cfg: BookConfig, side: Side) returns (idx: PriceIndex, ghost repr: set<object>)
    requires RangeOk(cfg)
    ensures idx.Valid() && idx.View() == map[] && FitsConfig(cfg, idx, side)
    ensures repr == idx.Repr() && fresh(repr)
  {
    if cfg.index.LadderKind? {
      var ladder := new LadderIndex(side, cfg.priceMin, cfg.priceMax);
      idx := PriceIndex.Ladder(ladder);
    } else {
      var tree := new TreeIndex(side);
      idx := Tree(tree);
    }
    repr := idx.Repr();
  }

  method MakeMap(cfg: BookConfig, mix: Probing.Hash) returns (ids: OrderMap, ghost repr: set<object>)
    ensures ids.Valid() && ids.view == map[] && ids.tags.Length > cfg.maxOrders
    ensures repr == ids.Repr() && fresh(repr) && ids in repr
  {
    ids := new OrderMap.WithCapacity(cfg.maxOrders, mix);
    repr := ids.Repr();
  }

  lemma EmptyWellFormed(cfg: BookConfig)
    ensures WellFormed(EmptyBook(cfg))
  {
  }

  class OrderBook {
    const store: Store
    const ids: OrderMap
    const bids: PriceIndex
    const asks: PriceIndex
    const cfg: BookConfig
    var seqNo: nat

    // The orders of both sides, best first and in time order at each price.
    ghost var q: Orders

    // The memory of each part.
    ghost const idsRepr: set<object>
    ghost const bidsRepr: set<object>
    ghost const asksRepr: set<object>

    // ---- invariant -----------------------------------------------------------------

    // The parts share no memory.
    ghost predicate Separate() {
      && idsRepr == ids.Repr() && bidsRepr == bids.Repr() && asksRepr == asks.Repr() && ids in idsRepr
      && this !in idsRepr && this !in bidsRepr && this !in asksRepr
      && store !in idsRepr && store !in bidsRepr && store !in asksRepr
      && idsRepr !! bidsRepr && idsRepr !! asksRepr && bidsRepr !! asksRepr
    }

    ghost predicate Apart(sink: VecSink) {
      sink !in idsRepr && sink !in bidsRepr && sink !in asksRepr
    }

    ghost predicate Configured() {
      && RangeOk(cfg) && FitsConfig(cfg, bids, Bid) && FitsConfig(cfg, asks, Ask)
      && store.maxChunks == cfg.maxOrders <= MAX_ORDERS && ids.tags.Length > cfg.maxOrders
    }

    ghost function State(): Layout
      requires Separate()
      reads store, bidsRepr, asksRepr
    {
      Layout(store.chunks, store.used, store.freeChunk, store.free, store.chain, bids.View(), asks.View())
    }

    // Everything but the id map; `hand` is the level an operation is changing.
    ghost predicate Core(hand: Option<LevelKey>)
      reads this`q, store, bidsRepr, asksRepr
    {
      && Separate() && Configured()
      && store.Valid() && bids.Valid() && asks.Valid()
      && Sides(State(), q, cfg, hand)
      && store.live == |q.bids| + |q.asks|
    }

    // `reserved` is the id of an order that is being replaced.
    ghost predicate Mapped(reserved: Option<OrderId>)
      requires Separate()
      reads store, idsRepr
    {
      && ids.Valid() && IdsOk(store.chunks, ids.view, reserved)
      && |ids.view| == store.live + (if reserved.Some? then 1 else 0)
    }

    ghost predicate Inv(hand: Option<LevelKey>, reserved: Option<OrderId>)
      reads this`q, store, idsRepr, bidsRepr, asksRepr
    {
      Core(hand) && Mapped(reserved)
    }

    // The reference book this book stands for.
    ghost function View(): Book
      reads this
    {
      Book(q.bids, q.asks, seqNo, cfg)
    }

    ghost predicate Valid()
      reads this, store, idsRepr, bidsRepr, asksRepr
    {
      Inv(None, None) && WellFormed(View())
    }

    // Chunks never outnumber the orders the book may hold.
    lemma Bounded()
      requires Valid()
      ensures |store.chunks| <= store.maxChunks == cfg.maxOrders
    {
    }

    function Index(side: Side): PriceIndex {
      if side.Bid? then bids else asks
    }

    // Two ladders over the configured range, or two ordered maps.
    constructor (cfg: BookConfig, mix: Probing.Hash)
      requires cfg.maxOrders <= 0x2000_0000 && RangeOk(cfg)
      ensures Valid() && View() == EmptyBook(cfg) && fresh(store) && fresh(idsRepr) && fresh(bidsRepr)
              && fresh(asksRepr)
    {
      hide BitmapOk, Marks, ViewOk, CursorOk, TableOk, Holds, StoreOk, SumLive;
      hide Sides, IdsOk, OrderAt, SideOk, PriceIndex.Repr, PriceIndex.Valid, OrderMap.Valid, OrderMap.Repr;
      hide PriceIndex.View, PriceIndex.Side, WellFormed, FitsConfig;
      var s := new Store(cfg.maxOrders);
      var m, mr := MakeMap(cfg, mix);
      var b, br := MakeIndex(cfg, Bid);
      var a, ar := MakeIndex(cfg, Ask);
      this.cfg, seqNo, q := cfg, 0, Orders([], []);
      store, ids, bids, asks := s, m, b, a;
      idsRepr, bidsRepr, asksRepr := mr, br, ar;
      new;
      assert Separate() && Configured();
      EmptySides(State(), cfg);
      assert Core(None);
      assert Mapped(None);
      EmptyWellFormed(cfg);
    }

    // ---- events ----------------------------------------------------------------------

    // The first event of a book has number 1.
    method Emit(ev: Event, sink: VecSink)
      modifies this`seqNo, sink
      ensures seqNo == old(seqNo) + 1
      ensures sink.events == old(sink.events) + [(old(seqNo) + 1, ev)]
      ensures sink.events == old(sink.events) + Numbered(old(seqNo), [ev])
    {
      seqNo := seqNo + 1;
      sink.OnEvent(seqNo, ev);
    }

    method Reject(id: OrderId, reason: RejectReason, sink: VecSink)
      modifies this`seqNo, sink
      ensures seqNo == old(seqNo) + 1
      ensures sink.events == old(sink.events) + Numbered(old(seqNo), [Rejected(id, reason)])
    {
      Emit(Rejected(id, reason), sink);
    }

    // A marked level, in hand until it is returned.
    method BorrowLevel(side: Side, price: Price) returns (lvl: Level)
      requires Core(None) && price in Index(side).View() && Holdable(cfg, price)
      ensures Core(Some(LevelKey(side, price))) && store.Describes(lvl, LevelKey(side, price)) && !lvl.IsEmpty()
    {
      hide OrderMap.Repr, PriceIndex.Repr, OrderMap.Valid, PriceIndex.Valid;
      hide Sides, StoreOk, ChainOrders, SumQty, SumLive, AtPrice;
      ghost var l, key := State(), LevelKey(side, price);
      LevelMarked(l, q, cfg, key);
      Take(l, l, q, cfg, key);
      var found := Index(side).LevelMut(price);
      lvl := found.value;
    }

    // The level a resting order goes to, created if nothing rests there yet.
    method BorrowOrCreate(side: Side, price: Price) returns (lvl: Level)
      requires Core(None) && Holdable(cfg, price)
      modifies Index(side).Repr()
      ensures Core(Some(LevelKey(side, price))) && store.Describes(lvl, LevelKey(side, price))
      ensures price in Index(side).View()
    {
      hide OrderMap.Repr, PriceIndex.Repr, OrderMap.Valid, PriceIndex.Valid;
      hide Sides, StoreOk, ChainOrders, SumQty, SumLive, AtPrice;
      ghost var l, key := State(), LevelKey(side, price);
      LevelMarked(l, q, cfg, key);
      lvl := Index(side).LevelInsert(price);
      Take(l, State(), q, cfg, key);
    }

    // The best price of a side is its first order's.
    method BestPrice(side: Side) returns (best: Option<Price>)
      requires Core(None)
      ensures best == if q.Own(side) == [] then None else Some(q.Own(side)[0].price)
    {
      hide PriceIndex.Repr, PriceIndex.Valid, Sides, StoreOk, BestIs;
      best := Index(side).BestPrice();
      BestOk(State(), q, cfg, side, best);
    }

    // The end of a borrow that leaves the level with orders.
    method KeepLevel(side: Side, price: Price, lvl: Level)
      requires Core(Some(LevelKey(side, price))) && !lvl.IsEmpty()
      requires store.Describes(lvl, LevelKey(side, price)) && price in Index(side).View()
      modifies Index(side).Repr()
      ensures Core(None)
    {
      hide OrderMap.Repr, PriceIndex.Repr, OrderMap.Valid, PriceIndex.Valid;
      hide Sides, StoreOk, ChainOrders, SumQty, SumLive;
      ghost var l, key := State(), LevelKey(side, price);
      PutBack(l, l.WithIndex(side, l.Index(side)[price := lvl]), q, cfg, key, lvl);
      Index(side).SetLevel(price, lvl);
    }

    // The end of a `&mut Level` borrow: the level goes back, and its bookkeeping
    // is dropped if it emptied (`unlink_level` tests that itself).
    method ReturnLevel(side: Side, price: Price, lvl: Level)
      requires Core(Some(LevelKey(side, price)))
      requires store.Describes(lvl, LevelKey(side, price)) && price in Index(side).View()
      modifies Index(side).Repr()
      ensures Core(None)
    {
      hide OrderMap.Repr, PriceIndex.Repr, OrderMap.Valid, PriceIndex.Valid;
      hide Sides, StoreOk, ChainOrders, SumQty, SumLive;
      ghost var l, key := State(), LevelKey(side, price);
      ghost var view := if lvl.IsEmpty() then l.Index(side) - {price} else l.Index(side)[price := lvl];
      PutBack(l, l.WithIndex(side, view), q, cfg, key, lvl);
      Index(side).SetLevel(price, lvl);
      Index(side).UnlinkLevel(price);
      assert Index(side).View() == view;
      assert State() == l.WithIndex(side, view);
    }

    // ---- matching --------------------------------------------------------------------

    // The first order of the level in hand gives up `n`; a filled one leaves the
    // store and the id map.
    method TakeFromHead(side: Side, bp: Price, lvl: Level, want: Qty, ghost reserved: Option<OrderId>)
      returns (lvl': Level, maker: OrderId, n: Qty, filled: bool)
      requires Inv(Some(LevelKey(side, bp)), reserved) && want > 0
      requires store.Describes(lvl, LevelKey(side, bp)) && !lvl.IsEmpty()
      requires q.Own(side) != [] ==> !Better(side, q.Own(side)[0].price, bp)
      modifies this`q, store, idsRepr
      ensures Inv(Some(LevelKey(side, bp)), reserved) && store.Describes(lvl', LevelKey(side, bp))
      ensures old(q).Own(side) != []
      ensures var m := old(q).Own(side)[0];
              && maker == m.orderId && m.price == bp && m.qty > 0
              && n == (if want < m.qty then want else m.qty) && filled == (n == m.qty)
              && q == old(q).WithOwn(side, Reduced(old(q).Own(side), n))
              && |q.Own(side)| == |old(q).Own(side)| - (if filled then 1 else 0)
              && (q.Own(side) != [] ==> !Better(side, q.Own(side)[0].price, bp))
      ensures ids.removes >= old(ids.removes) && |store.chunks| >= old(|store.chunks|)
      ensures ids.removes == old(ids.removes) ==> ids.view == old(ids.view) && ids.pos == old(ids.pos)
    {
      hide OrderMap.Repr, PriceIndex.Repr, OrderMap.Valid, PriceIndex.Valid, PriceIndex.Side, PriceIndex.View;
      hide StoreOk, ChainOrders, OrderAt, Sides, Elsewhere, SlotsExcept, AtPrice, IdsOk, SumQty, SumLive, FitsConfig;
      hide RangeOk, Wrap;
      ghost var key := LevelKey(side, bp);
      ghost var before := State();
      FirstInHand(before, q, cfg, key, lvl);
      ghost var m := q.Own(side)[0];
      ghost var loc;
      lvl', maker, n, filled, loc := store.MatchHead(lvl, key, want);
      AfterMatch(before, State(), q, cfg, key, n);
      q := q.WithOwn(side, Reduced(q.Own(side), n));
      assert Core(Some(key));
      if filled {
        IdsFilled(before.chunks, store.chunks, ids.view, loc, m, reserved);
        var _ := ids.Remove(maker);
      } else {
        IdsRequoted(before.chunks, store.chunks, ids.view, loc, m, m.qty - n, reserved);
      }
    }

    // One maker: the body of the inner matching loop. The level in hand is `lvl`.
    method MatchMaker(side: Side, bp: Price, lvl: Level, taker: OrderId, want: Qty, sink: VecSink,
                      ghost reserved: Option<OrderId>)
      returns (lvl': Level, left: Qty, n: Qty)
      requires Inv(Some(LevelKey(side, bp)), reserved) && Apart(sink) && want > 0
      requires store.Describes(lvl, LevelKey(side, bp)) && !lvl.IsEmpty()
      requires q.Own(side) != [] ==> !Better(side, q.Own(side)[0].price, bp)
      modifies this`q, this`seqNo, store, idsRepr, sink
      ensures Inv(Some(LevelKey(side, bp)), reserved) && store.Describes(lvl', LevelKey(side, bp))
      ensures old(q).Own(side) != []
      ensures var m := old(q).Own(side)[0];
              && m.price == bp && m.qty > 0 && n == (if want < m.qty then want else m.qty) && left == want - n
              && q == old(q).WithOwn(side, Reduced(old(q).Own(side), n))
              && |q.Own(side)| == |old(q).Own(side)| - (if n == m.qty then 1 else 0)
              && (q.Own(side) != [] ==> !Better(side, q.Own(side)[0].price, bp))
              && seqNo == old(seqNo) + |MakerEvents(m, taker, n)|
              && sink.events == old(sink.events) + Numbered(old(seqNo), MakerEvents(m, taker, n))
      ensures ids.removes >= old(ids.removes) && |store.chunks| >= old(|store.chunks|)
      ensures ids.removes == old(ids.removes) ==> ids.view == old(ids.view) && ids.pos == old(ids.pos)
    {
      hide OrderMap.Repr, PriceIndex.Repr, OrderMap.Valid, PriceIndex.Valid, PriceIndex.Side, PriceIndex.View;
      hide Sides, IdsOk, SumQty, SumLive, Numbered, Reduced, Store.Describes, Store.Valid, FitsConfig;
      ghost var log := sink.events;
      var maker, filled;
      lvl', maker, n, filled := TakeFromHead(side, bp, lvl, want, reserved);
      left := want - n;
      Emit(Trade(maker, taker, bp, n), sink);
      if filled {
        Emit(Closed(maker, Filled), sink);
        NumberedAppend(log, old(seqNo), [Trade(maker, taker, bp, n)], [Closed(maker, Filled)]);
      } else {
        assert [Trade(maker, taker, bp, n)] + [] == [Trade(maker, taker, bp, n)];
      }
    }

    // The inner matching loop over the level in hand. It stops when nothing is
    // left to match or the level has emptied.
    method MatchInHand(side: Side, bound: Option<Price>, bp: Price, lvl: Level, taker: OrderId, want: Qty,
                       sink: VecSink, ghost reserved: Option<OrderId>)
      returns (lvl': Level, left: Qty, ghost done: seq<Event>)
      requires Inv(Some(LevelKey(side, bp)), reserved) && Apart(sink) && want > 0
      requires store.Describes(lvl, LevelKey(side, bp)) && !lvl.IsEmpty() && Crosses(side.Opposite(), bound, bp)
      requires q.Own(side) != [] ==> !Better(side, q.Own(side)[0].price, bp)
      modifies this`q, this`seqNo, store, idsRepr, sink
      ensures Inv(Some(LevelKey(side, bp)), reserved) && store.Describes(lvl', LevelKey(side, bp))
      ensures q == old(q).WithOwn(side, q.Own(side))
      ensures Progress(side.Opposite(), bound, taker, want, old(q).Own(side), left, q.Own(side), done)
      ensures |q.Own(side)| <= |old(q).Own(side)| && (left > 0 ==> |q.Own(side)| < |old(q).Own(side)|)
      ensures seqNo == old(seqNo) + |done| && sink.events == old(sink.events) + Numbered(old(seqNo), done)
      ensures ids.removes >= old(ids.removes) && |store.chunks| >= old(|store.chunks|)
      ensures ids.removes == old(ids.removes) ==> ids.view == old(ids.view) && ids.pos == old(ids.pos)
    {
      hide OrderMap.Repr, PriceIndex.Repr, OrderMap.Valid, PriceIndex.Valid, Store.Valid, Store.Describes;
      hide PriceIndex.Side, PriceIndex.View, Core, Mapped, FitsConfig, Separate;
      hide Sides, IdsOk, Numbered, Progress, SpecBook.Cross, Reduced, MakerEvents;
      ghost var key, opp0 := LevelKey(side, bp), q.Own(side);
      lvl', left, done := lvl, want, [];
      ProgressStart(side.Opposite(), bound, taker, want, opp0);
      NumberedNone(sink.events, seqNo);
      while !lvl'.IsEmpty()
        invariant Inv(Some(key), reserved) && store.Describes(lvl', key) && left > 0
        invariant q == old(q).WithOwn(side, q.Own(side))
        invariant Progress(side.Opposite(), bound, taker, want, opp0, left, q.Own(side), done)
        invariant q.Own(side) != [] ==> !Better(side, q.Own(side)[0].price, bp)
        invariant |q.Own(side)| <= |opp0| && (lvl'.IsEmpty() ==> |q.Own(side)| < |opp0|)
        invariant seqNo == old(seqNo) + |done| && sink.events == old(sink.events) + Numbered(old(seqNo), done)
        invariant ids.removes >= old(ids.removes) && |store.chunks| >= old(|store.chunks|)
        invariant ids.removes == old(ids.removes) ==> ids.view == old(ids.view) && ids.pos == old(ids.pos)
        decreases |q.Own(side)|
      {
        ghost var opp1, left1 := q.Own(side), left;
        var n;
        lvl', left, n := MatchMaker(side, bp, lvl', taker, left, sink, reserved);
        ghost var events := MakerEvents(opp1[0], taker, n);
        ProgressMaker(side.Opposite(), bound, taker, left1, opp1, n);
        ProgressTrans(side.Opposite(), bound, taker, want, opp0, left1, opp1, done, left, q.Own(side), events);
        NumberedAppend(old(sink.events), old(seqNo), done, events);
        done := done + events;
        if left == 0 { break; }
      }
    }

    // One price level: the outer matching loop's body.
    method MatchLevel(side: Side, bound: Option<Price>, bp: Price, taker: OrderId, want: Qty, sink: VecSink,
                      ghost reserved: Option<OrderId>)
      returns (left: Qty, ghost done: seq<Event>)
      requires Inv(None, reserved) && Apart(sink) && want > 0
      requires q.Own(side) != [] && q.Own(side)[0].price == bp && Crosses(side.Opposite(), bound, bp)
      modifies this`q, this`seqNo, store, idsRepr, Index(side).Repr(), sink
      ensures Inv(None, reserved)
      ensures q == old(q).WithOwn(side, q.Own(side))
      ensures Progress(side.Opposite(), bound, taker, want, old(q).Own(side), left, q.Own(side), done)
      ensures |q.Own(side)| <= |old(q).Own(side)| && (left > 0 ==> |q.Own(side)| < |old(q).Own(side)|)
      ensures seqNo == old(seqNo) + |done| && sink.events == old(sink.events) + Numbered(old(seqNo), done)
      ensures ids.removes >= old(ids.removes) && |store.chunks| >= old(|store.chunks|)
      ensures ids.removes == old(ids.removes) ==> ids.view == old(ids.view) && ids.pos == old(ids.pos)
    {
      hide OrderMap.Repr, PriceIndex.Repr, OrderMap.Valid, PriceIndex.Valid, SumQty, SumLive;
      hide Sides, IdsOk, StoreOk, ChainOrders, AtPrice, Numbered, Progress, SpecBook.Cross, Reduced, MakerEvents;
      ghost var view := Index(side).View();
      BestMarked(State(), q, cfg, LevelKey(side, bp));
      var lvl := BorrowLevel(side, bp);
      lvl, left, done := MatchInHand(side, bound, bp, lvl, taker, want, sink, reserved);
      assert Index(side).View() == view;
      ReturnLevel(side, bp, lvl);
    }

    // Aggressive walk of the opposite side, best price first and in time order
    // at each price; `reserved` is the taker's own id while it is being replaced.
    method Cross(side: Side, bound: Option<Price>, taker: OrderId, qty: Qty, sink: VecSink,
                 ghost reserved: Option<OrderId>)
      returns (left: Qty)
      requires Inv(None, reserved) && Apart(sink) && qty > 0
      modifies this`q, this`seqNo, store, idsRepr, Index(side.Opposite()).Repr(), sink
      ensures Inv(None, reserved)
      ensures var r := SpecBook.Cross(side, bound, taker, qty, old(q).Own(side.Opposite()));
              && left == r.qty && q == old(q).WithOwn(side.Opposite(), r.opp)
                 && |r.opp| <= |old(q).Own(side.Opposite())|
              && seqNo == old(seqNo) + |r.events| && sink.events == old(sink.events) + Numbered(old(seqNo), r.events)
      ensures ids.removes >= old(ids.removes) && |store.chunks| >= old(|store.chunks|)
      ensures ids.removes == old(ids.removes) ==> ids.view == old(ids.view) && ids.pos == old(ids.pos)
    {
      hide OrderMap.Repr, PriceIndex.Repr, OrderMap.Valid, PriceIndex.Valid;
      hide Separate, Configured, Sides, IdsOk, StoreOk, Numbered, Progress, SpecBook.Cross, Mapped, Store.Valid, Core;
      var opp := side.Opposite();
      assert opp.Opposite() == side;
      ghost var opp0, done := q.Own(opp), [];
      left := qty;
      ProgressStart(side, bound, taker, qty, opp0);
      NumberedNone(sink.events, seqNo);
      while true
        invariant Inv(None, reserved) && left > 0
        invariant q == old(q).WithOwn(opp, q.Own(opp)) && |q.Own(opp)| <= |opp0|
        invariant Progress(side, bound, taker, qty, opp0, left, q.Own(opp), done)
        invariant seqNo == old(seqNo) + |done| && sink.events == old(sink.events) + Numbered(old(seqNo), done)
        invariant ids.removes >= old(ids.removes) && |store.chunks| >= old(|store.chunks|)
        invariant ids.removes == old(ids.removes) ==> ids.view == old(ids.view) && ids.pos == old(ids.pos)
        decreases |q.Own(opp)|
      {
        var bp := BestPrice(opp);
        if bp.None? { break; }
        if bound.Some? {
          var crosses := if side.Bid? then bp.value <= bound.value else bp.value >= bound.value;
          if !crosses { break; }
        }
        ghost var opp1, left1, more := q.Own(opp), left, [];
        left, more := MatchLevel(opp, bound, bp.value, taker, left, sink, reserved);
        ProgressTrans(side, bound, taker, qty, opp0, left1, opp1, done, left, q.Own(opp), more);
        NumberedAppend(old(sink.events), old(seqNo), done, more);
        done := done + more;
        if left == 0 { break; }
      }
      ProgressEnd(side, bound, taker, qty, opp0, left, q.Own(opp), done);
    }

    // ---- resting and leaving -------------------------------------------------------------

    // Get or create the level and push the order at its back.
    method PushOrder(side: Side, price: Price, id: OrderId, qty: Qty, tif: Tif, ghost reserved: Option<OrderId>)
      returns (loc: u32)
      requires Inv(None, reserved) && store.live < cfg.maxOrders
      requires OrderOk(side, cfg, RestingOrder(id, side, tif, price, qty)) && (reserved == Some(id) || id !in ids.view)
      modifies this`q, store, Index(side).Repr()
      ensures Core(None) && store.live == old(store.live) + 1
      ensures q == old(q).WithOwn(side, Insert(old(q).Own(side), RestingOrder(id, side, tif, price, qty)))
      ensures SlotsExcept(old(store.chunks), store.chunks, loc)
      ensures OrderAt(old(store.chunks), loc) == None
              && OrderAt(store.chunks, loc) == Some(RestingOrder(id, side, tif, price, qty))
      ensures |store.chunks| >= old(|store.chunks|)
    {
      hide OrderMap.Repr, PriceIndex.Repr, OrderMap.Valid, PriceIndex.Valid;
      hide Sides, IdsOk, StoreOk, ChainOrders, OrderAt, SlotsExcept, Elsewhere, AtPrice, SumQty, SumLive, Insert, Ids;
      ghost var l, key, o := State(), LevelKey(side, price), RestingOrder(id, side, tif, price, qty);
      Unmapped(l, q, cfg, ids.view, reserved, id, side);
      var lvl := BorrowOrCreate(side, price);
      ghost var l1 := State();
      lvl, loc := store.Push(lvl, side, price, id, qty, tif);
      AfterPush(l1, State(), q, cfg, key, o);
      q := q.WithOwn(side, Insert(q.Own(side), o));
      KeepLevel(side, price, lvl);
    }

    // Unlink the order of a live slot from its level.
    method TakeOff(loc: u32, side: Side, price: Price, ghost o: RestingOrder)
      requires Inv(None, None) && OrderAt(store.chunks, loc) == Some(o) && o.side == side && o.price == price
      modifies this`q, store, Index(side).Repr()
      ensures Core(None) && store.live == old(store.live) - 1
      ensures q == old(q).WithOwn(side, Without(old(q).Own(side), o.orderId))
      ensures SlotsExcept(old(store.chunks), store.chunks, loc) && OrderAt(store.chunks, loc) == None
      ensures |store.chunks| >= old(|store.chunks|)
    {
      hide OrderMap.Repr, PriceIndex.Repr, OrderMap.Valid, PriceIndex.Valid;
      hide Sides, IdsOk, StoreOk, ChainOrders, OrderAt, SlotsExcept, Elsewhere, AtPrice, SumQty, SumLive, Without, Ids;
      OnBook(State(), q, cfg, loc);
      ghost var l, key := State(), LevelKey(side, price);
      var lvl := BorrowLevel(side, price);
      lvl := store.Unlink(lvl, loc);
      AfterUnlink(l, State(), q, cfg, key, o);
      q := q.WithOwn(side, Without(q.Own(side), o.orderId));
      ReturnLevel(side, price, lvl);
    }

    // Insert a resting order; the book-full check at entry guarantees the room.
    method Rest(id: OrderId, side: Side, price: Price, qty: Qty, tif: Tif)
      requires Inv(None, None) && store.live < cfg.maxOrders && id !in ids.view
      requires OrderOk(side, cfg, RestingOrder(id, side, tif, price, qty))
      modifies this`q, store, idsRepr, Index(side).Repr()
      ensures Inv(None, None)
      ensures q == old(q).WithOwn(side, Insert(old(q).Own(side), RestingOrder(id, side, tif, price, qty)))
      ensures |store.chunks| >= old(|store.chunks|)
    {
      hide OrderMap.Repr, PriceIndex.Repr, PriceIndex.Valid;
      hide Sides, IdsOk, StoreOk, ChainOrders, OrderAt, SlotsExcept, SumLive, Insert, TableOk, Holds;
      ghost var chunks0 := store.chunks;
      var loc := PushOrder(side, price, id, qty, tif, None);
      IdsInsert(chunks0, store.chunks, ids.view, loc, RestingOrder(id, side, tif, price, qty), None);
      var _ := ids.Insert(id, loc);
    }

    // ---- commands ---------------------------------------------------------------------------

    method WouldCross(side: Side, price: Price) returns (r: bool)
      requires Core(None)
      ensures r == ReachesBest(View(), side, price)
    {
      hide PriceIndex.Repr, PriceIndex.Valid, Sides, StoreOk;
      var best := BestPrice(side.Opposite());
      r := best.Some? && if side.Bid? then price >= best.value else price <= best.value;
    }

    // Quantity on the opposite side within `price`, as wrapped level totals.
    method Fillable(side: Side, price: Price) returns (sum: Qty)
      requires Core(None) && Holdable(cfg, price)
      ensures sum == Wrap(Available(side, Some(price), q.Own(side.Opposite())))
    {
      hide PriceIndex.Repr, PriceIndex.Valid, Sides, StoreOk, SumView, Available, Wrap;
      FillableOk(State(), q, cfg, side, price);
      var lo, hi := RangeLow(cfg), RangeHigh(cfg);
      match side
      case Bid => sum := asks.SumRange(lo, price);
      case Ask => sum := bids.SumRange(price, hi);
    }

    // The checks of a New, in order.
    method CheckNew(id: OrderId, side: Side, otype: OType, price: Price, qty: Qty, tif: Tif)
      returns (r: Option<RejectReason>)
      requires Valid()
      ensures r == NewRefusal(View(), New(id, side, otype, price, qty, tif))
    {
      hide OrderMap.Repr, OrderMap.Valid, PriceIndex.Repr, PriceIndex.Valid, Sides, StoreOk;
      hide WellFormed, IdsOk, Available, Wrap, Find, OrderAt;
      if qty == 0 {
        return Some(InvalidQty);
      }
      if otype == Limit && !PriceOk(cfg, price) {
        return Some(InvalidPrice);
      }
      FindMapped(State(), View(), ids.view, id);
      var known := ids.Contains(id);
      if known {
        return Some(DuplicateOrderId);
      }
      if store.live >= cfg.maxOrders {
        return Some(BookFull);
      }
      if otype == Limit {
        match tif
        case PostOnly =>
          var crosses := WouldCross(side, price);
          if crosses { return Some(PostOnlyWouldCross); }
        case Fok =>
          var available := Fillable(side, price);
          if available < qty { return Some(FokCannotFill); }
        case _ =>
      }
      return None;
    }

    // An admitted New: match, then rest or close what is left.
    method Admit(id: OrderId, side: Side, otype: OType, price: Price, qty: Qty, tif: Tif, sink: VecSink)
      requires Valid() && Apart(sink) && NewRefusal(View(), New(id, side, otype, price, qty, tif)).None?
      modifies this, store, idsRepr, bidsRepr, asksRepr, sink
      ensures Inv(None, None)
      ensures var out := ApplyNew(old(View()), New(id, side, otype, price, qty, tif));
              View() == out.book && sink.events == old(sink.events) + Numbered(old(seqNo), out.events)
      ensures |store.chunks| >= old(|store.chunks|)
    {
      hide OrderMap.Repr, OrderMap.Valid, PriceIndex.Repr, PriceIndex.Valid;
      hide Sides, StoreOk, WellFormed, IdsOk, Numbered, NewRefusal, Insert, SpecBook.Cross, Find, ApplyNew;
      hide SumLive, RangeOk;
      ghost var c, b, log := New(id, side, otype, price, qty, tif), View(), sink.events;
      Admitted(State(), b, ids.view, c);
      var bound := if otype == Limit then Some(price) else None;
      var remaining := Cross(side, bound, id, qty, sink, None);
      ghost var r, q1 := SpecBook.Cross(side, bound, id, qty, b.Opp(side)), q;
      var last;
      if remaining == 0 {
        last := Closed(id, Filled);
      } else if otype == Limit && (tif == Gtc || tif == PostOnly) {
        StillUnused(State(), q, b, ids.view, c);
        Rest(id, side, price, remaining, tif);
        last := Accepted(id, remaining);
      } else {
        last := Closed(id, Expired);
      }
      Emit(last, sink);
      NewOutcome(b, c, r, q1, q, last);
      NumberedAppend(log, b.seqNo, r.events, [last]);
    }

    method NewOrder(id: OrderId, side: Side, otype: OType, price: Price, qty: Qty, tif: Tif, sink: VecSink)
      requires Valid() && Apart(sink)
      modifies this, store, idsRepr, bidsRepr, asksRepr, sink
      ensures Valid()
      ensures var out := ApplyNew(old(View()), New(id, side, otype, price, qty, tif));
              View() == out.book && sink.events == old(sink.events) + Numbered(old(seqNo), out.events)
      ensures |store.chunks| >= old(|store.chunks|)
    {
      hide OrderMap.Repr, OrderMap.Valid, PriceIndex.Repr, PriceIndex.Valid;
      hide Sides, StoreOk, WellFormed, IdsOk, Numbered, NewRefusal, Find, ApplyNew;
      ghost var c, b := New(id, side, otype, price, qty, tif), View();
      NewKeeps(b, c);
      var refusal := CheckNew(id, side, otype, price, qty, tif);
      if refusal.Some? {
        NewRefused(b, c);
        Reject(id, refusal.value, sink);
        return;
      }
      Admit(id, side, otype, price, qty, tif, sink);
    }

    // A quantity decrease in place keeps the order's time priority.
    method Reduce(loc: u32, side: Side, price: Price, qty: Qty, ghost o: RestingOrder)
      requires Inv(None, None) && OrderAt(store.chunks, loc) == Some(o) && o.side == side && o.price == price
               && 0 < qty <= o.qty
      modifies this`q, store, Index(side).Repr()
      ensures Inv(None, None) && q == old(q).WithOwn(side, WithQty(old(q).Own(side), o.orderId, qty))
      ensures |store.chunks| >= old(|store.chunks|)
    {
      hide OrderMap.Repr, OrderMap.Valid, PriceIndex.Repr, PriceIndex.Valid;
      hide Sides, IdsOk, StoreOk, ChainOrders, OrderAt, SlotsExcept, Elsewhere, AtPrice, SumQty, SumLive, WithQty, Ids;
      hide PriceIndex.View, FitsConfig, RangeOk, Holdable;
      OnBook(State(), q, cfg, loc);
      ghost var l, key := State(), LevelKey(side, price);
      var lvl := BorrowLevel(side, price);
      lvl := store.SetQty(lvl, loc, qty);
      AfterSetQty(l, State(), q, cfg, key, o, qty);
      q := q.WithOwn(side, WithQty(q.Own(side), o.orderId, qty));
      IdsRequoted(l.chunks, store.chunks, ids.view, loc, o, qty, None);
      KeepLevel(side, price, lvl);
    }

    // The order leaves the book and its id stays mapped.
    method Reserve(loc: u32, side: Side, price: Price, ghost o: RestingOrder)
      requires Inv(None, None) && OrderAt(store.chunks, loc) == Some(o) && o.side == side && o.price == price
      modifies this`q, store, Index(side).Repr()
      ensures Inv(None, Some(o.orderId)) && store.live == old(store.live) - 1
      ensures q == old(q).WithOwn(side, Without(old(q).Own(side), o.orderId))
      ensures o.orderId in ids.view
      ensures |store.chunks| >= old(|store.chunks|)
    {
      hide OrderMap.Repr, OrderMap.Valid, PriceIndex.Repr, PriceIndex.Valid;
      hide Sides, IdsOk, StoreOk, OrderAt, SlotsExcept, SumLive, Without;
      ghost var chunks0 := store.chunks;
      TakeOff(loc, side, price, o);
      IdsReserve(chunks0, store.chunks, ids.view, loc, o);
      ReservedIn(store.chunks, ids.view, o.orderId);
    }

    // A replaced order rests again. When the match removed nothing no entry has
    // moved, so the earlier slot still holds the id; else the id is probed anew.
    method RestReplaced(id: OrderId, mslot: nat, removes: nat, side: Side, price: Price, qty: Qty, tif: Tif)
      requires Inv(None, Some(id)) && store.live < cfg.maxOrders
      requires OrderOk(side, cfg, RestingOrder(id, side, tif, price, qty))
      requires ids.removes == removes ==> id in ids.pos && ids.pos[id] == mslot
      modifies this`q, store, idsRepr, Index(side).Repr()
      ensures Inv(None, None)
      ensures q == old(q).WithOwn(side, Insert(old(q).Own(side), RestingOrder(id, side, tif, price, qty)))
      ensures |store.chunks| >= old(|store.chunks|)
    {
      hide OrderMap.Repr, OrderMap.Valid, PriceIndex.Repr, PriceIndex.Valid;
      hide Sides, IdsOk, StoreOk, OrderAt, SlotsExcept, SumLive, Insert;
      ghost var chunks0 := store.chunks;
      ReservedIn(store.chunks, ids.view, id);
      var nloc := PushOrder(side, price, id, qty, tif, Some(id));
      IdsInsert(chunks0, store.chunks, ids.view, nloc, RestingOrder(id, side, tif, price, qty), Some(id));
      if ids.removes == removes {
        ids.SetValAt(mslot, nloc, id);
      } else {
        var _ := ids.Insert(id, nloc);
      }
    }

    // The id of an order that has left the book is forgotten.
    method Forget(id: OrderId)
      requires Inv(None, Some(id))
      modifies idsRepr
      ensures Inv(None, None)
    {
      hide OrderMap.Repr, OrderMap.Valid, PriceIndex.Repr, PriceIndex.Valid;
      hide Sides, IdsOk, StoreOk, SumLive;
      ReservedIn(store.chunks, ids.view, id);
      IdsRelease(store.chunks, ids.view, id);
      var _ := ids.Remove(id);
    }

    method Cancel(id: OrderId, sink: VecSink)
      requires Valid() && Apart(sink)
      modifies this, store, idsRepr, bidsRepr, asksRepr, sink
      ensures Valid()
      ensures var out := ApplyCancel(old(View()), id);
              View() == out.book && sink.events == old(sink.events) + Numbered(old(seqNo), out.events)
      ensures |store.chunks| >= old(|store.chunks|)
    {
      hide OrderMap.Repr, OrderMap.Valid, PriceIndex.Repr, PriceIndex.Valid;
      hide Sides, StoreOk, WellFormed, IdsOk, Numbered, Find, ApplyCancel, OrderAt, SumLive, Without;
      hide PriceIndex.Side, Configured;
      ghost var b := View();
      CancelKeeps(b, id);
      CancelOutcome(b, id);
      FindMapped(State(), b, ids.view, id);
      var found := ids.Get(id);
      if found.None? {
        Reject(id, UnknownOrderId, sink);
        return;
      }
      var loc := found.value;
      ghost var o := OrderAt(store.chunks, loc).value;
      IdGet(store.chunks, ids.view, None, id);
      SlotFacts(store.chunks, loc, o);
      var ch: Chunk := store.chunks[LocChunk(loc)];
      Reserve(loc, ch.side, ch.price, o);
      Forget(id);
      Emit(Closed(id, Cancelled), sink);
    }

    // After the match of a replaced order: closed if filled, else back on the book.
    method Settle(id: OrderId, mslot: nat, removes: nat, side: Side, price: Price, left: Qty, tif: Tif, sink: VecSink)
      returns (last: Event)
      requires Inv(None, Some(id)) && Apart(sink) && store.live < cfg.maxOrders
      requires left > 0 ==> OrderOk(side, cfg, RestingOrder(id, side, tif, price, left))
      requires ids.removes == removes ==> id in ids.pos && ids.pos[id] == mslot
      modifies this`q, this`seqNo, store, idsRepr, Index(side).Repr(), sink
      ensures Inv(None, None)
      ensures last == if left == 0 then Closed(id, Filled) else Replaced(id, price, left)
      ensures q == if left == 0 then old(q)
                   else old(q).WithOwn(side, Insert(old(q).Own(side), RestingOrder(id, side, tif, price, left)))
      ensures seqNo == old(seqNo) + 1 && sink.events == old(sink.events) + Numbered(old(seqNo), [last])
      ensures |store.chunks| >= old(|store.chunks|)
    {
      hide OrderMap.Repr, OrderMap.Valid, PriceIndex.Repr, PriceIndex.Valid, Sides;
      hide IdsOk, StoreOk, SumLive, Insert, Numbered;
      if left == 0 {
        Forget(id);
        last := Closed(id, Filled);
      } else {
        RestReplaced(id, mslot, removes, side, price, left, tif);
        last := Replaced(id, price, left);
      }
      Emit(last, sink);
    }

    // A Replace that loses priority: the order is taken off, matched as a taker and,
    // if something is left of it, put at the back of its new level.
    method Requote(id: OrderId, mslot: nat, loc: u32, side: Side, oldPrice: Price, tif: Tif, price: Price, qty: Qty,
                   sink: VecSink)
      requires Valid() && Apart(sink) && id in ids.pos && ids.pos[id] == mslot
      requires ReplaceRefusal(View(), Command.Replace(id, price, qty)).None?
      requires Find(View(), id).Some?
      requires var o := Find(View(), id).value;
               && OrderAt(store.chunks, loc) == Some(o) && o.orderId == id && o.side == side && o.price == oldPrice
                  && o.tif == tif
               && !KeepsPriority(o, Command.Replace(id, price, qty))
      modifies this, store, idsRepr, bidsRepr, asksRepr, sink
      ensures Inv(None, None)
      ensures var out := ApplyReplace(old(View()), Command.Replace(id, price, qty));
              View() == out.book && sink.events == old(sink.events) + Numbered(old(seqNo), out.events)
      ensures |store.chunks| >= old(|store.chunks|)
    {
      hide OrderMap.Repr, OrderMap.Valid, PriceIndex.Repr, PriceIndex.Valid;
      hide Sides, StoreOk, WellFormed, IdsOk, Numbered, Find;
      hide ApplyReplace, OrderAt, SumLive, Without, Insert, SpecBook.Cross, RangeOk, Mapped;
      ghost var b, log, c := View(), sink.events, Command.Replace(id, price, qty);
      ghost var o := Find(b, id).value;
      OnBook(State(), q, cfg, loc);
      Reserve(loc, side, oldPrice, o);
      var removes := ids.removes;
      var remaining := Cross(side, Some(price), id, qty, sink, Some(id));
      ghost var r, q1 := SpecBook.Cross(side, Some(price), id, qty, b.Opp(side)), q;
      var last := Settle(id, mslot, removes, side, price, remaining, tif, sink);
      RequoteOutcome(b, c, o, r, q1, q, last);
      NumberedAppend(log, b.seqNo, r.events, [last]);
    }

    method Replace(id: OrderId, price: Price, qty: Qty, sink: VecSink)
      requires Valid() && Apart(sink)
      modifies this, store, idsRepr, bidsRepr, asksRepr, sink
      ensures Valid()
      ensures var out := ApplyReplace(old(View()), Command.Replace(id, price, qty));
              View() == out.book && sink.events == old(sink.events) + Numbered(old(seqNo), out.events)
      ensures |store.chunks| >= old(|store.chunks|)
    {
      hide OrderMap.Repr, OrderMap.Valid, PriceIndex.Repr, PriceIndex.Valid;
      hide Sides, StoreOk, WellFormed, IdsOk, Numbered, Find, ApplyReplace, OrderAt, SumLive, WithQty;
      hide PriceIndex.View;
      ghost var b, c := View(), Command.Replace(id, price, qty);
      ReplaceKeeps(b, c);
      FindMapped(State(), b, ids.view, id);
      var mslot := ids.Find(id);
      var refusal :=
        if mslot.None? then Some(UnknownOrderId)
        else if qty == 0 then Some(InvalidQty)
        else if !PriceOk(cfg, price) then Some(InvalidPrice)
        else None;
      if refusal.Some? {
        ReplaceRefused(b, c);
        Reject(id, refusal.value, sink);
        return;
      }
      var loc := ids.ValAt(mslot.value, id);
      ghost var o := OrderAt(store.chunks, loc).value;
      IdGet(store.chunks, ids.view, None, id);
      SlotFacts(store.chunks, loc, o);
      var ch: Chunk := store.chunks[LocChunk(loc)];
      var si := LocSlot(loc);
      if price == ch.price && qty <= ch.s[si].qty {
        KeepOutcome(b, c, o);
        Reduce(loc, ch.side, price, qty, o);
        Emit(Replaced(id, price, qty), sink);
        return;
      }
      Requote(id, mslot.value, loc, ch.side, ch.price, ch.tif[si], price, qty, sink);
    }

    // Apply one command.
    method Apply(cmd: Command, sink: VecSink)
      requires Valid() && Apart(sink)
      modifies this, store, idsRepr, bidsRepr, asksRepr, sink
      ensures Valid()
      ensures var out := SpecBook.Apply(old(View()), cmd);
              View() == out.book && sink.events == old(sink.events) + Numbered(old(seqNo), out.events)
      ensures |store.chunks| >= old(|store.chunks|)
    {
      hide OrderMap.Repr, PriceIndex.Repr, Inv, WellFormed, Separate, Numbered, ApplyNew, ApplyCancel, ApplyReplace;
      match cmd
      case New(id, side, otype, price, qty, tif) => NewOrder(id, side, otype, price, qty, tif, sink);
      case Cancel(id) => Cancel(id, sink);
      case Replace(id, price, qty) => Replace(id, price, qty, sink);
    }

    // Apply a run of commands; the look-ahead of the source only hints memory.
    // A prefaulted book never allocates again.
    method ApplyBatch(cmds: seq<Command>, sink: VecSink)
      requires Valid() && Apart(sink)
      modifies this, store, idsRepr, bidsRepr, asksRepr, sink
      ensures Valid()
      ensures var out := Run(old(View()), cmds);
              View() == out.book && sink.events == old(sink.events) + Numbered(old(seqNo), out.events)
      ensures var events := Run(old(View()), cmds).events;
              Grown(old(sink.events), sink.events, old(seqNo), events) && seqNo == old(seqNo) + |events|
      ensures old(|store.chunks|) == store.maxChunks ==> |store.chunks| == store.maxChunks
    {
      hide OrderMap.Repr, PriceIndex.Repr, Inv, WellFormed, Separate, Numbered, SpecBook.Apply, Run;
      ghost var b, done := View(), [];
      NumberedNone(sink.events, seqNo);
      RunStart(b, cmds);
      for i := 0 to |cmds|
        invariant Valid() && View().cfg == b.cfg && |store.chunks| >= old(|store.chunks|)
        invariant RunProgress(b, cmds, i, View(), done)
        invariant seqNo == b.seqNo + |done| && sink.events == old(sink.events) + Numbered(b.seqNo, done)
      {
        ghost var b1 := View();
        Apply(cmds[i], sink);
        ghost var more := SpecBook.Apply(b1, cmds[i]).events;
        ApplyCounts(b1, cmds[i]);
        RunNext(b, cmds, i, b1, done);
        NumberedAppend(old(sink.events), b.seqNo, done, more);
        done := done + more;
      }
      RunDone(b, cmds, View(), done);
      NumberedGrows(old(sink.events), b.seqNo, done);
      Bounded();
    }

    // ---- snapshot ---------------------------------------------------------------------------

    // Resting orders in book order: bids, then asks, best price first and in
    // time order at each price.
    method RestingOrders() returns (out: seq<RestingOrder>)
      requires Inv(None, None)
      ensures out == q.bids + q.asks
    {
      hide OrderMap.Repr, OrderMap.Valid, PriceIndex.Repr, PriceIndex.Valid, Sides, StoreOk, IdsOk, WellFormed;
      var bidOrders := SideOrders(Bid);
      var askOrders := SideOrders(Ask);
      out := bidOrders + askOrders;
    }

    method SideOrders(side: Side) returns (out: seq<RestingOrder>)
      requires Core(None)
      ensures out == q.Own(side)
    {
      hide OrderMap.Repr, PriceIndex.Repr, PriceIndex.Valid, Sides, StoreOk, DepthOk;
      hide ByLevel, ChainOrders, AtPrice, SumQty, Listing, OrdersOf;
      var all := 0xFFFF_FFFF_FFFF_FFFF;
      var levels := Index(side).Depth(all);
      DepthLists(State(), q, cfg, side, all, levels);
      out := [];
      ByLevelNone(q.Own(side), levels);
      for i := 0 to |levels|
        invariant out == ByLevel(q.Own(side), levels[..i])
      {
        var price := levels[i].0;
        ghost var key := LevelKey(side, price);
        var lvl := Index(side).LevelMut(price);
        LevelMarked(State(), q, cfg, key);
        var locs := store.IterLevel(lvl.value, key);
        var queue := ReadOrders(locs, side);
        ByLevelNext(q.Own(side), levels, i);
        out := out + queue;
      }
      assert levels[..|levels|] == levels;
    }

    // The order in each of the given slots.
    method ReadOrders(locs: seq<nat>, side: Side) returns (out: seq<RestingOrder>)
      requires forall i :: 0 <= i < |locs| ==> store.At(locs[i]).Some? && OrderKey(store.At(locs[i]).value).side == side
      ensures out == OrdersOf(store.chunks, locs)
    {
      hide OrderAt, OrdersOf;
      out := [];
      NoLocs(store.chunks);
      assert locs[..0] == [];
      for i := 0 to |locs|
        invariant out == OrdersOf(store.chunks, locs[..i])
      {
        var loc := locs[i];
        SlotFacts(store.chunks, loc, store.At(loc).value);
        var ch: Chunk := store.chunks[LocChunk(loc)];
        var j := LocSlot(loc);
        assert locs[..i + 1] == locs[..i] + [loc];
        OrdersOfSnoc(store.chunks, locs[..i], loc);
        out := out + [RestingOrder(ch.s[j].id, side, ch.tif[j], ch.price, ch.s[j].qty)];
      }
      assert locs[..|locs|] == locs;
    }

    // ---- queries -----------------------------------------------------------------------------

    method BestBid() returns (best: Option<Price>)
      requires Valid()
      ensures best == if q.bids == [] then None else Some(q.bids[0].price)
    {
      best := BestPrice(Bid);
    }

    method BestAsk() returns (best: Option<Price>)
      requires Valid()
      ensures best == if q.asks == [] then None else Some(q.asks[0].price)
    {
      best := BestPrice(Ask);
    }

    // Wrapped quantity resting at exactly `price`; 0 if there is no level.
    method LevelTotal(side: Side, price: Price) returns (total: Qty)
      requires Valid()
      ensures total == Wrap(SumQty(AtPrice(q.Own(side), price)))
    {
      hide PriceIndex.Repr, PriceIndex.Valid, Sides, StoreOk, WellFormed, IdsOk, AtPrice, SumQty, ChainOrders;
      LevelMarked(State(), q, cfg, LevelKey(side, price));
      NoTotal();
      var lvl := Index(side).LevelMut(price);
      total := if lvl.Some? then lvl.value.total else 0;
    }

    method Order(id: OrderId) returns (info: Option<OrderInfo>)
      requires Valid()
      ensures Informs(View(), id, info)
    {
      hide OrderMap.Repr, OrderMap.Valid, PriceIndex.Repr, PriceIndex.Valid, Sides;
      hide StoreOk, WellFormed, IdsOk, OrderAt, Find;
      FindMapped(State(), View(), ids.view, id);
      InfoInforms(View(), id);
      var loc := ids.Get(id);
      if loc.None? {
        return None;
      }
      SlotFacts(store.chunks, loc.value, Find(View(), id).value);
      var ch: Chunk := store.chunks[LocChunk(loc.value)];
      var s := ch.s[LocSlot(loc.value)];
      info := Some(OrderInfo(s.id, ch.side, ch.price, s.qty));
    }

    method OrderCount() returns (n: nat)
      requires Valid()
      ensures n == |View().bids| + |View().asks|
    {
      n := store.live;
    }

    // The number of different prices with orders.
    method LevelCount(side: Side) returns (n: nat)
      requires Valid()
      ensures n == |set o | o in q.Own(side) :: o.price|
    {
      hide PriceIndex.Repr, PriceIndex.Valid, Sides, StoreOk, WellFormed, IdsOk;
      MarkedPrices(State(), q, cfg, side);
      n := Index(side).Len();
    }

    // The first `n` levels, best first. At `n == 0` a ladder lists them all and
    // a tree none.
    method Depth(side: Side, n: nat) returns (out: seq<(Price, Qty)>)
      requires Valid()
      ensures n > 0 || cfg.index.TreeKind? ==> out == FirstN(Levels(q.Own(side)), n)
      ensures n == 0 && cfg.index.LadderKind? ==> out == Levels(q.Own(side))
    {
      hide PriceIndex.Repr, PriceIndex.Valid, Sides, StoreOk, WellFormed, IdsOk, DepthOk, Levels;
      out := Index(side).Depth(n);
      if n > 0 || cfg.index.TreeKind? {
        DepthIs(State(), q, cfg, side, n, out);
      } else {
        DepthIs(State(), q, cfg, side, |out| + 1, out);
      }
    }

    // Commit all order storage; the book is unchanged.
    method Prefault()
      requires Valid()
      modifies store
      ensures Valid() && View() == old(View()) && |store.chunks| == store.maxChunks
    {
      hide OrderMap.Repr, OrderMap.Valid, PriceIndex.Repr, PriceIndex.Valid, Sides;
      hide StoreOk, WellFormed, IdsOk, SameOrders;
      ghost var before := State();
      store.Prefault();
      GrownSides(before, State(), q, cfg);
      GrownIds(before.chunks, store.chunks, store.chain, ids.view);
    }
  }

  datatype OrderInfo = OrderInfo(orderId: OrderId, side: Side, price: Price, qty: Qty)

  function InfoOf(o: Option<RestingOrder>): Option<OrderInfo> {
    if o.Some? then Some(OrderInfo(o.value.orderId, o.value.side, o.value.price, o.value.qty)) else None
  }

  // `info` tells where the order with the id rests and how much of it is left.
  ghost predicate Informs(b: Book, id: OrderId, info: Option<OrderInfo>) {
    && (info.Some? <==> id in Ids(b.bids) + Ids(b.asks))
    && (forall i :: 0 <= i < |b.bids| && b.bids[i].orderId == id ==>
          info == Some(OrderInfo(id, Bid, b.bids[i].price, b.bids[i].qty)))
    && (forall i :: 0 <= i < |b.asks| && b.asks[i].orderId == id ==>
          info == Some(OrderInfo(id, Ask, b.asks[i].price, b.asks[i].qty)))
  }

  lemma InfoInforms(b: Book, id: OrderId)
    requires WellFormed(b)
    ensures Informs(b, id, InfoOf(Find(b, id)))
  {
    hide WellFormed, Find, Ids;
    SpecCommands.LiveIs(b, id);
    forall i | 0 <= i < |b.bids| && b.bids[i].orderId == id
      ensures Find(b, id) == Some(b.bids[i]) && b.bids[i].side == Bid
    {
      SpecCommands.FindAt(b, Bid, i);
    }
    forall i | 0 <= i < |b.asks| && b.asks[i].orderId == id
      ensures Find(b, id) == Some(b.asks[i]) && b.asks[i].side == Ask
    {
      SpecCommands.FindAt(b, Ask, i);
    }
  }

  lemma NoTotal()
    ensures Wrap(SumQty([])) == 0
  {
  }

  // Growing the chunk array by empty chunks moves no order.
  lemma GrownSides(l: Layout, l': Layout, q: Orders, cfg: BookConfig)
    requires Sides(l, q, cfg, None) && l'.bids == l.bids && l'.asks == l.asks && l'.chain == l.chain
    requires SameOrders(l.chunks, l'.chunks, l.chain)
    ensures Sides(l', q, cfg, None)
  {
    hide AtPrice, SideOk, ChainOrders, OrderAt;
    GrownSide(l, l', q, cfg, Bid);
    GrownSide(l, l', q, cfg, Ask);
  }

  lemma GrownSide(l: Layout, l': Layout, q: Orders, cfg: BookConfig, side: Side)
    requires Agrees(l, q, cfg, None, side) && l'.Index(side) == l.Index(side) && l'.chain == l.chain
    requires SameOrders(l.chunks, l'.chunks, l.chain)
    ensures Agrees(l', q, cfg, None, side)
  {
    hide AtPrice, SideOk, ChainOrders, OrderAt;
    var (idx, s) := (l.Index(side), q.Own(side));
    forall p: Price
      ensures QueueAt(l'.chunks, l'.chain, side, s, p) && IndexAt(l'.chunks, l'.chain, side, idx, p)
    {
      assert QueueAt(l.chunks, l.chain, side, s, p) && IndexAt(l.chunks, l.chain, side, idx, p);
    }
  }

  lemma GrownIds(chunks: seq<Chunk>, chunks': seq<Chunk>, chain: Chain, ids: map<OrderId, u32>)
    requires IdsOk(chunks, ids, None) && SameOrders(chunks, chunks', chain)
    ensures IdsOk(chunks', ids, None)
  {
    hide OrderAt, ChainOrders;
    forall loc: nat
      ensures LocAt(chunks', ids, None, loc)
    {
      assert LocAt(chunks, ids, None, loc);
    }
    forall id: OrderId
      ensures IdAt(chunks', ids, None, id)
    {
      assert IdAt(chunks, ids, None, id);
    }
  }

  // ---- restore ---------------------------------------------------------------------------

  // Rebuild a book: the orders are inserted directly, in the order given. The
  // source asks no more than that they fit and differ; the parts of what it builds
  // always agree, and it is well formed exactly when the orders are uncrossed and
  // all of them may rest.
  method Restore(cfg: BookConfig, mix: Probing.Hash, seqNo: nat, orders: seq<RestingOrder>) returns (b: OrderBook)
    requires cfg.maxOrders <= MAX_ORDERS && RangeOk(cfg) && Insertable(cfg, orders)
    ensures b.Inv(None, None) && b.View() == AsBook(Loaded(orders), seqNo, cfg)
    ensures b.Valid() <==> Loadable(cfg, orders)
    ensures fresh(b) && fresh(b.store) && fresh(b.idsRepr) && fresh(b.bidsRepr) && fresh(b.asksRepr)
  {
    hide OrderMap.Repr, OrderMap.Valid, PriceIndex.Repr, PriceIndex.Valid, Sides, StoreOk, IdsOk;
    hide Insert, Loaded, WellFormed, UniqueIds, Uncrossed, AllMayRest, Ids, TableOk, Holds;
    b := new OrderBook(cfg, mix);
    b.seqNo := seqNo;
    NothingLoaded(orders);
    for i := 0 to |orders|
      invariant b.Inv(None, None) && b.cfg == cfg && b.seqNo == seqNo && b.q == Loaded(orders[..i])
      invariant fresh(b) && fresh(b.store) && fresh(b.idsRepr) && fresh(b.bidsRepr) && fresh(b.asksRepr)
    {
      var o := orders[i];
      NextUnmapped(b.State(), b.q, cfg, b.ids.view, orders, i);
      LoadedNext(orders, i);
      b.Rest(o.orderId, o.side, o.price, o.qty, o.tif);
    }
    assert orders[..|orders|] == orders;
    WellFormedFrom(b.State(), b.q, cfg, seqNo, b.ids.view);
    LoadedMayRest(orders);
    LoadedIds(orders);
    assert b.Valid() <==> WellFormed(AsBook(Loaded(orders), seqNo, cfg));
  }

  lemma NothingLoaded(s: seq<RestingOrder>)
    ensures Loaded(s[..0]) == Orders([], [])
  {
  }

  // A book restored from another's resting orders, at its sequence number and
  // under any configuration that can hold them, stands for the same reference book
  // under that configuration.
  method Recover(b: OrderBook, cfg: BookConfig, mix: Probing.Hash) returns (c: OrderBook)
    requires b.Valid() && cfg.maxOrders <= MAX_ORDERS && RangeOk(cfg) && Fits(cfg, b.View())
    ensures c.Valid() && c.View() == b.View().(cfg := cfg)
    ensures fresh(c) && fresh(c.store) && fresh(c.idsRepr) && fresh(c.bidsRepr) && fresh(c.asksRepr)
  {
    hide OrderMap.Repr, PriceIndex.Repr, Loaded, Insertable, Loadable, Fits, WellFormed;
    hide Sides, StoreOk, IdsOk, OrderMap.Valid, PriceIndex.Valid;
    var orders := b.RestingOrders();
    BookLoadable(b.View(), cfg);
    c := Restore(cfg, mix, b.seqNo, orders);
  }

  // It emits for any later commands the events of the reference book under that
  // configuration. Under one with the same rules, and so under its own, these are
  // exactly the events the original emits.
  method ContinueRecovered(b: OrderBook, cfg: BookConfig, mix: Probing.Hash, cmds: seq<Command>, sink: VecSink)
    returns (sink': VecSink)
    requires b.Valid() && b.Apart(sink) && sink.events == []
    requires cfg.maxOrders <= MAX_ORDERS && RangeOk(cfg) && Fits(cfg, b.View())
    modifies b, b.store, b.idsRepr, b.bidsRepr, b.asksRepr, sink
    ensures b.Valid() && sink.events == Numbered(old(b.seqNo), Run(old(b.View()), cmds).events)
    ensures sink'.events == Numbered(old(b.seqNo), Run(old(b.View()).(cfg := cfg), cmds).events)
    ensures SameRules(b.cfg, cfg) ==> sink'.events == sink.events
  {
    hide Run, Numbered, OrderBook.Valid, OrderBook.Inv, Fits, SameRules;
    if SameRules(b.cfg, cfg) { RunSameRules(b.View(), cfg, cmds); }
    var c := Recover(b, cfg, mix);
    sink' := new VecSink();
    c.ApplyBatch(cmds, sink');
    assert b.Valid() && b.View() == old(b.View());
    b.ApplyBatch(cmds, sink);
  }

  // ---- runs ------------------------------------------------------------------------------

  // The log has grown by the events, numbered on from `last`.
  ghost predicate Grown(before: seq<(nat, Event)>, log: seq<(nat, Event)>, last: nat, events: seq<Event>) {
    && |log| == |before| + |events| && log[..|before|] == before
    && forall i :: 0 <= i < |events| ==> log[|before| + i] == (last + 1 + i, events[i])
  }

  lemma NumberedGrows(before: seq<(nat, Event)>, last: nat, events: seq<Event>)
    ensures Grown(before, before + Numbered(last, events), last, events)
  {
  }

  // The events of a new book are numbered from 1.
  method RunNew(cfg: BookConfig, mix: Probing.Hash, cmds: seq<Command>) returns (b: OrderBook, sink: VecSink)
    requires cfg.maxOrders <= MAX_ORDERS && RangeOk(cfg)
    ensures var events := Run(EmptyBook(cfg), cmds).events;
            && |sink.events| == |events| == b.seqNo
            && forall i :: 0 <= i < |events| ==> sink.events[i] == (i + 1, events[i])
    ensures b.Valid()
  {
    hide Run, Numbered, OrderBook.Valid;
    b := new OrderBook(cfg, mix);
    sink := new VecSink();
    b.ApplyBatch(cmds, sink);
  }

  // After `i` commands: the rest of the run starts from `now`, `done` is emitted.
  ghost predicate RunProgress(b: Book, cmds: seq<Command>, i: nat, now: Book, done: seq<Event>)
    requires i <= |cmds|
  {
    var rest := Run(now, cmds[i..]);
    Run(b, cmds) == rest.(events := done + rest.events)
  }

  lemma RunStart(b: Book, cmds: seq<Command>)
    ensures RunProgress(b, cmds, 0, b, [])
  {
    hide Run;
    assert cmds[0..] == cmds;
    assert [] + Run(b, cmds).events == Run(b, cmds).events;
  }

  lemma RunNext(b: Book, cmds: seq<Command>, i: nat, now: Book, done: seq<Event>)
    requires i < |cmds| && RunProgress(b, cmds, i, now, done)
    ensures var out := SpecBook.Apply(now, cmds[i]); RunProgress(b, cmds, i + 1, out.book, done + out.events)
  {
    hide SpecBook.Apply;
    var out := SpecBook.Apply(now, cmds[i]);
    var rest := Run(out.book, cmds[i + 1..]);
    assert cmds[i..][1..] == cmds[i + 1..];
    assert done + (out.events + rest.events) == done + out.events + rest.events;
  }

  lemma RunDone(b: Book, cmds: seq<Command>, now: Book, done: seq<Event>)
    requires RunProgress(b, cmds, |cmds|, now, done)
    ensures Run(b, cmds) == Outcome(now, done)
  {
    assert Run(now, cmds[|cmds|..]) == Outcome(now, []);
    assert done + [] == done;
  }

  lemma ApplyCounts(b: Book, c: Command)
    ensures var out := SpecBook.Apply(b, c); out.book.seqNo == b.seqNo + |out.events| && out.book.cfg == b.cfg
  {
    hide Find, SpecBook.Cross, Insert, Without, WithQty;
  }
}
