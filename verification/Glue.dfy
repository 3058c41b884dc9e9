// What ties the store, the two price indexes and the order map to one
// reference book, as predicates over values: src/book.rs:630-691.

module Glue {
  import opened Types
  import opened SpecBook
  import opened SpecInvariant
  import opened SpecQueues
  import opened Chunks
  import opened StoreState
  import opened StoreSteps
  import opened LevelView

  type Chain = map<LevelKey, seq<nat>>

  // ---- queues -----------------------------------------------------------------------

  // A level's queue is the orders resting at its price.
  ghost predicate QueueAt(chunks: seq<Chunk>, chain: Chain, side: Side, q: seq<RestingOrder>, p: Price) {
    ChainOrders(chunks, ChainAt(chain, LevelKey(side, p))) == AtPrice(q, p)
  }

  ghost predicate Queues(chunks: seq<Chunk>, chain: Chain, side: Side, q: seq<RestingOrder>) {
    forall p: Price {:trigger QueueAt(chunks, chain, side, q, p)} :: QueueAt(chunks, chain, side, q, p)
  }

  // ---- indexes ----------------------------------------------------------------------

  // The level stores the ends of its chain and its wrapped total.
  ghost predicate LevelDesc(lvl: Level, chunks: seq<Chunk>, chain: Chain, k: LevelKey) {
    && lvl.head == FirstOf(ChainAt(chain, k)) && lvl.tail == LastOf(ChainAt(chain, k))
    && lvl.total == Wrap(SumQty(ChainOrders(chunks, ChainAt(chain, k))))
  }

  // A price is marked exactly when its level has orders, and then its level is right.
  ghost predicate IndexAt(chunks: seq<Chunk>, chain: Chain, side: Side, idx: View, p: Price) {
    && (p in idx <==> LevelKey(side, p) in chain)
    && (p in idx ==> LevelDesc(idx[p], chunks, chain, LevelKey(side, p)))
  }

  // Everywhere but at `x`, the one level an operation has in hand.
  ghost predicate Indexed(chunks: seq<Chunk>, chain: Chain, side: Side, idx: View, x: Option<Price>) {
    forall p: Price {:trigger IndexAt(chunks, chain, side, idx, p)} :: x != Some(p) ==>
      IndexAt(chunks, chain, side, idx, p)
  }

  // ---- ids --------------------------------------------------------------------------

  // The map sends every live id, and nothing else, to its live slot; `reserved`
  // is the one id that may be mapped while its order is off the book.
  ghost predicate LocAt(chunks: seq<Chunk>, ids: map<OrderId, u32>, reserved: Option<OrderId>, loc: nat) {
    var o := OrderAt(chunks, loc);
    o.Some? ==> o.value.orderId in ids && ids[o.value.orderId] == loc && reserved != Some(o.value.orderId)
  }

  ghost predicate IdAt(chunks: seq<Chunk>, ids: map<OrderId, u32>, reserved: Option<OrderId>, id: OrderId) {
    id in ids && reserved != Some(id) ==>
      OrderAt(chunks, ids[id]).Some? && OrderAt(chunks, ids[id]).value.orderId == id
  }

  ghost predicate IdsOk(chunks: seq<Chunk>, ids: map<OrderId, u32>, reserved: Option<OrderId>) {
    && (forall loc: nat {:trigger LocAt(chunks, ids, reserved, loc)} :: LocAt(chunks, ids, reserved, loc))
    && (forall id: OrderId {:trigger IdAt(chunks, ids, reserved, id)} :: IdAt(chunks, ids, reserved, id))
    && (reserved.Some? ==> reserved.value in ids)
  }

  // ---- the two sides -------------------------------------------------------------------

  ghost predicate SideGlue(chunks: seq<Chunk>, chain: Chain, side: Side, idx: View, q: seq<RestingOrder>,
                           cfg: BookConfig, x: Option<Price>)
  {
    && Queues(chunks, chain, side, q)
    && Indexed(chunks, chain, side, idx, x)
    && SideOk(side, cfg, q)
  }

  // ---- facts about one order --------------------------------------------------------------

  // A live slot's order is in its side's sequence.
  lemma LiveInSide(chunks: seq<Chunk>, used: nat, top: u32, free: seq<nat>, chain: Chain, side: Side,
                   q: seq<RestingOrder>, loc: nat)
    requires StoreOk(chunks, used, top, free, chain, NIL) && Queues(chunks, chain, side, q)
    requires OrderAt(chunks, loc).Some? && OrderAt(chunks, loc).value.side == side
    ensures OrderAt(chunks, loc).value in q
    ensures LevelKey(side, OrderAt(chunks, loc).value.price) in chain
  {
    hide StoreOk, ChainOrders, Slots, Queues, AtPrice;
    var o := OrderAt(chunks, loc).value;
    var key := LevelKey(side, o.price);
    LivePlaced(chunks, used, top, free, chain, loc);
    var j :| 0 <= j < |chain[key]| && chain[key][j] == LocChunk(loc);
    LiveInChain(chunks, chain[key], j, LocSlot(loc));
    QueueGet(chunks, chain, side, q, o.price);
    AtPriceIn(q, o.price, o);
  }

  lemma QueueGet(chunks: seq<Chunk>, chain: Chain, side: Side, q: seq<RestingOrder>, p: Price)
    requires Queues(chunks, chain, side, q)
    ensures ChainOrders(chunks, ChainAt(chain, LevelKey(side, p))) == AtPrice(q, p)
  {
    hide ChainOrders, AtPrice;
    assert QueueAt(chunks, chain, side, q, p);
  }

  lemma LiveInChain(chunks: seq<Chunk>, chain: seq<nat>, j: nat, i: nat)
    requires j < |chain| && chain[j] < |chunks| && i < CHUNK_SLOTS && chunks[chain[j]].s[i].qty != 0
    ensures OrderIn(chunks[chain[j]], i) in ChainOrders(chunks, chain)
  {
    hide ChainOrders, Ahead, Behind;
    SlotAround(chunks, chain, j, i);
    var (a, b) := (Ahead(chunks, chain, j, i), Behind(chunks, chain, j, i));
    assert (a + [OrderIn(chunks[chain[j]], i)] + b)[|a|] == OrderIn(chunks[chain[j]], i);
  }

  // Every order of a chain has a loc.
  lemma {:induction false} ChainHasLoc(chunks: seq<Chunk>, chain: seq<nat>, o: RestingOrder)
    requires o in ChainOrders(chunks, chain)
    ensures exists loc: nat :: OrderAt(chunks, loc) == Some(o)
  {
    hide Slots;
    if o in OrdersAt(chunks, chain[0]) {
      var i := SlotOf(chunks[chain[0]], 0, o);
      LocRoundTrip(chain[0], i);
      assert OrderAt(chunks, LocOf(chain[0], i)) == Some(o);
    } else {
      ChainHasLoc(chunks, chain[1..], o);
    }
  }

  lemma {:induction false} SlotOf(ch: Chunk, lo: nat, o: RestingOrder) returns (i: nat)
    requires o in Slots(ch, lo, CHUNK_SLOTS)
    ensures i < CHUNK_SLOTS && ch.s[i].qty != 0 && OrderIn(ch, i) == o
    decreases CHUNK_SLOTS - lo
  {
    if o in SlotOrder(ch, lo) { i := lo; } else { i := SlotOf(ch, lo + 1, o); }
  }

  // An order of a side's sequence is in a live slot.
  lemma SideHasLoc(chunks: seq<Chunk>, chain: Chain, side: Side, q: seq<RestingOrder>, o: RestingOrder)
    requires Queues(chunks, chain, side, q) && o in q
    ensures exists loc: nat :: OrderAt(chunks, loc) == Some(o)
  {
    hide Queues, ChainOrders, AtPrice, OrderAt;
    QueueGet(chunks, chain, side, q, o.price);
    AtPriceIn(q, o.price, o);
    ChainHasLoc(chunks, ChainAt(chain, LevelKey(side, o.price)), o);
  }

  lemma IdGet(chunks: seq<Chunk>, ids: map<OrderId, u32>, reserved: Option<OrderId>, id: OrderId)
    requires IdsOk(chunks, ids, reserved) && id in ids && reserved != Some(id)
    ensures OrderAt(chunks, ids[id]).Some? && OrderAt(chunks, ids[id]).value.orderId == id
  {
    hide OrderAt;
    assert IdAt(chunks, ids, reserved, id);
  }

  lemma LocGet(chunks: seq<Chunk>, ids: map<OrderId, u32>, reserved: Option<OrderId>, loc: nat)
    requires IdsOk(chunks, ids, reserved) && OrderAt(chunks, loc).Some?
    ensures var id := OrderAt(chunks, loc).value.orderId;
            id in ids && ids[id] == loc && reserved != Some(id)
  {
    hide OrderAt;
    assert LocAt(chunks, ids, reserved, loc);
  }

  // The id of an order on the book is mapped to that order.
  lemma OrderMapped(chunks: seq<Chunk>, chain: Chain, side: Side, q: seq<RestingOrder>, ids: map<OrderId, u32>,
                    reserved: Option<OrderId>, o: RestingOrder)
    requires Queues(chunks, chain, side, q) && IdsOk(chunks, ids, reserved) && o in q
    ensures o.orderId in ids && OrderAt(chunks, ids[o.orderId]) == Some(o) && reserved != Some(o.orderId)
  {
    hide Queues, IdsOk, OrderAt;
    SideHasLoc(chunks, chain, side, q, o);
    var loc: nat :| OrderAt(chunks, loc) == Some(o);
    LocGet(chunks, ids, reserved, loc);
  }

  lemma IdInSide(chunks: seq<Chunk>, chain: Chain, side: Side, q: seq<RestingOrder>, ids: map<OrderId, u32>,
                 reserved: Option<OrderId>, id: OrderId)
    requires Queues(chunks, chain, side, q) && IdsOk(chunks, ids, reserved) && id in Ids(q)
    ensures id in ids && reserved != Some(id)
  {
    hide Queues, IdsOk, OrderAt;
    var i :| 0 <= i < |q| && q[i].orderId == id;
    OrderMapped(chunks, chain, side, q, ids, reserved, q[i]);
  }

  // ---- the side an operation does not touch -------------------------------------------------

  lemma OtherSide(chunks: seq<Chunk>, chain: Chain, chunks': seq<Chunk>, chain': Chain, key: LevelKey,
                  side: Side, idx: View, q: seq<RestingOrder>, cfg: BookConfig, x: Option<Price>)
    requires SideGlue(chunks, chain, side, idx, q, cfg, x)
    requires Elsewhere(chunks, chain, chunks', chain', key) && side != key.side
    requires forall k: LevelKey :: k.side == side ==> (k in chain' <==> k in chain)
    ensures SideGlue(chunks', chain', side, idx, q, cfg, x)
  {
    hide ChainOrders, AtPrice, SideOk;
    forall p: Price
      ensures QueueAt(chunks', chain', side, q, p)
    {
      assert QueueAt(chunks, chain, side, q, p);
    }
    forall p: Price | x != Some(p)
      ensures IndexAt(chunks', chain', side, idx, p)
    {
      assert IndexAt(chunks, chain, side, idx, p);
    }
  }

  // A chain has orders exactly when its level does; so levels elsewhere keep theirs.
  lemma KeysElsewhere(chunks: seq<Chunk>, used: nat, top: u32, free: seq<nat>, chain: Chain,
                      chunks': seq<Chunk>, used': nat, top': u32, free': seq<nat>, chain': Chain, key: LevelKey)
    requires StoreOk(chunks, used, top, free, chain, NIL) && StoreOk(chunks', used', top', free', chain', NIL)
    requires Elsewhere(chunks, chain, chunks', chain', key)
    ensures forall k: LevelKey :: k != key ==> (k in chain' <==> k in chain)
  {
    hide StoreOk, ChainOrders;
    forall k: LevelKey | k != key
      ensures k in chain' <==> k in chain
    {
      LevelFacts(chunks, used, top, free, chain, k);
      LevelFacts(chunks', used', top', free', chain', k);
    }
  }

  // ---- the side an operation changes at one price ----------------------------------------------

  // All prices but `p` carry over; what remains is to show the new queue at `p`.
  lemma SameSide(chunks: seq<Chunk>, chain: Chain, chunks': seq<Chunk>, chain': Chain, side: Side, p: Price,
                 idx: View, q: seq<RestingOrder>, q': seq<RestingOrder>, x: Option<Price>)
    requires Queues(chunks, chain, side, q) && Indexed(chunks, chain, side, idx, x) && (x.None? || x == Some(p))
    requires Elsewhere(chunks, chain, chunks', chain', LevelKey(side, p))
    requires forall k: LevelKey :: k != LevelKey(side, p) ==> (k in chain' <==> k in chain)
    requires ChainOrders(chunks', ChainAt(chain', LevelKey(side, p))) == AtPrice(q', p)
    requires forall r: Price :: r != p ==> AtPrice(q', r) == AtPrice(q, r)
    ensures Queues(chunks', chain', side, q') && Indexed(chunks', chain', side, idx, Some(p))
  {
    hide ChainOrders, AtPrice;
    forall r: Price
      ensures QueueAt(chunks', chain', side, q', r)
    {
      assert QueueAt(chunks, chain, side, q, r);
    }
    forall r: Price | r != p
      ensures IndexAt(chunks', chain', side, idx, r)
    {
      assert IndexAt(chunks, chain, side, idx, r);
    }
  }

  // Writing back the level in hand.
  lemma WriteBack(chunks: seq<Chunk>, chain: Chain, side: Side, p: Price, idx: View, lvl: Level)
    requires Indexed(chunks, chain, side, idx, Some(p))
    requires LevelKey(side, p) in chain && LevelDesc(lvl, chunks, chain, LevelKey(side, p))
    ensures Indexed(chunks, chain, side, idx[p := lvl], None)
  {
    hide LevelDesc;
    var idx' := idx[p := lvl];
    forall r: Price
      ensures IndexAt(chunks, chain, side, idx', r)
    {
      if r != p { assert IndexAt(chunks, chain, side, idx, r); }
    }
  }

  lemma DropLevel(chunks: seq<Chunk>, chain: Chain, side: Side, p: Price, idx: View)
    requires Indexed(chunks, chain, side, idx, Some(p)) && LevelKey(side, p) !in chain
    ensures Indexed(chunks, chain, side, idx - {p}, None)
  {
    hide LevelDesc;
    var idx' := idx - {p};
    forall r: Price
      ensures IndexAt(chunks, chain, side, idx', r)
    {
      if r != p { assert IndexAt(chunks, chain, side, idx, r); }
    }
  }

  lemma TakeInHand(chunks: seq<Chunk>, chain: Chain, side: Side, p: Price, idx: View, idx': View)
    requires Indexed(chunks, chain, side, idx, None)
    requires forall r: Price :: r != p ==> (r in idx' <==> r in idx) && (r in idx ==> idx'[r] == idx[r])
    ensures Indexed(chunks, chain, side, idx', Some(p))
  {
    hide LevelDesc;
    forall r: Price | r != p
      ensures IndexAt(chunks, chain, side, idx', r)
    {
      assert IndexAt(chunks, chain, side, idx, r);
    }
  }

  // ---- queue changes -----------------------------------------------------------------------------

  // A removed order leaves exactly its own level one shorter.
  lemma RemovedQueue(q: seq<RestingOrder>, o: RestingOrder, after: seq<RestingOrder>)
    requires UniqueIds(q) && o in q && RemovedOne(AtPrice(q, o.price), o, after)
    ensures after == AtPrice(Without(q, o.orderId), o.price)
    ensures forall r: Price :: r != o.price ==> AtPrice(Without(q, o.orderId), r) == AtPrice(q, r)
  {
    hide AtPrice, Without, UniqueIds, RemovedOne;
    AtPriceUnique(q, o.price);
    RemovedIsWithout(AtPrice(q, o.price), o, after);
    AtPriceWithout(q, o.price, o.orderId);
    forall r: Price | r != o.price
      ensures AtPrice(Without(q, o.orderId), r) == AtPrice(q, r)
    {
      NotAtPrice(q, o, r);
      AtPriceWithout(q, r, o.orderId);
      WithoutAbsent(AtPrice(q, r), o.orderId);
    }
  }

  lemma RemovedIsWithout(before: seq<RestingOrder>, o: RestingOrder, after: seq<RestingOrder>)
    requires UniqueIds(before) && RemovedOne(before, o, after)
    ensures after == Without(before, o.orderId)
  {
    hide Without, UniqueIds;
    var a: seq<RestingOrder>, b: seq<RestingOrder> :| before == a + [o] + b && after == a + b;
    WithoutOne(a, o, b);
  }

  lemma NotAtPrice(q: seq<RestingOrder>, o: RestingOrder, r: Price)
    requires UniqueIds(q) && o in q && r != o.price
    ensures o.orderId !in Ids(AtPrice(q, r))
  {
    hide AtPrice, UniqueIds;
    var s := AtPrice(q, r);
    forall i | 0 <= i < |s|
      ensures s[i].orderId != o.orderId
    {
      AtPriceIn(q, r, s[i]);
      if s[i].orderId == o.orderId { SameIdSame(q, o, s[i]); }
    }
  }

  lemma RequantifiedQueue(q: seq<RestingOrder>, o: RestingOrder, qty: Qty, after: seq<RestingOrder>)
    requires UniqueIds(q) && o in q && Requantified(AtPrice(q, o.price), o, qty, after)
    ensures after == AtPrice(WithQty(q, o.orderId, qty), o.price)
    ensures forall r: Price :: r != o.price ==> AtPrice(WithQty(q, o.orderId, qty), r) == AtPrice(q, r)
  {
    hide AtPrice, WithQty, UniqueIds, Requantified;
    AtPriceUnique(q, o.price);
    RequantifiedIsWithQty(AtPrice(q, o.price), o, qty, after);
    AtPriceWithQty(q, o.price, o.orderId, qty);
    forall r: Price | r != o.price
      ensures AtPrice(WithQty(q, o.orderId, qty), r) == AtPrice(q, r)
    {
      NotAtPrice(q, o, r);
      AtPriceWithQty(q, r, o.orderId, qty);
      WithQtyNone(AtPrice(q, r), o.orderId, qty);
    }
  }

  lemma RequantifiedIsWithQty(before: seq<RestingOrder>, o: RestingOrder, qty: Qty, after: seq<RestingOrder>)
    requires UniqueIds(before) && Requantified(before, o, qty, after)
    ensures after == WithQty(before, o.orderId, qty)
  {
    hide WithQty, UniqueIds;
    var a: seq<RestingOrder>, b: seq<RestingOrder> :| before == a + [o] + b && after == a + [o.(qty := qty)] + b;
    WithQtyOne(a, o, b, qty);
  }

  lemma InsertedQueue(side: Side, q: seq<RestingOrder>, o: RestingOrder)
    requires Sorted(side, q) && o.side == side
    ensures AtPrice(Insert(q, o), o.price) == AtPrice(q, o.price) + [o]
    ensures forall r: Price :: r != o.price ==> AtPrice(Insert(q, o), r) == AtPrice(q, r)
  {
    hide AtPrice, Insert, Sorted;
    AtPriceInsert(side, q, o, o.price);
    forall r: Price | r != o.price
      ensures AtPrice(Insert(q, o), r) == AtPrice(q, r)
    {
      AtPriceInsert(side, q, o, r);
    }
  }

  // Replacing the first order by `head` (nothing, or itself with less left).
  lemma HeadQueue(q: seq<RestingOrder>, head: seq<RestingOrder>)
    requires q != [] && (head == [] || (|head| == 1 && head[0].price == q[0].price))
    ensures AtPrice(head + q[1..], q[0].price) == head + AtPrice(q, q[0].price)[1..]
    ensures forall r: Price :: r != q[0].price ==> AtPrice(head + q[1..], r) == AtPrice(q, r)
  {
    assert head == [] ==> head + q[1..] == q[1..];
    assert head != [] ==> (head + q[1..])[1..] == q[1..];
  }

  // ---- id changes ------------------------------------------------------------------------------

  lemma IdsInsert(chunks: seq<Chunk>, chunks': seq<Chunk>, ids: map<OrderId, u32>, loc: u32, o: RestingOrder,
                  reserved: Option<OrderId>)
    requires IdsOk(chunks, ids, reserved) && (reserved == Some(o.orderId) || (reserved.None? && o.orderId !in ids))
    requires SlotsExcept(chunks, chunks', loc) && OrderAt(chunks, loc) == None && OrderAt(chunks', loc) == Some(o)
    ensures IdsOk(chunks', ids[o.orderId := loc], None)
  {
    hide OrderAt;
    var ids' := ids[o.orderId := loc];
    forall l: nat
      ensures LocAt(chunks', ids', None, l)
    {
      assert LocAt(chunks, ids, reserved, l);
    }
    forall id: OrderId
      ensures IdAt(chunks', ids', None, id)
    {
      assert IdAt(chunks, ids, reserved, id);
    }
  }

  // The order leaves the book; its id stays mapped.
  lemma IdsReserve(chunks: seq<Chunk>, chunks': seq<Chunk>, ids: map<OrderId, u32>, loc: u32, o: RestingOrder)
    requires IdsOk(chunks, ids, None) && SlotsExcept(chunks, chunks', loc)
    requires OrderAt(chunks, loc) == Some(o) && OrderAt(chunks', loc) == None
    ensures IdsOk(chunks', ids, Some(o.orderId))
  {
    hide OrderAt;
    assert LocAt(chunks, ids, None, loc);
    forall l: nat
      ensures LocAt(chunks', ids, Some(o.orderId), l)
    {
      assert LocAt(chunks, ids, None, l);
    }
    forall id: OrderId
      ensures IdAt(chunks', ids, Some(o.orderId), id)
    {
      assert IdAt(chunks, ids, None, id);
    }
  }

  lemma IdsRelease(chunks: seq<Chunk>, ids: map<OrderId, u32>, id: OrderId)
    requires IdsOk(chunks, ids, Some(id))
    ensures IdsOk(chunks, ids - {id}, None)
  {
    hide OrderAt;
    var ids' := ids - {id};
    forall l: nat
      ensures LocAt(chunks, ids', None, l)
    {
      assert LocAt(chunks, ids, Some(id), l);
    }
    forall i: OrderId
      ensures IdAt(chunks, ids', None, i)
    {
      assert IdAt(chunks, ids, Some(id), i);
    }
  }

  // A filled maker leaves both the store and the map, whatever is reserved.
  lemma IdsFilled(chunks: seq<Chunk>, chunks': seq<Chunk>, ids: map<OrderId, u32>, loc: nat, o: RestingOrder,
                  reserved: Option<OrderId>)
    requires IdsOk(chunks, ids, reserved) && SlotsExcept(chunks, chunks', loc)
    requires OrderAt(chunks, loc) == Some(o) && OrderAt(chunks', loc) == None
    ensures o.orderId in ids && reserved != Some(o.orderId)
    ensures IdsOk(chunks', ids - {o.orderId}, reserved)
  {
    hide OrderAt;
    var ids' := ids - {o.orderId};
    assert LocAt(chunks, ids, reserved, loc);
    forall l: nat
      ensures LocAt(chunks', ids', reserved, l)
    {
      assert LocAt(chunks, ids, reserved, l);
    }
    forall id: OrderId
      ensures IdAt(chunks', ids', reserved, id)
    {
      assert IdAt(chunks, ids, reserved, id);
    }
  }

  // A slot keeps its id and changes its quantity.
  lemma IdsRequoted(chunks: seq<Chunk>, chunks': seq<Chunk>, ids: map<OrderId, u32>, loc: nat, o: RestingOrder,
                    qty: Qty, reserved: Option<OrderId>)
    requires IdsOk(chunks, ids, reserved) && SlotsExcept(chunks, chunks', loc)
    requires OrderAt(chunks, loc) == Some(o) && OrderAt(chunks', loc) == Some(o.(qty := qty))
    ensures IdsOk(chunks', ids, reserved)
  {
    hide OrderAt;
    forall l: nat
      ensures LocAt(chunks', ids, reserved, l)
    {
      assert LocAt(chunks, ids, reserved, l);
    }
    forall id: OrderId
      ensures IdAt(chunks', ids, reserved, id)
    {
      assert IdAt(chunks, ids, reserved, id);
    }
  }

  // ---- queries -----------------------------------------------------------------------------------

  // The best marked price is the first order's price.
  lemma BestGlue(chunks: seq<Chunk>, used: nat, top: u32, free: seq<nat>, chain: Chain, side: Side, idx: View,
                 q: seq<RestingOrder>, cfg: BookConfig, best: Option<Price>)
    requires StoreOk(chunks, used, top, free, chain, NIL) && SideGlue(chunks, chain, side, idx, q, cfg, None)
    requires BestIs(side, idx, best)
    ensures best == (if q == [] then None else Some(q[0].price))
  {
    hide StoreOk, ChainOrders, AtPrice, Queues, Indexed, LevelDesc;
    if q != [] {
      MarkedIff(chunks, used, top, free, chain, side, idx, q, q[0].price);
      AtPriceIn(q, q[0].price, q[0]);
    }
    if best.Some? {
      MarkedIff(chunks, used, top, free, chain, side, idx, q, best.value);
      assert AtPrice(q, best.value) != [];
      var o := AtPrice(q, best.value)[0];
      AtPriceIn(q, best.value, o);
      var i :| 0 <= i < |q| && q[i] == o;
      assert i > 0 ==> !Better(side, q[i].price, q[0].price);
    }
  }

  // A price is marked exactly when an order rests there.
  lemma MarkedIff(chunks: seq<Chunk>, used: nat, top: u32, free: seq<nat>, chain: Chain, side: Side, idx: View,
                  q: seq<RestingOrder>, p: Price)
    requires StoreOk(chunks, used, top, free, chain, NIL) && Queues(chunks, chain, side, q)
             && Indexed(chunks, chain, side, idx, None)
    ensures p in idx <==> AtPrice(q, p) != []
    ensures p in idx ==> idx[p].total == Wrap(SumQty(AtPrice(q, p)))
    ensures p in idx ==> !idx[p].IsEmpty() && LevelDesc(idx[p], chunks, chain, LevelKey(side, p))
    ensures p in idx <==> LevelKey(side, p) in chain
  {
    hide StoreOk, ChainOrders, AtPrice, Queues;
    assert IndexAt(chunks, chain, side, idx, p);
    QueueGet(chunks, chain, side, q, p);
    LevelFacts(chunks, used, top, free, chain, LevelKey(side, p));
  }

  // ---- the fill-or-kill sum --------------------------------------------------------------------------

  lemma {:induction false} InRangeEmpty(q: seq<RestingOrder>, lo: int, hi: int)
    requires lo > hi
    ensures InRange(q, lo, hi) == 0
  {
    if q != [] { InRangeEmpty(q[1..], lo, hi); }
  }

  lemma {:induction false} InRangeSplit(q: seq<RestingOrder>, lo: int, hi: Price)
    requires lo <= hi
    ensures InRange(q, lo, hi) == InRange(q, lo, hi as int - 1) + SumQty(AtPrice(q, hi))
  {
    if q != [] {
      InRangeSplit(q[1..], lo, hi);
      if q[0].price == hi { assert AtPrice(q, hi)[1..] == AtPrice(q[1..], hi); }
      else { assert AtPrice(q, hi) == AtPrice(q[1..], hi); }
    }
  }

  // Summing wrapped level totals and wrapping gives the wrapped total quantity.
  lemma {:induction false} SumViewIsInRange(idx: View, q: seq<RestingOrder>, lo: int, hi: int)
    requires IsPrice(lo) && hi <= 0x7FFF_FFFF_FFFF_FFFF
    requires forall p: Price ::
               (p in idx ==> idx[p].total == Wrap(SumQty(AtPrice(q, p)))) && (p !in idx ==> AtPrice(q, p) == [])
    ensures Wrap(SumView(idx, lo, hi)) == Wrap(InRange(q, lo, hi))
    decreases hi - lo
  {
    hide AtPrice, Wrap;
    if lo > hi {
      InRangeEmpty(q, lo, hi);
    } else {
      SumViewIsInRange(idx, q, lo, hi - 1);
      InRangeSplit(q, lo, hi);
      var s := SumQty(AtPrice(q, hi));
      WrapBoth(SumView(idx, lo, hi - 1), InRange(q, lo, hi - 1), if hi in idx then idx[hi].total else 0, s);
    }
  }

  lemma WrapBoth(a: int, b: int, c: int, d: int)
    requires Wrap(a) == Wrap(b) && (c == Wrap(d) || (c == 0 && d == 0))
    ensures Wrap(a + c) == Wrap(b + d)
  {
    WrapAdd(a, c);
    WrapAdd(b, c);
    WrapAdd(d, b);
  }
}
