// The debug check of the whole book: src/book.rs:630-691. Each of its tests is an
// `assert` here too, so the verifier shows that none fails on any valid book.

module CheckInvariants {
  import opened Types
  import opened SpecBook
  import opened SpecInvariant
  import opened SpecQueues
  import opened Chunks
  import opened StoreState
  import opened Stores
  import opened LevelView
  import opened OrderMaps
  import opened Probing
  import opened Words
  import opened Bitmap
  import opened Ladders
  import opened PriceIndexes
  import opened Glue
  import opened BookState
  import opened BookOrder
  import opened OrderBooks

  // ---- one chunk ----------------------------------------------------------------------

  // The slots of one chunk: live only within [head, tail), each mapped to its own loc.
  method CheckSlots(b: OrderBook, c: u32, before: Qty, ghost total: nat) returns (live: nat, sum: Qty)
    requires b.Valid() && c < |b.store.chunks| && ChunkOk(b.store.chunks[c]) && before == Wrap(total)
    ensures live == |ChunkOrders(b.store.chunks[c])|
    ensures sum == Wrap(total + SumQty(ChunkOrders(b.store.chunks[c])))
  {
    hide OrderMap.Repr, OrderMap.Valid, PriceIndex.Repr, PriceIndex.Valid, Sides, StoreOk;
    hide IdsOk, WellFormed, Slots, SumQty, Wrap, OrderAt;
    var ch: Chunk := b.store.chunks[c];
    live, sum := 0, before;
    NoSlots(ch);
    for i := 0 to CHUNK_SLOTS
      invariant live == |Slots(ch, 0, i)| && sum == Wrap(total + SumQty(Slots(ch, 0, i)))
    {
      var s := ch.s[i];
      var inRange := ch.head <= i < ch.tail;
      SlotsNext(ch, i);
      SumQtyAppend(Slots(ch, 0, i), SlotOrder(ch, i));
      if s.qty != 0 {
        OneQty(OrderIn(ch, i));
        LocRoundTrip(c, i);
        LiveSlot(b.store.chunks, c, i);
        LocGet(b.store.chunks, b.ids.view, None, LocOf(c, i));
        WrapAdd(total + SumQty(Slots(ch, 0, i)), s.qty);
        var loc := b.ids.Get(s.id);
        assert inRange;
        live := live + 1;
        sum := Wrap(sum + s.qty);
        assert loc == Some(LocOf(c, i));
      }
    }
  }

  lemma NoSlots(ch: Chunk)
    ensures Slots(ch, 0, 0) == [] && SumQty([]) == 0
  {
  }

  lemma OneQty(o: RestingOrder)
    ensures SumQty([o]) == o.qty
  {
    assert [o][1..] == [];
  }

  lemma LiveSlot(chunks: seq<Chunk>, c: nat, i: nat)
    requires c < |chunks| && i < CHUNK_SLOTS && chunks[c].s[i].qty != 0
    ensures OrderAt(chunks, LocOf(c, i)) == Some(OrderIn(chunks[c], i))
  {
  }

  // ---- one level ----------------------------------------------------------------------

  // The chunks of one level: links, keys, liveness and the level's total.
  method CheckLevel(b: OrderBook, side: Side, price: Price, lvl: Level) returns (chunksSeen: nat, ordersSeen: nat)
    requires b.Valid() && b.store.Describes(lvl, LevelKey(side, price)) && LevelKey(side, price) in b.store.chain
    ensures chunksSeen == |b.store.chain[LevelKey(side, price)]|
    ensures ordersSeen == |b.store.Queue(LevelKey(side, price))| && chunksSeen <= ordersSeen
  {
    hide OrderMap.Repr, OrderMap.Valid, PriceIndex.Repr, PriceIndex.Valid, Sides, StoreOk, IdsOk, WellFormed;
    hide SumQty, Wrap, ChainOrders, ChunkOrders, Slots;
    var store := b.store;
    ghost var key := LevelKey(side, price);
    ghost var chunks, queue, j := store.chunks, store.chain[key], 0;
    var c, prev, sum := lvl.head, NIL, 0;
    chunksSeen, ordersSeen := 0, 0;
    LevelFacts(store.chunks, store.used, store.freeChunk, store.free, store.chain, key);
    NoOrders(chunks, queue);
    NoTotal();
    while c != NIL
      invariant j <= |queue| && c == (if j == |queue| then NIL else queue[j]) && (c == NIL <==> j == |queue|)
      invariant prev == (if j == 0 then NIL else queue[j - 1])
      invariant chunksSeen == j && ordersSeen == |ChainOrders(chunks, queue[..j])| && chunksSeen <= ordersSeen
      invariant sum == Wrap(SumQty(ChainOrders(chunks, queue[..j])))
      decreases |queue| - j
    {
      LinkFacts(store.chunks, store.used, store.freeChunk, store.free, store.chain, key, j);
      chunksSeen := chunksSeen + 1;
      var ch: Chunk := store.chunks[c];
      assert ch.prev == prev;
      assert ch.price == price;
      assert ch.side == side;
      assert ch.head <= ch.tail && ch.tail <= CHUNK_SLOTS;
      ghost var before := ChainOrders(chunks, queue[..j]);
      var live;
      live, sum := CheckSlots(b, c, sum, SumQty(before));
      SumQtyAppend(before, ChunkOrders(ch));
      assert live > 0;
      assert live == ch.live;
      ordersSeen := ordersSeen + live;
      ChainNext(chunks, queue, j);
      prev := c;
      c := ch.next;
      j := j + 1;
      if j < |queue| { LinkFacts(store.chunks, store.used, store.freeChunk, store.free, store.chain, key, j); }
    }
    assert queue[..j] == queue;
    assert prev == lvl.tail;
    assert sum == lvl.total;
  }

  lemma LinkFacts(chunks: seq<Chunk>, used: nat, top: u32, free: seq<nat>, chain: Chain, k: LevelKey, j: nat)
    requires StoreOk(chunks, used, top, free, chain, NIL) && k in chain && j < |chain[k]|
    ensures var c := chain[k][j];
            && c < |chunks| && c < used && used <= MAX_ORDERS && ChunkOk(chunks[c]) && KeyOf(chunks[c]) == k
               && chunks[c].live > 0
            && chunks[c].prev == (if j == 0 then NIL else chain[k][j - 1])
            && chunks[c].next == (if j + 1 == |chain[k]| then NIL else chain[k][j + 1])
  {
    MemberFacts(chunks, used, top, free, chain, NIL, k, j);
    assert Member(chunks, used, k, chain[k][j], NIL);
  }

  // ---- one side -------------------------------------------------------------------------

  // The chunks in use on one side.
  ghost function InUse(chunks: seq<Chunk>, used: nat, side: Side): set<nat> {
    set c | 0 <= c < used && c < |chunks| && chunks[c].live > 0 && chunks[c].side == side
  }

  ghost predicate LevelCounted(chain: Chain, key: LevelKey, seen: set<nat>) {
    key in chain && forall c :: c in chain[key] ==> c in seen
  }

  // `seen` holds exactly the chunks of the listed levels.
  ghost predicate Counted(chunks: seq<Chunk>, used: nat, chain: Chain, side: Side, levels: seq<(Price, Qty)>,
                          seen: set<nat>)
  {
    && (forall c :: c in seen ==> c in InUse(chunks, used, side) && Listed(levels, chunks[c].price))
    && (forall i :: 0 <= i < |levels| ==> LevelCounted(chain, LevelKey(side, levels[i].0), seen))
  }

  function Elements(s: seq<nat>): set<nat> {
    set c | c in s
  }

  lemma {:induction false} DistinctCount(s: seq<nat>)
    requires Distinct(s)
    ensures |Elements(s)| == |s|
  {
    if s != [] {
      assert s == [s[0]] + s[1..];
      DistinctTail(s[0], s[1..]);
      DistinctCount(s[1..]);
      assert Elements(s) == {s[0]} + Elements(s[1..]);
    }
  }

  lemma LevelChunks(chunks: seq<Chunk>, used: nat, top: u32, free: seq<nat>, chain: Chain, key: LevelKey)
    requires StoreOk(chunks, used, top, free, chain, NIL) && key in chain
    ensures Distinct(chain[key])
    ensures forall c :: c in chain[key] ==> c in InUse(chunks, used, key.side) && chunks[c].price == key.price
  {
    hide StoreOk, Distinct, InUse;
    LevelFacts(chunks, used, top, free, chain, key);
    MemberFacts(chunks, used, top, free, chain, NIL, key, 0);
    forall c | c in chain[key]
      ensures c in InUse(chunks, used, key.side) && chunks[c].price == key.price
    {
      var j :| 0 <= j < |chain[key]| && chain[key][j] == c;
      LinkFacts(chunks, used, top, free, chain, key, j);
      InUseAt(chunks, used, key.side, c);
    }
  }

  lemma InUseAt(chunks: seq<Chunk>, used: nat, side: Side, c: nat)
    ensures c in InUse(chunks, used, side) <==>
              c < used && c < |chunks| && chunks[c].live > 0 && chunks[c].side == side
  {
  }

  lemma CountLevel(chunks: seq<Chunk>, used: nat, top: u32, free: seq<nat>, chain: Chain, side: Side,
                   levels: seq<(Price, Qty)>, seen: set<nat>, entry: (Price, Qty))
    requires StoreOk(chunks, used, top, free, chain, NIL) && Counted(chunks, used, chain, side, levels, seen)
    requires LevelKey(side, entry.0) in chain && !Listed(levels, entry.0)
    ensures var part := Elements(chain[LevelKey(side, entry.0)]);
            && Counted(chunks, used, chain, side, levels + [entry], seen + part)
            && |seen + part| == |seen| + |chain[LevelKey(side, entry.0)]|
  {
    hide StoreOk, Distinct, InUse;
    var key := LevelKey(side, entry.0);
    var part := Elements(chain[key]);
    var levels' := levels + [entry];
    LevelChunks(chunks, used, top, free, chain, key);
    DistinctCount(chain[key]);
    InUseBounds(chunks, used, side);
    assert seen !! part;
    assert levels'[|levels|] == entry;
    forall p | Listed(levels, p)
      ensures Listed(levels', p)
    {
      var i :| 0 <= i < |levels| && levels[i].0 == p;
      assert levels'[i].0 == p;
    }
    forall i | 0 <= i < |levels'|
      ensures LevelCounted(chain, LevelKey(side, levels'[i].0), seen + part)
    {
      if i < |levels| { assert LevelCounted(chain, LevelKey(side, levels[i].0), seen); }
    }
  }

  lemma InUseBounds(chunks: seq<Chunk>, used: nat, side: Side)
    ensures forall c :: c in InUse(chunks, used, side) ==> c < |chunks|
  {
  }

  // In a ladder, a price is marked exactly when its level is non-empty.
  method CheckLadder(lad: LadderIndex) returns (seen: nat)
    requires lad.Valid() && forall p :: p in lad.view ==> !lad.view[p].IsEmpty()
    ensures seen == |lad.view|
  {
    hide BitmapOk, CursorOk, ViewOk, Marks;
    seen := 0;
    ghost var counted: set<nat> := {};
    LadderBounds(lad.levels[..], lad.base, lad.occ, lad.view);
    for i := 0 to lad.levels.Length
      invariant seen == |counted| && counted == set j | j in lad.occ && j < i
    {
      LadderSlot(lad.levels[..], lad.bits[..], lad.summary[..], lad.base, lad.occ, lad.view, i);
      var occupied := Bit(lad.bits[i / 64], i % 64);
      assert occupied == !lad.levels[i].IsEmpty();
      if !lad.levels[i].IsEmpty() {
        seen := seen + 1;
        assert (set j | j in lad.occ && j < i + 1) == counted + {i};
        counted := counted + {i};
      } else {
        assert (set j | j in lad.occ && j < i + 1) == counted;
      }
    }
    assert counted == lad.occ;
    var n := lad.Len();
    ViewCount(lad.levels[..], lad.base, lad.occ, lad.view);
    assert seen == n;
  }

  lemma LadderBounds(levels: seq<Level>, base: Price, occ: set<nat>, view: View)
    requires ViewOk(levels, base, occ, view)
    ensures forall i :: i in occ ==> i < |levels|
  {
  }

  lemma LadderSlot(levels: seq<Level>, bits: seq<bv64>, summary: seq<bv64>, base: Price, occ: set<nat>, view: View,
                   i: nat)
    requires BitmapOk(bits, summary, |levels|) && Marks(bits, occ) && ViewOk(levels, base, occ, view) && i < |levels|
    requires forall p :: p in view ==> !view[p].IsEmpty()
    ensures i / 64 < |bits|
    ensures Bit(bits[i / 64], i % 64) <==> i in occ
    ensures i in occ <==> !levels[i].IsEmpty()
  {
    hide ViewOk, Bit, Marks;
    ViewBounds(levels, base, occ, view, i);
    ViewAt(levels, base, occ, view, base + i);
    MarksAt(bits, occ, i);
  }

  lemma MarksAt(bits: seq<bv64>, occ: set<nat>, i: nat)
    requires Marks(bits, occ)
    ensures i in occ <==> Marked(bits, i)
  {
  }

  method CheckIndex(index: PriceIndex)
    requires index.Valid() && forall p :: p in index.View() ==> !index.View()[p].IsEmpty()
  {
    match index
    case Ladder(lad) =>
      assert index.View() == lad.view;
      var _ := CheckLadder(lad);
    case Tree(_) =>
  }

  // One entry of the unbounded depth list.
  method CheckEntry(b: OrderBook, side: Side, price: Price, total: Qty) returns (chunksSeen: nat, ordersSeen: nat)
    requires b.Valid() && price in b.Index(side).View() && total == b.Index(side).View()[price].total
    ensures LevelKey(side, price) in b.store.chain && chunksSeen == |b.store.chain[LevelKey(side, price)]|
    ensures ordersSeen == |AtPrice(b.q.Own(side), price)| && chunksSeen <= ordersSeen
  {
    hide OrderMap.Repr, OrderMap.Valid, PriceIndex.Repr, PriceIndex.Valid, Sides, StoreOk;
    hide IdsOk, WellFormed, AtPrice, SumQty, ChainOrders;
    var store := b.store;
    LevelMarked(b.State(), b.q, b.cfg, LevelKey(side, price));
    LevelFacts(store.chunks, store.used, store.freeChunk, store.free, store.chain, LevelKey(side, price));
    var lvl := b.Index(side).LevelMut(price);
    assert lvl.Some?;
    assert lvl.value.total == total;
    chunksSeen, ordersSeen := CheckLevel(b, side, price, lvl.value);
  }

  // Every level of one side, and a ladder's bitmap.
  method CheckSide(b: OrderBook, side: Side) returns (chunksSeen: nat, ordersSeen: nat)
    requires b.Valid()
    ensures ordersSeen == |b.q.Own(side)| && chunksSeen <= ordersSeen
    ensures chunksSeen == |InUse(b.store.chunks, b.store.used, side)|
  {
    hide OrderMap.Repr, OrderMap.Valid, PriceIndex.Repr, PriceIndex.Valid, Sides, StoreOk, IdsOk, WellFormed;
    hide AtPrice, SumQty, ChainOrders, DepthOk, ByLevel, Listing, Counted, Wrap, InUse;
    var store, index := b.store, b.Index(side);
    ghost var own, seen := b.q.Own(side), {};
    var all := 0xFFFF_FFFF_FFFF_FFFF;
    var levels := index.Depth(all);
    DepthLists(b.State(), b.q, b.cfg, side, all, levels);
    CheckIndex(index);
    chunksSeen, ordersSeen := 0, 0;
    ByLevelNone(own, levels);
    CountNone(store.chunks, store.used, store.chain, side, levels);
    for i := 0 to |levels|
      invariant ordersSeen == |ByLevel(own, levels[..i])| && chunksSeen == |seen| && chunksSeen <= ordersSeen
      invariant Counted(store.chunks, store.used, store.chain, side, levels[..i], seen)
    {
      DepthTotal(side, index.View(), all, levels, i);
      var cs, os := CheckEntry(b, side, levels[i].0, levels[i].1);
      ByLevelNext(own, levels, i);
      NotYetListed(side, own, levels, i);
      CountLevel(store.chunks, store.used, store.freeChunk, store.free, store.chain, side, levels[..i], seen,
                 levels[i]);
      assert levels[..i] + [levels[i]] == levels[..i + 1];
      seen := seen + Elements(store.chain[LevelKey(side, levels[i].0)]);
      chunksSeen, ordersSeen := chunksSeen + cs, ordersSeen + os;
    }
    assert levels[..|levels|] == levels;
    CountAll(b.State(), b.q, b.cfg, side, levels, seen);
  }

  lemma CountNone(chunks: seq<Chunk>, used: nat, chain: Chain, side: Side, levels: seq<(Price, Qty)>)
    ensures Counted(chunks, used, chain, side, levels[..0], {})
  {
  }

  lemma NotYetListed(side: Side, q: seq<RestingOrder>, levels: seq<(Price, Qty)>, i: nat)
    requires Listing(side, q, levels) && i < |levels|
    ensures !Listed(levels[..i], levels[i].0)
  {
    assert forall j :: 0 <= j < i ==> Better(side, levels[j].0, levels[i].0);
  }

  lemma DepthTotal(side: Side, view: View, n: nat, levels: seq<(Price, Qty)>, i: nat)
    requires DepthOk(side, view, n, levels) && i < |levels|
    ensures levels[i].0 in view && levels[i].1 == view[levels[i].0].total
  {
  }

  // Counting every level counts every chunk in use on the side.
  lemma CountAll(l: Layout, q: Orders, cfg: BookConfig, side: Side, levels: seq<(Price, Qty)>, seen: set<nat>)
    requires l.Ok() && Sides(l, q, cfg, None) && Listing(side, q.Own(side), levels)
    requires Counted(l.chunks, l.used, l.chain, side, levels, seen)
    ensures seen == InUse(l.chunks, l.used, side)
  {
    hide StoreOk, Sides, AtPrice;
    forall c | c in InUse(l.chunks, l.used, side)
      ensures c in seen
    {
      var key := KeyOf(l.chunks[c]);
      InChain(l.chunks, l.used, l.top, l.free, l.chain, c);
      LevelFacts(l.chunks, l.used, l.top, l.free, l.chain, key);
      LevelMarked(l, q, cfg, key);
      var o := AtPrice(q.Own(side), key.price)[0];
      AtPriceIn(q.Own(side), key.price, o);
      assert Listed(levels, o.price);
      var i :| 0 <= i < |levels| && levels[i].0 == o.price;
      assert LevelCounted(l.chain, LevelKey(side, levels[i].0), seen);
    }
  }

  lemma InChain(chunks: seq<Chunk>, used: nat, top: u32, free: seq<nat>, chain: Chain, c: nat)
    requires StoreOk(chunks, used, top, free, chain, NIL) && c < used && c < |chunks| && chunks[c].live > 0
    ensures KeyOf(chunks[c]) in chain && c in chain[KeyOf(chunks[c])]
  {
    assert Placed(chunks, free, chain, c);
  }

  // ---- the whole book ---------------------------------------------------------------------

  // Chunks handed out: those ever used less the free list.
  method ChunksInUse(store: Store) returns (n: nat)
    requires store.Valid()
    ensures n == store.used - |store.free|
  {
    hide StoreOk, SumLive;
    var free, c := 0, store.freeChunk;
    ghost var list := store.free;
    FreeStart(store.chunks, store.used, store.freeChunk, list, store.chain);
    while c != NIL
      invariant free <= |list| && c == (if free == |list| then NIL else list[free]) && (c == NIL <==> free == |list|)
      decreases |list| - free
    {
      FreeNext(store.chunks, store.used, store.freeChunk, list, store.chain, free);
      free := free + 1;
      c := store.chunks[c].next;
      if free < |list| { FreeNext(store.chunks, store.used, store.freeChunk, list, store.chain, free); }
    }
    UsedSplit(store.chunks, store.used, store.freeChunk, list, store.chain);
    n := store.used - free;
  }

  lemma FreeStart(chunks: seq<Chunk>, used: nat, top: u32, free: seq<nat>, chain: Chain)
    requires StoreOk(chunks, used, top, free, chain, NIL)
    ensures top == (if free == [] then NIL else free[0]) && (top == NIL <==> free == [])
  {
  }

  lemma FreeNext(chunks: seq<Chunk>, used: nat, top: u32, free: seq<nat>, chain: Chain, i: nat)
    requires StoreOk(chunks, used, top, free, chain, NIL) && i < |free|
    ensures free[i] < |chunks| && free[i] != NIL
    ensures chunks[free[i]].next == (if i + 1 == |free| then NIL else free[i + 1])
  {
    assert FreeLinked(chunks, free, i);
  }

  // The first `n` indices.
  function Below(n: nat): (s: set<nat>)
    ensures |s| == n && forall c: nat :: c in s <==> c < n
  {
    if n == 0 then {} else Below(n - 1) + {n - 1}
  }

  // Every chunk ever used is in use on one side or free, never both.
  lemma UsedPlaces(chunks: seq<Chunk>, used: nat, top: u32, free: seq<nat>, chain: Chain, c: nat)
    requires StoreOk(chunks, used, top, free, chain, NIL)
    ensures c in Below(used) <==> c in InUse(chunks, used, Bid) || c in InUse(chunks, used, Ask) || c in Elements(free)
    ensures c in Elements(free) ==> c !in InUse(chunks, used, Bid) && c !in InUse(chunks, used, Ask)
  {
    hide SumLive, ChunkOk, ChainOk;
    if c < used { assert Placed(chunks, free, chain, c); }
    if c in free {
      var i :| 0 <= i < |free| && free[i] == c;
    }
  }

  lemma UsedSplit(chunks: seq<Chunk>, used: nat, top: u32, free: seq<nat>, chain: Chain)
    requires StoreOk(chunks, used, top, free, chain, NIL)
    ensures |InUse(chunks, used, Bid)| + |InUse(chunks, used, Ask)| + |free| == used
  {
    hide StoreOk, InUse, Elements, Below, Distinct;
    var (bid, ask, rest) := (InUse(chunks, used, Bid), InUse(chunks, used, Ask), Elements(free));
    FreeDistinct(chunks, used, top, free, chain);
    DistinctCount(free);
    OneSide(chunks, used);
    forall c: nat
      ensures c in Below(used) <==> c in bid || c in ask || c in rest
      ensures c in rest ==> c !in bid && c !in ask
    {
      UsedPlaces(chunks, used, top, free, chain, c);
    }
    assert bid !! ask && bid + ask !! rest;
    assert bid + ask + rest == Below(used);
  }

  lemma FreeDistinct(chunks: seq<Chunk>, used: nat, top: u32, free: seq<nat>, chain: Chain)
    requires StoreOk(chunks, used, top, free, chain, NIL)
    ensures Distinct(free)
  {
  }

  lemma OneSide(chunks: seq<Chunk>, used: nat)
    ensures InUse(chunks, used, Bid) !! InUse(chunks, used, Ask)
  {
  }

  // No test fails on any valid book, and what the check counts is what there is.
  method CheckInvariants(b: OrderBook) returns (chunksSeen: nat, ordersSeen: nat)
    requires b.Valid()
    ensures ordersSeen == |b.q.bids| + |b.q.asks|
    ensures chunksSeen == b.store.used - |b.store.free|
  {
    hide OrderMap.Repr, PriceIndex.Repr, PriceIndex.Valid, Sides, StoreOk, IdsOk, WellFormed, InUse, TableOk, Holds;
    var store := b.store;
    assert store.live == b.ids.len;
    assert store.live <= b.cfg.maxOrders;
    var bidChunks, bidOrders := CheckSide(b, Bid);
    var askChunks, askOrders := CheckSide(b, Ask);
    chunksSeen, ordersSeen := bidChunks + askChunks, bidOrders + askOrders;
    var inUse := ChunksInUse(store);
    UsedSplit(store.chunks, store.used, store.freeChunk, store.free, store.chain);
    assert ordersSeen == store.live;
    assert chunksSeen == inUse;
    assert chunksSeen <= store.live;
  }
}
