// What each store operation does to queues and locs, over values.

module StoreSteps {
  import opened Types
  import opened SpecBook
  import opened Chunks
  import opened StoreState
  import opened StoreUnlink
  import opened StoreLink
  import opened StoreWrite

  // One order is gone from the queue; the others keep their order.
  ghost predicate RemovedOne(before: seq<RestingOrder>, o: RestingOrder, after: seq<RestingOrder>) {
    exists a: seq<RestingOrder>, b: seq<RestingOrder> :: before == a + [o] + b && after == a + b
  }

  // One order has a new quantity in its old place.
  ghost predicate Requantified(before: seq<RestingOrder>, o: RestingOrder, qty: Qty, after: seq<RestingOrder>) {
    exists a: seq<RestingOrder>, b: seq<RestingOrder> :: before == a + [o] + b && after == a + [o.(qty := qty)] + b
  }

  ghost predicate SlotsExcept(before: seq<Chunk>, chunks: seq<Chunk>, loc: nat) {
    forall l: nat :: l != loc ==> OrderAt(chunks, l) == OrderAt(before, l)
  }

  // Every level other than `key` is untouched.
  ghost predicate Elsewhere(before: seq<Chunk>, chain: map<LevelKey, seq<nat>>, chunks: seq<Chunk>,
                            chain': map<LevelKey, seq<nat>>, key: LevelKey)
  {
    forall k :: k != key ==>
      ChainAt(chain', k) == ChainAt(chain, k)
        && ChainOrders(chunks, ChainAt(chain', k)) == ChainOrders(before, ChainAt(chain, k))
  }

  lemma RemovedSum(before: seq<RestingOrder>, o: RestingOrder, after: seq<RestingOrder>)
    requires RemovedOne(before, o, after)
    ensures SumQty(before) == SumQty(after) + o.qty
  {
    var a: seq<RestingOrder>, b: seq<RestingOrder> :| before == a + [o] + b && after == a + b;
    SumQtyAround(a, [o], b);
    SumQtyAppend(a, b);
  }

  lemma RequantifiedSum(before: seq<RestingOrder>, o: RestingOrder, qty: Qty, after: seq<RestingOrder>)
    requires Requantified(before, o, qty, after)
    ensures SumQty(after) == SumQty(before) - o.qty + qty
  {
    var a: seq<RestingOrder>, b: seq<RestingOrder> :| before == a + [o] + b && after == a + [o.(qty := qty)] + b;
    SumQtyAround(a, [o], b);
    SumQtyAround(a, [o.(qty := qty)], b);
  }

  // ---- a slot dies ------------------------------------------------------------

  function Killed(ch: Chunk, i: nat): Chunk
    requires i < CHUNK_SLOTS && ch.live > 0
  {
    ch.(s := ch.s[i := ch.s[i].(qty := 0)], live := ch.live - 1)
  }

  lemma KillOk(chunks: seq<Chunk>, used: nat, top: u32, free: seq<nat>, chain: map<LevelKey, seq<nat>>, k: LevelKey,
               j: nat, i: nat)
    requires StoreOk(chunks, used, top, free, chain, NIL) && |chunks| <= MAX_ORDERS
    requires k in chain && j < |chain[k]| && chain[k][j] < |chunks| && i < CHUNK_SLOTS
    requires OrderAt(chunks, LocOf(chain[k][j], i)).Some? && chunks[chain[k][j]].live > 0
    ensures var c := chain[k][j];
            var chunks' := chunks[c := Killed(chunks[c], i)];
            && StoreOk(chunks', used, top, free, chain, Exempt(c, Killed(chunks[c], i)))
            && RemovedOne(ChainOrders(chunks, chain[k]), OrderIn(chunks[c], i), ChainOrders(chunks', chain[k]))
            && Elsewhere(chunks, chain, chunks', chain, k)
            && SlotsExcept(chunks, chunks', LocOf(c, i)) && OrderAt(chunks', LocOf(c, i)) == None
            && SumLive(chunks') == SumLive(chunks) - 1
  {
    hide StoreOk, ChainOk, ChainOrders, Ahead, Behind, SumLive, Distinct, Exempt, Slots, ChunkOrders;
    var c := chain[k][j];
    var ch := chunks[c];
    MemberFacts(chunks, used, top, free, chain, NIL, k, j);
    LocRoundTrip(c, i);
    KilledChunk(ch, i);
    WriteOk(chunks, used, top, free, chain, NIL, k, j, i, Killed(ch, i));
    var (a, b) := (Ahead(chunks, chain[k], j, i), Behind(chunks, chain[k], j, i));
    assert a + [] + b == a + b;
  }

  lemma KilledChunk(ch: Chunk, i: nat)
    requires ChunkOk(ch) && i < CHUNK_SLOTS && ch.s[i].qty != 0 && ch.live > 0
    ensures ChunkOk(Killed(ch, i)) && OneSlot(ch, Killed(ch, i), i)
  {
    OneSlotOk(ch, Killed(ch, i), i);
  }

  // ---- a slot changes its quantity -----------------------------------------------

  function Requoted(ch: Chunk, i: nat, qty: Qty): Chunk
    requires i < CHUNK_SLOTS
  {
    ch.(s := ch.s[i := ch.s[i].(qty := qty)])
  }

  lemma RequoteOk(chunks: seq<Chunk>, used: nat, top: u32, free: seq<nat>, chain: map<LevelKey, seq<nat>>,
                  k: LevelKey, j: nat, i: nat, qty: Qty)
    requires StoreOk(chunks, used, top, free, chain, NIL) && |chunks| <= MAX_ORDERS && qty > 0
    requires k in chain && j < |chain[k]| && chain[k][j] < |chunks| && i < CHUNK_SLOTS
    requires OrderAt(chunks, LocOf(chain[k][j], i)).Some? && chunks[chain[k][j]].live > 0
    ensures var c := chain[k][j];
            var o := OrderIn(chunks[c], i);
            var chunks' := chunks[c := Requoted(chunks[c], i, qty)];
            && StoreOk(chunks', used, top, free, chain, NIL)
            && Requantified(ChainOrders(chunks, chain[k]), o, qty, ChainOrders(chunks', chain[k]))
            && Elsewhere(chunks, chain, chunks', chain, k)
            && SlotsExcept(chunks, chunks', LocOf(c, i)) && OrderAt(chunks', LocOf(c, i)) == Some(o.(qty := qty))
            && SumLive(chunks') == SumLive(chunks)
  {
    hide StoreOk, ChainOk, ChainOrders, Ahead, Behind, SumLive, Distinct, Slots, ChunkOrders;
    var c := chain[k][j];
    var ch := chunks[c];
    MemberFacts(chunks, used, top, free, chain, NIL, k, j);
    LocRoundTrip(c, i);
    OneSlotOk(ch, Requoted(ch, i, qty), i);
    WriteOk(chunks, used, top, free, chain, NIL, k, j, i, Requoted(ch, i, qty));
  }

  // ---- the first live order is matched --------------------------------------------

  // Slot `h` of a head chunk after a match of `q`, as the matching loop leaves it.
  function Matched(ch: Chunk, h: nat, q: Qty): Chunk
    requires h < CHUNK_SLOTS && q <= ch.s[h].qty && ch.live > 0
  {
    ch.(head := h, s := ch.s[h := ch.s[h].(qty := ch.s[h].qty - q)],
        live := if q == ch.s[h].qty then ch.live - 1 else ch.live)
  }

  ghost predicate FirstLive(ch: Chunk, h: nat) {
    h < CHUNK_SLOTS && ch.s[h].qty != 0 && forall i :: 0 <= i < h ==> ch.s[i].qty == 0
  }

  lemma MatchedChunk(ch: Chunk, h: nat, q: Qty)
    requires ChunkOk(ch) && FirstLive(ch, h) && 0 < q <= ch.s[h].qty && ch.live > 0
    ensures ChunkOk(Matched(ch, h, q)) && OneSlot(ch, Matched(ch, h, q), h)
  {
    OneSlotOk(ch, Matched(ch, h, q), h);
  }

  // Nothing lives ahead of the first live slot of the head chunk.
  lemma FirstOfQueue(chunks: seq<Chunk>, chain: seq<nat>, h: nat)
    requires chain != [] && chain[0] < |chunks| && FirstLive(chunks[chain[0]], h)
    ensures Ahead(chunks, chain, 0, h) == []
  {
    SlotsDead(chunks[chain[0]], 0, h);
    assert chain[..0] == [];
  }

  // The first order, `o`, gave up `q`.
  ghost predicate HeadTaken(before: seq<RestingOrder>, o: RestingOrder, q: Qty, after: seq<RestingOrder>) {
    && before != [] && before[0] == o && q <= o.qty
    && after == (if q == o.qty then [] else [o.(qty := o.qty - q)]) + before[1..]
  }

  lemma MatchOk(chunks: seq<Chunk>, used: nat, top: u32, free: seq<nat>, chain: map<LevelKey, seq<nat>>, k: LevelKey,
                h: nat, q: Qty)
    requires StoreOk(chunks, used, top, free, chain, NIL) && |chunks| <= MAX_ORDERS
    requires k in chain && chain[k] != [] && chain[k][0] < |chunks| && FirstLive(chunks[chain[k][0]], h)
    requires chunks[chain[k][0]].live > 0 && 0 < q <= chunks[chain[k][0]].s[h].qty
    ensures var c := chain[k][0];
            var o := OrderIn(chunks[c], h);
            var ch := Matched(chunks[c], h, q);
            var chunks' := chunks[c := ch];
            && StoreOk(chunks', used, top, free, chain, Exempt(c, ch))
            && HeadTaken(ChainOrders(chunks, chain[k]), o, q, ChainOrders(chunks', chain[k]))
            && Elsewhere(chunks, chain, chunks', chain, k)
            && SlotsExcept(chunks, chunks', LocOf(c, h))
            && OrderAt(chunks, LocOf(c, h)) == Some(o)
            && OrderAt(chunks', LocOf(c, h)) == (if q == o.qty then None else Some(o.(qty := o.qty - q)))
            && SumLive(chunks') == SumLive(chunks) - (if q == o.qty then 1 else 0)
  {
    hide StoreOk, ChainOk, ChainOrders, Ahead, Behind, SumLive, Distinct, Exempt, Slots, ChunkOrders;
    var c := chain[k][0];
    MemberFacts(chunks, used, top, free, chain, NIL, k, 0);
    LocRoundTrip(c, h);
    MatchedChunk(chunks[c], h, q);
    WriteOk(chunks, used, top, free, chain, NIL, k, 0, h, Matched(chunks[c], h, q));
    FirstOfQueue(chunks, chain[k], h);
    var b := Behind(chunks, chain[k], 0, h);
    assert [] + [OrderIn(chunks[c], h)] + b == [OrderIn(chunks[c], h)] + b;
    assert ([OrderIn(chunks[c], h)] + b)[1..] == b;
    assert [] + SlotOrder(Matched(chunks[c], h, q), h) == SlotOrder(Matched(chunks[c], h, q), h);
  }

  // ---- an order arrives at the back ---------------------------------------------

  function Extended(ch: Chunk, id: OrderId, qty: Qty, tif: Tif): Chunk
    requires ch.tail < CHUNK_SLOTS
  {
    ch.(tail := ch.tail + 1, live := ch.live + 1, s := ch.s[ch.tail := Slot(id, qty)], tif := ch.tif[ch.tail := tif])
  }

  lemma ExtendedChunk(ch: Chunk, id: OrderId, qty: Qty, tif: Tif)
    requires ChunkOk(ch) && ch.tail < CHUNK_SLOTS && qty > 0
    ensures ChunkOk(Extended(ch, id, qty, tif)) && OneSlot(ch, Extended(ch, id, qty, tif), ch.tail)
    ensures ch.s[ch.tail].qty == 0 && DeadAfter(ch)
  {
    OneSlotOk(ch, Extended(ch, id, qty, tif), ch.tail);
  }

  // Nothing lives behind the next free slot of the tail chunk.
  lemma LastOfQueue(chunks: seq<Chunk>, chain: seq<nat>)
    requires chain != [] && LastOf(chain) < |chunks| && chunks[LastOf(chain)].tail < CHUNK_SLOTS
    requires DeadAfter(chunks[LastOf(chain)])
    ensures Behind(chunks, chain, |chain| - 1, chunks[LastOf(chain)].tail) == []
  {
    hide Slots, ChainOrders;
    SlotsDead(chunks[LastOf(chain)], chunks[LastOf(chain)].tail + 1, CHUNK_SLOTS);
    NoChunks(chunks);
    assert chain[|chain|..] == [];
  }

  lemma NoChunks(chunks: seq<Chunk>)
    ensures ChainOrders(chunks, []) == []
  {
  }

  ghost predicate DeadAfter(ch: Chunk) {
    forall i :: ch.tail <= i < CHUNK_SLOTS ==> ch.s[i].qty == 0
  }

  lemma ExtendOk(chunks: seq<Chunk>, used: nat, top: u32, free: seq<nat>, chain: map<LevelKey, seq<nat>>, k: LevelKey,
                 id: OrderId, qty: Qty, tif: Tif)
    requires k in chain && chain[k] != [] && LastOf(chain[k]) < |chunks| <= MAX_ORDERS && qty > 0
    requires var c := LastOf(chain[k]);
             StoreOk(chunks, used, top, free, chain, c) && chunks[c].tail < CHUNK_SLOTS
    ensures var c := LastOf(chain[k]);
            var o := RestingOrder(id, k.side, tif, k.price, qty);
            var chunks' := chunks[c := Extended(chunks[c], id, qty, tif)];
            && c < used
            && StoreOk(chunks', used, top, free, chain, NIL)
            && ChainOrders(chunks', chain[k]) == ChainOrders(chunks, chain[k]) + [o]
            && Elsewhere(chunks, chain, chunks', chain, k)
            && SlotsExcept(chunks, chunks', LocOf(c, chunks[c].tail))
            && OrderAt(chunks, LocOf(c, chunks[c].tail)) == None
            && OrderAt(chunks', LocOf(c, chunks[c].tail)) == Some(o)
            && SumLive(chunks') == SumLive(chunks) + 1
  {
    hide StoreOk, ChainOk, ChainOrders, Ahead, Behind, SumLive, Distinct, Slots, ChunkOrders, DeadAfter;
    var j := |chain[k]| - 1;
    var c := chain[k][j];
    var ch := Extended(chunks[c], id, qty, tif);
    MemberFacts(chunks, used, top, free, chain, c, k, j);
    ExtendedChunk(chunks[c], id, qty, tif);
    WriteOk(chunks, used, top, free, chain, c, k, j, chunks[c].tail, ch);
    LastOfQueue(chunks, chain[k]);
    var a := Ahead(chunks, chain[k], j, chunks[c].tail);
    assert a + [] + [] == a;
    assert a + [OrderIn(ch, chunks[c].tail)] + [] == a + [OrderIn(ch, chunks[c].tail)];
  }

  // ---- a fresh chunk is linked -----------------------------------------------------

  lemma LinkSlots(chunks: seq<Chunk>, chain: seq<nat>, c: nat)
    requires c < 0x1_0000_0000
    ensures var chunks' := Appended(chunks, chain, c);
            && SameSlots(chunks, chunks') && SumLive(chunks') == SumLive(chunks)
            && forall q: nat :: OrdersAt(chunks', q) == OrdersAt(chunks, q)
  {
    hide ChunkOrders, Slots, SumLive;
    var chunks' := Appended(chunks, chain, c);
    SumLiveSame(chunks, chunks');
    forall q: nat
      ensures OrdersAt(chunks', q) == OrdersAt(chunks, q)
    {
      if q < |chunks| { AppendedOrders(chunks, chain, c, q); }
    }
  }

  lemma LinkOrders(chunks: seq<Chunk>, chain: map<LevelKey, seq<nat>>, k: LevelKey, c: nat)
    requires c < |chunks| <= MAX_ORDERS && ChunkOrders(chunks[c]) == []
    ensures var chunks' := Appended(chunks, ChainAt(chain, k), c);
            && SameSlots(chunks, chunks')
            && SameQueues(chunks, chain, chunks', chain[k := ChainAt(chain, k) + [c]])
            && SumLive(chunks') == SumLive(chunks)
  {
    hide ChunkOrders, Slots, SumLive, ChainOrders, Appended, SameSlots;
    var chunks' := Appended(chunks, ChainAt(chain, k), c);
    var chain' := chain[k := ChainAt(chain, k) + [c]];
    LinkSlots(chunks, ChainAt(chain, k), c);
    forall k'
      ensures ChainOrders(chunks', ChainAt(chain', k')) == ChainOrders(chunks, ChainAt(chain, k'))
    {
      LinkQueue(chunks, chunks', chain, k, c, k');
    }
  }

  lemma LinkQueue(chunks: seq<Chunk>, chunks': seq<Chunk>, chain: map<LevelKey, seq<nat>>, k: LevelKey, c: nat,
                  k': LevelKey)
    requires OrdersAt(chunks, c) == []
    requires forall q: nat :: OrdersAt(chunks', q) == OrdersAt(chunks, q)
    ensures ChainOrders(chunks', ChainAt(chain[k := ChainAt(chain, k) + [c]], k'))
            == ChainOrders(chunks, ChainAt(chain, k'))
  {
    hide ChainOrders, OrdersAt;
    ChainSame(chunks, chunks', ChainAt(chain[k := ChainAt(chain, k) + [c]], k'));
    if k' == k {
      ChainAppend(chunks, ChainAt(chain, k), [c]);
      ChainSingle(chunks, c);
    }
  }

  lemma ChainSingle(chunks: seq<Chunk>, c: nat)
    ensures ChainOrders(chunks, [c]) == OrdersAt(chunks, c)
  {
    hide OrdersAt;
    assert [c][1..] == [];
  }
}
