// The order store: src/store.rs:117-261. A level's `&mut Level` argument is
// modelled by passing the level in and handing the updated level back.

module Stores {
  import opened Types
  import opened SpecBook
  import opened Chunks
  import opened StoreState
  import opened StoreUnlink
  import opened StoreLink
  import opened StoreSteps

  // A level's wrapped total after one more order.
  lemma TotalGrows(queue: seq<RestingOrder>, o: RestingOrder)
    ensures Wrap(Wrap(SumQty(queue)) + o.qty) == Wrap(SumQty(queue + [o]))
  {
    SumQtyAppend(queue, [o]);
    assert [o][1..] == [];
    WrapAdd(SumQty(queue), o.qty);
  }

  // And after its orders have lost some quantity.
  lemma TotalFalls(before: seq<RestingOrder>, queue: seq<RestingOrder>, less: int)
    requires SumQty(queue) == SumQty(before) - less
    ensures Wrap(Wrap(SumQty(before)) - less) == Wrap(SumQty(queue))
  {
    WrapAdd(SumQty(before), less);
  }

  class Store {
    var chunks: seq<Chunk>
    var used: nat
    var freeChunk: u32
    var live: nat
    const maxChunks: nat

    // The chunks of every level that has orders, and of the free list.
    ghost var chain: map<LevelKey, seq<nat>>
    ghost var free: seq<nat>

    // `x` is the chunk an operation is working on; NIL between operations.
    ghost predicate Inv(x: int)
      reads this
    {
      && StoreOk(chunks, used, freeChunk, free, chain, x)
      && used <= |chunks| <= maxChunks <= MAX_ORDERS
      && SumLive(chunks) == live <= maxChunks
    }

    ghost predicate Valid()
      reads this
    {
      Inv(NIL)
    }

    // The orders of a level, front first.
    ghost function Queue(k: LevelKey): seq<RestingOrder>
      reads this
    {
      ChainOrders(chunks, ChainAt(chain, k))
    }

    ghost function At(loc: nat): Option<RestingOrder>
      reads this
    {
      OrderAt(chunks, loc)
    }

    // `lvl` holds the ends of the level's chain and the wrapped sum of its quantities.
    ghost predicate Describes(lvl: Level, k: LevelKey)
      reads this
    {
      LinksTo(lvl, k) && lvl.total == Wrap(SumQty(Queue(k)))
    }

    ghost predicate LinksTo(lvl: Level, k: LevelKey)
      reads this
    {
      lvl.head == FirstOf(ChainAt(chain, k)) && lvl.tail == LastOf(ChainAt(chain, k))
    }

    constructor (maxOrders: nat)
      requires maxOrders <= MAX_ORDERS
      ensures Valid() && live == 0 && maxChunks == maxOrders
      ensures chain == map[] && chunks == []
    {
      chunks, used, freeChunk, live, maxChunks := [], 0, NIL, 0, maxOrders;
      chain, free := map[], [];
    }

    // Commit every chunk now; the abstract state is untouched.
    method Prefault()
      requires Valid()
      modifies this
      ensures Valid() && |chunks| == maxChunks
      ensures chain == old(chain) && live == old(live) && used == old(used)
      ensures SameOrders(old(chunks), chunks, chain)
    {
      if |chunks| < maxChunks {
        var extra := seq(maxChunks - |chunks|, _ => EMPTY_CHUNK);
        PadOk(chunks, extra, used, freeChunk, free, chain);
        PadOrders(chunks, extra, chain);
        chunks := chunks + extra;
      }
    }

    // `chunks.push(EMPTY)`.
    method PushEmptyChunk()
      requires Valid() && used == |chunks| < maxChunks
      modifies this`chunks
      ensures Valid() && |chunks| == old(|chunks|) + 1
      ensures SameOrders(old(chunks), chunks, chain)
    {
      PadOk(chunks, [EMPTY_CHUNK], used, freeChunk, free, chain);
      PadOrders(chunks, [EMPTY_CHUNK], chain);
      chunks := chunks + [EMPTY_CHUNK];
    }

    // Never fails while `live < maxChunks`: chunks in use never exceed live orders.
    method AllocChunk(side: Side, price: Price, prev: u32) returns (c: u32)
      requires Valid() && live < maxChunks
      modifies this
      ensures Inv(c) && chain == old(chain) && live == old(live)
      ensures SameOrders(old(chunks), chunks, chain)
      ensures Allocated(chunks, used, chain, c, side, price, prev) && |chunks| >= old(|chunks|)
    {
      hide StoreOk, Allocated, SameOrders, SumLive, Fresh, ChunkOrders;
      hide Slots, SlotOrder, ChainOrders, OrdersAt, OrderAt;
      StoreSizes(chunks, used, freeChunk, free, chain);
      if freeChunk != NIL {
        c := freeChunk;
        PopOk(chunks, used, freeChunk, free, chain, side, price, prev);
        freeChunk := chunks[c].next;
        free := free[1..];
      } else {
        AllUsedLive(chunks, used, freeChunk, free, chain);
        c := used;
        if c == |chunks| {
          PushEmptyChunk();
        }
        BumpOk(chunks, used, freeChunk, free, chain, side, price, prev);
        used := used + 1;
      }
      ghost var before := chunks;
      chunks := chunks[c := Fresh(chunks[c], side, price, prev)];
      SameOrdersTrans(old(chunks), before, chunks, chain);
    }

    // Unlink chunk `c`, whose last live slot just died, and free it.
    method DropChunk(lvl: Level, c: u32) returns (lvl': Level)
      requires Inv(c) && c < used && chunks[c].live == 0
      requires KeyOf(chunks[c]) in chain && c in chain[KeyOf(chunks[c])]
      requires LinksTo(lvl, KeyOf(chunks[c]))
      modifies this
      ensures Valid() && live == old(live)
      ensures LinksTo(lvl', old(KeyOf(chunks[c]))) && lvl'.total == lvl.total && |chunks| == old(|chunks|)
      ensures SameSlots(old(chunks), chunks) && SameQueues(old(chunks), old(chain), chunks, chain)
      ensures forall k :: k != old(KeyOf(chunks[c])) ==> ChainAt(chain, k) == old(ChainAt(chain, k))
    {
      hide StoreOk, SameSlots, SameQueues, SumLive, Bypassed, WithoutChunk, FirstOf, LastOf;
      hide ChunkOrders, Slots, SlotOrder, ChainOrders, OrdersAt, OrderAt;
      ghost var key := KeyOf(chunks[c]);
      ghost var i :| 0 <= i < |chain[key]| && chain[key][i] == c;
      DropOk(chunks, used, freeChunk, free, chain, key, i);
      BypassedSteps(chunks, c, freeChunk);
      ghost var bypassed := Bypassed(chunks, c, freeChunk);
      lvl' := lvl;
      var prev, next := chunks[c].prev, chunks[c].next;
      if prev != NIL {
        chunks := chunks[prev := chunks[prev].(next := next)];
      } else {
        lvl' := lvl'.(head := next);
      }
      if next != NIL {
        chunks := chunks[next := chunks[next].(prev := prev)];
      } else {
        lvl' := lvl'.(tail := prev);
      }
      chunks := chunks[c := chunks[c].(next := freeChunk)];
      freeChunk := c;
      assert chunks == bypassed;
      chain := WithoutChunk(chain, key, i);
      free := [c as nat] + free;
    }

    // The first half of `push`: a chunk with a free slot at the back of the level.
    method MakeRoom(lvl: Level, side: Side, price: Price) returns (lvl': Level, c: u32)
      requires Valid() && live < maxChunks && LinksTo(lvl, LevelKey(side, price))
      modifies this
      ensures Inv(c) && live == old(live) && LinksTo(lvl', LevelKey(side, price)) && lvl'.total == lvl.total
      ensures LevelKey(side, price) in chain && LastOf(chain[LevelKey(side, price)]) == c
      ensures c < used && chunks[c].tail < CHUNK_SLOTS && KeyOf(chunks[c]) == LevelKey(side, price)
      ensures SameSlots(old(chunks), chunks) && SameQueues(old(chunks), old(chain), chunks, chain)
      ensures forall k :: k != LevelKey(side, price) ==> ChainAt(chain, k) == old(ChainAt(chain, k))
      ensures |chunks| >= old(|chunks|)
    {
      hide StoreOk, SumLive, ChainOrders, OrderAt, OrdersAt, ChunkOrders, Slots, SlotOrder, SameSlots, SameQueues;
      ghost var key := LevelKey(side, price);
      ghost var chunks0, chain0 := chunks, chain;
      TailFacts(chunks, used, freeChunk, free, chain, key);
      SameRefl(chunks, chain);
      c, lvl' := lvl.tail, lvl;
      if c == NIL || chunks[c].tail == CHUNK_SLOTS {
        var n := AllocChunk(side, price, c);
        ghost var last := ChainAt(chain, key);
        AppendedOk(chunks, used, freeChunk, free, chain, key, n);
        LinkOrders(chunks, chain, key, n);
        SameTrans(chunks0, chain0, chunks, chain, Appended(chunks, last, n), chain[key := last + [n as nat]]);
        if c != NIL {
          chunks := chunks[c := chunks[c].(next := n)];
        } else {
          lvl' := lvl'.(head := n);
        }
        lvl' := lvl'.(tail := n);
        chain := chain[key := last + [n as nat]];
        c := n;
      }
    }

    // The order joins the queue of `lvl` as its last; `loc` is where it now lives.
    method Push(lvl: Level, side: Side, price: Price, id: OrderId, qty: Qty, tif: Tif) returns (lvl': Level, loc: u32)
      requires Valid() && live < maxChunks && qty > 0 && Describes(lvl, LevelKey(side, price))
      modifies this
      ensures Valid() && live == old(live) + 1 && Describes(lvl', LevelKey(side, price))
      ensures Queue(LevelKey(side, price)) == old(Queue(LevelKey(side, price)))
              + [RestingOrder(id, side, tif, price, qty)]
      ensures Elsewhere(old(chunks), old(chain), chunks, chain, LevelKey(side, price))
      ensures At(loc) == Some(RestingOrder(id, side, tif, price, qty)) && old(At(loc)) == None
      ensures SlotsExcept(old(chunks), chunks, loc)
      ensures LevelKey(side, price) in chain && !lvl'.IsEmpty()
      ensures |chunks| >= old(|chunks|)
    {
      hide StoreOk, SumLive, SumQty, Wrap, ChainOrders, OrderAt, OrdersAt, ChunkOrders;
      hide Slots, SlotOrder, SameSlots, SameQueues, Elsewhere, SlotsExcept;
      ghost var key := LevelKey(side, price);
      ghost var before, after := Queue(key), [RestingOrder(id, side, tif, price, qty)];
      var c: u32;
      lvl', c := MakeRoom(lvl, side, price);
      ghost var chunks1 := chunks;
      ExtendOk(chunks, used, freeChunk, free, chain, key, id, qty, tif);
      var ch: Chunk := chunks[c];
      var slot := ch.tail;
      LocRoundTrip(c, slot);
      ch := ch.(tail := ch.tail + 1, live := ch.live + 1, s := ch.s[slot := Slot(id, qty)], tif := ch.tif[slot := tif]);
      chunks := chunks[c := ch];
      lvl' := lvl'.(total := Wrap(lvl'.total + qty));
      live := live + 1;
      loc := LocOf(c, slot);
      ExceptAfterSame(old(chunks), old(chain), chunks1, chain, chunks, chain, key, loc);
      TotalGrows(before, after[0]);
      LevelFacts(chunks, used, freeChunk, free, chain, key);
    }

    // Take the live order at `loc` out of its queue, wherever it stands there.
    method Unlink(lvl: Level, loc: u32) returns (lvl': Level)
      requires Valid() && At(loc).Some? && Describes(lvl, OrderKey(At(loc).value))
      modifies this
      ensures Valid() && live == old(live) - 1 && |chunks| == old(|chunks|)
      ensures Describes(lvl', OrderKey(old(At(loc)).value))
      ensures RemovedOne(old(Queue(OrderKey(At(loc).value))), old(At(loc)).value, Queue(OrderKey(old(At(loc)).value)))
      ensures Elsewhere(old(chunks), old(chain), chunks, chain, OrderKey(old(At(loc)).value))
      ensures At(loc) == None && SlotsExcept(old(chunks), chunks, loc)
    {
      hide StoreOk, SumLive, SumQty, Wrap, ChainOrders, OrderAt, OrdersAt, ChunkOrders, Slots;
      hide SlotOrder, SameSlots, SameQueues, Elsewhere, SlotsExcept, RemovedOne;
      SlotFacts(chunks, loc, At(loc).value);
      var c, si := LocChunk(loc), LocSlot(loc);
      ghost var o, key := At(loc).value, OrderKey(At(loc).value);
      LivePlaced(chunks, used, freeChunk, free, chain, loc);
      ghost var j :| 0 <= j < |chain[key]| && chain[key][j] == c;
      ghost var chunks0, chain0, before := chunks, chain, Queue(key);
      LocInjective(loc, LocOf(c, si));
      KillOk(chunks, used, freeChunk, free, chain, key, j, si);
      var ch: Chunk := chunks[c];
      lvl' := lvl.(total := Wrap(lvl.total - ch.s[si].qty));
      ch := ch.(s := ch.s[si := ch.s[si].(qty := 0)], live := ch.live - 1);
      chunks := chunks[c := ch];
      live := live - 1;
      RemovedSum(before, o, Queue(key));
      TotalFalls(before, Queue(key), o.qty);
      ghost var chunks1 := chunks;
      if ch.live == 0 {
        lvl' := DropChunk(lvl', c);
        SameAfterExcept(chunks0, chain0, chunks1, chain0, chunks, chain, key, loc);
      }
    }

    // A quantity decrease in place: the order keeps its slot.
    method SetQty(lvl: Level, loc: u32, qty: Qty) returns (lvl': Level)
      requires Valid() && At(loc).Some? && 0 < qty <= At(loc).value.qty
      requires Describes(lvl, OrderKey(At(loc).value))
      modifies this
      ensures Valid() && live == old(live) && |chunks| == old(|chunks|)
      ensures Describes(lvl', OrderKey(old(At(loc)).value))
      ensures Requantified(old(Queue(OrderKey(At(loc).value))), old(At(loc)).value, qty,
                           Queue(OrderKey(old(At(loc)).value)))
      ensures Elsewhere(old(chunks), old(chain), chunks, chain, OrderKey(old(At(loc)).value))
      ensures At(loc) == Some(old(At(loc)).value.(qty := qty)) && SlotsExcept(old(chunks), chunks, loc)
      ensures chain == old(chain)
    {
      hide StoreOk, SumLive, SumQty, Wrap, ChainOrders, OrderAt, OrdersAt, ChunkOrders, Slots;
      hide SlotOrder, Elsewhere, SlotsExcept, Requantified;
      SlotFacts(chunks, loc, At(loc).value);
      var c, si := LocChunk(loc), LocSlot(loc);
      ghost var o, key := At(loc).value, OrderKey(At(loc).value);
      LivePlaced(chunks, used, freeChunk, free, chain, loc);
      ghost var j :| 0 <= j < |chain[key]| && chain[key][j] == c;
      ghost var before := Queue(key);
      LocInjective(loc, LocOf(c, si));
      RequoteOk(chunks, used, freeChunk, free, chain, key, j, si, qty);
      var ch: Chunk := chunks[c];
      lvl' := lvl.(total := Wrap(lvl.total - (ch.s[si].qty - qty)));
      ch := ch.(s := ch.s[si := ch.s[si].(qty := qty)]);
      chunks := chunks[c := ch];
      RequantifiedSum(before, o, qty, Queue(key));
      TotalFalls(before, Queue(key), o.qty - qty);
    }

    // The body of the matching loop on a non-empty level: the first live order
    // of the head chunk gives up `q = min(want, its quantity)`.
    method MatchHead(lvl: Level, ghost key: LevelKey, want: Qty)
      returns (lvl': Level, maker: OrderId, q: Qty, filled: bool, ghost loc: nat)
      requires Valid() && Describes(lvl, key) && !lvl.IsEmpty() && want > 0
      modifies this
      ensures Valid() && Describes(lvl', key) && |chunks| == old(|chunks|)
      ensures live == old(live) - (if filled then 1 else 0)
      ensures old(Queue(key)) != []
      ensures var m := old(Queue(key))[0];
              && maker == m.orderId && 0 < m.qty && q == (if want < m.qty then want else m.qty)
                 && filled == (q == m.qty)
              && old(At(loc)) == Some(m) && OrderKey(m) == key
              && At(loc) == (if filled then None else Some(m.(qty := m.qty - q)))
              && Queue(key) == (if filled then [] else [m.(qty := m.qty - q)]) + old(Queue(key))[1..]
      ensures Elsewhere(old(chunks), old(chain), chunks, chain, key) && SlotsExcept(old(chunks), chunks, loc)
    {
      hide StoreOk, SumLive, SumQty, Wrap, ChainOrders, OrderAt, OrdersAt, ChunkOrders, Slots;
      hide SlotOrder, SameSlots, SameQueues, Elsewhere, SlotsExcept;
      LevelFacts(chunks, used, freeChunk, free, chain, key);
      var c := lvl.head;
      var ch: Chunk := chunks[c];
      LiveAtOrAfterHead(ch);
      var h := ch.head;
      while ch.s[h].qty == 0
        invariant h < CHUNK_SLOTS
        invariant forall i :: 0 <= i < h ==> ch.s[i].qty == 0
        decreases CHUNK_SLOTS - h
        modifies {}
      {
        LiveAfter(ch, h);
        h := h + 1;
      }
      var m := ch.s[h];
      maker := m.id;
      q := if want < m.qty then want else m.qty;
      filled := m.qty == q;
      loc := LocOf(c, h);
      ghost var chunks0, chain0, before := chunks, chain, Queue(key);
      MatchOk(chunks, used, freeChunk, free, chain, key, h, q);
      ch := ch.(head := h, s := ch.s[h := m.(qty := m.qty - q)], live := if filled then ch.live - 1 else ch.live);
      chunks := chunks[c := ch];
      lvl' := lvl.(total := Wrap(lvl.total - q));
      HeadSum(before, q, Queue(key));
      TotalFalls(before, Queue(key), q);
      ghost var chunks1 := chunks;
      if filled {
        live := live - 1;
        if ch.live == 0 {
          lvl' := DropChunk(lvl', c);
          SameAfterExcept(chunks0, chain0, chunks1, chain0, chunks, chain, key, loc);
        }
      }
    }

    // Live orders of `lvl` in queue order, as locs.
    method IterLevel(lvl: Level, ghost key: LevelKey) returns (locs: seq<nat>)
      requires Valid() && LinksTo(lvl, key)
      ensures forall i :: 0 <= i < |locs| ==> At(locs[i]).Some? && OrderKey(At(locs[i]).value) == key
      ensures OrdersOf(chunks, locs) == Queue(key)
    {
      hide StoreOk, ChunkOrders, ChainOrders, Slots, OrdersOf, Located;
      locs := [];
      var c := lvl.head;
      ghost var j := 0;
      ghost var queue := ChainAt(chain, key);
      LevelFacts(chunks, used, freeChunk, free, chain, key);
      NoOrders(chunks, queue);
      NoLocs(chunks);
      while c != NIL
        invariant j <= |queue| && (c == NIL <==> j == |queue|) && c == (if j == |queue| then NIL else queue[j])
        invariant Located(chunks, locs, key) && OrdersOf(chunks, locs) == ChainOrders(chunks, queue[..j])
        decreases |queue| - j
      {
        NextOf(chunks, used, freeChunk, free, chain, key, j);
        ChainNext(chunks, queue, j);
        locs := IterChunk(locs, c, key);
        c := chunks[c].next;
        j := j + 1;
        if j < |queue| { NextOf(chunks, used, freeChunk, free, chain, key, j); }
      }
      assert queue[..j] == queue;
      LocatedAt(chunks, locs, key);
    }

    // The live slots of one chunk, from `head` to `tail`.
    method IterChunk(before: seq<nat>, c: u32, ghost key: LevelKey) returns (locs: seq<nat>)
      requires c < |chunks| && ChunkOk(chunks[c]) && KeyOf(chunks[c]) == key && Located(chunks, before, key)
      ensures Located(chunks, locs, key)
      ensures OrdersOf(chunks, locs) == OrdersOf(chunks, before) + ChunkOrders(chunks[c])
    {
      hide ChunkOrders, Slots, SlotOrder, OrdersOf, OrderAt, Located;
      var ch: Chunk := chunks[c];
      var i := ch.head;
      locs := before;
      DeadBeforeHead(ch);
      Assoc(OrdersOf(chunks, before), [], []);
      while i < ch.tail
        invariant ch.head <= i <= ch.tail && Located(chunks, locs, key)
        invariant OrdersOf(chunks, locs) == OrdersOf(chunks, before) + Slots(ch, 0, i)
      {
        SlotsNext(ch, i);
        Assoc(OrdersOf(chunks, before), Slots(ch, 0, i), SlotOrder(ch, i));
        NextLoc(chunks, locs, c, i, key);
        if ch.s[i].qty != 0 {
          locs := locs + [LocOf(c, i)];
        }
        i := i + 1;
      }
      DeadAfterTail(ch);
    }
  }

  lemma Assoc<T>(a: seq<T>, b: seq<T>, c: seq<T>)
    ensures a + b + c == a + (b + c)
    ensures a + [] == a
  {
  }

  // The orders a sequence of live locs identifies.
  function OrdersOf(chunks: seq<Chunk>, locs: seq<nat>): seq<RestingOrder> {
    if locs == [] then []
    else
      var o := OrderAt(chunks, locs[|locs| - 1]);
      OrdersOf(chunks, locs[..|locs| - 1]) + (if o.Some? then [o.value] else [])
  }

  lemma OrdersOfSnoc(chunks: seq<Chunk>, locs: seq<nat>, loc: nat)
    ensures OrdersOf(chunks, locs + [loc])
         == OrdersOf(chunks, locs) + (if OrderAt(chunks, loc).Some? then [OrderAt(chunks, loc).value] else [])
  {
    assert (locs + [loc])[..|locs|] == locs;
  }

  // Every loc is that of a live order of the level.
  ghost predicate Located(chunks: seq<Chunk>, locs: seq<nat>, key: LevelKey) {
    forall i :: 0 <= i < |locs| ==> OrderAt(chunks, locs[i]).Some? && OrderKey(OrderAt(chunks, locs[i]).value) == key
  }

  lemma LocatedAt(chunks: seq<Chunk>, locs: seq<nat>, key: LevelKey)
    requires Located(chunks, locs, key)
    ensures forall i :: 0 <= i < |locs| ==>
              OrderAt(chunks, locs[i]).Some? && OrderKey(OrderAt(chunks, locs[i]).value) == key
  {
  }

  lemma NoLocs(chunks: seq<Chunk>)
    ensures OrdersOf(chunks, []) == [] && forall key :: Located(chunks, [], key)
  {
  }

  // The loc of a live slot identifies its order; a dead slot has none.
  lemma NextLoc(chunks: seq<Chunk>, locs: seq<nat>, c: nat, i: nat, key: LevelKey)
    requires c < |chunks| && i < CHUNK_SLOTS && KeyOf(chunks[c]) == key && Located(chunks, locs, key)
    ensures var (ch, more) := (chunks[c], locs + [LocOf(c, i)]);
            if ch.s[i].qty != 0 then
              OrdersOf(chunks, more) == OrdersOf(chunks, locs) + SlotOrder(ch, i) && Located(chunks, more, key)
            else OrdersOf(chunks, locs) == OrdersOf(chunks, locs) + SlotOrder(ch, i)
  {
    hide OrdersOf;
    LocRoundTrip(c, i);
    OrdersOfSnoc(chunks, locs, LocOf(c, i));
  }

  lemma NoOrders(chunks: seq<Chunk>, chain: seq<nat>)
    ensures ChainOrders(chunks, chain[..0]) == []
  {
  }

  lemma SlotsNext(ch: Chunk, i: nat)
    requires i < CHUNK_SLOTS
    ensures Slots(ch, 0, i + 1) == Slots(ch, 0, i) + SlotOrder(ch, i)
  {
    SlotsSplit(ch, 0, i, i + 1);
  }

  lemma DeadBeforeHead(ch: Chunk)
    requires ChunkOk(ch)
    ensures Slots(ch, 0, ch.head) == []
  {
    SlotsDead(ch, 0, ch.head);
  }

  lemma DeadAfterTail(ch: Chunk)
    requires ChunkOk(ch)
    ensures ChunkOrders(ch) == Slots(ch, 0, ch.tail)
  {
    SlotsSplit(ch, 0, ch.tail, CHUNK_SLOTS);
    SlotsDead(ch, ch.tail, CHUNK_SLOTS);
  }

  lemma ChainNext(chunks: seq<Chunk>, chain: seq<nat>, j: nat)
    requires j < |chain|
    ensures ChainOrders(chunks, chain[..j + 1]) == ChainOrders(chunks, chain[..j]) + OrdersAt(chunks, chain[j])
  {
    hide OrdersAt;
    assert chain[..j + 1] == chain[..j] + [chain[j]];
    ChainAppend(chunks, chain[..j], [chain[j]]);
    ChainSingle(chunks, chain[j]);
  }

  // A linked chunk has a live slot at or after `head`, so the scan for it stops before `tail`.
  lemma LiveAtOrAfterHead(ch: Chunk)
    requires ChunkOk(ch) && ch.live > 0
    ensures exists i :: ch.head <= i < ch.tail && ch.s[i].qty != 0
    ensures forall i :: 0 <= i < ch.head ==> ch.s[i].qty == 0
  {
    SlotsDead(ch, 0, CHUNK_SLOTS);
  }

  lemma LiveAfter(ch: Chunk, h: nat)
    requires ChunkOk(ch) && h < CHUNK_SLOTS && exists i :: ch.head <= i < ch.tail && ch.s[i].qty != 0
    requires forall i :: 0 <= i <= h ==> ch.s[i].qty == 0
    ensures h + 1 < ch.tail
  {
  }

  lemma HeadSum(before: seq<RestingOrder>, q: Qty, after: seq<RestingOrder>)
    requires before != [] && 0 < q <= before[0].qty
    requires after == (if q == before[0].qty then [] else [before[0].(qty := before[0].qty - q)]) + before[1..]
    ensures SumQty(after) == SumQty(before) - q
  {
    if q == before[0].qty { assert after == before[1..]; } else { assert after[1..] == before[1..]; }
  }

  function OrderKey(o: RestingOrder): LevelKey {
    LevelKey(o.side, o.price)
  }

  lemma ExceptAfterSame(a: seq<Chunk>, chainA: map<LevelKey, seq<nat>>, b: seq<Chunk>, chainB: map<LevelKey, seq<nat>>,
                        c: seq<Chunk>, chainC: map<LevelKey, seq<nat>>, key: LevelKey, loc: nat)
    requires SameSlots(a, b) && SameQueues(a, chainA, b, chainB)
    requires forall k :: k != key ==> ChainAt(chainB, k) == ChainAt(chainA, k)
    requires Elsewhere(b, chainB, c, chainC, key) && SlotsExcept(b, c, loc)
    ensures Elsewhere(a, chainA, c, chainC, key) && SlotsExcept(a, c, loc)
    ensures ChainOrders(b, ChainAt(chainB, key)) == ChainOrders(a, ChainAt(chainA, key))
    ensures OrderAt(b, loc) == OrderAt(a, loc)
  {
    hide OrderAt, ChainOrders, ChainAt;
  }

  lemma SameAfterExcept(a: seq<Chunk>, chainA: map<LevelKey, seq<nat>>, b: seq<Chunk>, chainB: map<LevelKey, seq<nat>>,
                        c: seq<Chunk>, chainC: map<LevelKey, seq<nat>>, key: LevelKey, loc: nat)
    requires Elsewhere(a, chainA, b, chainB, key) && SlotsExcept(a, b, loc)
    requires SameSlots(b, c) && SameQueues(b, chainB, c, chainC)
    requires forall k :: k != key ==> ChainAt(chainC, k) == ChainAt(chainB, k)
    ensures Elsewhere(a, chainA, c, chainC, key) && SlotsExcept(a, c, loc)
    ensures ChainOrders(c, ChainAt(chainC, key)) == ChainOrders(b, ChainAt(chainB, key))
    ensures OrderAt(c, loc) == OrderAt(b, loc)
  {
    hide OrderAt, ChainOrders, ChainAt;
  }

  // The tail chunk of a level that has one.
  lemma TailFacts(chunks: seq<Chunk>, used: nat, top: u32, free: seq<nat>, chain: map<LevelKey, seq<nat>>, k: LevelKey)
    requires StoreOk(chunks, used, top, free, chain, NIL)
    ensures k in chain ==>
              && chain[k] != [] && LastOf(chain[k]) < used && LastOf(chain[k]) < |chunks|
              && KeyOf(chunks[LastOf(chain[k])]) == k
              && chunks[LastOf(chain[k])].tail <= CHUNK_SLOTS
              && chunks[LastOf(chain[k])].live > 0
    ensures k in chain ==> StoreOk(chunks, used, top, free, chain, LastOf(chain[k]))
  {
    hide StoreOk, ChunkOrders, ChainOrders, Slots, Distinct;
    if k in chain {
      LevelFacts(chunks, used, top, free, chain, k);
      StoreSizes(chunks, used, top, free, chain);
      MemberFacts(chunks, used, top, free, chain, NIL, k, |chain[k]| - 1);
      assert Member(chunks, used, k, chain[k][|chain[k]| - 1], NIL);
      Weaken(chunks, used, top, free, chain, LastOf(chain[k]));
    }
  }

  // An exemption that nothing needs.
  lemma Weaken(chunks: seq<Chunk>, used: nat, top: u32, free: seq<nat>, chain: map<LevelKey, seq<nat>>, c: nat)
    requires StoreOk(chunks, used, top, free, chain, NIL)
    requires c < |chunks| && chunks[c].live > 0
    ensures StoreOk(chunks, used, top, free, chain, c)
  {
    forall k | k in chain
      ensures ChainOk(chunks, used, k, chain[k], c)
    {
      WeakenChain(chunks, used, k, chain[k], c);
    }
    forall q | 0 <= q < used && q != c
      ensures Placed(chunks, free, chain, q)
    {
      assert q != NIL;
    }
  }

  lemma WeakenChain(chunks: seq<Chunk>, used: nat, k: LevelKey, chain: seq<nat>, c: nat)
    requires ChainOk(chunks, used, k, chain, NIL) && used <= MAX_ORDERS
    ensures ChainOk(chunks, used, k, chain, c)
  {
    forall i | 0 <= i < |chain|
      ensures Member(chunks, used, k, chain[i], c)
    {
      assert Member(chunks, used, k, chain[i], NIL);
    }
  }

  lemma SameRefl(chunks: seq<Chunk>, chain: map<LevelKey, seq<nat>>)
    ensures SameSlots(chunks, chunks) && SameQueues(chunks, chain, chunks, chain)
  {
  }

  lemma SameTrans(a: seq<Chunk>, chainA: map<LevelKey, seq<nat>>, b: seq<Chunk>, chainB: map<LevelKey, seq<nat>>,
                  c: seq<Chunk>, chainC: map<LevelKey, seq<nat>>)
    requires SameSlots(a, b) && SameQueues(a, chainA, b, chainB)
    requires SameSlots(b, c) && SameQueues(b, chainB, c, chainC)
    ensures SameSlots(a, c) && SameQueues(a, chainA, c, chainC)
  {
    hide OrderAt, ChainOrders, ChainAt;
  }

  lemma DropOk(chunks: seq<Chunk>, used: nat, top: u32, free: seq<nat>, chain: map<LevelKey, seq<nat>>, k: LevelKey,
               i: nat)
    requires k in chain && i < |chain[k]| && |chunks| <= MAX_ORDERS
    requires StoreOk(chunks, used, top, free, chain, chain[k][i])
    requires chunks[chain[k][i]].live == 0
    ensures chain[k][i] < |chunks|
    ensures var chunks' := Bypassed(chunks, chain[k][i], top);
            var chain' := WithoutChunk(chain, k, i);
            && StoreOk(chunks', used, chain[k][i], [chain[k][i]] + free, chain', NIL)
            && SameSlots(chunks, chunks') && SameQueues(chunks, chain, chunks', chain')
            && SumLive(chunks') == SumLive(chunks)
    ensures var (p, n) := (chunks[chain[k][i]].prev, chunks[chain[k][i]].next);
            && p != chain[k][i] && n != chain[k][i] && (p != NIL ==> p < |chunks|) && (n != NIL ==> n < |chunks|)
            && FirstOf(ChainAt(WithoutChunk(chain, k, i), k)) == (if p != NIL then FirstOf(ChainAt(chain, k)) else n)
            && LastOf(ChainAt(WithoutChunk(chain, k, i), k)) == (if n != NIL then LastOf(ChainAt(chain, k)) else p)
    ensures forall k' :: k' != k ==> ChainAt(WithoutChunk(chain, k, i), k') == ChainAt(chain, k')
  {
    hide StoreOk, ChainOk, ChunkOk, SameSlots, SameQueues, SumLive, Bypassed, Skip;
    hide ChunkOrders, Slots, SlotOrder, ChainOrders, OrdersAt, OrderAt;
    var c := chain[k][i];
    DropFacts(chunks, used, top, free, chain, k, i);
    BypassedOk(chunks, used, top, free, chain, k, i);
    BypassedSlots(chunks, c, top);
    BypassedQueues(chunks, chain, k, i, top);
    SkipEnds(chunks, used, k, chain[k], i);
  }

  lemma DropFacts(chunks: seq<Chunk>, used: nat, top: u32, free: seq<nat>, chain: map<LevelKey, seq<nat>>, k: LevelKey,
                  i: nat)
    requires k in chain && i < |chain[k]|
    requires StoreOk(chunks, used, top, free, chain, chain[k][i])
    requires chunks[chain[k][i]].live == 0
    ensures used <= |chunks| && used <= MAX_ORDERS
    ensures ChainOk(chunks, used, k, chain[k], chain[k][i]) && chain[k][i] < |chunks|
    ensures ChunkOrders(chunks[chain[k][i]]) == []
  {
    hide ChunkOrders;
    assert ChainOk(chunks, used, k, chain[k], chain[k][i]);
    assert ChunkOk(chunks[chain[k][i]]);
  }

  // Every loc and every queue reads the same.
  ghost predicate SameOrders(before: seq<Chunk>, chunks: seq<Chunk>, chain: map<LevelKey, seq<nat>>) {
    SameSlots(before, chunks) && SameQueues(before, chain, chunks, chain)
  }

  // `c` is an empty chunk of the level, linked nowhere.
  ghost predicate Allocated(chunks: seq<Chunk>, used: nat, chain: map<LevelKey, seq<nat>>,
                            c: nat, side: Side, price: Price, prev: u32)
  {
    && c < used && c < |chunks| && Loose(chain, c)
    && chunks[c].live == 0 && chunks[c].head == chunks[c].tail == 0 && ChunkOrders(chunks[c]) == []
    && KeyOf(chunks[c]) == LevelKey(side, price) && chunks[c].prev == prev && chunks[c].next == NIL
  }

  lemma StoreSizes(chunks: seq<Chunk>, used: nat, top: u32, free: seq<nat>, chain: map<LevelKey, seq<nat>>)
    requires StoreOk(chunks, used, top, free, chain, NIL)
    ensures used <= |chunks| && used <= MAX_ORDERS && (top == NIL <==> free == [])
    ensures top != NIL ==> top < used
  {
  }

  lemma PopOk(chunks: seq<Chunk>, used: nat, top: u32, free: seq<nat>, chain: map<LevelKey, seq<nat>>, side: Side,
              price: Price, prev: u32)
    requires StoreOk(chunks, used, top, free, chain, NIL) && top != NIL
    ensures free != [] && top < used && top < |chunks|
    ensures var chunks' := chunks[top := Fresh(chunks[top], side, price, prev)];
            && StoreOk(chunks', used, chunks[top].next, free[1..], chain, top)
            && SumLive(chunks') == SumLive(chunks) && SameOrders(chunks, chunks', chain)
            && Allocated(chunks', used, chain, top, side, price, prev)
  {
    assert FreeLinked(chunks, free, 0);
    ResetOk(chunks, used, top, free, chain, used, chunks[top].next, free[1..], top, side, price, prev);
  }

  lemma BumpOk(chunks: seq<Chunk>, used: nat, top: u32, free: seq<nat>, chain: map<LevelKey, seq<nat>>, side: Side,
               price: Price, prev: u32)
    requires StoreOk(chunks, used, top, free, chain, NIL) && top == NIL
    requires used < |chunks| <= MAX_ORDERS
    ensures used <= SumLive(chunks)
    ensures var chunks' := chunks[used := Fresh(chunks[used], side, price, prev)];
            && StoreOk(chunks', used + 1, top, free, chain, used)
            && SumLive(chunks') == SumLive(chunks) && SameOrders(chunks, chunks', chain)
            && Allocated(chunks', used + 1, chain, used, side, price, prev)
  {
    AllUsedLive(chunks, used, top, free, chain);
    ResetOk(chunks, used, top, free, chain, used + 1, top, free, used, side, price, prev);
  }

  lemma ResetOk(chunks: seq<Chunk>, used: nat, top: u32, free: seq<nat>, chain: map<LevelKey, seq<nat>>,
                used': nat, top': u32, free': seq<nat>, c: nat, side: Side, price: Price, prev: u32)
    requires StoreOk(chunks, used, top, free, chain, NIL)
    requires c < |chunks|
    requires if free != [] then
               c == free[0] && used' == used && free' == free[1..] && top' == chunks[c].next
             else
               c == used && used' == used + 1 <= MAX_ORDERS && free' == free && top' == top
    ensures var chunks' := chunks[c := Fresh(chunks[c], side, price, prev)];
            && StoreOk(chunks', used', top', free', chain, c)
            && SumLive(chunks') == SumLive(chunks) && SameOrders(chunks, chunks', chain)
            && Allocated(chunks', used', chain, c, side, price, prev)
  {
    TakenDead(chunks, used, top, free, chain, c);
    hide StoreOk, Loose, OrdersAt, OrderAt, SumLive, ChunkOk, ChunkOrders, SameOrders, SameSlots, Slots;
    var ch := Fresh(chunks[c], side, price, prev);
    FreshOk(chunks[c], side, price, prev);
    TakeOk(chunks, used, top, free, chain, used', top', free', c, ch);
    SumLiveWrite(chunks, c, ch);
    EmptyReplaced(chunks, c, ch);
    SameOrdersFrom(chunks, chunks[c := ch], chain);
  }

  lemma SameOrdersTrans(a: seq<Chunk>, b: seq<Chunk>, c: seq<Chunk>, chain: map<LevelKey, seq<nat>>)
    requires (a == b || SameOrders(a, b, chain)) && SameOrders(b, c, chain)
    ensures SameOrders(a, c, chain)
  {
    hide OrderAt, ChainOrders, ChainAt;
  }

  lemma SameOrdersFrom(chunks: seq<Chunk>, chunks': seq<Chunk>, chain: map<LevelKey, seq<nat>>)
    requires forall q: nat :: OrdersAt(chunks', q) == OrdersAt(chunks, q)
    requires SameSlots(chunks, chunks')
    ensures SameOrders(chunks, chunks', chain)
  {
    forall k
      ensures ChainOrders(chunks', ChainAt(chain, k)) == ChainOrders(chunks, ChainAt(chain, k))
    {
      ChainSame(chunks, chunks', ChainAt(chain, k));
    }
  }

  lemma TakenDead(chunks: seq<Chunk>, used: nat, top: u32, free: seq<nat>, chain: map<LevelKey, seq<nat>>, c: nat)
    requires StoreOk(chunks, used, top, free, chain, NIL) && c < |chunks|
    requires if free != [] then c == free[0] else c == used
    ensures ChunkOk(chunks[c]) && chunks[c].live == 0 && ChunkOrders(chunks[c]) == []
  {
    assert ChunkOk(chunks[c]);
  }

  // Chunks past `used` hold no orders, so adding some changes nothing.
  lemma PadOk(chunks: seq<Chunk>, extra: seq<Chunk>, used: nat, top: u32, free: seq<nat>,
              chain: map<LevelKey, seq<nat>>)
    requires StoreOk(chunks, used, top, free, chain, NIL)
    requires forall i :: 0 <= i < |extra| ==> extra[i] == EMPTY_CHUNK
    ensures StoreOk(chunks + extra, used, top, free, chain, NIL)
    ensures SumLive(chunks + extra) == SumLive(chunks)
  {
    var padded := chunks + extra;
    SlotsDead(EMPTY_CHUNK, 0, CHUNK_SLOTS);
    forall k | k in chain
      ensures ChainOk(padded, used, k, chain[k], NIL)
    {
      PadChain(chunks, extra, used, k, chain[k]);
    }
    forall i | 0 <= i < |free|
      ensures FreeLinked(padded, free, i)
    {
      assert FreeLinked(chunks, free, i);
    }
    forall q | 0 <= q < |padded|
      ensures ChunkOk(padded[q])
    {
      assert q < |chunks| ==> ChunkOk(chunks[q]);
    }
    forall q | 0 <= q < used
      ensures Placed(padded, free, chain, q)
    {
      assert Placed(chunks, free, chain, q);
    }
    PadSum(chunks, extra);
  }

  lemma PadOrders(chunks: seq<Chunk>, extra: seq<Chunk>, chain: map<LevelKey, seq<nat>>)
    requires forall i :: 0 <= i < |extra| ==> extra[i] == EMPTY_CHUNK
    ensures SameOrders(chunks, chunks + extra, chain)
  {
    SlotsDead(EMPTY_CHUNK, 0, CHUNK_SLOTS);
    SameOrdersFrom(chunks, chunks + extra, chain);
  }

  lemma PadChain(chunks: seq<Chunk>, extra: seq<Chunk>, used: nat, k: LevelKey, chain: seq<nat>)
    requires ChainOk(chunks, used, k, chain, NIL)
    ensures ChainOk(chunks + extra, used, k, chain, NIL)
  {
    forall i | 0 <= i < |chain|
      ensures Member(chunks + extra, used, k, chain[i], NIL) && Linked(chunks + extra, chain, i)
    {
      assert Member(chunks, used, k, chain[i], NIL) && Linked(chunks, chain, i);
    }
  }

  lemma {:induction false} PadSum(chunks: seq<Chunk>, extra: seq<Chunk>)
    requires forall i :: 0 <= i < |extra| ==> extra[i] == EMPTY_CHUNK
    ensures SumLive(chunks + extra) == SumLive(chunks)
  {
    if extra == [] {
      assert chunks + extra == chunks;
    } else {
      var n := |extra| - 1;
      assert (chunks + extra)[..|chunks| + n] == chunks + extra[..n];
      PadSum(chunks, extra[..n]);
    }
  }

  lemma AllUsedLive(chunks: seq<Chunk>, used: nat, top: u32, free: seq<nat>, chain: map<LevelKey, seq<nat>>)
    requires StoreOk(chunks, used, top, free, chain, NIL) && top == NIL
    ensures free == [] && used <= SumLive(chunks)
  {
    forall c | 0 <= c < used
      ensures chunks[c].live > 0
    {
      assert Placed(chunks, free, chain, c);
    }
    SumLiveAtLeast(chunks, used);
  }
}
