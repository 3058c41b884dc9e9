// Rewriting one linked chunk in place, one slot at a time: src/store.rs:207-233.

module StoreWrite {
  import opened Types
  import opened Chunks
  import opened StoreState

  function Exempt(c: nat, ch: Chunk): int {
    if ch.live == 0 then c else NIL
  }

  lemma RewriteOk(chunks: seq<Chunk>, used: nat, top: u32, free: seq<nat>, chain: map<LevelKey, seq<nat>>, x: int,
                  c: nat, ch: Chunk)
    requires StoreOk(chunks, used, top, free, chain, x) && |chunks| <= MAX_ORDERS
    requires c < used && (x == c || (x == NIL && chunks[c].live > 0))
    requires KeyOf(chunks[c]) in chain && c in chain[KeyOf(chunks[c])]
    requires KeyOf(ch) == KeyOf(chunks[c]) && ch.prev == chunks[c].prev && ch.next == chunks[c].next
    requires ChunkOk(ch)
    ensures StoreOk(chunks[c := ch], used, top, free, chain, Exempt(c, ch))
  {
    var chunks' := chunks[c := ch];
    var x' := Exempt(c, ch);
    forall k | k in chain
      ensures ChainOk(chunks', used, k, chain[k], x')
    {
      assert ChainOk(chunks, used, k, chain[k], x);
      RewriteChain(chunks, used, k, chain[k], x, c, ch);
    }
    RewriteFree(chunks, used, top, free, x, c, ch);
    forall q | 0 <= q < used && q != x'
      ensures Placed(chunks', free, chain, q)
    {
      assert q != c ==> Placed(chunks, free, chain, q);
    }
    forall q | 0 <= q < |chunks'|
      ensures ChunkOk(chunks'[q])
    {
      assert q != c ==> ChunkOk(chunks[q]);
    }
  }

  lemma RewriteChain(chunks: seq<Chunk>, used: nat, k: LevelKey, chain: seq<nat>, x: int, c: nat, ch: Chunk)
    requires ChainOk(chunks, used, k, chain, x) && c < |chunks| && (x == c || x == NIL) && used <= MAX_ORDERS
    requires KeyOf(ch) == KeyOf(chunks[c]) && ch.prev == chunks[c].prev && ch.next == chunks[c].next
    ensures ChainOk(chunks[c := ch], used, k, chain, Exempt(c, ch))
  {
    forall i | 0 <= i < |chain|
      ensures Member(chunks[c := ch], used, k, chain[i], Exempt(c, ch))
      ensures Linked(chunks[c := ch], chain, i)
    {
      assert Member(chunks, used, k, chain[i], x);
      assert Linked(chunks, chain, i);
    }
  }

  lemma RewriteFree(chunks: seq<Chunk>, used: nat, top: u32, free: seq<nat>, x: int, c: nat, ch: Chunk)
    requires FreeOk(chunks, used, top, free, x) && c < |chunks| && used <= MAX_ORDERS
    requires x == c || chunks[c].live > 0
    ensures FreeOk(chunks[c := ch], used, top, free, Exempt(c, ch))
  {
    forall i | 0 <= i < |free|
      ensures free[i] != c && free[i] != NIL && FreeLinked(chunks[c := ch], free, i)
    {
      assert FreeLinked(chunks, free, i);
    }
  }

  // `ch` may differ from `old` only in slot `i`, its cursors and its live count.
  ghost predicate OneSlot(before: Chunk, ch: Chunk, i: nat) {
    && i < CHUNK_SLOTS
    && KeyOf(ch) == KeyOf(before) && ch.prev == before.prev && ch.next == before.next
    && forall q :: 0 <= q < CHUNK_SLOTS && q != i ==> ch.s[q] == before.s[q] && ch.tif[q] == before.tif[q]
  }

  lemma OneSlotOk(before: Chunk, ch: Chunk, i: nat)
    requires ChunkOk(before) && OneSlot(before, ch, i)
    requires ch.live == before.live - (if before.s[i].qty != 0 then 1 else 0) + (if ch.s[i].qty != 0 then 1 else 0)
    requires ch.head <= ch.tail <= CHUNK_SLOTS
    requires forall q :: 0 <= q < CHUNK_SLOTS && ch.s[q].qty != 0 ==> ch.head <= q < ch.tail
    ensures ChunkOk(ch)
  {
    hide Slots;
    ChunkAround(before, i);
    ChunkWrite(before, ch, i);
  }

  // The effect of writing slot `i` of the j-th chunk of level `k`.
  ghost predicate Written(chunks: seq<Chunk>, chunks': seq<Chunk>, chain: map<LevelKey, seq<nat>>, k: LevelKey, j: nat,
                          i: nat, ch: Chunk)
    requires k in chain && j < |chain[k]| && chain[k][j] < |chunks| && i < CHUNK_SLOTS
  {
    var c := chain[k][j];
    var (front, back) := (Ahead(chunks, chain[k], j, i), Behind(chunks, chain[k], j, i));
    && ChainOrders(chunks, chain[k]) == front + SlotOrder(chunks[c], i) + back
    && ChainOrders(chunks', chain[k]) == front + SlotOrder(ch, i) + back
    && (forall k' :: k' != k ==> ChainOrders(chunks', ChainAt(chain, k')) == ChainOrders(chunks, ChainAt(chain, k')))
    && (forall loc: nat :: loc != LocOf(c, i) ==> OrderAt(chunks', loc) == OrderAt(chunks, loc))
    && OrderAt(chunks', LocOf(c, i)) == (if ch.s[i].qty != 0 then Some(OrderIn(ch, i)) else None)
    && OrderAt(chunks, LocOf(c, i)) == (if chunks[c].s[i].qty != 0 then Some(OrderIn(chunks[c], i)) else None)
    && SumLive(chunks') == SumLive(chunks) - chunks[c].live + ch.live
    && chunks[c].live <= SumLive(chunks)
  }

  lemma WriteOk(chunks: seq<Chunk>, used: nat, top: u32, free: seq<nat>, chain: map<LevelKey, seq<nat>>, x: int,
                k: LevelKey, j: nat, i: nat, ch: Chunk)
    requires StoreOk(chunks, used, top, free, chain, x) && |chunks| <= MAX_ORDERS
    requires k in chain && j < |chain[k]|
    requires x == chain[k][j] || (x == NIL && chunks[chain[k][j]].live > 0)
    requires OneSlot(chunks[chain[k][j]], ch, i) && ChunkOk(ch)
    ensures chain[k][j] < |chunks|
    ensures StoreOk(chunks[chain[k][j] := ch], used, top, free, chain, Exempt(chain[k][j], ch))
    ensures Written(chunks, chunks[chain[k][j] := ch], chain, k, j, i, ch)
  {
    hide StoreOk, ChainOk, ChunkOk, ChainOrders, Ahead, Behind, SlotOrder, SumLive, Distinct, Exempt;
    var c := chain[k][j];
    MemberFacts(chunks, used, top, free, chain, x, k, j);
    RewriteOk(chunks, used, top, free, chain, x, c, ch);
    WriteOrders(chunks, chain, k, j, i, ch);
    WriteElsewhere(chunks, used, chain, k, x, c, ch);
    LocRoundTrip(c, i);
  }

  lemma WriteOrders(chunks: seq<Chunk>, chain: map<LevelKey, seq<nat>>, k: LevelKey, j: nat, i: nat, ch: Chunk)
    requires k in chain && j < |chain[k]| && chain[k][j] < |chunks| && Distinct(chain[k])
    requires OneSlot(chunks[chain[k][j]], ch, i)
    ensures var c := chain[k][j];
            var chunks' := chunks[c := ch];
            && ChainOrders(chunks, chain[k]) == Ahead(chunks, chain[k], j, i) + SlotOrder(chunks[c], i)
               + Behind(chunks, chain[k], j, i)
            && ChainOrders(chunks', chain[k]) == Ahead(chunks, chain[k], j, i) + SlotOrder(ch, i)
               + Behind(chunks, chain[k], j, i)
            && (forall loc: nat :: loc != LocOf(c, i) ==> OrderAt(chunks', loc) == OrderAt(chunks, loc))
            && SumLive(chunks') == SumLive(chunks) - chunks[c].live + ch.live
            && chunks[c].live <= SumLive(chunks)
  {
    hide ChainOrders, Ahead, Behind, SlotOrder, SumLive, Distinct;
    SlotAround(chunks, chain[k], j, i);
    SlotWritten(chunks, chain[k], j, i, ch);
    SumLiveWrite(chunks, chain[k][j], ch);
  }

  // Chunk `c` belongs to level `k` only.
  lemma WriteElsewhere(chunks: seq<Chunk>, used: nat, chain: map<LevelKey, seq<nat>>, k: LevelKey, x: int, c: nat,
                       ch: Chunk)
    requires c < |chunks| && KeyOf(chunks[c]) == k
    requires forall k' :: k' in chain ==> ChainOk(chunks, used, k', chain[k'], x)
    ensures forall k' :: k' != k ==>
              ChainOrders(chunks[c := ch], ChainAt(chain, k')) == ChainOrders(chunks, ChainAt(chain, k'))
  {
    hide ChainOrders, ChunkOrders;
    forall k' | k' != k
      ensures ChainOrders(chunks[c := ch], ChainAt(chain, k')) == ChainOrders(chunks, ChainAt(chain, k'))
    {
      var other := ChainAt(chain, k');
      forall q | 0 <= q < |other|
        ensures OrdersAt(chunks, other[q]) == OrdersAt(chunks[c := ch], other[q])
      {
        assert Member(chunks, used, k', other[q], x);
      }
      ChainSame(chunks, chunks[c := ch], other);
    }
  }
}
