// Chunks, levels and chains as values: src/store.rs:23-115. A level's queue is
// an unrolled list of six-slot chunks; a slot with quantity 0 is dead.

module Chunks {
  import opened Types
  import opened SpecBook

  const NIL: u32 := 0xFFFF_FFFF
  const CHUNK_SLOTS: nat := 6

  // With more chunks than this a loc, chunk * 8 + slot, would not fit 32 bits.
  const MAX_ORDERS: nat := 0x2000_0000

  datatype Slot = Slot(id: OrderId, qty: Qty)

  datatype ChunkFields = ChunkFields(price: Price, prev: u32, next: u32, head: nat, tail: nat, live: nat,
                                     side: Side, s: seq<Slot>, tif: seq<Tif>)

  type Chunk = c: ChunkFields | |c.s| == CHUNK_SLOTS && |c.tif| == 8 witness EMPTY_CHUNK

  const EMPTY_CHUNK: ChunkFields :=
    ChunkFields(0, NIL, NIL, 0, 0, 0, Bid, [Slot(0, 0), Slot(0, 0), Slot(0, 0), Slot(0, 0), Slot(0, 0), Slot(0, 0)],
                [Gtc, Gtc, Gtc, Gtc, Gtc, Gtc, Gtc, Gtc])

  datatype Level = Level(head: u32, tail: u32, total: Qty) {
    predicate IsEmpty() {
      head == NIL
    }
  }

  const EMPTY_LEVEL: Level := Level(NIL, NIL, 0)

  // What identifies a level: its side and its price.
  datatype LevelKey = LevelKey(side: Side, price: Price)

  function KeyOf(ch: Chunk): LevelKey {
    LevelKey(ch.side, ch.price)
  }

  function LocOf(c: nat, slot: nat): nat {
    8 * c + slot
  }

  function LocChunk(loc: nat): nat {
    loc / 8
  }

  function LocSlot(loc: nat): nat {
    loc % 8
  }

  // A loc determines its chunk and slot, and fits a u32 while chunks are below 2^29.
  lemma LocRoundTrip(c: nat, slot: nat)
    requires slot < 8
    ensures LocChunk(LocOf(c, slot)) == c && LocSlot(LocOf(c, slot)) == slot
    ensures c < 0x2000_0000 ==> LocOf(c, slot) < 0x1_0000_0000
  {
  }

  lemma LocInjective(a: nat, b: nat)
    requires LocChunk(a) == LocChunk(b) && LocSlot(a) == LocSlot(b)
    ensures a == b
  {
  }

  // ---- orders of one chunk --------------------------------------------------

  function OrderIn(ch: Chunk, i: nat): RestingOrder
    requires i < CHUNK_SLOTS
  {
    RestingOrder(ch.s[i].id, ch.side, ch.tif[i], ch.price, ch.s[i].qty)
  }

  function SlotOrder(ch: Chunk, i: nat): seq<RestingOrder>
    requires i < CHUNK_SLOTS
  {
    if ch.s[i].qty != 0 then [OrderIn(ch, i)] else []
  }

  // The live orders of slots [lo, hi), in order.
  function Slots(ch: Chunk, lo: nat, hi: nat): seq<RestingOrder>
    requires hi <= CHUNK_SLOTS
    decreases hi - lo
  {
    if lo >= hi then [] else SlotOrder(ch, lo) + Slots(ch, lo + 1, hi)
  }

  function ChunkOrders(ch: Chunk): seq<RestingOrder> {
    Slots(ch, 0, CHUNK_SLOTS)
  }

  lemma {:induction false} SlotsSplit(ch: Chunk, lo: nat, mid: nat, hi: nat)
    requires lo <= mid <= hi <= CHUNK_SLOTS
    ensures Slots(ch, lo, hi) == Slots(ch, lo, mid) + Slots(ch, mid, hi)
    decreases mid - lo
  {
    if lo < mid {
      SlotsSplit(ch, lo + 1, mid, hi);
    }
  }

  lemma {:induction false} SlotsSame(ch: Chunk, ch': Chunk, lo: nat, hi: nat)
    requires hi <= CHUNK_SLOTS
    requires forall i :: lo <= i < hi ==> OrderIn(ch, i) == OrderIn(ch', i)
    ensures Slots(ch, lo, hi) == Slots(ch', lo, hi)
    decreases hi - lo
  {
    if lo < hi {
      assert OrderIn(ch, lo) == OrderIn(ch', lo);
      SlotsSame(ch, ch', lo + 1, hi);
    }
  }

  // A chunk's orders around one slot.
  lemma ChunkAround(ch: Chunk, i: nat)
    requires i < CHUNK_SLOTS
    ensures ChunkOrders(ch)
         == Slots(ch, 0, i) + SlotOrder(ch, i) + Slots(ch, i + 1, CHUNK_SLOTS)
  {
    SlotsSplit(ch, 0, i, CHUNK_SLOTS);
  }

  // Changing one slot changes only that slot's order.
  lemma ChunkWrite(ch: Chunk, ch': Chunk, i: nat)
    requires i < CHUNK_SLOTS
    requires forall j :: 0 <= j < CHUNK_SLOTS && j != i ==> OrderIn(ch, j) == OrderIn(ch', j)
    ensures ChunkOrders(ch')
         == Slots(ch, 0, i) + SlotOrder(ch', i) + Slots(ch, i + 1, CHUNK_SLOTS)
  {
    ChunkAround(ch', i);
    SlotsSame(ch, ch', 0, i);
    SlotsSame(ch, ch', i + 1, CHUNK_SLOTS);
  }

  lemma {:induction false} SlotsDead(ch: Chunk, lo: nat, hi: nat)
    requires hi <= CHUNK_SLOTS
    ensures Slots(ch, lo, hi) == [] <==> forall i :: lo <= i < hi ==> ch.s[i].qty == 0
    decreases hi - lo
  {
    if lo < hi {
      SlotsDead(ch, lo + 1, hi);
    }
  }

  // ---- orders of a chain ----------------------------------------------------

  function OrdersAt(chunks: seq<Chunk>, c: nat): seq<RestingOrder> {
    if c < |chunks| then ChunkOrders(chunks[c]) else []
  }

  function ChainOrders(chunks: seq<Chunk>, chain: seq<nat>): seq<RestingOrder> {
    if chain == [] then []
    else OrdersAt(chunks, chain[0]) + ChainOrders(chunks, chain[1..])
  }

  lemma {:induction false} ChainSame(chunks: seq<Chunk>, chunks': seq<Chunk>, chain: seq<nat>)
    requires forall i :: 0 <= i < |chain| ==> OrdersAt(chunks, chain[i]) == OrdersAt(chunks', chain[i])
    ensures ChainOrders(chunks, chain) == ChainOrders(chunks', chain)
  {
    if chain != [] {
      assert OrdersAt(chunks, chain[0]) == OrdersAt(chunks', chain[0]);
      forall i | 0 <= i < |chain[1..]|
        ensures OrdersAt(chunks, chain[1..][i]) == OrdersAt(chunks', chain[1..][i])
      {
        assert chain[1..][i] == chain[i + 1];
      }
      ChainSame(chunks, chunks', chain[1..]);
    }
  }

  lemma {:induction false} ChainAppend(chunks: seq<Chunk>, a: seq<nat>, b: seq<nat>)
    ensures ChainOrders(chunks, a + b) == ChainOrders(chunks, a) + ChainOrders(chunks, b)
  {
    if a == [] {
      assert a + b == b;
    } else {
      assert (a + b)[1..] == a[1..] + b;
      ChainAppend(chunks, a[1..], b);
    }
  }

  // A chain's orders around its i-th chunk.
  lemma ChainAround(chunks: seq<Chunk>, chain: seq<nat>, i: nat)
    requires i < |chain|
    ensures ChainOrders(chunks, chain)
         == ChainOrders(chunks, chain[..i]) + OrdersAt(chunks, chain[i]) + ChainOrders(chunks, chain[i + 1..])
  {
    assert chain == chain[..i] + chain[i..];
    ChainAppend(chunks, chain[..i], chain[i..]);
    assert chain[i..][1..] == chain[i + 1..];
  }

  ghost predicate Differ(s: seq<nat>, i: nat, j: nat) {
    i < |s| && j < |s| && s[i] != s[j]
  }

  ghost predicate Distinct(s: seq<nat>) {
    forall i, j {:trigger Differ(s, i, j)} :: 0 <= i < j < |s| ==> Differ(s, i, j)
  }

  lemma DistinctAt(s: seq<nat>, i: nat, j: nat)
    requires Distinct(s) && i < |s| && j < |s| && i != j
    ensures s[i] != s[j]
  {
    assert Differ(s, if i < j then i else j, if i < j then j else i);
  }

  lemma DistinctCons(c: nat, s: seq<nat>)
    requires Distinct(s) && c !in s
    ensures Distinct([c] + s)
  {
    forall i, j | 0 <= i < j < |s| + 1
      ensures Differ([c] + s, i, j)
    {
      if i > 0 { DistinctAt(s, i - 1, j - 1); } else { assert s[j - 1] in s; }
    }
  }

  lemma DistinctTail(c: nat, s: seq<nat>)
    requires Distinct([c] + s)
    ensures Distinct(s) && c !in s
  {
    forall i, j | 0 <= i < j < |s|
      ensures Differ(s, i, j)
    {
      DistinctAt([c] + s, i + 1, j + 1);
    }
    forall j | 0 <= j < |s|
      ensures s[j] != c
    {
      DistinctAt([c] + s, 0, j + 1);
    }
  }

  lemma DistinctSnoc(s: seq<nat>, c: nat)
    requires Distinct(s) && c !in s
    ensures Distinct(s + [c])
  {
    forall i, j | 0 <= i < j < |s| + 1
      ensures Differ(s + [c], i, j)
    {
      if j < |s| { DistinctAt(s, i, j); } else { assert s[i] in s; }
    }
  }

  lemma DistinctWithout(s: seq<nat>, k: nat)
    requires Distinct(s) && k < |s|
    ensures Distinct(s[..k] + s[k + 1..])
  {
    var rest := s[..k] + s[k + 1..];
    forall i, j | 0 <= i < j < |rest|
      ensures Differ(rest, i, j)
    {
      DistinctAt(s, if i < k then i else i + 1, if j < k then j else j + 1);
    }
  }

  // Rewriting the i-th chunk of a chain changes only its own orders.
  lemma ChainWrite(chunks: seq<Chunk>, chunks': seq<Chunk>, chain: seq<nat>, i: nat)
    requires i < |chain| && Distinct(chain)
    requires forall c: nat :: c != chain[i] ==> OrdersAt(chunks, c) == OrdersAt(chunks', c)
    ensures ChainOrders(chunks', chain)
         == ChainOrders(chunks, chain[..i]) + OrdersAt(chunks', chain[i]) + ChainOrders(chunks, chain[i + 1..])
  {
    hide OrdersAt, ChainOrders, Distinct;
    var (front, back) := (chain[..i], chain[i + 1..]);
    ChainAround(chunks', chain, i);
    forall j | 0 <= j < |front|
      ensures OrdersAt(chunks, front[j]) == OrdersAt(chunks', front[j])
    {
      DistinctAt(chain, j, i);
    }
    ChainSame(chunks, chunks', front);
    forall j | 0 <= j < |back|
      ensures OrdersAt(chunks, back[j]) == OrdersAt(chunks', back[j])
    {
      DistinctAt(chain, i + 1 + j, i);
    }
    ChainSame(chunks, chunks', back);
  }

  // ---- counting -------------------------------------------------------------

  function SumLive(chunks: seq<Chunk>): nat {
    if chunks == [] then 0 else SumLive(chunks[..|chunks| - 1]) + chunks[|chunks| - 1].live
  }

  lemma {:induction false} SumLiveWrite(chunks: seq<Chunk>, c: nat, ch: Chunk)
    requires c < |chunks|
    ensures SumLive(chunks[c := ch]) == SumLive(chunks) - chunks[c].live + ch.live
    ensures chunks[c].live <= SumLive(chunks)
  {
    var n := |chunks| - 1;
    var chunks' := chunks[c := ch];
    if c < n {
      SumLiveWrite(chunks[..n], c, ch);
      assert chunks'[..n] == chunks[..n][c := ch];
    } else {
      assert chunks'[..n] == chunks[..n];
    }
  }

  // Chunks that each hold a live order are no more than the live orders.
  lemma {:induction false} SumLiveAtLeast(chunks: seq<Chunk>, used: nat)
    requires used <= |chunks|
    requires forall c :: 0 <= c < used ==> chunks[c].live > 0
    ensures used <= SumLive(chunks)
  {
    if chunks != [] {
      var n := |chunks| - 1;
      SumLiveAtLeast(chunks[..n], if used <= n then used else n);
    }
  }

  // ---- one slot of a chain --------------------------------------------------

  // The order a loc identifies, if its slot is live.
  function OrderAt(chunks: seq<Chunk>, loc: nat): Option<RestingOrder> {
    var (c, i) := (LocChunk(loc), LocSlot(loc));
    if c < |chunks| && i < CHUNK_SLOTS && chunks[c].s[i].qty != 0 then Some(OrderIn(chunks[c], i)) else None
  }

  // What a live loc reads.
  lemma SlotFacts(chunks: seq<Chunk>, loc: nat, o: RestingOrder)
    requires OrderAt(chunks, loc) == Some(o)
    ensures LocChunk(loc) < |chunks| && LocSlot(loc) < CHUNK_SLOTS && OrderIn(chunks[LocChunk(loc)], LocSlot(loc)) == o
  {
  }

  // The orders of a chain in front of, and behind, slot `i` of its j-th chunk.
  function Ahead(chunks: seq<Chunk>, chain: seq<nat>, j: nat, i: nat): seq<RestingOrder>
    requires j < |chain| && chain[j] < |chunks| && i < CHUNK_SLOTS
  {
    ChainOrders(chunks, chain[..j]) + Slots(chunks[chain[j]], 0, i)
  }

  function Behind(chunks: seq<Chunk>, chain: seq<nat>, j: nat, i: nat): seq<RestingOrder>
    requires j < |chain| && chain[j] < |chunks| && i < CHUNK_SLOTS
  {
    Slots(chunks[chain[j]], i + 1, CHUNK_SLOTS) + ChainOrders(chunks, chain[j + 1..])
  }

  lemma Regroup<T>(a: seq<T>, b: seq<T>, c: seq<T>, d: seq<T>, e: seq<T>)
    ensures a + (b + c + d) + e == (a + b) + c + (d + e)
  {
  }

  lemma SlotAround(chunks: seq<Chunk>, chain: seq<nat>, j: nat, i: nat)
    requires j < |chain| && chain[j] < |chunks| && i < CHUNK_SLOTS
    ensures ChainOrders(chunks, chain)
         == Ahead(chunks, chain, j, i) + SlotOrder(chunks[chain[j]], i) + Behind(chunks, chain, j, i)
  {
    var ch := chunks[chain[j]];
    ChainAround(chunks, chain, j);
    ChunkAround(ch, i);
    Regroup(ChainOrders(chunks, chain[..j]), Slots(ch, 0, i), SlotOrder(ch, i),
            Slots(ch, i + 1, CHUNK_SLOTS), ChainOrders(chunks, chain[j + 1..]));
  }

  // Writing one slot keeps everything ahead of it and behind it.
  lemma SlotWritten(chunks: seq<Chunk>, chain: seq<nat>, j: nat, i: nat, ch: Chunk)
    requires j < |chain| && chain[j] < |chunks| && i < CHUNK_SLOTS && Distinct(chain)
    requires forall q :: 0 <= q < CHUNK_SLOTS && q != i ==> OrderIn(chunks[chain[j]], q) == OrderIn(ch, q)
    ensures ChainOrders(chunks[chain[j] := ch], chain)
         == Ahead(chunks, chain, j, i) + SlotOrder(ch, i) + Behind(chunks, chain, j, i)
  {
    ChainWrite(chunks, chunks[chain[j] := ch], chain, j);
    ChunkWrite(chunks[chain[j]], ch, i);
    Regroup(ChainOrders(chunks, chain[..j]), Slots(chunks[chain[j]], 0, i), SlotOrder(ch, i),
            Slots(chunks[chain[j]], i + 1, CHUNK_SLOTS), ChainOrders(chunks, chain[j + 1..]));
  }

  // Replacing an empty chunk by an empty chunk changes no order.
  lemma EmptyReplaced(chunks: seq<Chunk>, c: nat, ch: Chunk)
    requires c < |chunks| && ChunkOrders(chunks[c]) == [] && ChunkOrders(ch) == []
    ensures forall q: nat :: OrdersAt(chunks[c := ch], q) == OrdersAt(chunks, q)
    ensures forall loc: nat :: OrderAt(chunks[c := ch], loc) == OrderAt(chunks, loc)
  {
    SlotsDead(chunks[c], 0, CHUNK_SLOTS);
    SlotsDead(ch, 0, CHUNK_SLOTS);
  }

  lemma {:induction false} SumQtyAppend(a: seq<RestingOrder>, b: seq<RestingOrder>)
    ensures SumQty(a + b) == SumQty(a) + SumQty(b)
  {
    if a == [] {
      assert a + b == b;
    } else {
      assert (a + b)[1..] == a[1..] + b;
      SumQtyAppend(a[1..], b);
    }
  }

  lemma SumQtyAround(a: seq<RestingOrder>, m: seq<RestingOrder>, b: seq<RestingOrder>)
    ensures SumQty(a + m + b) == SumQty(a) + SumQty(m) + SumQty(b)
  {
    SumQtyAppend(a + m, b);
    SumQtyAppend(a, m);
  }
}
