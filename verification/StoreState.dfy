// The invariant of the order store as a predicate over values: src/store.rs:101-110.
//
// `chain` maps every level that has orders to the chunks of its queue, front
// first; `free` is the free list, top first. `x` names the one chunk that is
// exempt while an operation is under way: it may be linked, or off the free
// list, with no live order. `x == NIL` exempts nothing.

module StoreState {
  import opened Types
  import opened Chunks

  ghost predicate ChunkOk(ch: Chunk) {
    && ch.live == |ChunkOrders(ch)|
    && ch.head <= ch.tail <= CHUNK_SLOTS
    && forall i :: 0 <= i < CHUNK_SLOTS && ch.s[i].qty != 0 ==> ch.head <= i < ch.tail
  }

  // The i-th chunk's links agree with the chain.
  ghost predicate Linked(chunks: seq<Chunk>, chain: seq<nat>, i: nat)
    requires i < |chain|
  {
    && chain[i] < |chunks|
    && chunks[chain[i]].prev == (if i == 0 then NIL else chain[i - 1])
    && chunks[chain[i]].next == (if i + 1 == |chain| then NIL else chain[i + 1])
  }

  ghost predicate Member(chunks: seq<Chunk>, used: nat, key: LevelKey, c: nat, x: int) {
    c < used && c < |chunks| && KeyOf(chunks[c]) == key && (chunks[c].live > 0 || c == x)
  }

  ghost predicate ChainOk(chunks: seq<Chunk>, used: nat, key: LevelKey, chain: seq<nat>, x: int) {
    && chain != [] && Distinct(chain)
    && (forall i :: 0 <= i < |chain| ==> Member(chunks, used, key, chain[i], x))
    && (forall i {:trigger Linked(chunks, chain, i)} :: 0 <= i < |chain| ==> Linked(chunks, chain, i))
  }

  ghost predicate FreeLinked(chunks: seq<Chunk>, free: seq<nat>, i: nat)
    requires i < |free|
  {
    && free[i] < |chunks|
    && chunks[free[i]].next == (if i + 1 == |free| then NIL else free[i + 1])
  }

  ghost predicate FreeOk(chunks: seq<Chunk>, used: nat, top: u32, free: seq<nat>, x: int) {
    && Distinct(free)
    && top == (if free == [] then NIL else free[0])
    && (forall i :: 0 <= i < |free| ==>
          free[i] < used && free[i] < |chunks| && free[i] != x && chunks[free[i]].live == 0)
    && (forall i {:trigger FreeLinked(chunks, free, i)} :: 0 <= i < |free| ==> FreeLinked(chunks, free, i))
  }

  ghost predicate Placed(chunks: seq<Chunk>, free: seq<nat>, chain: map<LevelKey, seq<nat>>, c: nat)
    requires c < |chunks|
  {
    if chunks[c].live == 0 then c in free
    else KeyOf(chunks[c]) in chain && c in chain[KeyOf(chunks[c])]
  }

  ghost predicate StoreOk(chunks: seq<Chunk>, used: nat, top: u32, free: seq<nat>, chain: map<LevelKey, seq<nat>>,
                          x: int)
  {
    && used <= |chunks| && used <= MAX_ORDERS
    && (forall c {:trigger ChunkOk(chunks[c])} :: 0 <= c < |chunks| ==> ChunkOk(chunks[c]))
    && (forall c :: used <= c < |chunks| ==> chunks[c].live == 0)
    && (forall k :: k in chain ==> ChainOk(chunks, used, k, chain[k], x))
    && FreeOk(chunks, used, top, free, x)
    && (forall c {:trigger Placed(chunks, free, chain, c)} :: 0 <= c < used && c != x ==>
          Placed(chunks, free, chain, c))
  }

  // The chunks in use and the free list partition [0, used).
  lemma Partition(chunks: seq<Chunk>, used: nat, top: u32, free: seq<nat>, chain: map<LevelKey, seq<nat>>, c: nat)
    requires StoreOk(chunks, used, top, free, chain, NIL)
    ensures c < used <==> (c in free || exists k :: k in chain && c in chain[k])
    ensures c in free ==> !exists k :: k in chain && c in chain[k]
    ensures forall k, k' :: k in chain && k' in chain && c in chain[k] && c in chain[k'] ==> k == k'
  {
    if c < used {
      assert Placed(chunks, free, chain, c);
    }
  }

  function ChainAt(chain: map<LevelKey, seq<nat>>, k: LevelKey): seq<nat> {
    if k in chain then chain[k] else []
  }

  function LastOf(s: seq<nat>): nat {
    if s == [] then NIL else s[|s| - 1]
  }

  function FirstOf(s: seq<nat>): nat {
    if s == [] then NIL else s[0]
  }

  // Every loc reads the same.
  ghost predicate SameSlots(before: seq<Chunk>, chunks: seq<Chunk>) {
    forall loc: nat :: OrderAt(chunks, loc) == OrderAt(before, loc)
  }

  // Every queue reads the same.
  ghost predicate SameQueues(before: seq<Chunk>, chain: map<LevelKey, seq<nat>>, chunks: seq<Chunk>,
                             chain': map<LevelKey, seq<nat>>)
  {
    forall k :: ChainOrders(chunks, ChainAt(chain', k)) == ChainOrders(before, ChainAt(chain, k))
  }

  // Where a live slot is: in use, in its level's chain.
  lemma LivePlaced(chunks: seq<Chunk>, used: nat, top: u32, free: seq<nat>, chain: map<LevelKey, seq<nat>>, loc: nat)
    requires StoreOk(chunks, used, top, free, chain, NIL) && OrderAt(chunks, loc).Some?
    ensures var (c, i) := (LocChunk(loc), LocSlot(loc));
            && c < used && c < |chunks| && i < CHUNK_SLOTS && chunks[c].live > 0
            && KeyOf(chunks[c]) in chain && c in chain[KeyOf(chunks[c])]
  {
    var (c, i) := (LocChunk(loc), LocSlot(loc));
    assert ChunkOk(chunks[c]);
    ChunkAround(chunks[c], i);
    assert Placed(chunks, free, chain, c);
  }

  lemma MemberFacts(chunks: seq<Chunk>, used: nat, top: u32, free: seq<nat>, chain: map<LevelKey, seq<nat>>, x: int,
                    k: LevelKey, j: nat)
    requires StoreOk(chunks, used, top, free, chain, x)
    requires k in chain && j < |chain[k]|
    ensures var c := chain[k][j];
            c < used && c < |chunks| && KeyOf(chunks[c]) == k && c in chain[k] && ChunkOk(chunks[c])
    ensures Distinct(chain[k]) && Linked(chunks, chain[k], j)
    ensures forall k' :: k' in chain ==> ChainOk(chunks, used, k', chain[k'], x)
  {
    assert ChainOk(chunks, used, k, chain[k], x);
    assert Member(chunks, used, k, chain[k][j], x);
    assert ChunkOk(chunks[chain[k][j]]);
    assert Linked(chunks, chain[k], j);
  }

  // A level has a chain exactly when it has an order, and exactly when its head is a chunk.
  lemma LevelFacts(chunks: seq<Chunk>, used: nat, top: u32, free: seq<nat>, chain: map<LevelKey, seq<nat>>, k: LevelKey)
    requires StoreOk(chunks, used, top, free, chain, NIL)
    ensures k in chain <==> FirstOf(ChainAt(chain, k)) != NIL
    ensures k in chain <==> ChainOrders(chunks, ChainAt(chain, k)) != []
    ensures k in chain ==>
              var c := FirstOf(chain[k]);
              chain[k] != [] && c == chain[k][0] && c < used && c < |chunks| && KeyOf(chunks[c]) == k
                && chunks[c].live > 0
              && ChunkOk(chunks[c])
  {
    hide ChunkOrders, OrdersAt;
    if k in chain {
      assert ChainOk(chunks, used, k, chain[k], NIL);
      MemberFacts(chunks, used, top, free, chain, NIL, k, 0);
      assert Member(chunks, used, k, chain[k][0], NIL);
      FirstChunk(chunks, chain[k]);
    }
  }

  lemma FirstChunk(chunks: seq<Chunk>, chain: seq<nat>)
    requires chain != [] && chain[0] < |chunks| && ChunkOk(chunks[chain[0]]) && chunks[chain[0]].live > 0
    ensures ChainOrders(chunks, chain) != []
  {
    hide Slots;
  }

  // The links of a level's first chunk, as the queue walk reads them.
  lemma NextOf(chunks: seq<Chunk>, used: nat, top: u32, free: seq<nat>, chain: map<LevelKey, seq<nat>>, k: LevelKey,
               j: nat)
    requires StoreOk(chunks, used, top, free, chain, NIL) && k in chain && j < |chain[k]|
    ensures chain[k][j] < |chunks| && chain[k][j] < used && KeyOf(chunks[chain[k][j]]) == k
            && ChunkOk(chunks[chain[k][j]])
    ensures chunks[chain[k][j]].next == (if j + 1 == |chain[k]| then NIL else chain[k][j + 1])
  {
    MemberFacts(chunks, used, top, free, chain, NIL, k, j);
  }
}
