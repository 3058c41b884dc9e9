// Unlinking one chunk of a level and freeing it: src/store.rs:165-184.

module StoreUnlink {
  import opened Types
  import opened Chunks
  import opened StoreState

  // Chunk `c` bypassed by its neighbours and put on top of the free list.
  function Bypassed(chunks: seq<Chunk>, c: nat, top: u32): (r: seq<Chunk>)
    requires c < |chunks|
    ensures |r| == |chunks|
  {
    seq(|chunks|, q requires 0 <= q < |chunks| => BypassedChunk(chunks, c, top, q))
  }

  function BypassedChunk(chunks: seq<Chunk>, c: nat, top: u32, q: nat): Chunk
    requires c < |chunks| && q < |chunks|
  {
    chunks[q].(next := if q == c then top else if q == chunks[c].prev then chunks[c].next else chunks[q].next,
               prev := if q == chunks[c].next then chunks[c].prev else chunks[q].prev)
  }

  lemma BypassedOrders(chunks: seq<Chunk>, c: nat, top: u32, q: nat)
    requires c < |chunks| && q < |chunks|
    ensures ChunkOrders(Bypassed(chunks, c, top)[q]) == ChunkOrders(chunks[q])
    ensures ChunkOk(chunks[q]) ==> ChunkOk(Bypassed(chunks, c, top)[q])
  {
    SlotsSame(chunks[q], Bypassed(chunks, c, top)[q], 0, CHUNK_SLOTS);
  }

  function WithoutChunk(chain: map<LevelKey, seq<nat>>, k: LevelKey, i: nat): map<LevelKey, seq<nat>>
    requires k in chain && i < |chain[k]|
  {
    var rest := Skip(chain[k], i);
    if rest == [] then chain - {k} else chain[k := rest]
  }

  // The chain without its i-th chunk.
  function Skip(chain: seq<nat>, i: nat): seq<nat>
    requires i < |chain|
  {
    seq(|chain| - 1, j requires 0 <= j < |chain| - 1 => if j < i then chain[j] else chain[j + 1])
  }

  // Links differ only at the neighbours of the bypassed chunk.
  lemma BypassedLink(chunks: seq<Chunk>, used: nat, key: LevelKey, chain: seq<nat>, i: nat, top: u32, j: nat)
    requires i < |chain| && used <= |chunks| <= MAX_ORDERS
    requires ChainOk(chunks, used, key, chain, chain[i])
    requires j + 1 < |chain|
    ensures Linked(Bypassed(chunks, chain[i], top), Skip(chain, i), j)
  {
    hide Distinct;
    var j0 := if j < i then j else j + 1;
    assert Linked(chunks, chain, i) && Linked(chunks, chain, j0);
    DistinctAt(chain, j0, i);
    if i > 0 && j0 != i - 1 { DistinctAt(chain, j0, i - 1); }
    if i + 1 < |chain| && j0 != i + 1 { DistinctAt(chain, j0, i + 1); }
  }

  lemma BypassedLinks(chunks: seq<Chunk>, used: nat, key: LevelKey, chain: seq<nat>, i: nat, top: u32)
    requires i < |chain| && used <= |chunks| <= MAX_ORDERS
    requires ChainOk(chunks, used, key, chain, chain[i])
    ensures var rest := Skip(chain, i);
            rest != [] ==> ChainOk(Bypassed(chunks, chain[i], top), used, key, rest, NIL)
  {
    var rest := Skip(chain, i);
    DistinctWithout(chain, i);
    assert rest == chain[..i] + chain[i + 1..];
    hide Distinct;
    forall j | 0 <= j < |rest|
      ensures Member(Bypassed(chunks, chain[i], top), used, key, rest[j], NIL)
      ensures Linked(Bypassed(chunks, chain[i], top), rest, j)
    {
      DistinctAt(chain, if j < i then j else j + 1, i);
      BypassedLink(chunks, used, key, chain, i, top, j);
    }
  }

  lemma BypassedChain(chunks: seq<Chunk>, used: nat, chain: map<LevelKey, seq<nat>>, k: LevelKey, i: nat, top: u32,
                      k': LevelKey)
    requires k in chain && i < |chain[k]| && used <= |chunks| <= MAX_ORDERS
    requires ChainOk(chunks, used, k, chain[k], chain[k][i])
    requires k' in WithoutChunk(chain, k, i)
    requires ChainOk(chunks, used, k', chain[k'], chain[k][i])
    ensures ChainOk(Bypassed(chunks, chain[k][i], top), used, k', WithoutChunk(chain, k, i)[k'], NIL)
  {
    if k' != k {
      BypassedElsewhere(chunks, used, k, chain[k], i, k', chain[k'], top);
    } else {
      BypassedLinks(chunks, used, k, chain[k], i, top);
    }
  }

  // Releasing a linked chunk whose last live order just died.
  lemma BypassedOk(chunks: seq<Chunk>, used: nat, top: u32, free: seq<nat>, chain: map<LevelKey, seq<nat>>, k: LevelKey,
                   i: nat)
    requires k in chain && i < |chain[k]|
    requires |chunks| <= MAX_ORDERS
    requires StoreOk(chunks, used, top, free, chain, chain[k][i])
    requires chunks[chain[k][i]].live == 0
    ensures var c := chain[k][i];
            StoreOk(Bypassed(chunks, c, top), used, c, [c] + free, WithoutChunk(chain, k, i), NIL)
  {
    var c, chain' := chain[k][i], WithoutChunk(chain, k, i);
    var chunks' := Bypassed(chunks, c, top);
    assert ChainOk(chunks, used, k, chain[k], c);
    BypassedFree(chunks, used, top, free, k, chain[k], i);
    forall k' | k' in chain'
      ensures ChainOk(chunks', used, k', chain'[k'], NIL)
    {
      assert ChainOk(chunks, used, k', chain[k'], c);
      BypassedChain(chunks, used, chain, k, i, top, k');
    }
    forall q | 0 <= q < used && q != NIL
      ensures Placed(chunks', [c] + free, chain', q)
    {
      assert q != c ==> Placed(chunks, free, chain, q);
      BypassedPlaced(chunks, used, top, free, chain, k, i, q);
    }
    forall q | 0 <= q < |chunks'|
      ensures ChunkOk(chunks'[q])
    {
      assert ChunkOk(chunks[q]);
      BypassedOrders(chunks, c, top, q);
    }
  }

  lemma BypassedPlaced(chunks: seq<Chunk>, used: nat, top: u32, free: seq<nat>, chain: map<LevelKey, seq<nat>>,
                       k: LevelKey, i: nat, q: nat)
    requires k in chain && i < |chain[k]| && chain[k][i] < |chunks|
    requires q < used <= |chunks|
    requires q != chain[k][i] ==> Placed(chunks, free, chain, q)
    requires chunks[chain[k][i]].live == 0
    ensures Placed(Bypassed(chunks, chain[k][i], top), [chain[k][i]] + free, WithoutChunk(chain, k, i), q)
  {
    if q != chain[k][i] && chunks[q].live > 0 && KeyOf(chunks[q]) == k {
      var j :| 0 <= j < |chain[k]| && chain[k][j] == q;
      assert Skip(chain[k], i)[if j < i then j else j - 1] == q;
    }
  }

  // Chunks of another level are not touched: their headers name that level.
  lemma BypassedElsewhere(chunks: seq<Chunk>, used: nat, k: LevelKey, chain: seq<nat>, i: nat, k': LevelKey,
                          chain': seq<nat>, top: u32)
    requires i < |chain| && used <= |chunks| <= MAX_ORDERS && k != k'
    requires ChainOk(chunks, used, k, chain, chain[i]) && ChainOk(chunks, used, k', chain', chain[i])
    ensures ChainOk(Bypassed(chunks, chain[i], top), used, k', chain', NIL)
  {
    assert Linked(chunks, chain, i);
    forall j | 0 <= j < |chain'|
      ensures chain'[j] != chain[i]
      ensures i > 0 ==> chain'[j] != chain[i - 1]
      ensures i + 1 < |chain| ==> chain'[j] != chain[i + 1]
      ensures Linked(Bypassed(chunks, chain[i], top), chain', j)
    {
      assert Member(chunks, used, k', chain'[j], chain[i]);
      assert Linked(chunks, chain', j);
    }
  }

  lemma BypassedFree(chunks: seq<Chunk>, used: nat, top: u32, free: seq<nat>, k: LevelKey, chain: seq<nat>, i: nat)
    requires i < |chain| && used <= |chunks| <= MAX_ORDERS
    requires ChainOk(chunks, used, k, chain, chain[i]) && FreeOk(chunks, used, top, free, chain[i])
    requires chunks[chain[i]].live == 0
    ensures FreeOk(Bypassed(chunks, chain[i], top), used, chain[i], [chain[i]] + free, NIL)
  {
    var c := chain[i];
    var chunks' := Bypassed(chunks, c, top);
    var free' := [c] + free;
    DistinctCons(c, free);
    forall j | 0 <= j < |free'|
      ensures FreeLinked(chunks', free', j)
    {
      if j > 0 {
        assert free'[j] == free[j - 1] && FreeLinked(chunks, free, j - 1);
        BypassedDead(chunks, used, k, chain, i, top, free[j - 1]);
      }
    }
  }

  // A chunk with no live order is no neighbour of a linked one.
  lemma BypassedDead(chunks: seq<Chunk>, used: nat, k: LevelKey, chain: seq<nat>, i: nat, top: u32, f: nat)
    requires i < |chain| && used <= |chunks| <= MAX_ORDERS
    requires ChainOk(chunks, used, k, chain, chain[i])
    requires f < used && f != chain[i] && chunks[f].live == 0
    ensures Bypassed(chunks, chain[i], top)[f].next == chunks[f].next
  {
    assert Linked(chunks, chain, i);
    if i > 0 {
      DistinctAt(chain, i - 1, i);
      assert Member(chunks, used, k, chain[i - 1], chain[i]);
    }
  }

  lemma {:induction false} SumLiveSame(chunks: seq<Chunk>, chunks': seq<Chunk>)
    requires |chunks| == |chunks'| && forall q :: 0 <= q < |chunks| ==> chunks[q].live == chunks'[q].live
    ensures SumLive(chunks) == SumLive(chunks')
  {
    if chunks != [] {
      SumLiveSame(chunks[..|chunks| - 1], chunks'[..|chunks| - 1]);
    }
  }

  lemma BypassedSlots(chunks: seq<Chunk>, c: nat, top: u32)
    requires c < |chunks|
    ensures SameSlots(chunks, Bypassed(chunks, c, top))
    ensures SumLive(Bypassed(chunks, c, top)) == SumLive(chunks)
    ensures forall q: nat :: OrdersAt(Bypassed(chunks, c, top), q) == OrdersAt(chunks, q)
  {
    var chunks' := Bypassed(chunks, c, top);
    SumLiveSame(chunks, chunks');
    forall q: nat
      ensures OrdersAt(chunks', q) == OrdersAt(chunks, q)
    {
      if q < |chunks| { BypassedOrders(chunks, c, top, q); }
    }
  }

  lemma SkipOrders(chunks: seq<Chunk>, chain: seq<nat>, i: nat)
    requires i < |chain| && OrdersAt(chunks, chain[i]) == []
    ensures ChainOrders(chunks, Skip(chain, i)) == ChainOrders(chunks, chain)
  {
    assert Skip(chain, i) == chain[..i] + chain[i + 1..];
    ChainAround(chunks, chain, i);
    ChainAppend(chunks, chain[..i], chain[i + 1..]);
  }

  lemma BypassedQueues(chunks: seq<Chunk>, chain: map<LevelKey, seq<nat>>, k: LevelKey, i: nat, top: u32)
    requires k in chain && i < |chain[k]| && chain[k][i] < |chunks|
    requires ChunkOrders(chunks[chain[k][i]]) == []
    ensures SameQueues(chunks, chain, Bypassed(chunks, chain[k][i], top), WithoutChunk(chain, k, i))
  {
    var chunks' := Bypassed(chunks, chain[k][i], top);
    var chain' := WithoutChunk(chain, k, i);
    BypassedSlots(chunks, chain[k][i], top);
    forall k'
      ensures ChainOrders(chunks', ChainAt(chain', k')) == ChainOrders(chunks, ChainAt(chain, k'))
    {
      BypassedQueue(chunks, chunks', chain, k, i, k');
    }
  }

  lemma BypassedQueue(chunks: seq<Chunk>, chunks': seq<Chunk>, chain: map<LevelKey, seq<nat>>, k: LevelKey, i: nat,
                      k': LevelKey)
    requires k in chain && i < |chain[k]| && OrdersAt(chunks, chain[k][i]) == []
    requires forall q: nat :: OrdersAt(chunks', q) == OrdersAt(chunks, q)
    ensures ChainOrders(chunks', ChainAt(WithoutChunk(chain, k, i), k')) == ChainOrders(chunks, ChainAt(chain, k'))
  {
    hide ChainOrders, OrdersAt;
    var rest := ChainAt(WithoutChunk(chain, k, i), k');
    ChainSame(chunks, chunks', rest);
    if k' == k {
      SkipOrders(chunks, chain[k], i);
      assert rest == Skip(chain[k], i);
    }
  }

  // The three link writes of `drop_chunk`, in its order.
  lemma BypassedSteps(chunks: seq<Chunk>, c: nat, top: u32)
    requires c < |chunks|
    requires chunks[c].prev != c && (chunks[c].prev != NIL ==> chunks[c].prev < |chunks|)
    requires chunks[c].next != c && (chunks[c].next != NIL ==> chunks[c].next < |chunks|) && |chunks| <= MAX_ORDERS
    ensures var (p, n) := (chunks[c].prev, chunks[c].next);
            var c1 := if p != NIL then chunks[p := chunks[p].(next := n)] else chunks;
            var c2 := if n != NIL then c1[n := c1[n].(prev := p)] else c1;
            c2[c := c2[c].(next := top)] == Bypassed(chunks, c, top)
  {
  }

  // The ends of a chain, as its level must store them, without its i-th chunk.
  lemma SkipEnds(chunks: seq<Chunk>, used: nat, key: LevelKey, chain: seq<nat>, i: nat)
    requires i < |chain| && used <= |chunks| && used <= MAX_ORDERS
    requires ChainOk(chunks, used, key, chain, chain[i])
    ensures chain[i] < |chunks|
    ensures var (p, n) := (chunks[chain[i]].prev, chunks[chain[i]].next);
            && p != chain[i] && n != chain[i] && (p != NIL ==> p < |chunks|) && (n != NIL ==> n < |chunks|)
            && FirstOf(Skip(chain, i)) == (if p != NIL then FirstOf(chain) else n)
            && LastOf(Skip(chain, i)) == (if n != NIL then LastOf(chain) else p)
  {
    hide Distinct;
    assert Linked(chunks, chain, i);
    assert Member(chunks, used, key, chain[i], chain[i]);
    if i > 0 {
      assert Member(chunks, used, key, chain[i - 1], chain[i]);
      DistinctAt(chain, i - 1, i);
    }
    if i + 1 < |chain| {
      assert Member(chunks, used, key, chain[i + 1], chain[i]);
      DistinctAt(chain, i, i + 1);
    }
  }
}
