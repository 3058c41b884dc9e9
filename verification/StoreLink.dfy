// Taking a chunk and linking it at the back of a level: src/store.rs:139-163 and
// src/store.rs:196-206.

module StoreLink {
  import opened Types
  import opened Chunks
  import opened StoreState

  function Fresh(ch: Chunk, side: Side, price: Price, prev: u32): (r: Chunk)
    ensures ChunkOrders(ch) == [] ==> ChunkOrders(r) == []
  {
    var r := ch.(price := price, prev := prev, next := NIL, head := 0, tail := 0, live := 0, side := side);
    SlotsDead(ch, 0, CHUNK_SLOTS);
    SlotsDead(r, 0, CHUNK_SLOTS);
    r
  }

  lemma FreshOk(ch: Chunk, side: Side, price: Price, prev: u32)
    requires ChunkOk(ch) && ch.live == 0
    ensures ChunkOk(Fresh(ch, side, price, prev))
  {
    SlotsDead(Fresh(ch, side, price, prev), 0, CHUNK_SLOTS);
  }

  // Chunk `c` is linked nowhere and off the free list.
  ghost predicate Loose(chain: map<LevelKey, seq<nat>>, c: nat) {
    forall k :: k in chain ==> c !in chain[k]
  }

  lemma DeadIsLoose(chunks: seq<Chunk>, used: nat, top: u32, free: seq<nat>, chain: map<LevelKey, seq<nat>>, c: nat)
    requires StoreOk(chunks, used, top, free, chain, NIL)
    requires c >= used || chunks[c].live == 0
    ensures Loose(chain, c)
  {
    forall k | k in chain
      ensures c !in chain[k]
    {
      assert ChainOk(chunks, used, k, chain[k], NIL);
      forall i | 0 <= i < |chain[k]|
        ensures chain[k][i] != c
      {
        assert Member(chunks, used, k, chain[k][i], NIL);
      }
    }
  }

  // Popping the free list, or extending the used prefix, and resetting the chunk.
  lemma TakeOk(chunks: seq<Chunk>, used: nat, top: u32, free: seq<nat>, chain: map<LevelKey, seq<nat>>,
               used': nat, top': u32, free': seq<nat>, c: nat, ch: Chunk)
    requires StoreOk(chunks, used, top, free, chain, NIL)
    requires c < |chunks| && ChunkOk(ch) && ch.live == 0
    requires if free != [] then
               c == free[0] && used' == used && free' == free[1..] && top' == chunks[c].next
             else
               c == used && used' == used + 1 <= MAX_ORDERS && free' == free && top' == top
    ensures StoreOk(chunks[c := ch], used', top', free', chain, c)
    ensures Loose(chain, c)
  {
    var chunks' := chunks[c := ch];
    DeadIsLoose(chunks, used, top, free, chain, c);
    forall k | k in chain
      ensures ChainOk(chunks', used', k, chain[k], c)
    {
      LooseChain(chunks, used, used', k, chain[k], NIL, c, ch);
    }
    TakeFree(chunks, used, top, free, used', top', free', c, ch);
    forall q | 0 <= q < used' && q != c
      ensures Placed(chunks', free', chain, q)
    {
      assert Placed(chunks, free, chain, q);
      TakePlaced(chunks, free, chain, free', c, ch, q);
    }
    forall q | 0 <= q < |chunks'|
      ensures ChunkOk(chunks'[q])
    {
      assert q != c ==> ChunkOk(chunks[q]);
    }
  }

  lemma TakePlaced(chunks: seq<Chunk>, free: seq<nat>, chain: map<LevelKey, seq<nat>>, free': seq<nat>, c: nat,
                   ch: Chunk, q: nat)
    requires q < |chunks| && c < |chunks| && q != c && Placed(chunks, free, chain, q)
    requires free' == if free != [] && free[0] == c then free[1..] else free
    ensures Placed(chunks[c := ch], free', chain, q)
  {
    if chunks[q].live == 0 {
      var i :| 0 <= i < |free| && free[i] == q;
      assert free' != free ==> free'[i - 1] == q;
    }
  }

  lemma LooseChain(chunks: seq<Chunk>, used: nat, used': nat, k: LevelKey, chain: seq<nat>, x: int, c: nat, ch: Chunk)
    requires ChainOk(chunks, used, k, chain, x) && c < |chunks| && c !in chain && used <= used' <= MAX_ORDERS
    requires x == NIL || x == c
    ensures ChainOk(chunks[c := ch], used', k, chain, c)
  {
    forall i | 0 <= i < |chain|
      ensures Member(chunks[c := ch], used', k, chain[i], c)
      ensures Linked(chunks[c := ch], chain, i)
    {
      assert chain[i] in chain;
      assert Member(chunks, used, k, chain[i], x);
      assert Linked(chunks, chain, i);
    }
  }

  lemma TakeFree(chunks: seq<Chunk>, used: nat, top: u32, free: seq<nat>,
                 used': nat, top': u32, free': seq<nat>, c: nat, ch: Chunk)
    requires FreeOk(chunks, used, top, free, NIL) && c < |chunks| && used <= used'
    requires if free != [] then
               c == free[0] && used' == used && free' == free[1..] && top' == chunks[c].next
             else
               c == used && free' == free && top' == top
    ensures FreeOk(chunks[c := ch], used', top', free', c)
  {
    if free != [] {
      assert FreeLinked(chunks, free, 0);
      assert free == [c] + free';
      DistinctTail(c, free');
      forall i | 0 <= i < |free'|
        ensures free'[i] != c && FreeLinked(chunks[c := ch], free', i)
      {
        assert free'[i] == free[i + 1] && FreeLinked(chunks, free, i + 1);
      }
    }
  }

  function Appended(chunks: seq<Chunk>, chain: seq<nat>, c: nat): (r: seq<Chunk>)
    requires c < 0x1_0000_0000
    ensures |r| == |chunks|
  {
    if chain != [] && LastOf(chain) < |chunks| then
      chunks[LastOf(chain) := chunks[LastOf(chain)].(next := c)]
    else chunks
  }

  lemma AppendedOrders(chunks: seq<Chunk>, chain: seq<nat>, c: nat, q: nat)
    requires c < 0x1_0000_0000 && q < |chunks|
    ensures ChunkOrders(Appended(chunks, chain, c)[q]) == ChunkOrders(chunks[q])
    ensures ChunkOk(chunks[q]) ==> ChunkOk(Appended(chunks, chain, c)[q])
  {
    SlotsSame(chunks[q], Appended(chunks, chain, c)[q], 0, CHUNK_SLOTS);
  }

  lemma AppendedOne(chunks: seq<Chunk>, used: nat, chain: map<LevelKey, seq<nat>>, k: LevelKey, c: nat, k': LevelKey)
    requires c < used <= |chunks| <= MAX_ORDERS && Loose(chain, c)
    requires KeyOf(chunks[c]) == k
    requires chunks[c].prev == LastOf(ChainAt(chain, k)) && chunks[c].next == NIL
    requires k in chain ==> ChainOk(chunks, used, k, chain[k], c)
    requires k' in chain ==> ChainOk(chunks, used, k', chain[k'], c)
    requires k' in chain || k' == k
    ensures ChainOk(Appended(chunks, ChainAt(chain, k), c), used, k', chain[k := ChainAt(chain, k) + [c]][k'], c)
  {
    if k' == k {
      AppendedChain(chunks, used, k, ChainAt(chain, k), c);
    } else {
      AppendedElsewhere(chunks, used, k, ChainAt(chain, k), c, k', chain[k']);
    }
  }

  // Linking a loose chunk at the back of its level.
  lemma AppendedOk(chunks: seq<Chunk>, used: nat, top: u32, free: seq<nat>, chain: map<LevelKey, seq<nat>>, k: LevelKey,
                   c: nat)
    requires StoreOk(chunks, used, top, free, chain, c) && Loose(chain, c) && |chunks| <= MAX_ORDERS
    requires c < used && KeyOf(chunks[c]) == k && chunks[c].live == 0
    requires chunks[c].prev == LastOf(ChainAt(chain, k)) && chunks[c].next == NIL
    ensures StoreOk(Appended(chunks, ChainAt(chain, k), c), used, top, free, chain[k := ChainAt(chain, k) + [c]], c)
  {
    var last := ChainAt(chain, k);
    var chunks' := Appended(chunks, last, c);
    var chain' := chain[k := last + [c]];
    if k in chain {
      assert ChainOk(chunks, used, k, chain[k], c);
      assert Member(chunks, used, k, last[|last| - 1], c);
      assert last[|last| - 1] in last;
    }
    forall k' | k' in chain'
      ensures ChainOk(chunks', used, k', chain'[k'], c)
    {
      assert k' in chain ==> ChainOk(chunks, used, k', chain[k'], c);
      AppendedOne(chunks, used, chain, k, c, k');
    }
    AppendedFree(chunks, used, top, free, last, c);
    AppendedChunks(chunks, used, free, chain, k, c);
  }

  ghost predicate ChunksOk(chunks: seq<Chunk>) {
    forall q {:trigger ChunkOk(chunks[q])} :: 0 <= q < |chunks| ==> ChunkOk(chunks[q])
  }

  ghost predicate PlacedBut(chunks: seq<Chunk>, used: nat, free: seq<nat>, chain: map<LevelKey, seq<nat>>, c: nat) {
    forall q {:trigger Placed(chunks, free, chain, q)} :: 0 <= q < used && q < |chunks| && q != c ==>
      Placed(chunks, free, chain, q)
  }

  lemma AppendedChunks(chunks: seq<Chunk>, used: nat, free: seq<nat>, chain: map<LevelKey, seq<nat>>, k: LevelKey,
                       c: nat)
    requires c < 0x1_0000_0000 && used <= |chunks|
    requires ChunksOk(chunks) && PlacedBut(chunks, used, free, chain, c)
    ensures var chunks' := Appended(chunks, ChainAt(chain, k), c);
            ChunksOk(chunks') && PlacedBut(chunks', used, free, chain[k := ChainAt(chain, k) + [c]], c)
  {
    var chunks' := Appended(chunks, ChainAt(chain, k), c);
    var chain' := chain[k := ChainAt(chain, k) + [c]];
    forall q | 0 <= q < |chunks|
      ensures ChunkOk(chunks'[q])
    {
      assert ChunkOk(chunks[q]);
      AppendedOrders(chunks, ChainAt(chain, k), c, q);
    }
    forall q | 0 <= q < used && q != c
      ensures Placed(chunks', free, chain', q)
    {
      assert Placed(chunks, free, chain, q);
      AppendedPlaced(chunks, free, chain, k, c, q);
    }
  }

  lemma AppendedPlaced(chunks: seq<Chunk>, free: seq<nat>, chain: map<LevelKey, seq<nat>>, k: LevelKey, c: nat, q: nat)
    requires c < 0x1_0000_0000 && q < |chunks| && Placed(chunks, free, chain, q)
    ensures Placed(Appended(chunks, ChainAt(chain, k), c), free, chain[k := ChainAt(chain, k) + [c]], q)
  {
  }

  lemma AppendedChain(chunks: seq<Chunk>, used: nat, k: LevelKey, chain: seq<nat>, c: nat)
    requires chain != [] ==> ChainOk(chunks, used, k, chain, c)
    requires c < used <= |chunks| <= MAX_ORDERS && c !in chain
    requires KeyOf(chunks[c]) == k && chunks[c].prev == LastOf(chain) && chunks[c].next == NIL
    ensures ChainOk(Appended(chunks, chain, c), used, k, chain + [c], c)
  {
    var chunks' := Appended(chunks, chain, c);
    var chain' := chain + [c];
    DistinctSnoc(chain, c);
    forall i | 0 <= i < |chain'|
      ensures Member(chunks', used, k, chain'[i], c)
      ensures Linked(chunks', chain', i)
    {
      if i < |chain| {
        assert chain'[i] == chain[i];
        assert Member(chunks, used, k, chain[i], c);
        assert Linked(chunks, chain, i);
        if i + 1 < |chain| { DistinctAt(chain, i, |chain| - 1); }
      } else if chain != [] {
        assert chain[|chain| - 1] in chain;
      }
    }
  }

  lemma AppendedElsewhere(chunks: seq<Chunk>, used: nat, k: LevelKey, chain: seq<nat>, c: nat, k': LevelKey,
                          chain': seq<nat>)
    requires chain != [] ==> ChainOk(chunks, used, k, chain, c)
    requires ChainOk(chunks, used, k', chain', c) && k != k' && used <= |chunks| <= MAX_ORDERS && c < used
    ensures ChainOk(Appended(chunks, chain, c), used, k', chain', c)
  {
    if chain != [] { assert Member(chunks, used, k, LastOf(chain), c); }
    forall i | 0 <= i < |chain'|
      ensures Member(Appended(chunks, chain, c), used, k', chain'[i], c)
      ensures Linked(Appended(chunks, chain, c), chain', i)
    {
      assert Member(chunks, used, k', chain'[i], c);
      assert Linked(chunks, chain', i);
    }
  }

  lemma AppendedFree(chunks: seq<Chunk>, used: nat, top: u32, free: seq<nat>, chain: seq<nat>, c: nat)
    requires FreeOk(chunks, used, top, free, c) && c < |chunks| <= MAX_ORDERS
    requires chain != [] ==> LastOf(chain) < |chunks| && chunks[LastOf(chain)].live > 0
    ensures FreeOk(Appended(chunks, chain, c), used, top, free, c)
  {
    forall i | 0 <= i < |free|
      ensures FreeLinked(Appended(chunks, chain, c), free, i)
    {
      assert FreeLinked(chunks, free, i);
      assert chunks[free[i]].live == 0;
    }
  }
}
