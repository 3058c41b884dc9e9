// Linear probing as predicates over values: src/ordermap.rs:68-169. The slot
// array is a ring; an entry is reachable when no slot from its home to it is
// empty. Nothing here depends on what the hash is.

module Probing {
  import opened Types

  datatype Entry = Entry(key: u64, val: u32)

  type Hash = u64 -> u64

  // `(h >> 57) as u8 | 0x80`: never 0, the empty tag.
  function TagOf(h: u64): (t: u8)
    ensures t >= 0x80
  {
    0x80 + h / 0x200_0000_0000_0000
  }

  // `h & mask` for a power-of-two capacity.
  function Home(mix: Hash, key: u64, cap: nat): (h: nat)
    requires cap > 0
    ensures h < cap
  {
    mix(key) % cap
  }

  // `(i + 1) & mask`.
  function Next(i: nat, cap: nat): nat
    requires i < cap
  {
    if i + 1 == cap then 0 else i + 1
  }

  // Steps forward from `a` to `b` around the ring.
  function Dist(a: nat, b: nat, cap: nat): nat
    requires a < cap && b < cap
  {
    if a <= b then b - a else b + cap - a
  }

  // `x` is probed when walking from `home` to `i`.
  predicate OnPath(home: nat, x: nat, i: nat, cap: nat)
    requires home < cap && x < cap && i < cap
  {
    Dist(home, x, cap) <= Dist(home, i, cap)
  }

  ghost predicate Entries(tags: seq<u8>, entries: seq<Entry>, mix: Hash, pos: map<u64, nat>) {
    && |tags| == |entries| > 0
    && (forall i :: 0 <= i < |tags| && tags[i] != 0 ==>
          tags[i] == TagOf(mix(entries[i].key)) && entries[i].key in pos && pos[entries[i].key] == i)
    && (forall k :: k in pos ==> pos[k] < |tags| && tags[pos[k]] != 0 && entries[pos[k]].key == k)
  }

  // No empty slot between an entry's home and the entry.
  ghost predicate Reachable(tags: seq<u8>, entries: seq<Entry>, mix: Hash) {
    && |tags| == |entries| > 0
    && forall i, x :: 0 <= i < |tags| && 0 <= x < |tags| && tags[i] != 0
                      && OnPath(Home(mix, entries[i].key, |tags|), x, i, |tags|)
         ==> tags[x] != 0
  }

  ghost predicate TableOk(tags: seq<u8>, entries: seq<Entry>, mix: Hash, pos: map<u64, nat>) {
    Entries(tags, entries, mix, pos) && Reachable(tags, entries, mix)
  }

  // ---- an empty slot always exists ----------------------------------------------

  function KeysTo(entries: seq<Entry>, n: nat): set<u64>
    requires n <= |entries|
  {
    set i | 0 <= i < n :: entries[i].key
  }

  lemma NoKeys(entries: seq<Entry>)
    ensures KeysTo(entries, 0) == {}
  {
  }

  lemma KeysToNext(tags: seq<u8>, entries: seq<Entry>, mix: Hash, pos: map<u64, nat>, n: nat)
    requires Entries(tags, entries, mix, pos) && n < |tags|
    requires forall i :: 0 <= i <= n ==> tags[i] != 0
    ensures KeysTo(entries, n + 1) == KeysTo(entries, n) + {entries[n].key}
    ensures entries[n].key !in KeysTo(entries, n) && entries[n].key in pos
  {
    assert forall i :: 0 <= i <= n ==> pos[entries[i].key] == i;
  }

  lemma {:induction false} KeysToCount(tags: seq<u8>, entries: seq<Entry>, mix: Hash, pos: map<u64, nat>, n: nat)
    requires Entries(tags, entries, mix, pos) && n <= |tags|
    requires forall i :: 0 <= i < n ==> tags[i] != 0
    ensures |KeysTo(entries, n)| == n && KeysTo(entries, n) <= pos.Keys
  {
    hide Entries, KeysTo;
    NoKeys(entries);
    if n > 0 {
      KeysToCount(tags, entries, mix, pos, n - 1);
      KeysToNext(tags, entries, mix, pos, n - 1);
    }
  }

  lemma {:induction false} SubsetCount(a: set<u64>, b: set<u64>)
    requires a <= b
    ensures |a| <= |b|
  {
    if a != {} {
      var x :| x in a;
      SubsetCount(a - {x}, b - {x});
    }
  }

  lemma SomeEmpty(tags: seq<u8>, entries: seq<Entry>, mix: Hash, pos: map<u64, nat>)
    requires Entries(tags, entries, mix, pos) && |pos| < |tags|
    ensures exists e :: 0 <= e < |tags| && tags[e] == 0
  {
    if forall i :: 0 <= i < |tags| ==> tags[i] != 0 {
      KeysToCount(tags, entries, mix, pos, |tags|);
      SubsetCount(KeysTo(entries, |tags|), pos.Keys);
      assert false;
    }
  }

  // ---- probing ------------------------------------------------------------------

  // Every slot from `home` up to, but not including, `i` holds another key.
  ghost predicate Probed(tags: seq<u8>, entries: seq<Entry>, key: u64, home: nat, i: nat)
    requires |tags| == |entries| && home < |tags| && i < |tags|
  {
    forall x :: 0 <= x < |tags| && Dist(home, x, |tags|) < Dist(home, i, |tags|) ==>
      tags[x] != 0 && entries[x].key != key
  }

  lemma ProbeStep(tags: seq<u8>, entries: seq<Entry>, key: u64, home: nat, i: nat, e: nat)
    requires |tags| == |entries| && home < |tags| && i < |tags| && e < |tags|
    requires Probed(tags, entries, key, home, i)
    requires tags[i] != 0 && entries[i].key != key && tags[e] == 0
    ensures Probed(tags, entries, key, home, Next(i, |tags|))
    ensures Dist(Next(i, |tags|), e, |tags|) < Dist(i, e, |tags|)
  {
    assert Dist(home, e, |tags|) > Dist(home, i, |tags|);
    forall x | 0 <= x < |tags| && Dist(home, x, |tags|) < Dist(home, Next(i, |tags|), |tags|)
      ensures tags[x] != 0 && entries[x].key != key
    {
      assert x != i ==> Dist(home, x, |tags|) < Dist(home, i, |tags|);
    }
  }

  lemma ProbeStart(tags: seq<u8>, entries: seq<Entry>, key: u64, home: nat)
    requires |tags| == |entries| && home < |tags|
    ensures Probed(tags, entries, key, home, home)
  {
  }

  // The tag never hides a key: slots of the key have the key's tag.
  lemma ProbeSlot(tags: seq<u8>, entries: seq<Entry>, mix: Hash, pos: map<u64, nat>, key: u64, i: nat)
    requires TableOk(tags, entries, mix, pos) && i < |tags| && tags[i] != 0
    ensures entries[i].key == key ==> tags[i] == TagOf(mix(key)) && key in pos && pos[key] == i
  {
  }

  lemma KeySlot(tags: seq<u8>, entries: seq<Entry>, mix: Hash, pos: map<u64, nat>, key: u64)
    requires TableOk(tags, entries, mix, pos) && key in pos
    ensures pos[key] < |tags| == |entries| && tags[pos[key]] != 0 && entries[pos[key]].key == key
  {
  }

  lemma Sizes(tags: seq<u8>, entries: seq<Entry>, mix: Hash, pos: map<u64, nat>)
    requires TableOk(tags, entries, mix, pos)
    ensures |tags| == |entries| > 0
    ensures |pos| < |tags| ==> exists e :: 0 <= e < |tags| && tags[e] == 0
  {
    if |pos| < |tags| { SomeEmpty(tags, entries, mix, pos); }
  }

  // Meeting an empty slot proves the key absent.
  lemma ProbeAbsent(tags: seq<u8>, entries: seq<Entry>, mix: Hash, pos: map<u64, nat>, key: u64, i: nat)
    requires TableOk(tags, entries, mix, pos) && i < |tags|
    requires Probed(tags, entries, key, Home(mix, key, |tags|), i) && tags[i] == 0
    ensures key !in pos
  {
  }

  // Filling the empty slot a probe ends at.
  lemma FillOk(tags: seq<u8>, entries: seq<Entry>, mix: Hash, pos: map<u64, nat>, key: u64, val: u32, i: nat)
    requires TableOk(tags, entries, mix, pos) && i < |tags| && key !in pos
    requires Probed(tags, entries, key, Home(mix, key, |tags|), i) && tags[i] == 0
    ensures TableOk(tags[i := TagOf(mix(key))], entries[i := Entry(key, val)], mix, pos[key := i])
  {
    var tags', entries' := tags[i := TagOf(mix(key))], entries[i := Entry(key, val)];
    var cap := |tags|;
    forall p, x | 0 <= p < cap && 0 <= x < cap && tags'[p] != 0 && OnPath(Home(mix, entries'[p].key, cap), x, p, cap)
      ensures tags'[x] != 0
    {
      if p == i && x != i {
        assert Dist(Home(mix, key, cap), x, cap) < Dist(Home(mix, key, cap), i, cap);
      }
    }
  }

  // ---- backward-shift deletion (Knuth, The Art of Computer Programming, volume 3, algorithm R) ----

  // Mid-removal: `hole` is empty, `(hole, j]` is scanned and full, and only
  // entries still ahead of the scan may have the hole on their path.
  ghost predicate HoleOk(tags: seq<u8>, entries: seq<Entry>, mix: Hash, pos: map<u64, nat>, hole: nat, j: nat) {
    && Entries(tags, entries, mix, pos)
    && hole < |tags| && j < |tags| && tags[hole] == 0
    && (forall x :: 0 <= x < |tags| && 0 < Dist(hole, x, |tags|) <= Dist(hole, j, |tags|) ==> tags[x] != 0)
    && (forall i, x :: 0 <= i < |tags| && 0 <= x < |tags| && tags[i] != 0
                       && OnPath(Home(mix, entries[i].key, |tags|), x, i, |tags|)
          ==> tags[x] != 0 || (x == hole && Dist(hole, j, |tags|) < Dist(hole, i, |tags|)))
  }

  lemma HoleOpens(tags: seq<u8>, entries: seq<Entry>, mix: Hash, pos: map<u64, nat>, key: u64)
    requires TableOk(tags, entries, mix, pos) && key in pos
    ensures HoleOk(tags[pos[key] := 0], entries, mix, pos - {key}, pos[key], pos[key])
  {
  }

  // The scan meets an empty slot: no entry beyond it can have the hole on its
  // path, because that path would run through the empty slot too.
  lemma HoleUnused(tags: seq<u8>, entries: seq<Entry>, mix: Hash, pos: map<u64, nat>, hole: nat, j: nat, i: nat)
    requires HoleOk(tags, entries, mix, pos, hole, j) && tags[Next(j, |tags|)] == 0
    requires i < |tags| && tags[i] != 0 && Dist(hole, j, |tags|) < Dist(hole, i, |tags|)
    ensures !OnPath(Home(mix, entries[i].key, |tags|), hole, i, |tags|)
  {
    PathThrough(Home(mix, entries[i].key, |tags|), hole, Next(j, |tags|), i, |tags|);
  }

  // A path through `x` that goes at least as far as `y` goes through `y`.
  lemma PathThrough(home: nat, x: nat, y: nat, i: nat, cap: nat)
    requires home < cap && x < cap && y < cap && i < cap
    requires Dist(x, y, cap) <= Dist(x, i, cap)
    ensures OnPath(home, x, i, cap) ==> OnPath(home, y, i, cap)
  {
  }

  lemma HoleCloses(tags: seq<u8>, entries: seq<Entry>, mix: Hash, pos: map<u64, nat>, hole: nat, j: nat)
    requires HoleOk(tags, entries, mix, pos, hole, j) && tags[Next(j, |tags|)] == 0
    ensures TableOk(tags, entries, mix, pos)
  {
    forall i | 0 <= i < |tags| && tags[i] != 0 && Dist(hole, j, |tags|) < Dist(hole, i, |tags|)
      ensures !OnPath(Home(mix, entries[i].key, |tags|), hole, i, |tags|)
    {
      HoleUnused(tags, entries, mix, pos, hole, j, i);
    }
  }

  // `home` in the cyclic interval (hole, j]: the entry at `j` cannot move back.
  predicate Stays(hole: nat, home: nat, j: nat) {
    if hole < j then hole < home <= j else home > hole || home <= j
  }

  lemma HoleFacts(tags: seq<u8>, entries: seq<Entry>, mix: Hash, pos: map<u64, nat>, hole: nat, j: nat)
    requires HoleOk(tags, entries, mix, pos, hole, j)
    ensures |tags| == |entries| && hole < |tags| && j < |tags| && tags[hole] == 0
    ensures var j' := Next(j, |tags|);
            tags[j'] != 0 ==> j' != hole && entries[j'].key in pos && pos[entries[j'].key] == j'
  {
  }

  lemma HoleSkips(tags: seq<u8>, entries: seq<Entry>, mix: Hash, pos: map<u64, nat>, hole: nat, j: nat)
    requires HoleOk(tags, entries, mix, pos, hole, j) && tags[Next(j, |tags|)] != 0
    requires Stays(hole, Home(mix, entries[Next(j, |tags|)].key, |tags|), Next(j, |tags|))
    ensures HoleOk(tags, entries, mix, pos, hole, Next(j, |tags|))
  {
    var cap := |tags|;
    var j' := Next(j, cap);
    assert j' != hole;
    assert !OnPath(Home(mix, entries[j'].key, cap), hole, j', cap);
    forall i, x | 0 <= i < cap && 0 <= x < cap && tags[i] != 0 && OnPath(Home(mix, entries[i].key, cap), x, i, cap)
      ensures tags[x] != 0 || (x == hole && Dist(hole, j', cap) < Dist(hole, i, cap))
    {
    }
  }

  lemma HoleMoves(tags: seq<u8>, entries: seq<Entry>, mix: Hash, pos: map<u64, nat>, hole: nat, j: nat)
    requires HoleOk(tags, entries, mix, pos, hole, j) && tags[Next(j, |tags|)] != 0
    requires !Stays(hole, Home(mix, entries[Next(j, |tags|)].key, |tags|), Next(j, |tags|))
    ensures var j' := Next(j, |tags|);
            var (tags', entries') := (tags[hole := tags[j']][j' := 0], entries[hole := entries[j']]);
            HoleOk(tags', entries', mix, pos[entries[j'].key := hole], j', j')
  {
    var cap := |tags|;
    var j' := Next(j, cap);
    var tags', entries' := tags[hole := tags[j']][j' := 0], entries[hole := entries[j']];
    assert j' != hole;
    var home := Home(mix, entries[j'].key, cap);
    assert OnPath(home, hole, j', cap);
    forall i, x | 0 <= i < cap && 0 <= x < cap && tags'[i] != 0 && OnPath(Home(mix, entries'[i].key, cap), x, i, cap)
      ensures tags'[x] != 0 || (x == j' && Dist(j', j', cap) < Dist(j', i, cap))
    {
      if i == hole {
        assert OnPath(home, x, j', cap);
      }
    }
  }
}
