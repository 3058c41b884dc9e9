// The open-addressed `order_id -> loc` map: src/ordermap.rs:24-169.

module OrderMaps {
  import opened Types
  import opened Probing
  import opened Masks

  lemma StepCloser(i: nat, e: nat, cap: nat)
    requires i < cap && e < cap && i != e
    ensures Dist(Next(i, cap), e, cap) < Dist(i, e, cap)
  {
  }

  lemma MaskHome(mix: Hash, key: u64, cap: nat)
    requires PowerOfTwo(cap)
    ensures BitAnd(mix(key), cap - 1) == Home(mix, key, cap)
  {
    MaskIsMod(mix(key), cap);
  }

  lemma MaskNext(i: nat, cap: nat)
    requires PowerOfTwo(cap) && i < cap
    ensures BitAnd(i + 1, cap - 1) == Next(i, cap) && Next(i, cap) < cap
  {
    MaskIsMod(i + 1, cap);
    if i + 1 == cap { Divide(cap, cap); UniqueRemainder(cap, cap / cap, cap % cap, 1, 0); }
    else { Divide(i + 1, cap); UniqueRemainder(cap, (i + 1) / cap, (i + 1) % cap, 0, i + 1); }
  }

  class OrderMap {
    const mix: Hash
    const tags: array<u8>
    const entries: array<Entry>
    const mask: nat
    var len: nat
    // Bumped by every removal.
    var removes: nat

    // The slot and the value of every key.
    ghost var pos: map<u64, nat>
    ghost var view: map<u64, u32>

    ghost predicate Valid()
      reads Repr()
    {
      && PowerOfTwo(tags.Length) && mask == tags.Length - 1
      && TableOk(tags[..], entries[..], mix, pos)
      && view.Keys == pos.Keys && len == |pos| < tags.Length
      && Holds(entries[..], pos, view)
    }

    ghost function Repr(): set<object> {
      {this, tags, entries}
    }

    constructor WithCapacity(liveMax: nat, mix: Hash)
      ensures Valid() && fresh(tags) && fresh(entries)
      ensures view == map[] && removes == 0 && tags.Length >= 16 && tags.Length >= 2 * liveMax
      ensures this.mix == mix
    {
      this.mix := mix;
      tags := new u8[Capacity(liveMax)](_ => 0);
      entries := new Entry[Capacity(liveMax)](_ => Entry(0, 0));
      mask := Capacity(liveMax) - 1;
      len, removes, pos, view := 0, 0, map[], map[];
    }

    // The probe loop of `find` and `insert`: the slot of `key`, or the empty
    // slot that proves it absent.
    method Probe(key: u64) returns (i: nat)
      requires Valid()
      ensures i < tags.Length && tags.Length == entries.Length
      ensures tags[i] == 0 ==> key !in pos && Probed(tags[..], entries[..], key, Home(mix, key, tags.Length), i)
      ensures tags[i] != 0 ==> key in pos && pos[key] == i && entries[i].key == key
    {
      hide TableOk, Probed, Home, TagOf, Next, BitAnd, PowerOfTwo, Entries, Reachable, Holds, Dist;
      Sizes(tags[..], entries[..], mix, pos);
      ghost var e :| 0 <= e < tags.Length && tags[..][e] == 0;
      var h := mix(key);
      var t := TagOf(h);
      var home := BitAnd(h, mask);
      MaskHome(mix, key, tags.Length);
      i := home;
      ProbeStart(tags[..], entries[..], key, home);
      while true
        invariant i < tags.Length && Probed(tags[..], entries[..], key, home, i)
        decreases Dist(i, e, tags.Length)
      {
        var ti := tags[i];
        if ti == 0 {
          ProbeAbsent(tags[..], entries[..], mix, pos, key, i);
          return;
        }
        ProbeSlot(tags[..], entries[..], mix, pos, key, i);
        if ti == t && entries[i].key == key {
          return;
        }
        ProbeStep(tags[..], entries[..], key, home, i, e);
        MaskNext(i, tags.Length);
        i := BitAnd(i + 1, mask);
      }
    }

    // The slot holding `key`, if present.
    method Find(key: u64) returns (r: Option<nat>)
      requires Valid()
      ensures r == if key in view then Some(pos[key]) else None
      ensures r.Some? ==> key in pos && r.value < entries.Length == tags.Length && entries[r.value].key == key
    {
      hide TableOk, Probed, Home;
      var i := Probe(key);
      r := if tags[i] == 0 then None else Some(i);
    }

    method Contains(key: u64) returns (r: bool)
      requires Valid()
      ensures r == (key in view)
    {
      var s := Find(key);
      r := s.Some?;
    }

    method Get(key: u64) returns (r: Option<u32>)
      requires Valid()
      ensures r == if key in view then Some(view[key]) else None
    {
      var s := Find(key);
      r := if s.Some? then Some(entries[s.value].val) else None;
    }

    method ValAt(slot: nat, ghost key: u64) returns (val: u32)
      requires Valid() && key in view && slot == pos[key]
      ensures val == view[key]
    {
      val := entries[slot].val;
    }

    // Give a key a new value through the slot `Find` returned, if it still holds the key.
    method SetValAt(slot: nat, val: u32, ghost key: u64)
      requires Valid() && key in view && slot == pos[key]
      modifies Repr()
      ensures Valid() && view == old(view)[key := val] && pos == old(pos) && removes == old(removes)
    {
      hide TableOk, Holds;
      KeySlot(tags[..], entries[..], mix, pos, key);
      RevalueOk(tags[..], entries[..], mix, pos, key, val);
      RevalueView(tags[..], entries[..], mix, pos, view, key, val);
      entries[slot] := entries[slot].(val := val);
      assert entries[..] == old(entries[..])[slot := Entry(key, val)];
      view := view[key := val];
    }

    // Insert or overwrite; returns the old value. No existing key moves.
    method Insert(key: u64, val: u32) returns (r: Option<u32>)
      requires Valid() && (key !in view ==> len + 1 < tags.Length)
      modifies Repr()
      ensures Valid() && view == old(view)[key := val] && removes == old(removes)
      ensures r == if key in old(view) then Some(old(view)[key]) else None
      ensures forall k :: k in old(pos) ==> k in pos && pos[k] == old(pos)[k]
    {
      hide TableOk, Probed, Home, TagOf, Holds, Entries, PowerOfTwo;
      var h := mix(key);
      var t := TagOf(h);
      var i := Probe(key);
      if tags[i] == 0 {
        FillOk(tags[..], entries[..], mix, pos, key, val, i);
        FillView(tags[..], entries[..], mix, pos, view, key, val, i);
        tags[i] := t;
        entries[i] := Entry(key, val);
        assert tags[..] == old(tags[..])[i := t] && entries[..] == old(entries[..])[i := Entry(key, val)];
        len := len + 1;
        pos := pos[key := i];
        view := view[key := val];
        r := None;
      } else {
        RevalueOk(tags[..], entries[..], mix, pos, key, val);
        RevalueView(tags[..], entries[..], mix, pos, view, key, val);
        r := Some(entries[i].val);
        entries[i] := entries[i].(val := val);
        assert entries[..] == old(entries[..])[i := Entry(key, val)];
        view := view[key := val];
      }
    }

    // The entry at `j` moves back into the hole, which then opens at `j`.
    method MoveBack(hole: nat, j: nat, ghost before: nat)
      requires HoleOk(tags[..], entries[..], mix, pos, hole, before)
      requires hole < tags.Length == entries.Length && before < tags.Length && j == Next(before, tags.Length)
      requires j < tags.Length && tags[j] != 0 && !Stays(hole, Home(mix, entries[j].key, tags.Length), j)
      requires view.Keys == pos.Keys && Holds(entries[..], pos, view)
      modifies this`pos, tags, entries
      ensures HoleOk(tags[..], entries[..], mix, pos, j, j)
      ensures view.Keys == pos.Keys && |pos| == old(|pos|) && Holds(entries[..], pos, view)
      ensures forall x :: 0 <= x < tags.Length && x != hole && x != j ==> tags[x] == old(tags[x])
    {
      hide TableOk, HoleOk, Home, Next, Stays, Entries, Reachable, Holds;
      HoleMoves(tags[..], entries[..], mix, pos, hole, before);
      MoveView(tags[..], entries[..], mix, pos, view, hole, before);
      pos := pos[entries[j].key := hole];
      tags[hole] := tags[j];
      entries[hole] := entries[j];
      tags[j] := 0;
      assert tags[..] == old(tags[..])[hole := old(tags[j])][j := 0];
      assert entries[..] == old(entries[..])[hole := old(entries[j])];
    }

    // The backward-shift loop of `remove`, from the slot just emptied: scan
    // forward, moving back any entry whose probe path crosses the hole.
    method CloseHole(i: nat)
      requires PowerOfTwo(tags.Length) && mask == tags.Length - 1
      requires i < tags.Length && HoleOk(tags[..], entries[..], mix, pos, i, i)
      requires view.Keys == pos.Keys && Holds(entries[..], pos, view)
      requires OtherEmpty(tags[..], i)
      modifies this`pos, tags, entries
      ensures TableOk(tags[..], entries[..], mix, pos)
      ensures view.Keys == pos.Keys && Holds(entries[..], pos, view) && |pos| == old(|pos|)
    {
      hide TableOk, HoleOk, Home, Next, Stays, Entries, Reachable, Holds, Dist, BitAnd, PowerOfTwo;
      ghost var e :| 0 <= e < tags.Length && e != i && tags[..][e] == 0;
      var hole: nat, j: nat := i, i;
      HoleFacts(tags[..], entries[..], mix, pos, hole, j);
      while true
        invariant HoleOk(tags[..], entries[..], mix, pos, hole, j) && hole < tags.Length && j < tags.Length
        invariant tags.Length == entries.Length && tags[e] == 0 && e != hole && e != j
        invariant view.Keys == pos.Keys && |pos| == old(|pos|) && Holds(entries[..], pos, view)
        decreases Dist(j, e, tags.Length)
      {
        ghost var tags0, entries0, j0 := tags[..], entries[..], j;
        HoleFacts(tags0, entries0, mix, pos, hole, j0);
        MaskNext(j, tags.Length);
        StepCloser(j, e, tags.Length);
        j := BitAnd(j + 1, mask);
        var tj := tags[j];
        if tj == 0 {
          HoleCloses(tags0, entries0, mix, pos, hole, j0);
          return;
        }
        MaskHome(mix, entries[j].key, tags.Length);
        var home := BitAnd(mix(entries[j].key), mask);
        if Stays(hole, home, j) {
          HoleSkips(tags0, entries0, mix, pos, hole, j0);
        } else {
          MoveBack(hole, j, j0);
          hole := j;
        }
      }
    }

    // Remove; returns the value if present. Every other key is kept.
    method Remove(key: u64) returns (r: Option<u32>)
      requires Valid()
      modifies Repr()
      ensures Valid() && view == old(view) - {key}
      ensures r == if key in old(view) then Some(old(view)[key]) else None
      ensures removes == old(removes) + (if key in old(view) then 1 else 0)
      ensures key !in old(view) ==> pos == old(pos)
    {
      hide OrderMap.Valid;
      var found := Find(key);
      if found.None? {
        NotMapped(view, key);
        return None;
      }
      var val := RemoveAt(found.value, key);
      r := Some(val);
    }

    // The found key goes: its slot is emptied and the hole closed.
    method RemoveAt(i: nat, key: u64) returns (val: u32)
      requires Valid() && key in view && key in pos && pos[key] == i
      modifies Repr()
      ensures Valid() && view == old(view) - {key} && val == old(view)[key] && removes == old(removes) + 1
    {
      hide TableOk, HoleOk, Home, Holds, PowerOfTwo, OtherEmpty;
      ghost var pos', view' := RemoveOpens(tags[..], entries[..], mix, pos, view, key);
      val := entries[i].val;
      tags[i] := 0;
      assert tags[..] == old(tags[..])[i := 0];
      len := len - 1;
      removes := removes + 1;
      pos := pos';
      view := view';
      CloseHole(i);
    }
  }

  lemma NotMapped(view: map<u64, u32>, key: u64)
    requires key !in view
    ensures view - {key} == view
  {
  }

  ghost predicate OtherEmpty(tags: seq<u8>, i: nat) {
    exists e :: 0 <= e < |tags| && e != i && tags[e] == 0
  }

  // The slot of every key holds its value.
  ghost predicate Holds(entries: seq<Entry>, pos: map<u64, nat>, view: map<u64, u32>) {
    forall k :: k in pos && k in view && pos[k] < |entries| ==> entries[pos[k]].val == view[k]
  }

  lemma RevalueOk(tags: seq<u8>, entries: seq<Entry>, mix: Hash, pos: map<u64, nat>, key: u64, val: u32)
    requires TableOk(tags, entries, mix, pos) && key in pos
    ensures pos[key] < |entries| && entries[pos[key]].key == key
    ensures TableOk(tags, entries[pos[key] := Entry(key, val)], mix, pos)
    ensures forall k :: k in pos && k != key ==> pos[k] < |entries| && pos[k] != pos[key]
  {
    var entries' := entries[pos[key] := Entry(key, val)];
    assert forall q :: 0 <= q < |entries| ==> entries'[q].key == entries[q].key;
  }

  lemma RevalueView(tags: seq<u8>, entries: seq<Entry>, mix: Hash, pos: map<u64, nat>, view: map<u64, u32>, key: u64,
                    val: u32)
    requires TableOk(tags, entries, mix, pos) && view.Keys == pos.Keys && Holds(entries, pos, view) && key in pos
    ensures pos[key] < |entries| && entries[pos[key]].val == view[key]
    ensures Holds(entries[pos[key] := Entry(key, val)], pos, view[key := val])
    ensures view[key := val].Keys == pos.Keys
  {
  }

  lemma FillView(tags: seq<u8>, entries: seq<Entry>, mix: Hash, pos: map<u64, nat>, view: map<u64, u32>, key: u64,
                 val: u32, i: nat)
    requires TableOk(tags, entries, mix, pos) && view.Keys == pos.Keys && Holds(entries, pos, view) && key !in pos
    requires i < |tags| && tags[i] == 0
    ensures Holds(entries[i := Entry(key, val)], pos[key := i], view[key := val])
    ensures view[key := val].Keys == pos[key := i].Keys && |pos[key := i]| == |pos| + 1
  {
  }

  lemma HoldsAt(entries: seq<Entry>, pos: map<u64, nat>, view: map<u64, u32>, key: u64)
    requires Holds(entries, pos, view) && key in pos && key in view && pos[key] < |entries|
    ensures entries[pos[key]].val == view[key]
  {
  }

  lemma RemoveView(entries: seq<Entry>, pos: map<u64, nat>, view: map<u64, u32>, key: u64)
    requires Holds(entries, pos, view) && view.Keys == pos.Keys && key in pos
    ensures Holds(entries, pos - {key}, view - {key})
    ensures (view - {key}).Keys == (pos - {key}).Keys && |pos - {key}| == |pos| - 1
  {
    assert pos - {key} == map k | k in pos && k != key :: pos[k];
    assert (pos - {key}).Keys == pos.Keys - {key};
  }

  // Emptying the slot of a key opens a hole in the table of the other keys.
  lemma RemoveOpens(tags: seq<u8>, entries: seq<Entry>, mix: Hash, pos: map<u64, nat>, view: map<u64, u32>, key: u64)
    returns (pos': map<u64, nat>, view': map<u64, u32>)
    requires TableOk(tags, entries, mix, pos) && |pos| < |tags|
    requires view.Keys == pos.Keys && Holds(entries, pos, view) && key in pos
    ensures pos[key] < |tags| == |entries| && entries[pos[key]].val == view[key]
    ensures HoleOk(tags[pos[key] := 0], entries, mix, pos', pos[key], pos[key])
    ensures OtherEmpty(tags[pos[key] := 0], pos[key])
    ensures Holds(entries, pos', view') && view'.Keys == pos'.Keys && |pos'| == |pos| - 1
    ensures view' == view - {key}
  {
    hide TableOk, HoleOk, Home, Holds;
    pos', view' := pos - {key}, view - {key};
    Sizes(tags, entries, mix, pos);
    KeySlot(tags, entries, mix, pos, key);
    HoleOpens(tags, entries, mix, pos, key);
    HoldsAt(entries, pos, view, key);
    RemoveView(entries, pos, view, key);
    var e :| 0 <= e < |tags| && tags[e] == 0;
    assert tags[pos[key] := 0][e] == 0;
  }

  lemma MoveView(tags: seq<u8>, entries: seq<Entry>, mix: Hash, pos: map<u64, nat>, view: map<u64, u32>, hole: nat,
                 j: nat)
    requires HoleOk(tags, entries, mix, pos, hole, j) && tags[Next(j, |tags|)] != 0
    requires view.Keys == pos.Keys && Holds(entries, pos, view)
    ensures var e := entries[Next(j, |tags|)];
            && Holds(entries[hole := e], pos[e.key := hole], view)
            && pos[e.key := hole].Keys == pos.Keys && |pos[e.key := hole]| == |pos|
  {
    assert pos[entries[Next(j, |tags|)].key := hole].Keys == pos.Keys;
  }
}
