// The ordered-map index and the interface both indexes share:
// src/index.rs:20-119, src/index.rs:334-355.

module PriceIndexes {
  import opened Types
  import opened Chunks
  import opened LevelView
  import opened Ladders

  // ---- ordered keys, as a BTreeMap iterates them ------------------------------------

  lemma {:induction false} HasMin(s: set<Price>)
    requires s != {}
    ensures exists m :: m in s && forall x :: x in s ==> m <= x
  {
    var p :| p in s;
    var rest := s - {p};
    if rest == {} {
      assert s == {p};
    } else {
      HasMin(rest);
      var m :| m in rest && forall x :: x in rest ==> m <= x;
      LeastOf(s, rest, p, m);
    }
  }

  lemma LeastOf(s: set<Price>, rest: set<Price>, p: Price, m: Price)
    requires rest == s - {p} && p in s && m in rest && forall x :: x in rest ==> m <= x
    ensures exists l :: l in s && forall x :: x in s ==> l <= x
  {
    var l := if p < m then p else m;
    assert l in s;
    forall x | x in s
      ensures l <= x
    {
      assert x == p || x in rest;
    }
  }

  function MinKey(s: set<Price>): (m: Price)
    requires s != {}
    ensures m in s && forall x :: x in s ==> m <= x
  {
    HasMin(s);
    var m :| m in s && forall x :: x in s ==> m <= x;
    m
  }

  function Ascending(s: set<Price>): (ks: seq<Price>)
    ensures |ks| == |s|
    ensures forall i :: 0 <= i < |ks| ==> ks[i] in s
    ensures forall i, j :: 0 <= i < j < |ks| ==> ks[i] < ks[j]
    ensures forall p :: p in s ==> p in ks
  {
    if s == {} then []
    else
      var m := MinKey(s);
      [m] + Ascending(s - {m})
  }

  // Best price first: `iter()` for asks, `iter().rev()` for bids.
  function InOrder(side: Side, s: set<Price>): (ks: seq<Price>) {
    var up := Ascending(s);
    if side.Ask? then up else seq(|up|, i requires 0 <= i < |up| => up[|up| - 1 - i])
  }

  ghost predicate BestFirst(side: Side, levels: View, ks: seq<Price>) {
    && (forall i :: 0 <= i < |ks| ==> ks[i] in levels)
    && (forall i, j :: 0 <= i < j < |ks| ==> Better(side, ks[i], ks[j]))
    && (forall p :: p in levels ==> p in ks)
  }

  lemma AscendingOk(levels: View)
    ensures BestFirst(Ask, levels, Ascending(levels.Keys))
  {
    hide MinKey, Ascending;
    var up := Ascending(levels.Keys);
    assert forall i :: 0 <= i < |up| ==> up[i] in levels.Keys;
    forall p | p in levels
      ensures p in up
    {
      assert p in levels.Keys;
    }
  }

  lemma InOrderOk(side: Side, levels: View)
    ensures BestFirst(side, levels, InOrder(side, levels.Keys))
  {
    hide Ascending;
    var up := Ascending(levels.Keys);
    AscendingOk(levels);
    if side.Bid? { ReversedOk(levels, up, InOrder(side, levels.Keys)); }
  }

  lemma ReversedOk(levels: View, up: seq<Price>, ks: seq<Price>)
    requires BestFirst(Ask, levels, up)
    requires |ks| == |up| && forall i :: 0 <= i < |ks| ==> ks[i] == up[|up| - 1 - i]
    ensures BestFirst(Bid, levels, ks)
  {
    forall p | p in levels
      ensures p in ks
    {
      var j :| 0 <= j < |up| && up[j] == p;
      assert ks[|up| - 1 - j] == p;
    }
  }

  // The first entries of a best-first key list are a depth list.
  lemma TakeDepth(side: Side, levels: View, ks: seq<Price>, n: nat, out: seq<(Price, Qty)>)
    requires BestFirst(side, levels, ks)
    requires |out| <= n && |out| <= |ks| && (|out| < n ==> |out| == |ks|)
    requires forall j :: 0 <= j < |out| ==> ks[j] in levels && out[j] == (ks[j], levels[ks[j]].total)
    ensures DepthOk(side, levels, n, out)
  {
    forall q | 0 <= q < |out|
      ensures Listed(out, ks[q])
    {
      assert out[q].0 == ks[q];
    }
    forall p | p in levels && !Listed(out, p)
      ensures |out| == n && forall j :: 0 <= j < |out| ==> Better(side, out[j].0, p)
    {
      var q :| 0 <= q < |ks| && ks[q] == p;
    }
  }

  // ---- an in-order sum ------------------------------------------------------------------

  // Keys before `i` and in range are below `next`; later keys are not.
  ghost predicate Swept(levels: View, ks: seq<Price>, lo: int, hi: int, i: nat, next: int) {
    && BestFirst(Ask, levels, ks) && i <= |ks| && lo <= next <= hi + 1
    && (forall j :: 0 <= j < i ==> ks[j] < next || ks[j] > hi)
    && (forall j :: i <= j < |ks| ==> ks[j] < lo || next <= ks[j])
  }

  lemma SweepStart(levels: View, ks: seq<Price>, lo: int, hi: int)
    requires BestFirst(Ask, levels, ks) && lo <= hi
    ensures Swept(levels, ks, lo, hi, 0, lo) && SumView(levels, lo, lo - 1) == 0 && Wrap(0) == 0
  {
  }

  lemma SweepKey(levels: View, ks: seq<Price>, lo: int, hi: int, i: nat, next: int)
    requires Swept(levels, ks, lo, hi, i, next) && i < |ks|
    ensures ks[i] in levels
    ensures lo <= ks[i] <= hi ==>
              && Swept(levels, ks, lo, hi, i + 1, ks[i] as int + 1)
              && SumView(levels, lo, ks[i]) == SumView(levels, lo, next - 1) + levels[ks[i]].total
    ensures !(lo <= ks[i] <= hi) ==> Swept(levels, ks, lo, hi, i + 1, next)
  {
    hide SumView;
    if lo <= ks[i] <= hi {
      NoneSwept(levels, ks, lo, hi, i, next);
      SumGap(levels, lo, next - 1, ks[i] as int - 1);
      SumStep(levels, lo, ks[i]);
    }
  }

  // No key between those swept and the next one.
  lemma NoneSwept(levels: View, ks: seq<Price>, lo: int, hi: int, i: nat, next: int)
    requires Swept(levels, ks, lo, hi, i, next) && i < |ks| && lo <= ks[i] <= hi
    ensures forall p :: p in levels ==> !(next <= p < ks[i])
  {
    forall p: Price | p in levels
      ensures !(next <= p < ks[i])
    {
      var j :| 0 <= j < |ks| && ks[j] == p;
    }
  }

  lemma SumStep(levels: View, lo: int, p: Price)
    requires p in levels && lo <= p
    ensures SumView(levels, lo, p) == SumView(levels, lo, p as int - 1) + levels[p].total
  {
  }

  lemma SweepEnd(levels: View, ks: seq<Price>, lo: int, hi: int, next: int)
    requires Swept(levels, ks, lo, hi, |ks|, next)
    ensures SumView(levels, lo, hi) == SumView(levels, lo, next - 1)
  {
    forall p: Price | p in levels
      ensures !(next <= p <= hi)
    {
      var j :| 0 <= j < |ks| && ks[j] == p;
    }
    SumGap(levels, lo, next - 1, hi);
  }

  class TreeIndex {
    const side: Side
    var levels: map<Price, Level>

    constructor (side: Side)
      ensures this.side == side && levels == map[]
    {
      this.side, levels := side, map[];
    }

    method BestPrice() returns (r: Option<Price>)
      ensures BestIs(side, levels, r)
    {
      hide InOrder;
      var keys := InOrder(side, levels.Keys);
      InOrderOk(side, levels);
      r := if |keys| == 0 then None else Some(keys[0]);
    }

    // `range(lo..=hi)` summed in key order; the range must not be inverted.
    method SumRange(lo: Price, hi: Price) returns (sum: Qty)
      requires lo <= hi
      ensures sum == Wrap(SumView(levels, lo, hi))
    {
      hide InOrder, Swept, SumView, BestFirst;
      var keys: seq<Price> := InOrder(Ask, levels.Keys);
      InOrderOk(Ask, levels);
      sum := 0;
      ghost var next: int := lo;
      SweepStart(levels, keys, lo, hi);
      for i := 0 to |keys|
        invariant Swept(levels, keys, lo, hi, i, next) && sum == Wrap(SumView(levels, lo, next - 1))
      {
        var k: Price := keys[i];
        SweepKey(levels, keys, lo, hi, i, next);
        if lo <= k <= hi {
          WrapAdd(SumView(levels, lo, next - 1), levels[k].total);
          sum := Wrap(sum + levels[k].total);
          next := k + 1;
        }
      }
      SweepEnd(levels, keys, lo, hi, next);
    }

    method Depth(n: nat) returns (out: seq<(Price, Qty)>)
      ensures DepthOk(side, levels, n, out)
    {
      hide InOrder, DepthOk;
      var keys: seq<Price> := InOrder(side, levels.Keys);
      InOrderOk(side, levels);
      out := [];
      var i := 0;
      while i < |keys| && i < n
        invariant 0 <= i <= |keys| && |out| == i <= n
        invariant forall j :: 0 <= j < i ==> keys[j] in levels && out[j] == (keys[j], levels[keys[j]].total)
      {
        var k: Price := keys[i];
        out := out + [(k, levels[k].total)];
        i := i + 1;
      }
      TakeDepth(side, levels, keys, n, out);
    }
  }

  // ---- the shared interface -----------------------------------------------------------

  datatype PriceIndex = Ladder(ladder: LadderIndex) | Tree(tree: TreeIndex) {
    ghost function Repr(): set<object> {
      match this
      case Ladder(l) => l.Repr()
      case Tree(t) => {t}
    }

    ghost predicate Valid()
      reads Repr()
    {
      match this
      case Ladder(l) => l.Valid()
      case Tree(t) => true
    }

    function Side(): Side {
      match this
      case Ladder(l) => l.side
      case Tree(t) => t.side
    }

    // The marked prices and their levels.
    ghost function View(): View
      reads Repr()
    {
      match this
      case Ladder(l) => l.view
      case Tree(t) => t.levels
    }

    // Prices the index can hold.
    predicate Covers(p: int) {
      match this
      case Ladder(l) => l.Covers(p)
      case Tree(t) => IsPrice(p)
    }

    method BestPrice() returns (r: Option<Price>)
      requires Valid()
      ensures BestIs(Side(), View(), r)
    {
      match this
      case Ladder(l) => r := l.BestPrice();
      case Tree(t) => r := t.BestPrice();
    }

    method LevelMut(price: Price) returns (r: Option<Level>)
      requires Valid()
      ensures r == if price in View() && (Tree? || !View()[price].IsEmpty()) then Some(View()[price]) else None
    {
      match this
      case Ladder(l) => r := l.LevelMut(price);
      case Tree(t) => r := if price in t.levels then Some(t.levels[price]) else None;
    }

    method SetLevel(price: Price, lvl: Level)
      requires Valid() && price in View()
      modifies Repr()
      ensures Valid() && View() == old(View())[price := lvl]
    {
      match this
      case Ladder(l) => l.SetLevel(price, lvl);
      case Tree(t) => t.levels := t.levels[price := lvl];
    }

    method LevelInsert(price: Price) returns (lvl: Level)
      requires Valid() && Covers(price) && (price in View() ==> !View()[price].IsEmpty())
      modifies Repr()
      ensures Valid()
      ensures View() == (if price in old(View()) then old(View()) else old(View())[price := EMPTY_LEVEL])
      ensures lvl == View()[price]
    {
      match this
      case Ladder(l) => lvl := l.LevelInsert(price);
      case Tree(t) =>
        if price !in t.levels {
          t.levels := t.levels[price := EMPTY_LEVEL];
        }
        lvl := t.levels[price];
    }

    method UnlinkLevel(price: Price)
      requires Valid()
      requires Ladder? ==> price in View() && (View()[price].IsEmpty() ==> View()[price] == EMPTY_LEVEL)
      modifies Repr()
      ensures Valid()
      ensures var view := old(View());
              View() == if price in view && view[price].IsEmpty() then view - {price} else view
    {
      match this
      case Ladder(l) => l.UnlinkLevel(price);
      case Tree(t) =>
        if price in t.levels && t.levels[price].IsEmpty() {
          t.levels := t.levels - {price};
        }
    }

    // An ordered map refuses an inverted range; a ladder counts nothing from
    // below its base.
    method SumRange(lo: Price, hi: Price) returns (sum: Qty)
      requires Valid() && (Tree? ==> lo <= hi)
      ensures Tree? || (ladder.base <= lo && ladder.base <= hi) ==> sum == Wrap(SumView(View(), lo, hi))
      ensures Ladder? && lo < ladder.base ==> sum == 0
    {
      match this
      case Ladder(l) => sum := l.SumRange(lo, hi);
      case Tree(t) => sum := t.SumRange(lo, hi);
    }

    method Len() returns (n: nat)
      requires Valid()
      ensures n == |View()|
    {
      match this
      case Ladder(l) => n := l.Len();
      case Tree(t) => n := |t.levels|;
    }

    // At `n == 0` the ladder lists every level and the tree lists none.
    method Depth(n: nat) returns (out: seq<(Price, Qty)>)
      requires Valid()
      ensures n > 0 || Tree? ==> DepthOk(Side(), View(), n, out)
      ensures n == 0 && Ladder? ==> DepthOk(Side(), View(), |out| + 1, out)
    {
      match this
      case Ladder(l) => out := l.Depth(n);
      case Tree(t) => out := t.Depth(n);
    }
  }

  // Where the two indexes part: a full list against an empty one.
  lemma DepthZeroDiffers(side: Side, view: View, ladder: seq<(Price, Qty)>, tree: seq<(Price, Qty)>)
    requires DepthOk(side, view, |ladder| + 1, ladder) && DepthOk(side, view, 0, tree)
    ensures ladder == tree <==> view == map[]
  {
    assert |ladder| > 0 ==> ladder[0].0 in view;
    if view != map[] {
      var p :| p in view;
      assert Listed(ladder, p);
    }
  }
}
