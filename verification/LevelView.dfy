// What both price indexes promise: a map from the marked prices to their
// levels, and the queries as functions of that map (src/index.rs:1-119).

module LevelView {
  import opened Types
  import opened Chunks

  type View = map<Price, Level>

  // `p` is the best marked price.
  ghost predicate IsBest(side: Side, view: View, p: Price) {
    p in view && forall q :: q in view ==> !Better(side, q, p)
  }

  ghost predicate BestIs(side: Side, view: View, best: Option<Price>) {
    if best.Some? then IsBest(side, view, best.value) else view == map[]
  }

  // Sum of the totals at prices in [lo, hi], without overflow.
  ghost function SumView(view: View, lo: int, hi: int): nat
    decreases hi - lo
  {
    if lo > hi then 0
    else SumView(view, lo, hi - 1) + (if IsPrice(hi) && hi in view then view[hi].total else 0)
  }

  predicate IsPrice(p: int) {
    -0x8000_0000_0000_0000 <= p < 0x8000_0000_0000_0000
  }

  lemma {:induction false} SumGap(view: View, lo: int, mid: int, hi: int)
    requires lo <= mid + 1 && mid <= hi
    requires forall p :: p in view ==> !(mid < p <= hi)
    ensures SumView(view, lo, hi) == SumView(view, lo, mid)
    decreases hi - mid
  {
    if mid < hi {
      SumGap(view, lo, mid, hi - 1);
    }
  }

  // `out` is the best-first list of the first `n` marked prices with their totals.
  ghost predicate DepthOk(side: Side, view: View, n: nat, out: seq<(Price, Qty)>) {
    && |out| <= n
    && (forall i :: 0 <= i < |out| ==> out[i].0 in view && out[i].1 == view[out[i].0].total)
    && (forall i, j :: 0 <= i < j < |out| ==> Better(side, out[i].0, out[j].0))
    && (forall p :: p in view && !Listed(out, p) ==>
          |out| == n && forall i :: 0 <= i < |out| ==> Better(side, out[i].0, p))
  }

  ghost predicate Listed(out: seq<(Price, Qty)>, p: Price) {
    exists i :: 0 <= i < |out| && out[i].0 == p
  }

  // The best-first list is unique, so any two indexes with one view agree.
  lemma DepthUnique(side: Side, view: View, n: nat, a: seq<(Price, Qty)>, b: seq<(Price, Qty)>)
    requires DepthOk(side, view, n, a) && DepthOk(side, view, n, b)
    ensures a == b
  {
    if |a| <= |b| { DepthPrefix(side, view, n, a, b, |a|); DepthLength(side, view, n, a, b); }
    else { DepthPrefix(side, view, n, b, a, |b|); DepthLength(side, view, n, b, a); }
  }

  lemma {:induction false} DepthPrefix(side: Side, view: View, n: nat, a: seq<(Price, Qty)>, b: seq<(Price, Qty)>,
                                       k: nat)
    requires DepthOk(side, view, n, a) && DepthOk(side, view, n, b)
    requires k <= |a| <= |b|
    ensures forall i :: 0 <= i < k ==> a[i] == b[i]
  {
    hide DepthOk;
    if k > 0 {
      DepthPrefix(side, view, n, a, b, k - 1);
      DepthEntry(side, view, n, a, b, k - 1);
    }
  }

  lemma DepthEntry(side: Side, view: View, n: nat, a: seq<(Price, Qty)>, b: seq<(Price, Qty)>, k: nat)
    requires DepthOk(side, view, n, a) && DepthOk(side, view, n, b)
    requires k < |a| && k < |b|
    requires forall i :: 0 <= i < k ==> a[i] == b[i]
    ensures a[k] == b[k]
  {
    NotBetter(side, view, n, a, b, k);
    NotBetter(side, view, n, b, a, k);
  }

  // The k-th price of one list does not come before the k-th price of the other.
  lemma NotBetter(side: Side, view: View, n: nat, a: seq<(Price, Qty)>, b: seq<(Price, Qty)>, k: nat)
    requires DepthOk(side, view, n, a) && DepthOk(side, view, n, b)
    requires k < |a| && k < |b|
    requires forall i :: 0 <= i < k ==> a[i] == b[i]
    ensures !Better(side, a[k].0, b[k].0)
  {
    forall i | 0 <= i < |b| && i != k
      ensures if i < k then Better(side, b[i].0, a[k].0) else Better(side, b[k].0, b[i].0)
    {
    }
  }

  lemma DepthLength(side: Side, view: View, n: nat, a: seq<(Price, Qty)>, b: seq<(Price, Qty)>)
    requires DepthOk(side, view, n, a) && DepthOk(side, view, n, b)
    requires |a| <= |b| && forall i :: 0 <= i < |a| ==> a[i] == b[i]
    ensures a == b
  {
    if |a| < |b| {
      NextUnlisted(side, view, n, a, b);
    }
  }

  lemma NextUnlisted(side: Side, view: View, n: nat, a: seq<(Price, Qty)>, b: seq<(Price, Qty)>)
    requires DepthOk(side, view, n, b) && |a| < |b|
    requires forall i :: 0 <= i < |a| ==> a[i] == b[i]
    ensures b[|a|].0 in view && !Listed(a, b[|a|].0)
  {
    forall i | 0 <= i < |a|
      ensures a[i].0 != b[|a|].0
    {
      assert Better(side, b[i].0, b[|a|].0);
    }
  }

  // ---- building the best-first list ---------------------------------------------------

  predicate Before(side: Side, p: int, q: int) {
    if side.Bid? then p > q else p < q
  }

  // `out` lists, best first, exactly the marked prices before `bound`.
  ghost predicate DepthPart(side: Side, view: View, out: seq<(Price, Qty)>, bound: int) {
    && (forall i :: 0 <= i < |out| ==>
          out[i].0 in view && out[i].1 == view[out[i].0].total && Before(side, out[i].0, bound))
    && (forall i, j :: 0 <= i < j < |out| ==> Better(side, out[i].0, out[j].0))
    && (forall p :: p in view && Before(side, p, bound) ==> Listed(out, p))
  }

  // No marked price from `a` (inclusive) to `b` (exclusive), moving inward.
  ghost predicate NoneBetween(side: Side, view: View, a: int, b: int) {
    forall p :: p in view ==> Before(side, p, a) || !Before(side, p, b)
  }

  function After(side: Side, p: int): int {
    if side.Bid? then p - 1 else p + 1
  }

  lemma DepthStart(side: Side, view: View, bound: int)
    requires forall p :: p in view ==> !Before(side, p, bound)
    ensures DepthPart(side, view, [], bound)
  {
  }

  lemma DepthSkip(side: Side, view: View, out: seq<(Price, Qty)>, a: int, b: int)
    requires DepthPart(side, view, out, a) && NoneBetween(side, view, a, b) && !Before(side, b, a)
    ensures DepthPart(side, view, out, b)
  {
  }

  lemma DepthPush(side: Side, view: View, out: seq<(Price, Qty)>, bound: int, p: Price)
    requires DepthPart(side, view, out, bound) && p in view && NoneBetween(side, view, bound, p)
             && !Before(side, p, bound)
    ensures DepthPart(side, view, out + [(p, view[p].total)], After(side, p))
  {
    var out' := out + [(p, view[p].total)];
    forall q | q in view && Before(side, q, After(side, p))
      ensures Listed(out', q)
    {
      if q == p {
        assert out'[|out|].0 == p;
      } else {
        var i :| 0 <= i < |out| && out[i].0 == q;
        assert out'[i].0 == q;
      }
    }
  }

  lemma DepthFull(side: Side, view: View, n: nat, out: seq<(Price, Qty)>, bound: int)
    requires DepthPart(side, view, out, bound) && |out| == n
    ensures DepthOk(side, view, n, out)
  {
  }

  lemma DepthAll(side: Side, view: View, n: nat, out: seq<(Price, Qty)>, bound: int)
    requires DepthPart(side, view, out, bound) && |out| <= n
    requires forall p :: p in view ==> Before(side, p, bound)
    ensures DepthOk(side, view, n, out)
  {
  }
}
