// The direct-indexed ladder of one book side: src/index.rs:121-332.

module Ladders {
  import opened Types
  import opened Chunks
  import opened Words
  import opened Bitmap
  import opened LevelView

  // Array index = price - base.
  predicate InLadder(base: Price, span: nat, p: int) {
    base <= p < base + span
  }

  // `(p - base) as usize`: a price below the base wraps around.
  function CastIndex(base: Price, p: Price): nat {
    if p < base then p - base + TWO_TO_64 else p - base
  }

  // `i as u32`.
  function AsU32(i: nat): u32 {
    i % 0x1_0000_0000
  }

  lemma CastFits(i: nat)
    requires i < NIL
    ensures AsU32(i) == i
  {
  }

  // A cursor tells the indices of a ladder apart from each other and from NIL
  // exactly when the span stays below 2^32.
  lemma CursorsFit(span: nat)
    ensures (forall i :: 0 <= i < span ==> AsU32(i) == i && AsU32(i) != NIL) <==> span <= 0xFFFF_FFFF
  {
    if span > NIL {
      assert AsU32(NIL) == NIL;
    }
  }

  // The view at one price: the level of a marked index, nothing otherwise.
  ghost predicate EntryOk(levels: seq<Level>, base: Price, occ: set<nat>, view: View, p: Price) {
    if InLadder(base, |levels|, p) then
      var i: nat := p - base;
      (p in view <==> i in occ) && levels[i] == (if p in view then view[p] else EMPTY_LEVEL)
    else
      p !in view
  }

  ghost predicate ViewOk(levels: seq<Level>, base: Price, occ: set<nat>, view: View) {
    && IsPrice(base + |levels| - 1)
    && (forall i :: i in occ ==> i < |levels|)
    && (forall p: Price {:trigger EntryOk(levels, base, occ, view, p)} :: EntryOk(levels, base, occ, view, p))
  }

  predicate BetterIndex(side: Side, i: int, j: int) {
    if side.Bid? then i > j else i < j
  }

  // The cached cursor is the best marked index; NIL when nothing is marked.
  ghost predicate CursorOk(side: Side, occ: set<nat>, best: int) {
    if best == NIL then occ == {}
    else best >= 0 && best in occ && forall i :: i in occ ==> !BetterIndex(side, i, best)
  }

  lemma ViewAt(levels: seq<Level>, base: Price, occ: set<nat>, view: View, p: Price)
    requires ViewOk(levels, base, occ, view)
    ensures EntryOk(levels, base, occ, view, p)
  {
  }

  // No level is as far from the base as a price below it.
  lemma FarIndex(levels: seq<Level>, base: Price, occ: set<nat>, view: View)
    requires ViewOk(levels, base, occ, view)
    ensures forall p: Price :: p < base ==> CastIndex(base, p) >= |levels|
  {
  }

  lemma ViewBounds(levels: seq<Level>, base: Price, occ: set<nat>, view: View, i: nat)
    requires ViewOk(levels, base, occ, view)
    ensures i in occ ==> i < |levels|
    ensures i < |levels| ==> IsPrice(base + i)
  {
  }

  lemma ViewEmpty(levels: seq<Level>, base: Price, occ: set<nat>, view: View)
    requires ViewOk(levels, base, occ, view)
    ensures view == map[] <==> occ == {}
  {
    hide ViewOk;
    if occ != {} {
      var i :| i in occ;
      ViewBounds(levels, base, occ, view, i);
      ViewAt(levels, base, occ, view, base + i);
    }
    if view != map[] {
      var p :| p in view;
      ViewAt(levels, base, occ, view, p);
    }
  }

  // As many prices as marked indices.
  lemma {:induction false} ViewCount(levels: seq<Level>, base: Price, occ: set<nat>, view: View)
    requires ViewOk(levels, base, occ, view)
    ensures |view| == |occ|
    decreases |occ|
  {
    hide ViewOk;
    ViewEmpty(levels, base, occ, view);
    if occ != {} {
      var i :| i in occ;
      ViewBounds(levels, base, occ, view, i);
      var p: Price := base + i;
      ViewAt(levels, base, occ, view, p);
      ViewClear(levels[i := EMPTY_LEVEL], levels, base, occ, view, p);
      ViewCount(levels[i := EMPTY_LEVEL], base, occ - {i}, view - {p});
      assert (view - {p}).Keys == view.Keys - {p};
    }
  }

  lemma CursorBest(levels: seq<Level>, base: Price, side: Side, occ: set<nat>, view: View, best: u32)
    requires ViewOk(levels, base, occ, view) && CursorOk(side, occ, best) && |levels| <= NIL
    ensures best != NIL ==> IsPrice(base + best) && IsBest(side, view, base + best)
    ensures best == NIL ==> view == map[]
  {
    hide ViewOk;
    ViewEmpty(levels, base, occ, view);
    if best != NIL {
      ViewBounds(levels, base, occ, view, best);
      ViewAt(levels, base, occ, view, base + best);
      forall q | q in view
        ensures !Better(side, q, base + best)
      {
        ViewAt(levels, base, occ, view, q);
        assert !BetterIndex(side, q - base, best);
      }
    }
  }

  // ---- single updates of the view ------------------------------------------------------

  lemma ViewMark(levels: seq<Level>, base: Price, occ: set<nat>, view: View, p: Price)
    requires ViewOk(levels, base, occ, view) && InLadder(base, |levels|, p) && p !in view
    ensures ViewOk(levels, base, occ + {p - base}, view[p := EMPTY_LEVEL])
  {
    var (occ', view') := (occ + {p - base}, view[p := EMPTY_LEVEL]);
    forall q: Price
      ensures EntryOk(levels, base, occ', view', q)
    {
      ViewAt(levels, base, occ, view, q);
    }
  }

  lemma ViewClear(levels: seq<Level>, before: seq<Level>, base: Price, occ: set<nat>, view: View, p: Price)
    requires ViewOk(before, base, occ, view) && p in view && InLadder(base, |before|, p)
    requires levels == before[p - base := EMPTY_LEVEL]
    ensures ViewOk(levels, base, occ - {p - base}, view - {p})
  {
    var (occ', view') := (occ - {p - base}, view - {p});
    forall q: Price
      ensures EntryOk(levels, base, occ', view', q)
    {
      ViewAt(before, base, occ, view, q);
    }
  }

  lemma ViewWrite(levels: seq<Level>, base: Price, occ: set<nat>, view: View, p: Price, lvl: Level)
    requires ViewOk(levels, base, occ, view) && p in view && InLadder(base, |levels|, p)
    ensures ViewOk(levels[p - base := lvl], base, occ, view[p := lvl])
  {
    var (levels', view') := (levels[p - base := lvl], view[p := lvl]);
    forall q: Price
      ensures EntryOk(levels', base, occ, view', q)
    {
      ViewAt(levels, base, occ, view, q);
    }
  }

  class LadderIndex {
    const base: Price
    const side: Side
    const levels: array<Level>
    const bits: array<bv64>
    const summary: array<bv64>
    // Number of marked levels.
    var count: nat
    // Index of the best marked level; NIL when there is none.
    var best: u32

    ghost var occ: set<nat>
    ghost var view: View

    ghost predicate Valid()
      reads this, levels, bits, summary
    {
      && bits != summary && levels as object != bits && levels as object != summary
      && 0 < levels.Length <= NIL
      && BitmapOk(bits[..], summary[..], levels.Length)
      && Marks(bits[..], occ)
      && ViewOk(levels[..], base, occ, view)
      && count == |occ|
      && CursorOk(side, occ, best)
    }

    ghost function Repr(): set<object> {
      {this, levels, bits, summary}
    }

    predicate Covers(p: int) {
      InLadder(base, levels.Length, p)
    }

    // Cursors are u32 with NIL reserved, so the span must stay below 2^32.
    constructor (side: Side, priceMin: Price, priceMax: Price)
      requires priceMax - priceMin + 1 <= 0xFFFF_FFFF
      ensures Valid() && view == map[]
      ensures fresh(levels) && fresh(bits) && fresh(summary)
      ensures this.side == side && base == priceMin
      ensures levels.Length == if priceMin <= priceMax then priceMax - priceMin + 1 else 1
    {
      var span: nat := if priceMin <= priceMax then priceMax - priceMin + 1 else 1;
      this.base, this.side := priceMin, side;
      levels := new Level[span](_ => EMPTY_LEVEL);
      bits := new bv64[WordsFor(span)](_ => 0);
      summary := new bv64[WordsFor(WordsFor(span))](_ => 0);
      count, best, occ, view := 0, NIL, {}, map[];
      new;
      BlankBitmap(bits[..], summary[..], levels.Length);
    }

    // The level of a marked price; none if it is empty or outside the ladder.
    method LevelMut(price: Price) returns (r: Option<Level>)
      requires Valid()
      ensures r == if price in view && !view[price].IsEmpty() then Some(view[price]) else None
    {
      hide ViewOk, BitmapOk, Marks, CursorOk;
      ViewAt(levels[..], base, occ, view, price);
      FarIndex(levels[..], base, occ, view);
      var i := CastIndex(base, price);
      r := if i >= levels.Length || levels[i].IsEmpty() then None else Some(levels[i]);
    }

    // The caller's `&mut Level` goes back.
    method SetLevel(price: Price, lvl: Level)
      requires Valid() && price in view
      modifies this`view, levels
      ensures Valid() && view == old(view)[price := lvl]
    {
      hide BitmapOk, Marks, CursorOk, ViewOk;
      ViewAt(levels[..], base, occ, view, price);
      var i: nat := price - base;
      ViewWrite(levels[..], base, occ, view, price, lvl);
      levels[i] := lvl;
      assert levels[..] == old(levels[..])[i := lvl];
      assert bits[..] == old(bits[..]) && summary[..] == old(summary[..]);
      view := view[price := lvl];
    }

    // Both bits of an index.
    method SetBits(i: nat)
      requires bits != summary && i / 64 < bits.Length && i / 64 / 64 < summary.Length
      modifies bits, summary
      ensures bits[..] == WithBit(old(bits[..]), i)
      ensures summary[..] == WithBit(old(summary[..]), i / 64)
    {
      hide Or, Mask;
      SummaryIndex(i);
      bits[i / 64] := Or(bits[i / 64], Mask(i % 64));
      summary[i / 4096] := Or(summary[i / 4096], Mask(i / 64 % 64));
    }

    // The bit of an index, and the summary bit of its word once that is zero.
    method ClearBits(i: nat)
      requires bits != summary && i / 64 < bits.Length && i / 64 / 64 < summary.Length
      modifies bits, summary
      ensures bits[..] == WithoutBit(old(bits[..]), i)
      ensures summary[..] ==
              if bits[i / 64] == 0 then WithoutBit(old(summary[..]), i / 64) else old(summary[..])
    {
      hide And, Not, Mask;
      var w := i / 64;
      bits[w] := And(bits[w], Not(Mask(i % 64)));
      if bits[w] == 0 {
        summary[w / 64] := And(summary[w / 64], Not(Mask(w % 64)));
      }
    }

    // Get or create: an unmarked price is marked now and filled by the caller
    // later, and becomes the cursor if nothing marked is better.
    method LevelInsert(price: Price) returns (lvl: Level)
      requires Valid() && Covers(price) && (price in view ==> !view[price].IsEmpty())
      modifies this, bits, summary
      ensures Valid()
      ensures view == (if price in old(view) then old(view) else old(view)[price := EMPTY_LEVEL])
      ensures lvl == view[price]
    {
      hide ViewOk, BitmapOk, Marks, WithBit, CursorOk, BetterIndex, CastIndex, AsU32;
      ViewAt(levels[..], base, occ, view, price);
      var i: nat := price - base;
      lvl := levels[i];
      if lvl.IsEmpty() {
        MarkBitmap(bits[..], summary[..], levels.Length, occ, i);
        ViewMark(levels[..], base, occ, view, price);
        CastFits(i);
        SetBits(i);
        assert levels[..] == old(levels[..]);
        CursorMore(side, occ, best, i);
        count := count + 1;
        if best == NIL || BetterIndex(side, AsU32(i), best) {
          best := AsU32(i);
        }
        occ := occ + {i};
        view := view[price := EMPTY_LEVEL];
      }
    }

    // Unmark a price whose level has emptied. Only the loss of the best one makes
    // the cursor search for its successor.
    method UnlinkLevel(price: Price)
      requires Valid() && price in view && (view[price].IsEmpty() ==> view[price] == EMPTY_LEVEL)
      modifies this, bits, summary
      ensures Valid()
      ensures view == if old(view)[price].IsEmpty() then old(view) - {price} else old(view)
    {
      hide ViewOk, BitmapOk, Marks, WithoutBit, CursorOk, Marked, WordsFor, AsU32;
      ViewAt(levels[..], base, occ, view, price);
      var i: nat := price - base;
      if !levels[i].IsEmpty() {
        return;
      }
      ClearBitmap(bits[..], summary[..], levels.Length, occ, i);
      assert levels[..] == levels[..][i := EMPTY_LEVEL];
      ViewClear(levels[..], levels[..], base, occ, view, price);
      CursorLess(side, occ, best, i);
      CastFits(i);
      ClearBits(i);
      assert levels[..] == old(levels[..]);
      count := count - 1;
      occ := occ - {i};
      view := view - {price};
      if count == 0 {
        best := NIL;
      } else if AsU32(i) == best {
        best := Rescan(i);
        CursorMoved(side, old(occ), occ, i, best);
      }
    }

    // Next marked index moving inward from `from`.
    method Rescan(from: nat) returns (r: u32)
      requires BitmapOk(bits[..], summary[..], levels.Length) && Marks(bits[..], occ)
      requires from < levels.Length <= NIL
      ensures r == NIL ==> forall i :: i in occ ==> BetterIndex(side, i, from)
      ensures r != NIL ==> r in occ && !BetterIndex(side, r, from)
                           && forall i :: i in occ ==> BetterIndex(side, i, from) || !BetterIndex(side, i, r)
    {
      if side.Ask? {
        r := RescanUp(from);
      } else {
        r := RescanDown(from);
      }
    }

    // The ask half of `rescan`.
    method RescanUp(from: nat) returns (r: u32)
      requires BitmapOk(bits[..], summary[..], levels.Length) && Marks(bits[..], occ)
      requires from < levels.Length <= NIL
      ensures r == NIL ==> NoneIn(bits[..], from, levels.Length)
      ensures r != NIL ==> r in occ && r >= from && NoneIn(bits[..], from, r)
    {
      hide BitmapOk, Marks, And, FromMask, Marked, Bit, NoneIn;
      Bounds(bits[..], summary[..], levels.Length, occ);
      WordInRange(from, levels.Length);
      Join(from);
      var w := from / 64;
      var word := And(bits[w], FromMask(from % 64));
      WordUp(bits[..], w, from % 64);
      if word != 0 {
        InSpan(bits[..], summary[..], levels.Length, occ, 64 * w + TrailingZeros(word));
        return 64 * w + TrailingZeros(word);
      }
      r := NextWordUp(from, w + 1);
    }

    // The first non-zero word from `start` on, found through the summary.
    method NextWordUp(from: nat, start: nat) returns (r: u32)
      requires BitmapOk(bits[..], summary[..], levels.Length) && Marks(bits[..], occ)
      requires levels.Length <= NIL && from < 64 * start && NoneIn(bits[..], from, 64 * start)
      ensures r == NIL ==> NoneIn(bits[..], from, levels.Length)
      ensures r != NIL ==> r in occ && r >= from && NoneIn(bits[..], from, r)
    {
      hide BitmapOk, Marks, And, FromMask, Marked, Bit, NoneIn;
      Bounds(bits[..], summary[..], levels.Length, occ);
      var s := start;
      while s < bits.Length
        invariant start <= s && NoneIn(bits[..], from, 64 * s)
      {
        var sw := s / 64;
        WordInRange(s, bits.Length);
        Join(s);
        var sword := And(summary[sw], FromMask(s % 64));
        WordUp(summary[..], sw, s % 64);
        if sword != 0 {
          var nw := 64 * sw + TrailingZeros(sword);
          SummaryWord(bits[..], summary[..], levels.Length, nw);
          EmptyWords(bits[..], summary[..], levels.Length, s, nw);
          WordEnds(bits[..], nw);
          r := UpResult(from, s, nw);
          return;
        }
        EmptyWords(bits[..], summary[..], levels.Length, s, 64 * sw + 64);
        NoneJoin(bits[..], from, 64 * s, 64 * (64 * sw + 64));
        s := 64 * sw + 64;
      }
      NoneShrink(bits[..], from, 64 * s, from, levels.Length);
      return NIL;
    }

    // The lowest bit of the first non-zero word.
    method UpResult(from: nat, s: nat, nw: nat) returns (r: u32)
      requires BitmapOk(bits[..], summary[..], levels.Length) && Marks(bits[..], occ) && levels.Length <= NIL
      requires nw < bits.Length && bits[nw] != 0 && from <= 64 * s <= 64 * nw
      requires NoneIn(bits[..], from, 64 * s) && NoneIn(bits[..], 64 * s, 64 * nw)
      ensures r != NIL && r in occ && r >= from && NoneIn(bits[..], from, r)
    {
      hide BitmapOk, Marks, Marked, Bit, NoneIn;
      WordEnds(bits[..], nw);
      var i := 64 * nw + TrailingZeros(bits[nw]);
      InSpan(bits[..], summary[..], levels.Length, occ, i);
      NoneJoin(bits[..], from, 64 * s, 64 * nw);
      NoneJoin(bits[..], from, 64 * nw, i);
      r := i;
    }

    // The bid half of `rescan`.
    method RescanDown(from: nat) returns (r: u32)
      requires BitmapOk(bits[..], summary[..], levels.Length) && Marks(bits[..], occ)
      requires from < levels.Length <= NIL
      ensures r == NIL ==> NoneIn(bits[..], 0, from + 1)
      ensures r != NIL ==> r in occ && r <= from && NoneIn(bits[..], r + 1, from + 1)
    {
      hide BitmapOk, Marks, And, UptoMask, Marked, Bit, NoneIn;
      Bounds(bits[..], summary[..], levels.Length, occ);
      WordInRange(from, levels.Length);
      Join(from);
      var w := from / 64;
      var word := And(bits[w], UptoMask(from % 64));
      WordDown(bits[..], w, from % 64);
      if word != 0 {
        InSpan(bits[..], summary[..], levels.Length, occ, 64 * w + HighestBit(word));
        return 64 * w + HighestBit(word);
      }
      r := NextWordDown(from, w);
    }

    // The last non-zero word before `end`, found through the summary.
    method NextWordDown(from: nat, end: nat) returns (r: u32)
      requires BitmapOk(bits[..], summary[..], levels.Length) && Marks(bits[..], occ)
      requires levels.Length <= NIL && end < bits.Length && 64 * end <= from && NoneIn(bits[..], 64 * end, from + 1)
      ensures r == NIL ==> NoneIn(bits[..], 0, from + 1)
      ensures r != NIL ==> r in occ && r <= from && NoneIn(bits[..], r + 1, from + 1)
    {
      hide BitmapOk, Marks, And, UptoMask, Marked, Bit, NoneIn;
      Bounds(bits[..], summary[..], levels.Length, occ);
      var s: int := end - 1;
      while s >= 0
        invariant -1 <= s < end && NoneIn(bits[..], 64 * (s + 1), from + 1)
      {
        var sw := s / 64;
        WordInRange(s, bits.Length);
        Join(s);
        var sword := And(summary[sw], UptoMask(s % 64));
        WordDown(summary[..], sw, s % 64);
        if sword != 0 {
          var nw := 64 * sw + HighestBit(sword);
          SummaryWord(bits[..], summary[..], levels.Length, nw);
          EmptyWords(bits[..], summary[..], levels.Length, nw + 1, s + 1);
          WordEnds(bits[..], nw);
          r := DownResult(from, s + 1, nw);
          return;
        }
        EmptyWords(bits[..], summary[..], levels.Length, 64 * sw, s + 1);
        NoneJoin(bits[..], 64 * (64 * sw), 64 * (s + 1), from + 1);
        s := 64 * sw - 1;
      }
      return NIL;
    }

    method DownResult(from: nat, s: nat, nw: nat) returns (r: u32)
      requires BitmapOk(bits[..], summary[..], levels.Length) && Marks(bits[..], occ) && levels.Length <= NIL
      requires nw < bits.Length && bits[nw] != 0 && nw < s && 64 * s <= from + 1
      requires NoneIn(bits[..], 64 * (nw + 1), 64 * s) && NoneIn(bits[..], 64 * s, from + 1)
      ensures r != NIL && r in occ && r <= from && NoneIn(bits[..], r + 1, from + 1)
    {
      hide BitmapOk, Marks, Marked, Bit, NoneIn;
      WordEnds(bits[..], nw);
      var i := 64 * nw + HighestBit(bits[nw]);
      InSpan(bits[..], summary[..], levels.Length, occ, i);
      NoneJoin(bits[..], 64 * (nw + 1), 64 * s, from + 1);
      NoneJoin(bits[..], i + 1, 64 * (nw + 1), from + 1);
      r := i;
    }

    // Best marked price: a cursor read.
    method BestPrice() returns (r: Option<Price>)
      requires Valid()
      ensures BestIs(side, view, r)
    {
      hide ViewOk, BitmapOk, Marks, CursorOk;
      CursorBest(levels[..], base, side, occ, view, best);
      r := if best == NIL then None else Some(base + best);
    }

    // Number of marked levels.
    method Len() returns (n: nat)
      requires Valid()
      ensures n == |view|
    {
      hide ViewOk, BitmapOk, Marks, CursorOk;
      ViewCount(levels[..], base, occ, view);
      n := count;
    }

    // The masked word walk over [lo, hi]. Both ends become array indices by a cast,
    // so one below the base wraps to an index past every level: a low end there
    // gives nothing, a high end there the whole ladder from `lo`.
    method SumRange(lo: Price, hi: Price) returns (sum: Qty)
      requires Valid()
      ensures lo < base ==> sum == 0
      ensures base <= lo && base <= hi ==> sum == Wrap(SumView(view, lo, hi))
      ensures hi < base <= lo ==> sum == Wrap(SumView(view, lo, base + levels.Length - 1))
    {
      hide ViewOk, BitmapOk, Marks, CursorOk, SumView, Bit;
      var loI, hiI := CastIndex(base, lo), CastIndex(base, hi);
      FarIndex(levels[..], base, occ, view);
      if hiI > levels.Length - 1 {
        hiI := levels.Length - 1;
      }
      if lo < base {
        return 0;
      }
      ViewInside(levels[..], base, occ, view);
      SumClip(view, lo, if hi < base then base + hiI else hi, base + hiI);
      SumNothing(view, lo, lo - 1);
      if loI > hiI {
        SumNothing(view, lo, base + hiI);
        return 0;
      }
      Bounds(bits[..], summary[..], levels.Length, occ);
      sum := 0;
      var i := loI;
      while i <= hiI
        invariant loI <= i
        invariant sum == Wrap(SumView(view, lo, base + (if i <= hiI then i else hiI + 1) - 1))
        decreases hiI + 64 - i
      {
        WordInRange(i, levels.Length);
        WordSpan(i, hiI);
        var w := i / 64;
        var last := if 64 * w + 63 <= hiI then 64 * w + 63 else hiI;
        sum := SumWord(lo, w, i % 64, last % 64, sum);
        i := 64 * w + 64;
      }
    }

    // The inner loop of `sum_range`: the bits of one word in [k, hiBit].
    method SumWord(ghost lo: Price, w: nat, k: nat, hiBit: nat, before: Qty) returns (sum: Qty)
      requires Valid() && w < bits.Length && k <= hiBit < 64 && base <= lo <= base + 64 * w + k
      requires before == Wrap(SumView(view, lo, base + 64 * w + k - 1))
      ensures sum == Wrap(SumView(view, lo, base + 64 * w + hiBit))
    {
      hide ViewOk, BitmapOk, Marks, CursorOk, And, FromMask, UptoMask, Bit, Drop, Remaining, SumView, NoneIn, Marked;
      var word := And(And(bits[w], FromMask(k)), UptoMask(hiBit));
      MaskedWord(bits[w], k, hiBit);
      sum := before;
      ghost var p := k;
      while word != 0
        invariant k <= p <= hiBit + 1
        invariant Remaining(word, bits[w], p, hiBit)
        invariant sum == Wrap(SumView(view, lo, base + 64 * w + p - 1))
        decreases hiBit + 1 - p
      {
        var b := TrailingZeros(word);
        WordGap(bits[..], w, p, b, word, hiBit);
        SumBit(levels[..], bits[..], base, occ, view, lo, 64 * w + p, 64 * w + b);
        WrapAdd(SumView(view, lo, base + 64 * w + p - 1), levels[64 * w + b].total);
        sum := Wrap(sum + levels[64 * w + b].total);
        DropAll(word, bits[w], p, hiBit);
        word := Drop(word);
        p := b + 1;
      }
      WordRest(bits[..], w, p, word, hiBit);
      SumNone(levels[..], bits[..], base, occ, view, lo, 64 * w + p, 64 * w + hiBit + 1);
    }

    // Up to `n` (price, total) pairs from the best price inward. The length is
    // tested only after a push, so `n == 0` lists every level.
    method Depth(n: nat) returns (out: seq<(Price, Qty)>)
      requires Valid()
      ensures n > 0 ==> DepthOk(side, view, n, out)
      ensures n == 0 ==> DepthOk(side, view, |out| + 1, out)
    {
      if side.Ask? {
        out := DepthUp(n);
      } else {
        out := DepthDown(n);
      }
    }

    method DepthUp(n: nat) returns (out: seq<(Price, Qty)>)
      requires Valid() && side.Ask?
      ensures DepthOk(Ask, view, if n > 0 then n else |out| + 1, out)
    {
      hide ViewOk, BitmapOk, Marks, CursorOk, Bit, Drop, DepthPart, DepthOk, Remaining;
      out := [];
      ViewInside(levels[..], base, occ, view);
      Bounds(bits[..], summary[..], levels.Length, occ);
      DepthStart(Ask, view, base);
      for w := 0 to bits.Length
        invariant DepthPart(Ask, view, out, base + 64 * w) && (n == 0 || |out| < n)
      {
        var word := bits[w];
        ghost var p := 0;
        WholeWord(word);
        while word != 0
          invariant p <= 64
          invariant Remaining(word, bits[w], p, 63)
          invariant DepthPart(Ask, view, out, base + 64 * w + p) && (n == 0 || |out| < n)
          decreases 64 - p
        {
          var b := TrailingZeros(word);
          WordGap(bits[..], w, p, b, word, 63);
          var i := 64 * w + b;
          MarkedView(levels[..], bits[..], summary[..], base, occ, view, i);
          ViewGap(levels[..], bits[..], base, occ, view, 64 * w + p, i);
          DepthPush(Ask, view, out, base + 64 * w + p, base + i);
          out := out + [(base + i, levels[i].total)];
          if |out| == n {
            DepthFull(Ask, view, n, out, base + i + 1);
            return;
          }
          DropAll(word, bits[w], p, 63);
          word := Drop(word);
          p := b + 1;
        }
        WordRest(bits[..], w, p, word, 63);
        ViewGap(levels[..], bits[..], base, occ, view, 64 * w + p, 64 * w + 64);
        DepthSkip(Ask, view, out, base + 64 * w + p, base + 64 * w + 64);
      }
      DepthAll(Ask, view, if n > 0 then n else |out| + 1, out, base + 64 * bits.Length);
    }

    method DepthDown(n: nat) returns (out: seq<(Price, Qty)>)
      requires Valid() && side.Bid?
      ensures DepthOk(Bid, view, if n > 0 then n else |out| + 1, out)
    {
      hide ViewOk, BitmapOk, Marks, CursorOk, Bit, And, Not, Mask, DepthPart, DepthOk, Remaining;
      out := [];
      ViewInside(levels[..], base, occ, view);
      Bounds(bits[..], summary[..], levels.Length, occ);
      DepthStart(Bid, view, base + 64 * bits.Length - 1);
      for w := bits.Length downto 0
        invariant DepthPart(Bid, view, out, base + 64 * w - 1) && (n == 0 || |out| < n)
      {
        var word := bits[w];
        ghost var p := 64;
        WholeWord(word);
        while word != 0
          invariant 0 <= p <= 64
          invariant Remaining(word, bits[w], 0, p - 1)
          invariant DepthPart(Bid, view, out, base + 64 * w + p - 1) && (n == 0 || |out| < n)
          decreases p
        {
          var b := HighestBit(word);
          WordGapDown(bits[..], w, p, b, word);
          var i := 64 * w + b;
          MarkedView(levels[..], bits[..], summary[..], base, occ, view, i);
          ViewGap(levels[..], bits[..], base, occ, view, i + 1, 64 * w + p);
          DepthPush(Bid, view, out, base + 64 * w + p - 1, base + i);
          out := out + [(base + i, levels[i].total)];
          if |out| == n {
            DepthFull(Bid, view, n, out, base + i - 1);
            return;
          }
          ClearTop(word, bits[w], p, b);
          word := And(word, Not(Mask(b)));
          p := b;
        }
        WordRestDown(bits[..], w, p, word);
        ViewGap(levels[..], bits[..], base, occ, view, 64 * w, 64 * w + p);
        DepthSkip(Bid, view, out, base + 64 * w + p - 1, base + 64 * w - 1);
      }
      DepthAll(Bid, view, if n > 0 then n else |out| + 1, out, base - 1);
    }
  }

  // The bits of `word` are those of `x` in [p, hi].
  ghost predicate Remaining(word: bv64, x: bv64, p: nat, hi: int) {
    forall b: nat {:trigger Bit(word, b)} :: Bit(word, b) <==> Bit(x, b) && p <= b <= hi
  }

  lemma WordSpan(i: nat, hi: nat)
    requires i <= hi
    ensures var w := i / 64;
            var last := if 64 * w + 63 <= hi then 64 * w + 63 else hi;
            && 64 * w + i % 64 == i && 64 * w + last % 64 == last && i % 64 <= last % 64 < 64
            && i <= last <= hi && (last == hi || last == 64 * w + 63) && i < 64 * w + 64
  {
  }

  // ---- word walks --------------------------------------------------------------------

  lemma MaskedWord(x: bv64, lo: nat, hi: nat)
    requires lo < 64 && hi < 64
    ensures Remaining(And(And(x, FromMask(lo)), UptoMask(hi)), x, lo, hi)
  {
    hide And, FromMask, UptoMask, Bit;
    var masked := And(And(x, FromMask(lo)), UptoMask(hi));
    forall b: nat
      ensures Bit(masked, b) <==> Bit(x, b) && lo <= b <= hi
    {
      BitUpto(And(x, FromMask(lo)), hi, b);
      BitFrom(x, lo, b);
    }
  }

  lemma WholeWord(x: bv64)
    ensures Remaining(x, x, 0, 63)
  {
  }

  lemma DropAll(word: bv64, x: bv64, p: nat, hi: nat)
    requires word != 0 && Remaining(word, x, p, hi)
    ensures Remaining(Drop(word), x, TrailingZeros(word) + 1, hi)
  {
    hide Bit, Drop;
    var b := TrailingZeros(word);
    var dropped := Drop(word);
    forall j: nat
      ensures Bit(dropped, j) <==> Bit(x, j) && b + 1 <= j <= hi
    {
      DropLowest(word, j);
      assert Bit(word, j) ==> j >= b;
      assert Bit(word, b);
    }
  }

  lemma ClearTop(word: bv64, x: bv64, p: nat, b: nat)
    requires b < p <= 64 && word != 0 && b == HighestBit(word) && Remaining(word, x, 0, p - 1)
    ensures Remaining(And(word, Not(Mask(b))), x, 0, b - 1)
  {
    hide Bit, And, Not, Mask;
    var cleared := And(word, Not(Mask(b)));
    forall j: nat
      ensures Bit(cleared, j) <==> Bit(x, j) && 0 <= j <= b - 1
    {
      BitClear(word, b, j);
      BitSmall(word, j);
      assert Bit(word, j) ==> j <= b;
    }
  }

  lemma BitSmall(w: bv64, j: nat)
    ensures Bit(w, j) ==> j < 64
  {
  }

  lemma WordGap(bits: seq<bv64>, w: nat, p: nat, b: nat, word: bv64, hi: nat)
    requires w < |bits| && hi < 64 && word != 0 && Remaining(word, bits[w], p, hi) && b == TrailingZeros(word)
    ensures p <= b <= hi && Marked(bits, 64 * w + b) && NoneIn(bits, 64 * w + p, 64 * w + b)
  {
    hide Bit;
    assert Bit(word, b);
    MarkedAt(bits, w, b);
    forall i: nat | 64 * w + p <= i < 64 * w + b
      ensures !Marked(bits, i)
    {
      MarkedAt(bits, w, i - 64 * w);
      assert !Bit(word, i - 64 * w);
    }
  }

  lemma WordRest(bits: seq<bv64>, w: nat, p: nat, word: bv64, hi: nat)
    requires w < |bits| && hi < 64 && word == 0 && Remaining(word, bits[w], p, hi)
    ensures NoneIn(bits, 64 * w + p, 64 * w + hi + 1)
  {
    hide Bit;
    ZeroIffNone(word);
    forall i: nat | 64 * w + p <= i < 64 * w + hi + 1
      ensures !Marked(bits, i)
    {
      MarkedAt(bits, w, i - 64 * w);
      assert !Bit(word, i - 64 * w);
    }
  }

  lemma WordGapDown(bits: seq<bv64>, w: nat, p: nat, b: nat, word: bv64)
    requires w < |bits| && p <= 64 && word != 0 && b == HighestBit(word) && Remaining(word, bits[w], 0, p - 1)
    ensures b < p && Marked(bits, 64 * w + b) && NoneIn(bits, 64 * w + b + 1, 64 * w + p)
  {
    hide Bit;
    assert Bit(word, b);
    MarkedAt(bits, w, b);
    forall i: nat | 64 * w + b + 1 <= i < 64 * w + p
      ensures !Marked(bits, i)
    {
      MarkedAt(bits, w, i - 64 * w);
      assert !Bit(word, i - 64 * w);
    }
  }

  lemma WordRestDown(bits: seq<bv64>, w: nat, p: nat, word: bv64)
    requires w < |bits| && p <= 64 && word == 0 && Remaining(word, bits[w], 0, p - 1)
    ensures NoneIn(bits, 64 * w, 64 * w + p)
  {
    hide Bit;
    ZeroIffNone(word);
    forall i: nat | 64 * w <= i < 64 * w + p
      ensures !Marked(bits, i)
    {
      MarkedAt(bits, w, i - 64 * w);
      assert !Bit(word, i - 64 * w);
    }
  }

  // ---- from indices to prices ----------------------------------------------------------

  lemma ViewInside(levels: seq<Level>, base: Price, occ: set<nat>, view: View)
    requires ViewOk(levels, base, occ, view)
    ensures forall p :: p in view ==> base <= p < base + |levels|
  {
    hide ViewOk;
    forall p | p in view
      ensures base <= p < base + |levels|
    {
      ViewAt(levels, base, occ, view, p);
    }
  }

  lemma MarkedView(levels: seq<Level>, bits: seq<bv64>, summary: seq<bv64>, base: Price, occ: set<nat>, view: View,
                   i: nat)
    requires BitmapOk(bits, summary, |levels|) && Marks(bits, occ) && ViewOk(levels, base, occ, view) && Marked(bits, i)
    ensures i < |levels| && IsPrice(base + i) && base + i in view && view[base + i] == levels[i]
  {
    hide ViewOk, Marked;
    ViewBounds(levels, base, occ, view, i);
    ViewAt(levels, base, occ, view, base + i);
  }

  lemma ViewGap(levels: seq<Level>, bits: seq<bv64>, base: Price, occ: set<nat>, view: View, a: nat, b: nat)
    requires Marks(bits, occ) && ViewOk(levels, base, occ, view) && NoneIn(bits, a, b)
    ensures forall p :: p in view ==> !(base + a <= p < base + b)
  {
    hide ViewOk, Marked;
    forall p | p in view
      ensures !(base + a <= p < base + b)
    {
      ViewAt(levels, base, occ, view, p);
      assert Marked(bits, p - base);
    }
  }

  lemma SumNothing(view: View, lo: int, hi: int)
    requires hi < lo
    ensures SumView(view, lo, hi) == 0 && Wrap(0) == 0
  {
  }

  // Prices past the clipped end are not marked.
  lemma SumClip(view: View, lo: int, hi: int, clip: int)
    requires clip <= hi && forall p :: p in view ==> !(clip < p <= hi)
    ensures SumView(view, lo, hi) == SumView(view, lo, clip)
  {
    if lo <= clip + 1 {
      SumGap(view, lo, clip, hi);
    } else if lo <= hi {
      SumGap(view, lo, lo - 1, hi);
    }
  }

  lemma SumNone(levels: seq<Level>, bits: seq<bv64>, base: Price, occ: set<nat>, view: View, lo: int, a: nat, b: nat)
    requires Marks(bits, occ) && ViewOk(levels, base, occ, view) && NoneIn(bits, a, b)
    requires a <= b && lo <= base + a
    ensures SumView(view, lo, base + b - 1) == SumView(view, lo, base + a - 1)
  {
    hide ViewOk, Marked, NoneIn;
    ViewGap(levels, bits, base, occ, view, a, b);
    SumGap(view, lo, base + a - 1, base + b - 1);
  }

  lemma SumBit(levels: seq<Level>, bits: seq<bv64>, base: Price, occ: set<nat>, view: View, lo: int, a: nat, b: nat)
    requires Marks(bits, occ) && ViewOk(levels, base, occ, view) && NoneIn(bits, a, b) && Marked(bits, b)
    requires a <= b && lo <= base + a
    ensures b < |levels|
    ensures SumView(view, lo, base + b) == SumView(view, lo, base + a - 1) + levels[b].total
  {
    hide ViewOk, Marked, NoneIn;
    SumNone(levels, bits, base, occ, view, lo, a, b);
    ViewBounds(levels, base, occ, view, b);
    ViewAt(levels, base, occ, view, base + b);
  }

  lemma CursorMore(side: Side, occ: set<nat>, best: u32, i: nat)
    requires CursorOk(side, occ, best) && i < NIL
    ensures CursorOk(side, occ + {i}, if best == NIL || BetterIndex(side, i, best) then i else best)
  {
  }

  lemma CursorLess(side: Side, occ: set<nat>, best: u32, i: nat)
    requires CursorOk(side, occ, best) && i in occ
    ensures best != NIL && (i != best ==> CursorOk(side, occ - {i}, best) && occ - {i} != {})
    ensures |occ - {i}| == |occ| - 1
    ensures |occ| == 1 ==> CursorOk(side, occ - {i}, NIL)
  {
  }

  // The next marked index inward from the old best is the new best.
  lemma CursorMoved(side: Side, before: set<nat>, occ: set<nat>, i: nat, best: u32)
    requires CursorOk(side, before, i) && i < NIL && occ == before - {i} && occ != {}
    requires best == NIL ==> forall j :: j in occ ==> BetterIndex(side, j, i)
    requires best != NIL ==>
               best in occ && forall j :: j in occ ==> BetterIndex(side, j, i) || !BetterIndex(side, j, best)
    ensures CursorOk(side, occ, best)
  {
  }

  lemma BlankBitmap(bits: seq<bv64>, summary: seq<bv64>, span: nat)
    requires |bits| == WordsFor(span) && |summary| == WordsFor(|bits|)
    requires forall w :: 0 <= w < |bits| ==> bits[w] == 0
    requires forall w :: 0 <= w < |summary| ==> summary[w] == 0
    ensures BitmapOk(bits, summary, span) && Marks(bits, {})
  {
    hide Bit;
    forall i: nat
      ensures !Marked(bits, i) && !Marked(summary, i)
    {
      Join(i);
      if i / 64 < |bits| { ZeroIffNone(bits[i / 64]); }
      if i / 64 < |summary| { ZeroIffNone(summary[i / 64]); }
    }
  }

  lemma Bounds(bits: seq<bv64>, summary: seq<bv64>, span: nat, occ: set<nat>)
    requires BitmapOk(bits, summary, span) && Marks(bits, occ)
    ensures |bits| == WordsFor(span) && |summary| == WordsFor(|bits|)
  {
  }

  lemma InSpan(bits: seq<bv64>, summary: seq<bv64>, span: nat, occ: set<nat>, i: nat)
    requires BitmapOk(bits, summary, span) && Marks(bits, occ) && Marked(bits, i)
    ensures i < span && i in occ
  {
  }

  lemma SummaryWord(bits: seq<bv64>, summary: seq<bv64>, span: nat, w: nat)
    requires BitmapOk(bits, summary, span) && Marked(summary, w)
    ensures w < |bits| && bits[w] != 0
  {
  }

  lemma NoneShrink(bits: seq<bv64>, a: int, b: int, c: int, d: int)
    requires NoneIn(bits, a, b) && a <= c && d <= b
    ensures NoneIn(bits, c, d)
  {
  }
}
