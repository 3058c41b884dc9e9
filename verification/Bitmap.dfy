// The two-level occupancy bitmap: src/index.rs:121-253. Bit i of `bits` marks
// index i; bit w of `summary` says that word w of `bits` is not zero.

module Bitmap {
  import opened Words

  predicate Marked(bits: seq<bv64>, i: nat) {
    i / 64 < |bits| && Bit(bits[i / 64], i % 64)
  }

  function WordsFor(n: nat): nat {
    (n + 63) / 64
  }

  ghost predicate BitmapOk(bits: seq<bv64>, summary: seq<bv64>, span: nat) {
    && |bits| == WordsFor(span) && |summary| == WordsFor(|bits|)
    && (forall i: nat {:trigger Marked(bits, i)} :: Marked(bits, i) ==> i < span)
    && (forall w: nat {:trigger Marked(summary, w)} :: Marked(summary, w) <==> w < |bits| && bits[w] != 0)
  }

  // `occ` is exactly the set of marked indices.
  ghost predicate Marks(bits: seq<bv64>, occ: set<nat>) {
    forall i: nat {:trigger Marked(bits, i)} {:trigger i in occ} :: i in occ <==> Marked(bits, i)
  }

  // No marked index in [a, b).
  ghost predicate NoneIn(bits: seq<bv64>, a: int, b: int) {
    forall i: nat {:trigger Marked(bits, i)} :: a <= i < b ==> !Marked(bits, i)
  }

  // ---- index arithmetic ------------------------------------------------------------

  lemma Split(w: nat, b: nat)
    requires b < 64
    ensures (64 * w + b) / 64 == w && (64 * w + b) % 64 == b
  {
  }

  lemma Join(i: nat)
    ensures i == 64 * (i / 64) + i % 64 && i % 64 < 64
  {
  }

  lemma SummaryIndex(i: nat)
    ensures i / 4096 == i / 64 / 64
  {
  }

  lemma WordInRange(i: nat, span: nat)
    requires i < span
    ensures i / 64 < WordsFor(span)
  {
  }

  lemma MarkedAt(bits: seq<bv64>, w: nat, b: nat)
    requires b < 64
    ensures Marked(bits, 64 * w + b) <==> w < |bits| && Bit(bits[w], b)
  {
    Split(w, b);
  }

  // ---- marking and clearing one index ---------------------------------------------------

  function WithBit(bits: seq<bv64>, i: nat): seq<bv64>
    requires i / 64 < |bits|
  {
    bits[i / 64 := Or(bits[i / 64], Mask(i % 64))]
  }

  function WithoutBit(bits: seq<bv64>, i: nat): seq<bv64>
    requires i / 64 < |bits|
  {
    bits[i / 64 := And(bits[i / 64], Not(Mask(i % 64)))]
  }

  lemma WithBitMarks(bits: seq<bv64>, i: nat, j: nat)
    requires i / 64 < |bits|
    ensures Marked(WithBit(bits, i), j) <==> Marked(bits, j) || j == i
  {
    hide Bit, Or, Mask;
    Join(i);
    Join(j);
    BitSet(bits[i / 64], i % 64, j % 64);
  }

  lemma WithoutBitMarks(bits: seq<bv64>, i: nat, j: nat)
    requires i / 64 < |bits|
    ensures Marked(WithoutBit(bits, i), j) <==> Marked(bits, j) && j != i
  {
    hide Bit, And, Not, Mask;
    Join(i);
    Join(j);
    BitClear(bits[i / 64], i % 64, j % 64);
  }

  lemma MarkBitmap(bits: seq<bv64>, summary: seq<bv64>, span: nat, occ: set<nat>, i: nat)
    requires BitmapOk(bits, summary, span) && Marks(bits, occ) && i < span
    ensures i / 64 < |bits| && i / 64 / 64 < |summary|
    ensures BitmapOk(WithBit(bits, i), WithBit(summary, i / 64), span)
    ensures Marks(WithBit(bits, i), occ + {i})
  {
    hide Marked, Bit, Or, Mask;
    WordInRange(i, span);
    WordInRange(i / 64, |bits|);
    var bits' := WithBit(bits, i);
    forall j: nat
      ensures Marked(bits', j) <==> Marked(bits, j) || j == i
    {
      WithBitMarks(bits, i, j);
    }
    NonZero(bits', i);
    forall w: nat
      ensures Marked(WithBit(summary, i / 64), w) <==> w < |bits'| && bits'[w] != 0
    {
      WithBitMarks(summary, i / 64, w);
    }
  }

  lemma NonZero(bits: seq<bv64>, i: nat)
    requires Marked(bits, i)
    ensures i / 64 < |bits| && bits[i / 64] != 0
  {
    hide Bit;
    ZeroIffNone(bits[i / 64]);
  }

  // Clearing a word's last bit clears the word's summary bit.
  lemma ClearBitmap(bits: seq<bv64>, summary: seq<bv64>, span: nat, occ: set<nat>, i: nat)
    requires BitmapOk(bits, summary, span) && Marks(bits, occ) && i in occ
    ensures i / 64 < |bits| && i / 64 / 64 < |summary|
    ensures var bits' := WithoutBit(bits, i);
            && BitmapOk(bits', if bits'[i / 64] == 0 then WithoutBit(summary, i / 64) else summary, span)
            && Marks(bits', occ - {i})
  {
    hide Marked, Bit, And, Not, Mask;
    assert Marked(bits, i);
    WordInRange(i, span);
    WordInRange(i / 64, |bits|);
    var bits' := WithoutBit(bits, i);
    var summary' := if bits'[i / 64] == 0 then WithoutBit(summary, i / 64) else summary;
    forall j: nat
      ensures Marked(bits', j) <==> Marked(bits, j) && j != i
    {
      WithoutBitMarks(bits, i, j);
    }
    NonZero(bits, i);
    forall w: nat
      ensures Marked(summary', w) <==> w < |bits'| && bits'[w] != 0
    {
      WithoutBitMarks(summary, i / 64, w);
    }
  }

  // ---- scanning --------------------------------------------------------------------------

  // Word `w` from bit `k` up.
  lemma WordUp(bits: seq<bv64>, w: nat, k: nat)
    requires w < |bits| && k < 64
    ensures var m := And(bits[w], FromMask(k));
            if m == 0 then NoneIn(bits, 64 * w + k, 64 * w + 64)
            else
              var t := TrailingZeros(m);
              k <= t < 64 && Marked(bits, 64 * w + t) && NoneIn(bits, 64 * w + k, 64 * w + t)
  {
    hide And, FromMask, Bit;
    ScanUp(bits[w], k);
    var m := And(bits[w], FromMask(k));
    var stop := if m == 0 then 64 else TrailingZeros(m);
    if m != 0 { MarkedAt(bits, w, stop); }
    forall i: nat | 64 * w + k <= i < 64 * w + stop
      ensures !Marked(bits, i)
    {
      MarkedAt(bits, w, i - 64 * w);
    }
  }

  // Word `w` from bit `k` down.
  lemma WordDown(bits: seq<bv64>, w: nat, k: nat)
    requires w < |bits| && k < 64
    ensures var m := And(bits[w], UptoMask(k));
            if m == 0 then NoneIn(bits, 64 * w, 64 * w + k + 1)
            else
              var t := HighestBit(m);
              t <= k && Marked(bits, 64 * w + t) && NoneIn(bits, 64 * w + t + 1, 64 * w + k + 1)
  {
    hide And, UptoMask, Bit;
    ScanDown(bits[w], k);
    var m := And(bits[w], UptoMask(k));
    var start := if m == 0 then 0 else HighestBit(m) + 1;
    if m != 0 { MarkedAt(bits, w, HighestBit(m)); }
    forall i: nat | 64 * w + start <= i <= 64 * w + k
      ensures !Marked(bits, i)
    {
      MarkedAt(bits, w, i - 64 * w);
    }
  }

  // The lowest and the highest bit of a non-zero word.
  lemma WordEnds(bits: seq<bv64>, w: nat)
    requires w < |bits| && bits[w] != 0
    ensures TrailingZeros(bits[w]) < 64 && HighestBit(bits[w]) < 64
    ensures Marked(bits, 64 * w + TrailingZeros(bits[w])) && NoneIn(bits, 64 * w, 64 * w + TrailingZeros(bits[w]))
    ensures Marked(bits, 64 * w + HighestBit(bits[w])) && NoneIn(bits, 64 * w + HighestBit(bits[w]) + 1, 64 * w + 64)
  {
    hide Bit, Marked;
    var (lo, hi) := (TrailingZeros(bits[w]), HighestBit(bits[w]));
    MarkedAt(bits, w, lo);
    MarkedAt(bits, w, hi);
    forall i: nat | 64 * w <= i < 64 * w + 64
      ensures i < 64 * w + lo || i > 64 * w + hi ==> !Marked(bits, i)
    {
      MarkedAt(bits, w, i - 64 * w);
    }
  }

  // Words without a summary bit hold no mark.
  lemma EmptyWords(bits: seq<bv64>, summary: seq<bv64>, span: nat, a: int, b: int)
    requires BitmapOk(bits, summary, span) && NoneIn(summary, a, b)
    ensures NoneIn(bits, 64 * a, 64 * b)
  {
    hide Marked;
    forall i: nat | 64 * a <= i < 64 * b
      ensures !Marked(bits, i)
    {
      assert !Marked(summary, i / 64);
      if Marked(bits, i) { NonZero(bits, i); }
    }
  }

  lemma NoneJoin(bits: seq<bv64>, a: int, b: int, c: int)
    requires NoneIn(bits, a, b) && NoneIn(bits, b, c)
    ensures NoneIn(bits, a, c)
  {
  }
}
