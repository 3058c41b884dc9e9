// 64-bit words as sets of bit positions: the shifts, masks and bit scans of
// src/index.rs:159-331. Each word operation has a name, so that the facts about
// bits never open more than one of them at a time.

module Words {

  // ---- word operations ------------------------------------------------------------

  function And(w: bv64, v: bv64): bv64 { w & v }

  function Or(w: bv64, v: bv64): bv64 { w | v }

  function Not(w: bv64): bv64 { !w }

  // `1 << b`.
  function OneShl(b: bv64): bv64
    requires b < 64
  {
    (1 as bv64) << b
  }

  // `u64::MAX << b`.
  function OnesShl(b: bv64): bv64
    requires b < 64
  {
    (0xFFFF_FFFF_FFFF_FFFF as bv64) << b
  }

  // `u64::MAX >> (63 - b)`.
  function OnesShr(b: bv64): bv64
    requires b < 64
  {
    (0xFFFF_FFFF_FFFF_FFFF as bv64) >> (63 - b)
  }

  // `m << 1`.
  function Double(m: bv64): bv64 { m << 1 }

  // `w & (w - 1)`.
  function Drop(w: bv64): bv64 { w & (w - 1) }

  predicate Has(w: bv64, m: bv64) { w & m != 0 }

  // `w` has no bit below the one bit of `m`.
  predicate ClearBelow(w: bv64, m: bv64) { w & (m - 1) == 0 }

  predicate OneBit(m: bv64) { m != 0 && m & (m - 1) == 0 }

  // ---- bit positions -----------------------------------------------------------------

  function Pos(k: nat): bv64
    requires k < 64
  {
    (k as bv6) as bv64
  }

  // A bit position as a shift amount.
  function Shift(k: nat): (b: bv64)
    requires k < 64
    ensures b < 64
  {
    PosRound(k);
    PosBelow(Pos(k));
    Pos(k)
  }

  // Bit k, bits k and up, bits up to k.
  function Mask(k: nat): bv64
    requires k < 64
  {
    OneShl(Shift(k))
  }

  function FromMask(k: nat): bv64
    requires k < 64
  {
    OnesShl(Shift(k))
  }

  function UptoMask(k: nat): bv64
    requires k < 64
  {
    OnesShr(Shift(k))
  }

  predicate Bit(w: bv64, k: nat) {
    k < 64 && Has(w, Mask(k))
  }

  // ---- positions as shift amounts ---------------------------------------------------

  lemma SixBits(k: nat)
    requires k < 64
    ensures (k as bv6) as int == k
  {
  }

  lemma Widened(x: bv6)
    ensures (x as bv64) as int == x as int
  {
  }

  lemma PosRound(k: nat)
    requires k < 64
    ensures Pos(k) as int == k
  {
    SixBits(k);
    Widened(k as bv6);
  }

  lemma PosBelow(x: bv64)
    requires x as int < 64
    ensures x < 64
  {
  }

  lemma PosLess(x: bv64, y: bv64)
    requires x < 64 && y < 64
    ensures x < y <==> x as int < y as int
  {
  }

  lemma PosSame(x: bv64, y: bv64)
    requires x < 64 && y < 64 && x as int == y as int
    ensures x == y
  {
    PosLess(x, y);
    PosLess(y, x);
  }

  lemma ShiftValue(k: nat)
    requires k < 64
    ensures Shift(k) as int == k
  {
    hide Pos;
    PosRound(k);
  }

  lemma ShiftOrder(j: nat, k: nat)
    requires j < 64 && k < 64
    ensures Shift(j) < Shift(k) <==> j < k
    ensures Shift(j) == Shift(k) <==> j == k
  {
    hide Shift;
    ShiftValue(j);
    ShiftValue(k);
    PosLess(Shift(j), Shift(k));
  }

  // `b + 1`, where that is a shift amount too.
  function Succ(b: bv64): (c: bv64)
    requires b < 63
    ensures c < 64
  {
    b + 1
  }

  lemma PosSucc(x: bv64)
    requires x < 63
    ensures Succ(x) as int == x as int + 1
  {
  }

  lemma ShiftSucc(k: nat)
    requires k < 63
    ensures Shift(k) < 63 && Shift(k + 1) == Succ(Shift(k))
  {
    hide Shift, Succ;
    ShiftValue(k);
    ShiftValue(k + 1);
    PosBound(Shift(k));
    PosSucc(Shift(k));
    PosSame(Shift(k + 1), Succ(Shift(k)));
  }

  lemma PosBound(x: bv64)
    requires x < 64 && x as int < 63
    ensures x < 63
  {
    PosLess(x, 63);
  }

  // ---- word facts, one operation at a time ----------------------------------------------

  lemma OrMask(w: bv64, v: bv64, m: bv64)
    requires m != 0 && m & (m - 1) == 0
    ensures (w | v) & m != 0 <==> w & m != 0 || v & m != 0
  {
  }

  lemma NotMask(w: bv64, m: bv64)
    requires m != 0 && m & (m - 1) == 0
    ensures (!w) & m != 0 <==> w & m == 0
  {
  }

  lemma OrBit(w: bv64, v: bv64, m: bv64)
    requires OneBit(m)
    ensures Has(Or(w, v), m) <==> Has(w, m) || Has(v, m)
  {
    OrMask(w, v, m);
  }

  lemma NotBit(w: bv64, m: bv64)
    requires OneBit(m)
    ensures Has(Not(w), m) <==> !Has(w, m)
  {
    NotMask(w, m);
  }

  lemma AndAsOr(w: bv64, v: bv64)
    ensures And(w, v) == Not(Or(Not(w), Not(v)))
  {
  }

  lemma AndBit(w: bv64, v: bv64, m: bv64)
    requires OneBit(m)
    ensures Has(And(w, v), m) <==> Has(w, m) && Has(v, m)
  {
    hide And, Or, Not, Has, OneBit;
    AndAsOr(w, v);
    NotBit(Or(Not(w), Not(v)), m);
    OrBit(Not(w), Not(v), m);
    NotBit(w, m);
    NotBit(v, m);
  }

  lemma BelowNext(w: bv64, m: bv64)
    requires OneBit(m) && ClearBelow(w, m) && !Has(w, m)
    ensures ClearBelow(w, Double(m))
  {
  }

  lemma DropOne(w: bv64, m: bv64)
    requires OneBit(m) && Has(w, m) && ClearBelow(w, m)
    ensures Drop(w) == And(w, Not(m))
  {
    DropMask(w, m);
  }

  lemma DropMask(w: bv64, m: bv64)
    requires m != 0 && m & (m - 1) == 0 && w & m != 0 && w & (m - 1) == 0
    ensures w & (w - 1) == w & !m
  {
  }

  lemma ShiftedOne(b: bv64)
    requires b < 64
    ensures OneBit(OneShl(b))
  {
  }

  lemma ShiftedOnce(b: bv64)
    requires b < 63
    ensures OneShl(Succ(b)) == Double(OneShl(b))
  {
  }

  lemma OneAt(k: bv64, j: bv64)
    requires k < 64 && j < 64
    ensures Has(OneShl(k), OneShl(j)) <==> j == k
  {
  }

  lemma OnesFrom(k: bv64, j: bv64)
    requires k < 64 && j < 64
    ensures Has(OnesShl(k), OneShl(j)) <==> !(j < k)
  {
  }

  lemma OnesUpto(k: bv64, j: bv64)
    requires k < 64 && j < 64
    ensures Has(OnesShr(k), OneShl(j)) <==> !(k < j)
  {
  }

  // ---- what each word operation does to the bits -----------------------------------------

  lemma MaskOneBit(k: nat)
    requires k < 64
    ensures OneBit(Mask(k))
  {
    hide Shift, OneBit, OneShl;
    ShiftedOne(Shift(k));
  }

  lemma MaskAt(k: nat, j: nat)
    requires k < 64 && j < 64
    ensures Has(Mask(k), Mask(j)) <==> j == k
    ensures Has(FromMask(k), Mask(j)) <==> j >= k
    ensures Has(UptoMask(k), Mask(j)) <==> j <= k
  {
    hide Shift, OneShl, OnesShl, OnesShr, Has;
    ShiftOrder(j, k);
    ShiftOrder(k, j);
    OneAt(Shift(k), Shift(j));
    OnesFrom(Shift(k), Shift(j));
    OnesUpto(Shift(k), Shift(j));
  }

  lemma BitSet(w: bv64, k: nat, j: nat)
    requires k < 64
    ensures Bit(Or(w, Mask(k)), j) <==> Bit(w, j) || j == k
  {
    hide Has, Mask, OneBit, Or;
    if j < 64 {
      MaskOneBit(j);
      OrBit(w, Mask(k), Mask(j));
      MaskAt(k, j);
    }
  }

  lemma BitClear(w: bv64, k: nat, j: nat)
    requires k < 64
    ensures Bit(And(w, Not(Mask(k))), j) <==> Bit(w, j) && j != k
  {
    hide Has, Mask, OneBit, And, Not;
    if j < 64 {
      MaskOneBit(j);
      AndBit(w, Not(Mask(k)), Mask(j));
      NotBit(Mask(k), Mask(j));
      MaskAt(k, j);
    }
  }

  lemma BitFrom(w: bv64, k: nat, j: nat)
    requires k < 64
    ensures Bit(And(w, FromMask(k)), j) <==> Bit(w, j) && j >= k
  {
    hide Has, Mask, FromMask, OneBit, And;
    if j < 64 {
      MaskOneBit(j);
      AndBit(w, FromMask(k), Mask(j));
      MaskAt(k, j);
    }
  }

  lemma BitUpto(w: bv64, k: nat, j: nat)
    requires k < 64
    ensures Bit(And(w, UptoMask(k)), j) <==> Bit(w, j) && j <= k
  {
    hide Has, Mask, UptoMask, OneBit, And;
    if j < 64 {
      MaskOneBit(j);
      AndBit(w, UptoMask(k), Mask(j));
      MaskAt(k, j);
    }
  }

  // ---- zero words and extreme bits ----------------------------------------------------------

  lemma FirstMask()
    ensures Mask(0) == 1
  {
    assert Pos(0) == 0;
  }

  lemma LastMask()
    ensures Mask(63) == 0x8000_0000_0000_0000
  {
    assert Pos(63) == 63;
  }

  lemma NextMask(k: nat)
    requires k < 63
    ensures Mask(k + 1) == Double(Mask(k))
  {
    hide Shift, OneShl, Succ, Double;
    ShiftSucc(k);
    ShiftedOnce(Shift(k));
  }

  lemma NothingBelowOne(w: bv64)
    ensures ClearBelow(w, 1)
  {
  }

  lemma {:induction false} NoneBelow(w: bv64, k: nat)
    requires k < 64 && forall j :: 0 <= j < k ==> !Bit(w, j)
    ensures ClearBelow(w, Mask(k))
  {
    hide Mask, Has, ClearBelow, OneBit, Double;
    if k == 0 {
      FirstMask();
      NothingBelowOne(w);
    } else {
      NoneBelow(w, k - 1);
      assert !Bit(w, k - 1);
      MaskOneBit(k - 1);
      BelowNext(w, Mask(k - 1));
      NextMask(k - 1);
    }
  }

  lemma TopBit(w: bv64)
    requires ClearBelow(w, 0x8000_0000_0000_0000) && !Has(w, 0x8000_0000_0000_0000)
    ensures w == 0
  {
  }

  lemma ZeroHas(m: bv64)
    ensures !Has(0, m)
  {
  }

  // A word is zero exactly when it has no bit.
  lemma ZeroIffNone(w: bv64)
    ensures w == 0 <==> forall j :: 0 <= j < 64 ==> !Bit(w, j)
  {
    hide Mask, Has, ClearBelow;
    if forall j :: 0 <= j < 64 ==> !Bit(w, j) {
      NoneBelow(w, 63);
      LastMask();
      assert !Bit(w, 63);
      TopBit(w);
    }
    forall j | 0 <= j < 64 && w == 0
      ensures !Bit(w, j)
    {
      ZeroHas(Mask(j));
    }
  }

  // `trailing_zeros` of a non-zero word: its lowest bit.
  function TrailingZeros(w: bv64): (k: nat)
    requires w != 0
    ensures Bit(w, k) && forall j :: 0 <= j < k ==> !Bit(w, j)
  {
    ZeroIffNone(w);
    LowestFrom(w, 0)
  }

  function LowestFrom(w: bv64, from: nat): (k: nat)
    requires exists j :: from <= j < 64 && Bit(w, j)
    ensures from <= k && Bit(w, k) && forall j :: from <= j < k ==> !Bit(w, j)
    decreases 64 - from
  {
    if Bit(w, from) then from else LowestFrom(w, from + 1)
  }

  // `63 - leading_zeros` of a non-zero word: its highest bit.
  function HighestBit(w: bv64): (k: nat)
    requires w != 0
    ensures Bit(w, k) && forall j :: k < j < 64 ==> !Bit(w, j)
  {
    ZeroIffNone(w);
    HighestUpto(w, 63)
  }

  function HighestUpto(w: bv64, upto: nat): (k: nat)
    requires upto < 64 && exists j :: 0 <= j <= upto && Bit(w, j)
    ensures k <= upto && Bit(w, k) && forall j :: k < j <= upto ==> !Bit(w, j)
  {
    if Bit(w, upto) then upto else HighestUpto(w, upto - 1)
  }

  // `word &= word - 1` drops the lowest bit and nothing else.
  lemma DropLowest(w: bv64, j: nat)
    requires w != 0
    ensures Bit(Drop(w), j) <==> Bit(w, j) && j != TrailingZeros(w)
  {
    hide Mask, Has, ClearBelow, OneBit, Drop, And, Not, LowestFrom;
    var k := TrailingZeros(w);
    NoneBelow(w, k);
    MaskOneBit(k);
    DropOne(w, Mask(k));
    BitClear(w, k, j);
  }

  // ---- masked scans ---------------------------------------------------------------------

  // The lowest bit at or after `k`.
  lemma ScanUp(w: bv64, k: nat)
    requires k < 64
    ensures var m := And(w, FromMask(k));
            if m == 0 then forall j :: k <= j < 64 ==> !Bit(w, j)
            else
              var t := TrailingZeros(m);
              t < 64 && t >= k && Bit(w, t) && forall j :: k <= j < t ==> !Bit(w, j)
  {
    hide And, FromMask, Has, Mask;
    var m := And(w, FromMask(k));
    ZeroIffNone(m);
    forall j: nat
      ensures Bit(m, j) <==> Bit(w, j) && j >= k
    {
      BitFrom(w, k, j);
    }
  }

  // The highest bit at or before `k`.
  lemma ScanDown(w: bv64, k: nat)
    requires k < 64
    ensures var m := And(w, UptoMask(k));
            if m == 0 then forall j :: 0 <= j <= k ==> !Bit(w, j)
            else
              var t := HighestBit(m);
              t <= k && Bit(w, t) && forall j :: t < j <= k ==> !Bit(w, j)
  {
    hide And, UptoMask, Has, Mask;
    var m := And(w, UptoMask(k));
    ZeroIffNone(m);
    forall j: nat
      ensures Bit(m, j) <==> Bit(w, j) && j <= k
    {
      BitUpto(w, k, j);
    }
  }
}
