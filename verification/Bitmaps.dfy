/** The 32-bit bitmaps that say which bins hold chunks, and the bit tricks that search them.  A word
    is given by its bits, least significant first. */
module Bitmaps {

  type Word = v: seq<bool> | |v| == 32 witness Zeros(32)

  function Zeros(n: nat): (r: seq<bool>)
    ensures |r| == n && forall i | 0 <= i < n :: !r[i]
  {
    if n == 0 then [] else Zeros(n - 1) + [false]
  }

  function And(v: Word, w: Word): (r: Word) { seq(32, i requires 0 <= i < 32 => v[i] && w[i]) }
  function Or(v: Word, w: Word): (r: Word) { seq(32, i requires 0 <= i < 32 => v[i] || w[i]) }
  function Not(v: Word): (r: Word) { seq(32, i requires 0 <= i < 32 => !v[i]) }
  const ZERO: Word := Zeros(32)

  /** Shifts fill with zeros. */
  function Shl(v: Word, n: nat): (r: Word) { seq(32, i requires 0 <= i < 32 => i >= n && v[i - n]) }
  function Shr(v: Word, n: nat): (r: Word) { seq(32, i requires 0 <= i < 32 => i + n < 32 && v[i + n]) }

  /** The number of trailing zeros: the index of the lowest set bit, or 32. */
  function Ctz(v: Word): (r: nat)
    ensures r <= 32 && (r < 32 ==> v[r])
    ensures forall j | 0 <= j < r :: !v[j]
  {
    LowestFrom(v, 0)
  }

  function LowestFrom(v: Word, i: nat): (r: nat)
    requires i <= 32
    ensures i <= r <= 32 && (r < 32 ==> v[r])
    ensures forall j | i <= j < r :: !v[j]
    decreases 32 - i
  {
    if i == 32 || v[i] then i else LowestFrom(v, i + 1)
  }

  /** v + 1: the carry flips the low ones and the first zero. */
  function Increment(v: Word): (r: Word) { CarryTo(v, Ctz(Not(v))) }

  function CarryTo(v: Word, c: nat): (r: Word)
  {
    seq(32, i requires 0 <= i < 32 => if i < c then false else if i == c then true else v[i])
  }

  /** Two's complement negation. */
  function Neg(v: Word): (r: Word) { Increment(Not(v)) }

  /** isolate_least */
  function IsolateLeast(v: Word): (r: Word) { And(v, Neg(v)) }

  /** above_or_least */
  function AboveOrLeast(v: Word): (r: Word) { Or(v, Neg(v)) }

  /** above_least */
  function AboveLeast(v: Word): (r: Word) { AboveOrLeast(Shl(v, 1)) }

  /** idx2bit: 1 << i */
  function Idx2Bit(i: nat): (r: Word)
    requires i < 32
  {
    Shl(ZERO[0 := true], i)
  }

  /** Negation keeps the lowest set bit and the zeros below it, and flips every bit above. */
  lemma {:induction false} NegBits(v: Word, i: nat)
    requires i < 32
    ensures var k := Ctz(v); Neg(v)[i] == if i < k then false else if i == k then true else !v[i]
  {
    var k := Ctz(v);
    var c := Ctz(Not(Not(v)));
    assert Not(Not(v)) == v;
  }

  /** isolate_least keeps only the lowest set bit, so bit2idx of it is that bit's index. */
  lemma {:induction false} IsolateLeastBit(v: Word)
    ensures forall i | 0 <= i < 32 :: IsolateLeast(v)[i] <==> i == Ctz(v)
    ensures Ctz(IsolateLeast(v)) == Ctz(v)
  {
    forall i | 0 <= i < 32 ensures IsolateLeast(v)[i] <==> i == Ctz(v) { NegBits(v, i); }
    var k, c := Ctz(v), Ctz(IsolateLeast(v));
    if k < 32 { assert IsolateLeast(v)[k]; }
    if c < 32 { assert IsolateLeast(v)[c]; }
  }

  lemma {:induction false} AboveOrLeastBits(v: Word, i: nat)
    requires i < 32
    ensures AboveOrLeast(v)[i] <==> i >= Ctz(v)
  {
    NegBits(v, i);
  }

  lemma {:induction false} Idx2BitBits(i: nat, j: nat)
    requires i < 32 && j < 32
    ensures Idx2Bit(i)[j] <==> j == i
  {
  }

  /** above_least(idx2bit(idx)) has exactly the bits above idx. */
  lemma {:induction false} AboveLeastBits(idx: nat, j: nat)
    requires idx < 31 && j < 32
    ensures AboveLeast(Idx2Bit(idx))[j] <==> j > idx
  {
    var s := Shl(Idx2Bit(idx), 1);
    forall k: nat | k < 32 ensures s[k] <==> k == idx + 1 {
      if k >= 1 { Idx2BitBits(idx, k - 1); }
    }
    var c := Ctz(s);
    assert s[idx + 1];
    assert c == idx + 1;
    AboveOrLeastBits(s, j);
  }

  /** The least bin above idx that a bitmap marks, as the tree search computes it. */
  lemma {:induction false} NextMarked(bits: Word, idx: nat)
    requires idx < 31
    ensures var left := And(AboveLeast(Idx2Bit(idx)), bits); var i := Ctz(IsolateLeast(left));
            && (left == ZERO <==> forall j | idx < j < 32 :: !bits[j])
            && (left != ZERO ==> idx < i < 32 && bits[i] && forall j | idx < j < i :: !bits[j])
  {
    var left := And(AboveLeast(Idx2Bit(idx)), bits);
    forall j: nat | j < 32 ensures left[j] <==> j > idx && bits[j] { AboveLeastBits(idx, j); }
    IsolateLeastBit(left);
    AllZero(left);
  }

  lemma {:induction false} AllZero(v: Word)
    ensures v == ZERO <==> forall j | 0 <= j < 32 :: !v[j]
    ensures v == ZERO <==> Ctz(v) == 32
  {
    if forall j | 0 <= j < 32 :: !v[j] { assert v == ZERO; }
  }

  /** The least bin that a bitmap marks. */
  lemma {:induction false} FirstMarked(bits: Word)
    ensures bits != ZERO ==>
              var i := Ctz(IsolateLeast(bits)); i < 32 && bits[i] && forall j | 0 <= j < i :: !bits[j]
    ensures bits == ZERO <==> forall j | 0 <= j < 32 :: !bits[j]
  {
    IsolateLeastBit(bits);
    AllZero(bits);
  }

  /** The small-bin search shifts its bitmap down to test the bin of the request, and back up under
      the mask to search the bins above. */
  lemma {:induction false} ShiftedSearch(bits: Word, idx: nat)
    requires idx < 31
    ensures Shr(bits, idx)[0] == bits[idx]
    ensures Shr(bits, idx) == ZERO <==> forall j | idx <= j < 32 :: !bits[j]
    ensures And(Shl(Shr(bits, idx), idx), AboveLeast(Idx2Bit(idx))) == And(AboveLeast(Idx2Bit(idx)), bits)
  {
    var s := Shr(bits, idx);
    AllZero(s);
    forall j | idx <= j < 32 ensures bits[j] == s[j - idx] {}
    if s != ZERO { assert bits[Ctz(s) + idx]; }
    var a, b := And(Shl(s, idx), AboveLeast(Idx2Bit(idx))), And(AboveLeast(Idx2Bit(idx)), bits);
    forall j: nat | j < 32 ensures a[j] == b[j] { AboveLeastBits(idx, j); }
  }
}
