/** Size arithmetic of the allocator's bins: powers of two, the tree-bin index of a chunk size, and
    the bit of a size that a trie level resolves.  Sizes are byte counts of whole chunks, header
    included, and every machine word is 32 bits wide. */
module SizeBits {

  const WORD := 0x1_0000_0000      // values of a 32-bit size_t
  const SIGN := 0x8000_0000        // its sign bit
  const N_SMALL_BINS := 8
  const N_TREE_BINS := 12
  const MAX_SMALL_SIZE := 64
  const MIN_CHUNK_SIZE := 16
  const HEADER_SIZE := 8

  function Pow2(n: nat): (r: nat)
    ensures r >= 1
  {
    if n == 0 then 1 else 2 * Pow2(n - 1)
  }

  /** The number of whole doublings below x: 31 minus the leading zeros of a non-zero word. */
  function Log2(x: nat): (k: nat)
    requires x >= 1
    ensures Pow2(k) <= x < Pow2(k + 1)
  {
    if x == 1 then 0 else 1 + Log2(x / 2)
  }

  /** s with its b low bits shifted out. */
  function Prefix(s: nat, b: nat): (r: nat)
  {
    if b == 0 then s else Prefix(s, b - 1) / 2
  }

  function Bit(s: nat, i: nat): (r: nat)
    ensures r == 0 || r == 1
  {
    Prefix(s, i) % 2
  }

  lemma {:induction false} Pow2Add(a: nat, b: nat)
    ensures Pow2(a + b) == Pow2(a) * Pow2(b)
  {
    if a == 0 {
    } else {
      Pow2Add(a - 1, b);
      assert Pow2(a + b) == 2 * Pow2(a - 1 + b);
    }
  }

  lemma {:induction false} WordPowers()
    ensures Pow2(31) == SIGN && Pow2(32) == WORD
  {
    Pow2Add(16, 16);
    assert Pow2(16) == 0x1_0000 by {
      Pow2Add(8, 8);
      assert Pow2(8) == 256;
    }
  }

  lemma {:induction false} Pow2Monotone(a: nat, b: nat)
    requires a <= b
    ensures Pow2(a) <= Pow2(b)
    ensures a < b ==> 2 * Pow2(a) <= Pow2(b)
    decreases b - a
  {
    if a < b { Pow2Monotone(a + 1, b); }
  }

  /** Dividing twice is dividing by the product. */
  lemma {:induction false} DivDiv(s: nat, a: nat, b: nat)
    requires a > 0 && b > 0
    ensures a * b > 0
    ensures s / a / b == s / (a * b)
  {
    var q := s / a;
    var r := s % a;
    var q' := q / b;
    var r' := q % b;
    assert a * b > 0;
    assert s == a * q + r;
    assert q == b * q' + r';
    calc {
      s;
      a * (b * q' + r') + r;
      { assert a * (b * q' + r') == a * (b * q') + a * r'; assert a * (b * q') == (a * b) * q'; }
      (a * b) * q' + (a * r' + r);
    }
    assert a * r' + r < a * b by {
      assert r' <= b - 1;
      assert a * r' <= a * (b - 1) by { MulMono(a, r', b - 1); }
      assert a * (b - 1) == a * b - a;
    }
    assert 0 <= a * r' + r by { assert a * r' >= 0; }
    DivUnique(s, a * b, q', a * r' + r);
  }

  lemma {:induction false} MulMono(a: nat, x: int, y: int)
    requires x <= y
    ensures a * x <= a * y
  {
    assert a * (y - x) >= 0;
  }

  lemma {:induction false} DivUnique(x: int, d: int, q: int, r: int)
    requires d > 0 && 0 <= r < d && x == d * q + r
    ensures x / d == q && x % d == r
  {
    var q2 := x / d;
    assert x == d * q2 + x % d;
    assert d * (q + 1) == d * q + d && d * (q2 + 1) == d * q2 + d;
    if q2 > q { MulMono(d, q + 1, q2); }
    if q2 < q { MulMono(d, q2 + 1, q); }
  }

  lemma {:induction false} PrefixIsDiv(s: nat, b: nat)
    ensures Prefix(s, b) == s / Pow2(b)
  {
    if b > 0 {
      PrefixIsDiv(s, b - 1);
      DivDiv(s, Pow2(b - 1), 2);
    }
  }

  /** Prefix of s one bit longer is twice the prefix plus the resolved bit. */
  lemma {:induction false} PrefixStep(s: nat, b: nat)
    requires b > 0
    ensures Prefix(s, b - 1) == 2 * Prefix(s, b) + Bit(s, b - 1)
  {
  }

  /** Sizes that agree above bit 3 are equal, as every chunk size is a multiple of 8. */
  lemma {:induction false} PrefixEight(s: nat, t: nat)
    requires s % 8 == 0 && t % 8 == 0 && Prefix(s, 3) == Prefix(t, 3)
    ensures s == t
  {
    assert Prefix(s, 3) == Prefix(s, 2) / 2 == Prefix(s, 1) / 2 / 2 == s / 2 / 2 / 2;
    assert Prefix(t, 3) == Prefix(t, 2) / 2 == Prefix(t, 1) / 2 / 2 == t / 2 / 2 / 2;
  }

  lemma {:induction false} PrefixLess(l: nat, r: nat, b: nat)
    requires Prefix(l, b) < Prefix(r, b)
    ensures l < r
  {
    if b > 0 { PrefixLess(l, r, b - 1); }
  }

  // ---------- The tree bins ----------

  /** compute_tree_index: two tree bins for each power of two, everything large in the last one. */
  function ComputeTreeIndex(s: nat): (i: nat)
    ensures i < N_TREE_BINS
  {
    var x := s / 64;
    if x == 0 then 0
    else if x > 63 then N_TREE_BINS - 1
    else
      var k := Log2(x);
      Log2Small(x);
      2 * k + (s / Pow2(k + 5)) % 2
  }

  lemma {:induction false} Log2Small(x: nat)
    requires 1 <= x <= 63
    ensures Log2(x) <= 5
  {
    assert Pow2(6) == 64;
    if Log2(x) > 5 { Pow2Monotone(6, Log2(x)); }
  }

  /** minsize_for_tree_index */
  function MinSizeForTreeIndex(i: nat): (r: nat)
  {
    Pow2(i / 2 + 6) + if i % 2 == 1 then Pow2(i / 2 + 5) else 0
  }

  lemma {:induction false} MinSizeValues(k: nat)
    ensures MinSizeForTreeIndex(2 * k) == 2 * Pow2(k + 5)
    ensures MinSizeForTreeIndex(2 * k + 1) == 3 * Pow2(k + 5)
    ensures MinSizeForTreeIndex(2 * k + 2) == 4 * Pow2(k + 5)
  {
    assert (2 * k) / 2 == (2 * k + 1) / 2 == k && (2 * k + 2) / 2 == k + 1;
  }

  lemma {:induction false} TwoOrThree(s: nat, u: nat)
    requires u > 0 && 2 * u <= s < 4 * u
    ensures s / u == if s < 3 * u then 2 else 3
  {
    if s < 3 * u { DivUnique(s, u, 2, s - 2 * u); } else { DivUnique(s, u, 3, s - 3 * u); }
  }

  /** Bin 2k + o, below the last one, holds the sizes from (2 + o) * 2^(k+5) up. */
  lemma {:induction false} TreeIndexMiddle(s: nat) returns (k: nat, u: nat, o: nat)
    requires 64 <= s < 4096
    ensures k <= 5 && o < 2 && u == Pow2(k + 5)
    ensures ComputeTreeIndex(s) == 2 * k + o
    ensures 2 * u <= s < 4 * u && (o == 0 <==> s < 3 * u)
  {
    var x := s / 64;
    k := Log2(x);
    u := Pow2(k + 5);
    Log2Small(x);
    Pow2Add(k, 5);
    assert Pow2(5) == 32;
    assert Pow2(k + 1) == 2 * Pow2(k);
    assert 64 * x <= s < 64 * x + 64;
    assert 2 * u <= s < 4 * u;
    TwoOrThree(s, u);
    o := if s < 3 * u then 0 else 1;
  }

  /** A size belongs to the bin whose size range holds it. */
  lemma {:induction false} TreeIndexRange(s: nat)
    requires s >= 64
    ensures var i := ComputeTreeIndex(s);
            && MinSizeForTreeIndex(i) <= s
            && (i < N_TREE_BINS - 1 ==> s < MinSizeForTreeIndex(i + 1))
  {
    if s >= 4096 {
      MinSizeValues(5);
      assert Pow2(10) == 1024;
    } else {
      var k, u, o := TreeIndexMiddle(s);
      MinSizeValues(k);
      if o == 0 { assert ComputeTreeIndex(s) == 2 * k; } else { assert ComputeTreeIndex(s) == 2 * k + 1; }
    }
  }

  lemma {:induction false} MinSizeMonotone(i: nat, j: nat)
    requires i <= j
    ensures MinSizeForTreeIndex(i) <= MinSizeForTreeIndex(j)
    decreases j - i
  {
    if i < j {
      MinSizeMonotone(i + 1, j);
      MinSizeValues(i / 2);
    }
  }

  /** Bins are ordered by size: a chunk of a higher bin is larger than any size of a lower bin. */
  lemma {:induction false} TreeIndexOrder(s: nat, t: nat)
    requires s >= 64 && t >= 64
    requires ComputeTreeIndex(s) < ComputeTreeIndex(t)
    ensures s < t
  {
    TreeIndexRange(s);
    TreeIndexRange(t);
    MinSizeMonotone(ComputeTreeIndex(s) + 1, ComputeTreeIndex(t));
  }

  /** The number of low size bits the trie of bin i still has to resolve at its root. */
  function BinBits(i: nat): (b: nat)
    ensures b >= 5
    ensures i < N_TREE_BINS ==> b <= 32
  {
    if i == N_TREE_BINS - 1 then 32 else i / 2 + 5
  }

  /** What all sizes of bin i have above those bits. */
  function BinPrefix(i: nat): (p: nat)
  {
    if i == N_TREE_BINS - 1 then 0 else 2 + i % 2
  }

  /** A size has the prefix of its bin. */
  lemma {:induction false} BinPrefixOf(s: nat)
    requires 64 <= s < WORD
    ensures var i := ComputeTreeIndex(s); Prefix(s, BinBits(i)) == BinPrefix(i)
  {
    var i := ComputeTreeIndex(s);
    PrefixIsDiv(s, BinBits(i));
    if i == N_TREE_BINS - 1 {
      WordPowers();
    } else {
      var k, u, o := TreeIndexMiddle(s);
      assert i / 2 == k && i % 2 == o;
      TwoOrThree(s, u);
    }
  }

  // ---------- The shifting size word of the trie walks ----------

  /** leftshift_for_tree_index */
  function LeftShiftForTreeIndex(i: nat): (r: nat)
    requires i < N_TREE_BINS
    ensures r == 32 - BinBits(i)
  {
    if i == N_TREE_BINS - 1 then 0 else 32 - (i / 2 + 6 - 1)
  }

  /** x << n in a 32-bit word */
  function ShiftLeft(x: nat, n: nat): (r: nat)
    ensures r < WORD
  {
    (x * Pow2(n)) % WORD
  }

  /** leftshifted_val_msb */
  function Msb(x: nat): (r: nat)
    ensures r == 0 || r == 1
  {
    if x >= SIGN then 1 else 0
  }

  lemma {:induction false} ScaleDivision(s: nat, d: nat, p: nat)
    requires d > 0 && p > 0
    ensures d * p > 0 && (s * p) / (d * p) == s / d
  {
    var q := s / d;
    var r := s % d;
    assert s == d * q + r;
    assert d * p > 0;
    assert s * p == (d * p) * q + r * p by {
      assert (d * q + r) * p == (d * q) * p + r * p;
      assert (d * q) * p == (d * p) * q;
    }
    MulMono(p, r, d - 1);
    assert p * (d - 1) == d * p - p;
    DivUnique(s * p, d * p, q, r * p);
  }

  /** The shifted size word, with b size bits unresolved, has the next bit to resolve as sign bit. */
  lemma {:induction false} MsbIsNextBit(s: nat, b: nat)
    requires 1 <= b <= 32
    ensures Msb(ShiftLeft(s, 32 - b)) == Bit(s, b - 1)
  {
    var n := 32 - b;
    Pow2Add(b - 1, n);
    WordPowers();
    assert b - 1 + n == 31;
    assert Pow2(b - 1) * Pow2(n) == SIGN;
    ScaleDivision(s, Pow2(b - 1), Pow2(n));
    PrefixIsDiv(s, b - 1);
    var x := s * Pow2(n);
    TopBit(x);
  }

  lemma {:induction false} TopBit(x: nat)
    ensures Msb(x % WORD) == (x / SIGN) % 2
  {
    var e := x / WORD;
    var y := x % WORD;
    assert x == WORD * e + y;
    if y >= SIGN { DivUnique(x, SIGN, 2 * e + 1, y - SIGN); } else { DivUnique(x, SIGN, 2 * e, y); }
  }

  /** Shifting the word left by one moves on to the next bit. */
  lemma {:induction false} ShiftLeftOne(s: nat, n: nat)
    ensures ShiftLeft(ShiftLeft(s, n), 1) == ShiftLeft(s, n + 1)
  {
    var x := s * Pow2(n);
    assert Pow2(1) == 2;
    assert s * Pow2(n + 1) == 2 * x by {
      assert Pow2(n + 1) == 2 * Pow2(n);
      assert s * (2 * Pow2(n)) == 2 * (s * Pow2(n));
    }
    DoubleWord(x);
    assert x % WORD * Pow2(1) == 2 * (x % WORD);
  }

  lemma {:induction false} DoubleWord(x: nat)
    ensures (2 * x) % WORD == (2 * (x % WORD)) % WORD
  {
    var q, y := x / WORD, 2 * (x % WORD);
    assert 2 * x == WORD * (2 * q) + y;
    if y < WORD {
      DivUnique(2 * x, WORD, 2 * q, y);
    } else {
      DivUnique(2 * x, WORD, 2 * q + 1, y - WORD);
      DivUnique(y, WORD, 1, y - WORD);
    }
  }

  // ---------- The small bins ----------

  /** small_index, for a non-zero size */
  function SmallIndex(s: nat): (i: nat)
    requires s > 0
  {
    (s - 1) / 8
  }

  /** is_small */
  predicate IsSmall(s: nat)
    requires s > 0
  {
    SmallIndex(s) < N_SMALL_BINS
  }

  /** small_index2size */
  function SmallIndex2Size(i: nat): (s: nat)
  {
    (i + 1) * 8
  }

  /** pad_request */
  function PadRequest(bytes: nat): (r: nat)
    ensures r % 8 == 0 && bytes + HEADER_SIZE <= r < bytes + HEADER_SIZE + 8
  {
    (bytes + HEADER_SIZE + 7) / 8 * 8
  }
}
