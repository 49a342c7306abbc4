/** Sums over the chunks of the heap: what the size counters of the allocator count. */
module Sums {
  import opened Chunks

  /** The sum of the values of a map. */
  ghost function Sum(m: map<int, nat>): (s: nat)
    decreases |m|
  {
    if exists a :: a in m then var a :| a in m; m[a] + Sum(m - {a}) else 0
  }

  lemma {:induction false} SumRemove(m: map<int, nat>, a: int)
    requires a in m
    ensures Sum(m) == m[a] + Sum(m - {a})
    decreases |m|
  {
    var b :| b in m && Sum(m) == m[b] + Sum(m - {b});
    if b != a {
      SumRemove(m - {b}, a);
      SumRemove(m - {a}, b);
      assert m - {b} - {a} == m - {a} - {b};
    }
  }

  lemma {:induction false} SumInsert(m: map<int, nat>, a: int, k: nat)
    requires a !in m
    ensures Sum(m[a := k]) == Sum(m) + k
  {
    SumRemove(m[a := k], a);
    assert m[a := k] - {a} == m;
  }

  // ---------- The walk over the headers ----------

  /** The sizes of some chunks. */
  function SizesOf(h: Headers, s: set<int>): (m: map<int, nat>) { map a | a in h && a in s :: h[a].currSize }

  /** The walk from chunk to chunk up to the sentinel, adding up the sizes of some. */
  ghost function WalkSum(h: Headers, lo: int, hi: int, a: int, s: set<int>): (n: nat)
    requires Tiled(h, lo, hi) && a in h
    decreases hi - a
  {
    assert Linked(h, lo, hi, a);
    if a >= hi then 0 else
      assert Linked(h, lo, hi, Next(h, a));
      (if a in s then h[a].currSize else 0) + WalkSum(h, lo, hi, Next(h, a), s)
  }

  /** Chunks from a on. */
  function From(h: Headers, s: set<int>, a: int, hi: int): (r: set<int>) { set x | x in h && x in s && a <= x < hi }

  /** The walk meets every chunk once. */
  lemma {:induction false} WalkIsSum(h: Headers, lo: int, hi: int, a: int, s: set<int>)
    requires Tiled(h, lo, hi) && a in h
    ensures WalkSum(h, lo, hi, a, s) == Sum(SizesOf(h, From(h, s, a, hi)))
    decreases hi - a
  {
    assert Linked(h, lo, hi, a);
    var m := SizesOf(h, From(h, s, a, hi));
    if a >= hi {
    } else {
      var n := Next(h, a);
      assert Linked(h, lo, hi, n);
      WalkIsSum(h, lo, hi, n, s);
      var m' := SizesOf(h, From(h, s, n, hi));
      forall x | x in h ensures a <= x <==> x == a || n <= x { assert Apart(h, a, x) && Apart(h, x, a); }
      if a in s {
        SumInsert(m', a, h[a].currSize);
        assert m == m'[a := h[a].currSize];
      } else {
        assert m == m';
      }
    }
  }

  lemma {:induction false} WalkDisjoint(h: Headers, lo: int, hi: int, a: int, s: set<int>, r: set<int>)
    requires Tiled(h, lo, hi) && a in h && s !! r
    ensures WalkSum(h, lo, hi, a, s + r) == WalkSum(h, lo, hi, a, s) + WalkSum(h, lo, hi, a, r)
    decreases hi - a
  {
    assert Linked(h, lo, hi, a);
    if a < hi {
      assert Linked(h, lo, hi, Next(h, a));
      WalkDisjoint(h, lo, hi, Next(h, a), s, r);
    }
  }

  /** The sizes of all chunks add up to the heap. */
  lemma {:induction false} WalkTotal(h: Headers, lo: int, hi: int, a: int, s: set<int>)
    requires Tiled(h, lo, hi) && a in h && forall x | x in h && x < hi :: x in s
    ensures WalkSum(h, lo, hi, a, s) == hi - a
    decreases hi - a
  {
    assert Linked(h, lo, hi, a);
    if a < hi {
      assert Linked(h, lo, hi, Next(h, a));
      WalkTotal(h, lo, hi, Next(h, a), s);
    }
  }
}
