/** Searching a size trie: the leftmost walk of tmalloc_smallest and the size-directed walk of
    tmalloc_large, and what they find. */
module TrieSearch {
  import opened SizeBits
  import opened Trie
  import opened TrieOps

  /** size - nb as an unsigned 32-bit subtraction: it wraps when the chunk is too small. */
  function Remainder(size: nat, nb: nat): (r: nat)
    requires size < WORD && 0 < nb < WORD
    ensures size >= nb ==> r == size - nb
    ensures r < WORD - nb <==> size >= nb
  {
    (size - nb) % WORD
  }

  predicate Bounded(t: Tree)
  {
    forall s | s in Sizes(t) :: s < WORD
  }

  // ---------- The leftmost walk ----------

  /** leftmost_child */
  function LeftmostChild(t: Tree): (c: Tree)
    requires t.Node?
  {
    if t.left.Node? then t.left else t.right
  }

  /** Follow leftmost children from t, keeping the subtree whose node leaves the least remainder. */
  function Least(t: Tree, nb: nat, best: Tree): (v: Tree)
    requires 0 < nb < WORD && Bounded(t) && best.Node? && best.size < WORD
    ensures v.Node?
    decreases t
  {
    if t.Empty? then best
    else
      assert t.size in Sizes(t);
      Least(LeftmostChild(t), nb, if Remainder(t.size, nb) < Remainder(best.size, nb) then t else best)
  }

  /** The node that tmalloc_smallest takes from the subtree t. */
  function Smallest(t: Tree, nb: nat): (v: Tree)
    requires 0 < nb < WORD && t.Node? && Bounded(t)
    ensures v.Node?
  {
    assert t.size in Sizes(t);
    Least(LeftmostChild(t), nb, t)
  }

  /** From a node that fits, the leftmost walk ends at one that fits at least as tightly. */
  lemma {:induction false} LeastFits(t: Tree, nb: nat, best: Tree)
    requires 0 < nb < WORD && Bounded(t) && best.Node? && nb <= best.size < WORD
    ensures var v := Least(t, nb, best);
            && v.Node? && nb <= v.size <= best.size
            && (v == best || v.size in Sizes(t))
    decreases t
  {
    if t.Node? {
      assert t.size in Sizes(t);
      LeastFits(LeftmostChild(t), nb, if Remainder(t.size, nb) < Remainder(best.size, nb) then t else best);
    }
  }

  /** If every size of an ordered tree fits, the leftmost walk finds the least size of all. */
  lemma {:induction false} LeastIsLeast(t: Tree, b: nat, prefix: nat, nb: nat, best: Tree, s: nat)
    requires 0 < nb < WORD && Bounded(t) && best.Node? && nb <= best.size < WORD
    requires Ordered(t, b, prefix) && forall z | z in Sizes(t) :: nb <= z
    requires s in Sizes(t)
    ensures Least(t, nb, best).size <= s
    decreases t
  {
    assert t.size in Sizes(t);
    var c := LeftmostChild(t);
    var best' := if Remainder(t.size, nb) < Remainder(best.size, nb) then t else best;
    LeastFits(c, nb, best');
    if s in Sizes(c) {
      LeastIsLeast(c, b - 1, if t.left.Node? then 2 * prefix else 2 * prefix + 1, nb, best', s);
    } else if s != t.size {
      assert t.left.Node?;
      assert t.left.size in Sizes(t.left);
      LeftBelowRight(t, b, prefix, t.left.size, s);
      LeastIsLeast(c, b - 1, 2 * prefix, nb, best', t.left.size);
    }
  }

  /** Sizes on the left of a node are smaller than sizes on its right. */
  lemma {:induction false} LeftBelowRight(t: Tree, b: nat, prefix: nat, l: nat, r: nat)
    requires Ordered(t, b, prefix) && t.Node? && l in Sizes(t.left) && r in Sizes(t.right)
    ensures l < r
  {
    SizePrefix(t.left, b - 1, 2 * prefix, l);
    SizePrefix(t.right, b - 1, 2 * prefix + 1, r);
    PrefixLess(l, r, b - 1);
  }

  // ---------- The size-directed walk ----------

  /** The best node met on the way that the bits of nb lead, and the deepest right subtree passed by. */
  datatype Found = Found(best: Tree, rest: Tree)

  /** The least remainder a candidate must beat; without one, exactly the sizes that fit beat it. */
  function Bar(best: Tree, nb: nat): (r: nat)
    requires 0 < nb < WORD && (best.Node? ==> best.size < WORD)
  {
    if best.Node? then Remainder(best.size, nb) else WORD - nb
  }

  function Walk(t: Tree, b: nat, nb: nat, f: Found): (r: Found)
    requires 0 < nb < WORD && Bounded(t) && (f.best.Node? ==> f.best.size < WORD)
    decreases t
  {
    if t.Empty? then f
    else
      assert t.size in Sizes(t);
      var rem := Remainder(t.size, nb);
      var best := if rem < Bar(f.best, nb) then t else f.best;
      if rem < Bar(f.best, nb) && rem == 0 then Found(t, f.rest)
      else
        var d := b > 0 && Bit(nb, b - 1) == 1;
        var rest := if t.right.Node? && !d then t.right else f.rest;
        Walk(t.Child(d), if b > 0 then b - 1 else 0, nb, Found(best, rest))
  }

  /** What the walk through t does to a candidate pair it starts with. */
  ghost predicate Improves(f: Found, r: Found, t: Tree, nb: nat)
  {
    && (r.best == f.best || (r.best.Node? && Sizes(r.best) <= Sizes(t) && nb <= r.best.size))
    && (f.best.Node? ==> r.best.Node? && r.best.size <= f.best.size)
    && (r.rest == f.rest || (r.rest.Node? && Sizes(r.rest) <= Sizes(t)))
  }

  lemma {:induction false} WalkImproves(t: Tree, b: nat, nb: nat, f: Found)
    requires 0 < nb < WORD && Bounded(t) && (f.best.Node? ==> nb <= f.best.size < WORD)
    ensures Improves(f, Walk(t, b, nb, f), t, nb)
    decreases t
  {
    if t.Node? {
      assert t.size in Sizes(t);
      var rem := Remainder(t.size, nb);
      var best := if rem < Bar(f.best, nb) then t else f.best;
      if !(rem < Bar(f.best, nb) && rem == 0) {
        var d := b > 0 && Bit(nb, b - 1) == 1;
        var rest := if t.right.Node? && !d then t.right else f.rest;
        WalkImproves(t.Child(d), if b > 0 then b - 1 else 0, nb, Found(best, rest));
      }
    }
  }

  /** The walk accounts for size s: the best node is at least as tight a fit as s, or s lies in the
      right subtree passed by last, or above all sizes of that subtree. */
  ghost predicate Accounts(r: Found, s: nat)
  {
    || (r.best.Node? && r.best.size <= s)
    || (r.rest.Node? && (s in Sizes(r.rest) || forall z | z in Sizes(r.rest) :: z < s))
  }

  /** The walk misses no size that fits. */
  lemma {:induction false} WalkAccounts(t: Tree, b: nat, nb: nat, f: Found, s: nat)
    requires 0 < nb < WORD && Bounded(t) && (f.best.Node? ==> nb <= f.best.size < WORD)
    requires Ordered(t, b, Prefix(nb, b)) && b >= 3 && nb % 8 == 0
    requires s in Sizes(t) && nb <= s
    ensures Accounts(Walk(t, b, nb, f), s)
    decreases t
  {
    assert t.size in Sizes(t);
    var rem := Remainder(t.size, nb);
    var best := if rem < Bar(f.best, nb) then t else f.best;
    if !(rem < Bar(f.best, nb) && rem == 0) {
      var d := Bit(nb, b - 1) == 1;
      var rest := if t.right.Node? && !d then t.right else f.rest;
      var f' := Found(best, rest);
      WalkImproves(t.Child(d), b - 1, nb, f');
      PrefixStep(nb, b);
      if s in Sizes(t.Child(d)) {
        WalkAccounts(t.Child(d), b - 1, nb, f', s);
      } else if s != t.size {
        if d {
          SizePrefix(t.left, b - 1, 2 * (Prefix(nb, b)), s);
          PrefixLess(s, nb, b - 1);
        } else {
          forall z | z in Sizes(t.left) ensures z < s { LeftBelowRight(t, b, Prefix(nb, b), z, s); }
        }
      }
    }
  }

  /** Everything in the right subtree passed by is larger than the request. */
  lemma {:induction false} WalkRestAbove(t: Tree, b: nat, nb: nat, f: Found)
    requires 0 < nb < WORD && Bounded(t) && (f.best.Node? ==> nb <= f.best.size < WORD)
    requires Ordered(t, b, Prefix(nb, b)) && b >= 3
    requires forall z | z in Sizes(f.rest) :: nb < z
    ensures forall z | z in Sizes(Walk(t, b, nb, f).rest) :: nb < z
    decreases t
  {
    if t.Node? {
      assert t.size in Sizes(t);
      var rem := Remainder(t.size, nb);
      var best := if rem < Bar(f.best, nb) then t else f.best;
      if !(rem < Bar(f.best, nb) && rem == 0) {
        var d := Bit(nb, b - 1) == 1;
        var rest := if t.right.Node? && !d then t.right else f.rest;
        PrefixStep(nb, b);
        if !d {
          forall z | z in Sizes(t.right) ensures nb < z {
            SizePrefix(t.right, b - 1, 2 * (Prefix(nb, b)) + 1, z);
            PrefixLess(nb, z, b - 1);
          }
        }
        if t.Child(d).Node? {
          WalkRestAbove(t.Child(d), b - 1, nb, Found(best, rest));
        }
      }
    }
  }
}
