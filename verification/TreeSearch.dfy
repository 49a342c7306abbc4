/** The loops of tmalloc_large and tmalloc_smallest over the memory of one bin. */
module TreeSearch {
  import opened SizeBits
  import opened Bitmaps
  import opened Trie
  import opened TrieOps
  import opened TrieSearch
  import opened TreeIndex

  /** Sibling pointers differ. */
  lemma {:induction false} SiblingPointers(m: Mem, p: int, up: int, i: nat, t: Tree, path: seq<bool>)
    requires Rep(m, p, up, i, t) && Separate(t) && HasPath(t, path) && At(t, path).Node?
    requires Root(At(t, path)) in m
    ensures var c := m[Root(At(t, path))]; c.child1 != NULL ==> c.child0 != c.child1
  {
    AtRep(m, p, up, i, t, path);
    AtPart(t, path);
    var here := At(t, path);
    RepRoot(m, m[Root(here)].child0, Root(here), i, here.left);
    RepRoot(m, m[Root(here)].child1, Root(here), i, here.right);
  }

  /** One step of the size-directed walk at the node at a path. */
  lemma {:induction false} WalkAt(m: Mem, p: int, i: nat, t: Tree, path: seq<bool>, nb: nat, f: Found, d: bool)
    requires Rep(m, p, ROOT_PARENT, i, t) && Separate(t) && Ordered(t, BinBits(i), BinPrefix(i)) && Bounded(t)
    requires HasPath(t, path) && At(t, path).Node? && 0 < nb < WORD && (f.best.Node? ==> f.best.size < WORD)
    requires |path| < BinBits(i) && (d <==> Bit(nb, BinBits(i) - |path| - 1) == 1)
    ensures var n := Root(At(t, path)); n in m && m[n].size == At(t, path).size < WORD && n != NULL
    ensures var here := At(t, path); var c := m[Root(here)]; var b := BinBits(i) - |path|;
            var rem := Remainder(here.size, nb); var hit := rem < Bar(f.best, nb);
            var f' := Found(if hit then here else f.best,
                            if c.child1 != NULL && c.child1 != c.Child(d) then here.right else f.rest);
            && Bounded(here) && Bounded(here.Child(d))
            && (hit && rem == 0 ==> Walk(here, b, nb, f) == Found(here, f.rest))
            && (!(hit && rem == 0) ==> Walk(here, b, nb, f) == Walk(here.Child(d), b - 1, nb, f'))
            && c.Child(d) == Root(here.Child(d)) && (c.Child(d) == NULL <==> here.Child(d).Empty?)
            && (c.Child(d) != NULL ==> |path| + 1 < BinBits(i) && c.Child(d) in m)
            && c.child1 == Root(here.right) && (c.child1 == NULL <==> here.right.Empty?)
            && HasPath(t, path + [d]) && At(t, path + [d]) == here.Child(d)
            && HasPath(t, path + [true]) && At(t, path + [true]) == here.right
  {
    var here := At(t, path);
    AtPart(t, path);
    assert here.size in Sizes(here);
    ChildPointer(m, p, ROOT_PARENT, i, t, path, d);
    ChildPointer(m, p, ROOT_PARENT, i, t, path, true);
    SiblingPointers(m, p, ROOT_PARENT, i, t, path);
    AtRep(m, p, ROOT_PARENT, i, t, path);
    if here.Child(d).Node? {
      AtOrdered(t, BinBits(i), BinPrefix(i), path + [d]);
      AtOrdered(t, BinBits(i), BinPrefix(i), path);
    }
  }

  /** The subtree at a path, if there is one. */
  function AtOr(t: Tree, path: seq<bool>, found: bool): (r: Tree)
    requires found ==> HasPath(t, path)
  {
    if found then At(t, path) else Empty
  }

  /** The candidates at pointers v and rst, as subtrees of the bin. */
  function Candidates(tree: Tree, v: int, rst: int, vPath: seq<bool>, rPath: seq<bool>): (f: Found)
    requires HasPath(tree, vPath) && HasPath(tree, rPath)
  {
    Found(AtOr(tree, vPath, v != NULL), AtOr(tree, rPath, rst != NULL))
  }

  ghost predicate Candidate(tree: Tree, v: int, path: seq<bool>)
  {
    HasPath(tree, path) && (v != NULL ==> At(tree, path).Node? && v == Root(At(tree, path)))
  }

  /** The walk has ended with candidates v and rst. */
  ghost predicate Walked(tree: Tree, i: nat, nb: nat, v: int, rst: int, vPath: seq<bool>, rPath: seq<bool>)
  {
    && 0 < nb < WORD && Bounded(tree)
    && Candidate(tree, v, vPath) && Candidate(tree, rst, rPath)
    && Walk(tree, BinBits(i), nb, Found(Empty, Empty)) == Candidates(tree, v, rst, vPath, rPath)
  }

  /** The walk is at the node at the path, with candidates v and rst so far. */
  ghost predicate Walking(tree: Tree, i: nat, nb: nat, path: seq<bool>, t: int, v: int, rst: int,
                          vPath: seq<bool>, rPath: seq<bool>, rsize: nat)
  {
    && 0 < nb < WORD && Bounded(tree)
    && |path| < BinBits(i) && Candidate(tree, t, path) && t != NULL && Bounded(At(tree, path))
    && Candidate(tree, v, vPath) && Candidate(tree, rst, rPath)
    && var f := Candidates(tree, v, rst, vPath, rPath);
       && (v != NULL ==> f.best.size < WORD)
       && rsize == Bar(f.best, nb)
       && Walk(tree, BinBits(i), nb, Found(Empty, Empty)) == Walk(At(tree, path), BinBits(i) - |path|, nb, f)
  }

  lemma {:induction false} WalkingStep(m: Mem, p: int, i: nat, tree: Tree, nb: nat, path: seq<bool>, t: int, v: int,
                                       rst: int,
                                       vPath: seq<bool>, rPath: seq<bool>, rsize: nat, d: bool)
    requires Rep(m, p, ROOT_PARENT, i, tree) && Separate(tree) && Ordered(tree, BinBits(i), BinPrefix(i))
    requires Walking(tree, i, nb, path, t, v, rst, vPath, rPath, rsize)
    requires d <==> Bit(nb, BinBits(i) - |path| - 1) == 1
    ensures t in m && m[t].size < WORD
    ensures var rem := Remainder(m[t].size, nb); var hit := rem < rsize;
            var v', vPath' := if hit then t else v, if hit then path else vPath;
            var rt, t' := m[t].child1, m[t].Child(d);
            var other := rt != NULL && rt != t';
            var rst', rPath' := if other then rt else rst, if other then path + [true] else rPath;
            if hit && rem == 0 then Walked(tree, i, nb, t, rst, path, rPath)
            else if t' == NULL then Walked(tree, i, nb, v', rst', vPath', rPath')
            else Walking(tree, i, nb, path + [d], t', v', rst', vPath', rPath', if hit then rem else rsize)
  {
    hide Rep, Ordered, Separate, Sizes;
    WalkAt(m, p, i, tree, path, nb, Candidates(tree, v, rst, vPath, rPath), d);
  }

  /** tmalloc_large's walk through the bin of nb: the closest fit on the way, and the deepest right
      subtree passed by. */
  method WalkLarge(m: Mem, p: int, i: nat, nb: nat, ghost tree: Tree)
    returns (v: int, rst: int, ghost vPath: seq<bool>, ghost rPath: seq<bool>)
    requires i < N_TREE_BINS && tree.Node? && Rep(m, p, ROOT_PARENT, i, tree) && Separate(tree)
    requires Ordered(tree, BinBits(i), BinPrefix(i)) && Bounded(tree)
    requires 0 < nb < WORD
    ensures Walked(tree, i, nb, v, rst, vPath, rPath)
  {
    var t := p;
    var rsize: nat := WORD - nb;
    var sizebits := ShiftLeft(nb, LeftShiftForTreeIndex(i));
    v, rst := NULL, NULL;
    vPath, rPath := [], [];
    ghost var path: seq<bool> := [];
    RepRoot(m, p, ROOT_PARENT, i, tree);
    while true
      invariant Walking(tree, i, nb, path, t, v, rst, vPath, rPath, rsize)
      invariant sizebits == ShiftLeft(nb, 32 - (BinBits(i) - |path|))
      decreases BinBits(i) - |path|
    {
      MsbIsNextBit(nb, BinBits(i) - |path|);
      ShiftLeftOne(nb, 32 - (BinBits(i) - |path|));
      var d := Msb(sizebits) == 1;
      WalkingStep(m, p, i, tree, nb, path, t, v, rst, vPath, rPath, rsize, d);
      var trem := Remainder(m[t].size, nb);
      if trem < rsize {
        v, vPath := t, path;
        rsize := trem;
        if rsize == 0 {
          return;
        }
      }
      var rt := m[t].child1;
      t := m[t].Child(d);
      if rt != NULL && rt != t {
        rst, rPath := rt, path + [true];
      }
      if t == NULL {
        return;
      }
      path := path + [d];
      sizebits := ShiftLeft(sizebits, 1);
    }
  }

  // ---------- tmalloc_smallest ----------

  /** leftmost_child, read from memory. */
  lemma {:induction false} LeftmostPointer(m: Mem, p: int, up: int, i: nat, t: Tree)
    requires Rep(m, p, up, i, t) && t.Node?
    ensures p in m && m[p].size == t.size
    ensures var c := if m[p].child0 != NULL then m[p].child0 else m[p].child1;
            c == Root(LeftmostChild(t)) && Rep(m, c, p, i, LeftmostChild(t)) && (c == NULL <==> LeftmostChild(t).Empty?)
  {
    RepRoot(m, p, up, i, t);
    RepRoot(m, m[p].child0, p, i, t.left);
    RepRoot(m, m[p].child1, p, i, t.right);
  }

  /** The search of tmalloc_smallest from the node at t: the least remainder along the leftmost
      path, and the next chunk on the ring of that node. */
  method PickSmallest(m: Mem, start: int, nb: nat, ghost up: int, ghost i: nat, ghost tree: Tree) returns (v: int)
    requires Rep(m, start, up, i, tree) && tree.Node? && Bounded(tree) && 0 < nb < WORD
    ensures v in m && m[v].size == Smallest(tree, nb).size && m[v].index == i
    ensures v in Addrs(tree)
  {
    RepRoot(m, start, up, i, tree);
    assert tree.size in Sizes(tree);
    var rsize := Remainder(m[start].size, nb);
    var t := start;
    v := start;
    LeftmostPointer(m, start, up, i, tree);
    t := if m[t].child0 != NULL then m[t].child0 else m[t].child1;
    ghost var rest, best, tUp, vUp := LeftmostChild(tree), tree, start, up;
    while t != NULL
      invariant Rep(m, t, tUp, i, rest) && Bounded(rest) && Addrs(rest) <= Addrs(tree)
      invariant best.Node? && best.size < WORD && Rep(m, v, vUp, i, best) && Addrs(best) <= Addrs(tree)
      invariant rsize == Remainder(best.size, nb)
      invariant Smallest(tree, nb) == Least(rest, nb, best)
      decreases rest
    {
      RepRoot(m, t, tUp, i, rest);
      assert rest.size in Sizes(rest);
      LeftmostPointer(m, t, tUp, i, rest);
      var trem := Remainder(m[t].size, nb);
      if trem < rsize {
        rsize := trem;
        v := t;
        best, vUp := rest, tUp;
      }
      tUp := t;
      t := if m[t].child0 != NULL then m[t].child0 else m[t].child1;
      rest := LeftmostChild(rest);
    }
    RepRoot(m, t, tUp, i, rest);
    assert best == Smallest(tree, nb);
    RingNext(m, v, vUp, i, best);
    v := m[v].next;
  }

  lemma {:induction false} RingNext(m: Mem, p: int, up: int, i: nat, t: Tree)
    requires Rep(m, p, up, i, t) && t.Node?
    ensures p in m && m[p].next in m && m[m[p].next].size == t.size && m[m[p].next].index == i
    ensures m[p].next in Addrs(t)
  {
    RepRoot(m, p, up, i, t);
    assert LinkOk(m, t.ring, t.size, i, 0);
    RingMember(m, t.ring, t.size, i, m[p].next);
    assert m[p].next in Elems(t.ring);
  }

  // ---------- What the search of one bin finds ----------

  /** Where tmalloc_smallest starts after the walk: at the best node met, else at the right subtree
      passed by last; empty if there is neither. */
  function Start(f: Found): (t: Tree) { if f.best.Node? then f.best else f.rest }

  /** When the search of its bin for a request of nb bytes is a best fit: no node on the way fits, or
      no right subtree was passed by, or the one passed by holds nothing smaller than the leftmost
      path below the best node. */
  predicate Tight(t: Tree, b: nat, nb: nat)
    requires 0 < nb < WORD && Bounded(t)
  {
    var f := Walk(t, b, nb, Found(Empty, Empty));
    WalkImproves(t, b, nb, Found(Empty, Empty));
    f.best.Empty? || f.rest.Empty? || Smallest(f.best, nb).size <= Smallest(f.rest, nb).size
  }

  predicate LeastFit(t: Tree, nb: nat, r: nat)
  {
    forall s | s in Sizes(t) && nb <= s :: r <= s
  }

  lemma {:induction false} SmallestFits(t: Tree, nb: nat)
    requires 0 < nb < WORD && t.Node? && Bounded(t) && nb <= t.size
    ensures nb <= Smallest(t, nb).size <= t.size && Smallest(t, nb).size in Sizes(t)
  {
    assert t.size in Sizes(t);
    LeastFits(LeftmostChild(t), nb, t);
  }

  lemma {:induction false} SmallestIsLeast(t: Tree, b: nat, prefix: nat, nb: nat, s: nat)
    requires 0 < nb < WORD && t.Node? && Bounded(t) && Ordered(t, b, prefix)
    requires (forall z | z in Sizes(t) :: nb <= z) && s in Sizes(t)
    ensures Smallest(t, nb).size <= s
  {
    assert t.size in Sizes(t);
    LeastFits(LeftmostChild(t), nb, t);
    LeastIsLeast(t, b, prefix, nb, t, s);
  }

  /** The search of a bin fails only if nothing in it fits; what it finds fits, and is a best fit
      exactly when the search is tight. */
  lemma {:induction false} SearchVerdict(t: Tree, i: nat, nb: nat, v: int, rst: int, vPath: seq<bool>, rPath: seq<bool>)
    requires i < N_TREE_BINS && Ordered(t, BinBits(i), BinPrefix(i)) && Walked(t, i, nb, v, rst, vPath, rPath)
    requires 64 <= nb && nb % 8 == 0 && ComputeTreeIndex(nb) == i
    ensures var start := Start(Candidates(t, v, rst, vPath, rPath));
            if start.Empty? then forall s | s in Sizes(t) :: s < nb
            else
              && Bounded(start)
              && var r := Smallest(start, nb).size;
                 r in Sizes(t) && nb <= r && (LeastFit(t, nb, r) <==> Tight(t, BinBits(i), nb))
  {
    hide Walk, Smallest, Ordered, HasPath, At, Sizes, ComputeTreeIndex;
    var f := Candidates(t, v, rst, vPath, rPath);
    BinPrefixOf(nb);
    var none := Found(Empty, Empty);
    NoSizes();
    WalkImproves(t, BinBits(i), nb, none);
    WalkRestAbove(t, BinBits(i), nb, none);
    forall s | s in Sizes(t) && nb <= s ensures Accounts(f, s) { WalkAccounts(t, BinBits(i), nb, none, s); }
    if f.rest.Node? {
      AtOrdered(t, BinBits(i), BinPrefix(i), rPath);
      SizeIn(f.rest);
      SmallestFits(f.rest, nb);
      forall s | s in Sizes(f.rest) ensures Smallest(f.rest, nb).size <= s {
        SmallestIsLeast(f.rest, BinBits(i) - |rPath|, PrefixAt(BinPrefix(i), rPath), nb, s);
      }
    }
    if f.best.Node? {
      SmallestFits(f.best, nb);
    }
  }

  lemma {:induction false} NoSizes()
    ensures Sizes(Empty) == {}
  {
  }

  lemma {:induction false} SizeIn(t: Tree)
    requires t.Node?
    ensures t.size in Sizes(t)
  {
  }

  /** A request that some chunk of its bin matches exactly gets a best fit, and so does one that no node on
      the way of its search fits. */
  lemma {:induction false} TightWhen(t: Tree, i: nat, nb: nat)
    requires i < N_TREE_BINS && Ordered(t, BinBits(i), BinPrefix(i)) && Bounded(t)
    requires 64 <= nb < WORD && nb % 8 == 0 && ComputeTreeIndex(nb) == i
    ensures nb in Sizes(t) || Walk(t, BinBits(i), nb, Found(Empty, Empty)).best.Empty? ==> Tight(t, BinBits(i), nb)
  {
    if nb in Sizes(t) {
      var none := Found(Empty, Empty);
      var f := Walk(t, BinBits(i), nb, none);
      BinPrefixOf(nb);
      WalkImproves(t, BinBits(i), nb, none);
      WalkRestAbove(t, BinBits(i), nb, none);
      WalkAccounts(t, BinBits(i), nb, none, nb);
      if f.rest.Node? {
        assert f.rest.size in Sizes(f.rest);
        SmallestFits(f.rest, nb);
      }
      SmallestFits(f.best, nb);
    }
  }

  // ---------- What the search of all bins finds ----------

  /** v is a smallest chunk among those of at least nb bytes. */
  ghost predicate BestFit(m: Mem, nb: nat, v: int)
  {
    v in m && nb <= m[v].size && forall a | a in m && nb <= m[a].size :: m[v].size <= m[a].size
  }

  lemma {:induction false} SizeHasChunk(m: Mem, p: int, up: int, i: nat, t: Tree, s: nat)
    requires Rep(m, p, up, i, t) && s in Sizes(t)
    ensures exists a :: a in Addrs(t) && a in m && m[a].size == s
    decreases t
  {
    RepRoot(m, p, up, i, t);
    if s == t.size {
      assert p in Addrs(t) && m[p].size == s;
    } else if s in Sizes(t.left) {
      SizeHasChunk(m, m[p].child0, p, i, t.left, s);
    } else {
      SizeHasChunk(m, m[p].child1, p, i, t.right, s);
    }
  }

  /** The sizes of a bin's tree are those of the chunks filed under it, all in the bin's range. */
  lemma {:induction false} BinFacts(roots: seq<int>, marks: Word, m: Mem, trees: seq<Tree>, i: nat)
    requires AllOk(roots, marks, m, trees) && i < N_TREE_BINS
    ensures TreeOk(m, roots[i], marks[i], i, trees[i])
    ensures (roots[i] == NULL <==> trees[i].Empty?) && (marks[i] <==> trees[i].Node?)
    ensures forall a | a in m && m[a].index == i :: m[a].size in Sizes(trees[i])
    ensures forall s | s in Sizes(trees[i]) :: 64 < s < WORD && s % 8 == 0 && ComputeTreeIndex(s) == i
    ensures Bounded(trees[i])
  {
    var t := trees[i];
    assert TreeOk(m, roots[i], marks[i], i, t);
    RepRoot(m, roots[i], ROOT_PARENT, i, t);
    RepMembers(m, roots[i], ROOT_PARENT, i, t);
    forall a | a in m && m[a].index == i ensures m[a].size in Sizes(t) { assert a in InBin(m, i); }
    forall s | s in Sizes(t) ensures 64 < s < WORD && s % 8 == 0 && ComputeTreeIndex(s) == i {
      SizeHasChunk(m, roots[i], ROOT_PARENT, i, t, s);
      var a :| a in Addrs(t) && a in m && m[a].size == s;
      assert NodeOk(a, m[a]);
    }
  }

  /** A chunk of the bin of nb that fits is a best fit overall if it is one in its bin. */
  lemma {:induction false} OwnBin(roots: seq<int>, marks: Word, m: Mem, trees: seq<Tree>, nb: nat, v: int)
    requires AllOk(roots, marks, m, trees) && 64 <= nb < WORD
    requires v in m && m[v].index == ComputeTreeIndex(nb) && nb <= m[v].size
    ensures BestFit(m, nb, v) <==> LeastFit(trees[m[v].index], nb, m[v].size)
  {
    var i := m[v].index;
    BinFacts(roots, marks, m, trees, i);
    forall a | a in m && nb <= m[a].size && LeastFit(trees[i], nb, m[v].size) ensures m[v].size <= m[a].size {
      assert NodeOk(a, m[a]) && NodeOk(v, m[v]);
      if m[a].index < i {
        TreeIndexOrder(m[a].size, nb);
      } else if m[a].index > i {
        TreeIndexOrder(m[v].size, m[a].size);
      }
    }
    forall s | s in Sizes(trees[i]) && nb <= s && BestFit(m, nb, v) ensures m[v].size <= s {
      SizeHasChunk(m, roots[i], ROOT_PARENT, i, trees[i], s);
    }
  }

  /** The smallest chunk of the least non-empty bin above that of nb is a best fit if the bin of nb
      itself has no fit. */
  lemma {:induction false} NextBin(roots: seq<int>, marks: Word, m: Mem, trees: seq<Tree>, nb: nat, i: nat, v: int)
    requires AllOk(roots, marks, m, trees) && 64 <= nb < WORD
    requires ComputeTreeIndex(nb) < i < N_TREE_BINS && trees[i].Node? && Bounded(trees[i])
    requires forall j: nat | ComputeTreeIndex(nb) < j < i :: !marks[j]
    requires forall s | s in Sizes(trees[ComputeTreeIndex(nb)]) :: s < nb
    requires v in m && m[v].index == i && m[v].size == Smallest(trees[i], nb).size
    ensures BestFit(m, nb, v)
  {
    var idx := ComputeTreeIndex(nb);
    BinFacts(roots, marks, m, trees, i);
    BinFacts(roots, marks, m, trees, idx);
    assert NodeOk(v, m[v]);
    TreeIndexOrder(nb, m[v].size);
    forall a | a in m && nb <= m[a].size ensures m[v].size <= m[a].size {
      assert NodeOk(a, m[a]);
      var j := m[a].index;
      if j < idx {
        TreeIndexOrder(m[a].size, nb);
      } else if j < i {
        BinFacts(roots, marks, m, trees, j);
      } else if j == i {
        forall z | z in Sizes(trees[i]) ensures nb <= z { TreeIndexOrder(nb, z); }
        SmallestIsLeast(trees[i], BinBits(i), BinPrefix(i), nb, m[a].size);
      } else {
        TreeIndexOrder(m[v].size, m[a].size);
      }
    }
  }

  /** Nothing fits if the bin of nb has no fit and no bin above it holds a chunk. */
  lemma {:induction false} NoBin(roots: seq<int>, marks: Word, m: Mem, trees: seq<Tree>, nb: nat)
    requires AllOk(roots, marks, m, trees) && 64 <= nb < WORD
    requires forall j: nat | ComputeTreeIndex(nb) < j < N_TREE_BINS :: !marks[j]
    requires forall s | s in Sizes(trees[ComputeTreeIndex(nb)]) :: s < nb
    ensures forall a | a in m :: m[a].size < nb
  {
    forall a | a in m ensures m[a].size < nb {
      assert NodeOk(a, m[a]);
      BinFacts(roots, marks, m, trees, m[a].index);
      if m[a].index < ComputeTreeIndex(nb) { TreeIndexOrder(m[a].size, nb); }
    }
  }

  /** The smallest chunk of the least non-empty bin is a best fit for every small request. */
  lemma {:induction false} FirstBin(roots: seq<int>, marks: Word, m: Mem, trees: seq<Tree>, nb: nat, i: nat, v: int)
    requires AllOk(roots, marks, m, trees) && 0 < nb <= 64
    requires i < N_TREE_BINS && trees[i].Node? && Bounded(trees[i])
    requires forall j: nat | j < i :: !marks[j]
    requires v in m && m[v].index == i && m[v].size == Smallest(trees[i], nb).size
    ensures BestFit(m, nb, v)
  {
    BinFacts(roots, marks, m, trees, i);
    assert NodeOk(v, m[v]);
    forall a | a in m ensures m[v].size <= m[a].size {
      assert NodeOk(a, m[a]);
      var j := m[a].index;
      if j < i {
        BinFacts(roots, marks, m, trees, j);
      } else if j == i {
        SmallestIsLeast(trees[i], BinBits(i), BinPrefix(i), nb, m[a].size);
      } else {
        TreeIndexOrder(m[v].size, m[a].size);
      }
    }
  }

  // ---------- The search is not always a best fit ----------

  /** Bin 6 after chunks of 760, 520, 528 and 600 bytes are freed in this order. */
  function FourChunks(): (t: Tree)
  {
    Insert(Insert(Insert(Insert(Empty, 8, 760, 100), 8, 520, 200), 8, 528, 300), 8, 600, 400)
  }

  lemma {:induction false} FourChunksShape()
    ensures FourChunks() ==
            Node([100], 760, Node([200], 520, Node([300], 528, Empty, Empty), Node([400], 600, Empty, Empty)), Empty)
  {
    BitsOf(520, 65, 8);
    BitsOf(528, 66, 8);
    BitsOf(600, 75, 9);
    var t1 := Insert(Empty, 8, 760, 100);
    var t2 := Insert(t1, 8, 520, 200);
    assert t2 == Node([100], 760, Node([200], 520, Empty, Empty), Empty);
    var t3 := Insert(t2, 8, 528, 300);
    assert t3 == Node([100], 760, Node([200], 520, Node([300], 528, Empty, Empty), Empty), Empty);
    var t4 := Insert(t3, 8, 600, 400);
    assert t4.left == Node([200], 520, Node([300], 528, Empty, Empty), Node([400], 600, Empty, Empty));
  }

  lemma {:induction false} BitsOf(s: nat, p3: nat, p6: nat)
    requires p3 == s / 8 && p6 == s / 64
    ensures Prefix(s, 3) == p3 && Prefix(s, 6) == p6 && Prefix(s, 7) == p6 / 2 && Prefix(s, 5) == p3 / 4
    ensures Bit(s, 5) == p3 / 4 % 2 && Bit(s, 6) == p6 % 2 && Bit(s, 7) == p6 / 2 % 2
  {
    assert Prefix(s, 1) == s / 2 && Prefix(s, 2) == s / 4 && Prefix(s, 3) == s / 8;
    assert Prefix(s, 4) == Prefix(s, 3) / 2 && Prefix(s, 5) == Prefix(s, 4) / 2 && Prefix(s, 6) == Prefix(s, 5) / 2;
  }

  /** A request of 560 bytes then gets the chunk of 760 bytes although the one of 600 is free: the
      walk meets 760 first, and drops the subtree of 600 because some node on the way fits. */
  lemma {:induction false} NotBestFit()
    ensures var t := FourChunks(); var nb := 560;
            && ComputeTreeIndex(nb) == 6 && BinBits(6) == 8
            && Bounded(t) && 600 in Sizes(t)
            && (var f := Walk(t, 8, nb, Found(Empty, Empty));
                f.best.Node? && Bounded(f.best) && Smallest(f.best, nb).size == 760)
            && !Tight(t, 8, nb)
  {
    hide FourChunks, Walk, Bounded, Sizes;
    FourChunksShape();
    var t := FourChunks();
    Request560();
    FourSizes(t);
    PassBy(t);
  }

  lemma {:induction false} Request560()
    ensures ComputeTreeIndex(560) == 6 && BinBits(6) == 8
  {
    BitsOf(560, 70, 8);
    assert Log2(8) == 3;
    assert Prefix(560, 8) == 2;
  }

  lemma {:induction false} FourSizes(t: Tree)
    requires t == Node([100], 760, Node([200], 520, Node([300], 528, Empty, Empty), Node([400], 600, Empty, Empty)),
                       Empty)
    ensures Sizes(t) == {760, 520, 528, 600} && Sizes(t.left) == {520, 528, 600}
    ensures Sizes(t.left.left) == {528} && Sizes(t.left.right) == {600}
  {
  }

  lemma {:induction false} PassBy(t: Tree)
    requires t == Node([100], 760, Node([200], 520, Node([300], 528, Empty, Empty), Node([400], 600, Empty, Empty)),
                       Empty)
    requires Sizes(t) == {760, 520, 528, 600} && Sizes(t.left) == {520, 528, 600}
    requires Sizes(t.left.left) == {528} && Sizes(t.left.right) == {600}
    ensures Bounded(t) && Walk(t, 8, 560, Found(Empty, Empty)) == Found(t, t.left.right)
    ensures Bounded(t.left.right) && Smallest(t, 560) == t && Smallest(t.left.right, 560) == t.left.right
  {
    BitsOf(560, 70, 8);
    var l := t.left;
    assert Walk(l.left, 6, 560, Found(t, l.right)) == Found(t, l.right);
    assert Walk(l, 7, 560, Found(t, Empty)) == Walk(l.left, 6, 560, Found(t, l.right));
    assert Walk(t, 8, 560, Found(Empty, Empty)) == Walk(l, 7, 560, Found(t, Empty));
    assert Least(l.left, 560, t) == t;
    assert Least(l, 560, t) == Least(l.left, 560, t);
  }
}
