/** The twelve tries of the large bins side by side: what it means for memory to hold them, and what
    an insertion does to it. */
module TreeIndex {
  import opened SizeBits
  import opened Bitmaps
  import opened Trie
  import opened TrieOps
  import opened TrieMemory

  /** Every record is that of a large chunk, filed under the bin of its size. */
  predicate NodesOk(m: Mem)
  {
    forall a | a in m :: NodeOk(a, m[a])
  }

  predicate NodeOk(a: int, c: TChunk)
  {
    a > ROOT_PARENT && MAX_SMALL_SIZE < c.size < WORD && c.size % 8 == 0 && c.index == ComputeTreeIndex(c.size)
  }

  function InBin(m: Mem, i: nat): (r: set<int>) { set a | a in m && m[a].index == i }

  /** Bin i holds tree t: exactly the chunks filed under it, in trie order. */
  ghost predicate TreeOk(m: Mem, p: int, mark: bool, i: nat, t: Tree)
  {
    && Rep(m, p, ROOT_PARENT, i, t) && Separate(t) && Ordered(t, BinBits(i), BinPrefix(i))
    && Addrs(t) == InBin(m, i)
    && (mark <==> p != NULL)
  }

  /** The sizes of the chunks in the bins. */
  function Contents(m: Mem): (r: map<int, nat>) { map a | a in m :: m[a].size }

  /** A bin does not depend on the records of other bins. */
  lemma {:induction false} TreeFrame(m: Mem, m': Mem, p: int, mark: bool, i: nat, t: Tree)
    requires TreeOk(m, p, mark, i, t)
    requires InBin(m', i) == InBin(m, i) && forall a | a in InBin(m, i) :: m'[a] == m[a]
    ensures TreeOk(m', p, mark, i, t)
  {
    RepFrame(m, m', p, ROOT_PARENT, i, t);
  }

  // ---------- Insertion ----------

  /** A chunk joins the ring of a node of equal size. */
  lemma {:induction false} JoinRing(m: Mem, p: int, i: nat, t: Tree, path: seq<bool>, x: int, rec: TChunk)
    requires Rep(m, p, ROOT_PARENT, i, t) && Separate(t) && HasPath(t, path) && At(t, path).Node?
    requires x !in m && x > ROOT_PARENT
    requires rec.size == At(t, path).size && rec.index == i && rec.parent == RING_PARENT
    requires rec.child0 == rec.child1 == NULL
    ensures var n := Root(At(t, path)); n in m && m[n].prev in m && n in Addrs(t) && m[n].prev in Addrs(t)
    ensures Rep(LinkBefore(m, Root(At(t, path)), x, rec), p, ROOT_PARENT, i,
                Put(t, path, At(t, path).(ring := At(t, path).ring + [x])))
  {
    var here := At(t, path);
    var n := Root(here);
    AtPart(t, path);
    AtRep(m, p, ROOT_PARENT, i, t, path);
    RepRoot(m, p, ROOT_PARENT, i, t);
    var up := if path == [] then ROOT_PARENT else Holder(t, path);
    LinkBeforeRep(m, n, up, i, here, x, rec);
    assert m[n].prev in Elems(here.ring) && n in Elems(here.ring);
    if path != [] {
      var m' := LinkBefore(m, n, x, rec);
      var here' := here.(ring := here.ring + [x]);
      RepMembers(m, p, ROOT_PARENT, i, t);
      HolderOutside(m, p, ROOT_PARENT, i, t, path);
      assert Addrs(here') == Addrs(here) + {x} by { assert Elems(here'.ring) == Elems(here.ring) + {x}; }
      assert m[Holder(t, path)].WithChild(path[|path| - 1], n) == m[Holder(t, path)];
      PutRep(m, m', p, ROOT_PARENT, i, t, path, here');
    }
  }

  /** A chunk becomes a new leaf where a node has no child. */
  lemma {:induction false} JoinLeaf(m: Mem, p: int, i: nat, t: Tree, path: seq<bool>, d: bool, x: int, rec: TChunk)
    requires Rep(m, p, ROOT_PARENT, i, t) && Separate(t) && HasPath(t, path) && At(t, path).Node?
    requires At(t, path).Child(d).Empty?
    requires x !in m && x > ROOT_PARENT
    requires rec.index == i && rec.child0 == rec.child1 == NULL && rec.prev == rec.next == x
    requires rec.parent == Root(At(t, path))
    ensures var n := Root(At(t, path)); n in m && n in Addrs(t)
    ensures var n := Root(At(t, path));
            Rep(m[x := rec][n := m[n].WithChild(d, x)], p, ROOT_PARENT, i,
                Put(t, path, At(t, path).WithChild(d, Node([x], rec.size, Empty, Empty))))
  {
    var n := Root(At(t, path));
    var leaf := Node([x], rec.size, Empty, Empty);
    AtPart(t, path);
    AtRep(m, p, ROOT_PARENT, i, t, path);
    PathSnoc(t, path, d);
    PutSnoc(t, path, d, leaf);
    HolderAt(t, path, d);
    assert n in Elems(At(t, path).ring);
    RepMembers(m, p, ROOT_PARENT, i, t);
    var m' := m[x := rec][n := m[n].WithChild(d, x)];
    assert LinkOk(m', leaf.ring, leaf.size, i, 0);
    assert Rep(m', x, n, i, leaf);
    assert Grafted(m, m', t, path + [d], leaf);
    PutRep(m, m', p, ROOT_PARENT, i, t, path + [d], leaf);
  }

  /** Reading a child pointer of the node at a path. */
  lemma {:induction false} ChildPointer(m: Mem, p: int, parent: int, i: nat, t: Tree, path: seq<bool>, d: bool)
    requires Rep(m, p, parent, i, t) && HasPath(t, path) && At(t, path).Node?
    ensures HasPath(t, path + [d]) && At(t, path + [d]) == At(t, path).Child(d)
    ensures Root(At(t, path)) in m && m[Root(At(t, path))].size == At(t, path).size
    ensures var c := m[Root(At(t, path))].Child(d);
            && c == Root(At(t, path + [d])) && (c == NULL <==> At(t, path + [d]).Empty?)
            && (c != NULL ==> c in m && m[c].size == At(t, path + [d]).size)
  {
    PathSnoc(t, path, d);
    AtRep(m, p, parent, i, t, path);
    var here := At(t, path);
    RepRoot(m, m[Root(here)].Child(d), Root(here), i, here.Child(d));
  }

  /** One step of the insertion walk resolves one more bit of the size. */
  lemma {:induction false} WalkStep(t: Tree, path: seq<bool>, b: nat, s: nat, x: int, d: bool)
    requires HasPath(t, path) && At(t, path).Node? && HasPath(t, path + [d])
    requires 3 <= b <= 32 && s % 8 == 0 && At(t, path).size != s
    requires Ordered(At(t, path), b, Prefix(s, b))
    requires d <==> Bit(s, b - 1) == 1
    ensures b > 3
    ensures Ordered(At(t, path).Child(d), b - 1, Prefix(s, b - 1))
    ensures Put(t, path, Insert(At(t, path), b, s, x)) ==
            Put(t, path + [d], Insert(At(t, path).Child(d), b - 1, s, x))
  {
    var here := At(t, path);
    if b == 3 { PrefixEight(s, here.size); }
    PrefixStep(s, b);
    PutSnoc(t, path, d, Insert(here.Child(d), b - 1, s, x));
  }

  /** The walk of insert_large_chunk through bin i: to the node of size s, or to the node that has no
      child on the side of the next bit of s.  It ends because each step resolves one more bit. */
  method FindSlot(m: Mem, p: int, i: nat, s: nat, ghost tree: Tree, ghost x: int)
    returns (t: int, same: bool, d: bool, ghost path: seq<bool>)
    requires i < N_TREE_BINS && tree.Node?
    requires Rep(m, p, ROOT_PARENT, i, tree) && Ordered(tree, BinBits(i), BinPrefix(i))
    requires 64 < s < WORD && s % 8 == 0 && ComputeTreeIndex(s) == i
    ensures HasPath(tree, path) && At(tree, path).Node? && t == Root(At(tree, path))
    ensures same <==> At(tree, path).size == s
    ensures !same ==> At(tree, path).Child(d).Empty?
    ensures Insert(tree, BinBits(i), s, x) == Put(tree, path, Joined(At(tree, path), same, d, s, x))
  {
    t := p;
    var k := ShiftLeft(s, LeftShiftForTreeIndex(i));
    ghost var b := BinBits(i);
    path := [];
    d := false;
    BinPrefixOf(s);
    ChildPointer(m, t, ROOT_PARENT, i, tree, [], false);
    while true
      invariant HasPath(tree, path) && At(tree, path).Node? && t == Root(At(tree, path)) && t in m
      invariant m[t].size == At(tree, path).size
      invariant 3 <= b <= 32 && k == ShiftLeft(s, 32 - b)
      invariant Ordered(At(tree, path), b, Prefix(s, b))
      invariant Insert(tree, BinBits(i), s, x) == Put(tree, path, Insert(At(tree, path), b, s, x))
      decreases b
    {
      if m[t].size == s {
        same := true;
        return;
      }
      MsbIsNextBit(s, b);
      ShiftLeftOne(s, 32 - b);
      d := Msb(k) == 1;
      var c := m[t].Child(d);
      k := ShiftLeft(k, 1);
      ChildPointer(m, p, ROOT_PARENT, i, tree, path, d);
      WalkStep(tree, path, b, s, x, d);
      if c == NULL {
        PutSnoc(tree, path, d, Node([x], s, Empty, Empty));
        same := false;
        return;
      }
      t := c;
      path := path + [d];
      b := b - 1;
    }
  }

  /** A node that chunk x has joined, on its ring or as a new leaf below it. */
  function Joined(t: Tree, same: bool, d: bool, s: nat, x: int): (r: Tree)
    requires t.Node?
  {
    if same then t.(ring := t.ring + [x]) else t.WithChild(d, Node([x], s, Empty, Empty))
  }

  // ---------- All bins ----------

  /** The state of the large bins is that of the given tries. */
  ghost predicate AllOk(roots: seq<int>, marks: Word, m: Mem, trees: seq<Tree>)
  {
    && |roots| == N_TREE_BINS && |trees| == N_TREE_BINS
    && (forall i: nat {:trigger trees[i]} | i < N_TREE_BINS :: TreeOk(m, roots[i], marks[i], i, trees[i]))
    && (forall i | N_TREE_BINS <= i < 32 :: !marks[i])
    && NodesOk(m)
  }

  /** From m to m' only records of bin i change, and every chunk keeps its size and bin. */
  predicate OnlyBin(m: Mem, m': Mem, i: nat)
  {
    && (forall a | a in m && a in m' :: m'[a].index == m[a].index && m'[a].size == m[a].size)
    && (forall a | a in m && m[a].index != i :: a in m' && m'[a] == m[a])
    && (forall a | a in m' && a !in m :: m'[a].index == i)
  }

  lemma {:induction false} InBinSame(m: Mem, m': Mem, i: nat, j: nat)
    requires OnlyBin(m, m', i) && i != j
    ensures InBin(m', j) == InBin(m, j)
  {
    forall a | a in InBin(m', j) ensures a in InBin(m, j) {
      if a in m { assert m'[a].index == m[a].index; }
    }
    forall a | a in InBin(m, j) ensures a in InBin(m', j) {
      assert a in m' && m'[a] == m[a];
    }
  }

  /** A change confined to one bin leaves the others as they were. */
  lemma {:induction false} OneBin(roots: seq<int>, marks: Word, m: Mem, trees: seq<Tree>,
                                  roots': seq<int>, marks': Word, m': Mem, trees': seq<Tree>, i: nat)
    requires AllOk(roots, marks, m, trees) && i < N_TREE_BINS
    requires |roots'| == |trees'| == N_TREE_BINS && NodesOk(m') && OnlyBin(m, m', i)
    requires forall j: nat | j < N_TREE_BINS && j != i :: roots'[j] == roots[j] && trees'[j] == trees[j]
    requires forall j | 0 <= j < 32 && j != i :: marks'[j] == marks[j]
    requires TreeOk(m', roots'[i], marks'[i], i, trees'[i])
    ensures AllOk(roots', marks', m', trees')
  {
    forall j: nat | j < N_TREE_BINS ensures TreeOk(m', roots'[j], marks'[j], j, trees'[j]) {
      if j != i {
        assert TreeOk(m, roots[j], marks[j], j, trees[j]);
        InBinSame(m, m', i, j);
        TreeFrame(m, m', roots[j], marks[j], j, trees[j]);
      }
    }
  }

  lemma {:induction false} InsertTree(t: Tree, i: nat, x: int, s: nat)
    requires Separate(t) && Ordered(t, BinBits(i), BinPrefix(i)) && x !in Addrs(t)
    requires 64 < s < WORD && s % 8 == 0 && ComputeTreeIndex(s) == i
    ensures var t' := Insert(t, BinBits(i), s, x);
            Separate(t') && Ordered(t', BinBits(i), BinPrefix(i)) && Addrs(t') == Addrs(t) + {x}
  {
    BinPrefixOf(s);
    InsertOrdered(t, BinBits(i), BinPrefix(i), s, x);
    InsertAddrs(t, BinBits(i), BinPrefix(i), s, x);
  }

  lemma {:induction false} InBinInsert(m: Mem, m': Mem, i: nat, x: int)
    requires OnlyBin(m, m', i) && x !in m && m'.Keys == m.Keys + {x}
    ensures InBin(m', i) == InBin(m, i) + {x}
  {
    assert x in m' && m'[x].index == i;
    forall a | a in InBin(m, i) + {x} ensures a in InBin(m', i) {
      if a != x { assert a in m' && m'[a].index == m[a].index; }
    }
    forall a | a in InBin(m', i) ensures a in InBin(m, i) + {x} {
      if a != x { assert a in m && m'[a].index == m[a].index; }
    }
  }

  /** The first chunk of an empty bin becomes its root. */
  lemma {:induction false} PlantOk(roots: seq<int>, marks: Word, m: Mem, trees: seq<Tree>, x: int, s: nat)
    requires AllOk(roots, marks, m, trees) && x !in m && x > ROOT_PARENT
    requires MAX_SMALL_SIZE < s < WORD && s % 8 == 0 && !marks[ComputeTreeIndex(s)]
    ensures var i := ComputeTreeIndex(s);
            AllOk(roots[i := x], Or(marks, Idx2Bit(i)), m[x := TChunk(s, x, x, NULL, NULL, ROOT_PARENT, i)],
                  trees[i := Node([x], s, Empty, Empty)])
  {
    var i := ComputeTreeIndex(s);
    var rec := TChunk(s, x, x, NULL, NULL, ROOT_PARENT, i);
    var m' := m[x := rec];
    var t' := Node([x], s, Empty, Empty);
    assert TreeOk(m, roots[i], marks[i], i, trees[i]);
    RepRoot(m, roots[i], ROOT_PARENT, i, trees[i]);
    BinPrefixOf(s);
    assert LinkOk(m', t'.ring, s, i, 0);
    InBinInsert(m, m', i, x);
    assert InBin(m, i) == {} && Elems([x]) == {x};
    assert RingRep(m', t'.ring, s, i);
    assert Rep(m', x, ROOT_PARENT, i, t');
    assert Addrs(t') == Elems([x]);
    assert TreeOk(m', x, true, i, t');
    OneBin(roots, marks, m, trees, roots[i := x], Or(marks, Idx2Bit(i)), m', trees[i := t'], i);
  }

  /** A chunk joins a bin whose tree the walk has searched. */
  lemma {:induction false} JoinOk(roots: seq<int>, marks: Word, m: Mem, trees: seq<Tree>, x: int, s: nat, m': Mem)
    requires AllOk(roots, marks, m, trees) && x !in m && x > ROOT_PARENT
    requires MAX_SMALL_SIZE < s < WORD && s % 8 == 0 && marks[ComputeTreeIndex(s)]
    requires m'.Keys == m.Keys + {x} && m'[x].size == s && m'[x].index == ComputeTreeIndex(s)
    requires OnlyBin(m, m', ComputeTreeIndex(s))
    requires var i := ComputeTreeIndex(s); Rep(m', roots[i], ROOT_PARENT, i, Insert(trees[i], BinBits(i), s, x))
    ensures var i := ComputeTreeIndex(s);
            AllOk(roots, marks, m', trees[i := Insert(trees[i], BinBits(i), s, x)])
    ensures Contents(m') == Contents(m)[x := s]
  {
    var i := ComputeTreeIndex(s);
    assert TreeOk(m, roots[i], marks[i], i, trees[i]);
    assert x !in InBin(m, i);
    InsertTree(trees[i], i, x, s);
    InBinInsert(m, m', i, x);
    RepRoot(m, roots[i], ROOT_PARENT, i, trees[i]);
    assert NodesOk(m') by {
      forall a | a in m' ensures NodeOk(a, m'[a]) { if a != x { assert NodeOk(a, m[a]); } }
    }
    OneBin(roots, marks, m, trees, roots, marks, m', trees[i := Insert(trees[i], BinBits(i), s, x)], i);
    ContentsInsert(m, m', x, s);
  }

  lemma {:induction false} ContentsInsert(m: Mem, m': Mem, x: int, s: nat)
    requires x !in m && m'.Keys == m.Keys + {x} && m'[x].size == s
    requires forall a | a in m && a in m' :: m'[a].index == m[a].index && m'[a].size == m[a].size
    ensures Contents(m') == Contents(m)[x := s]
  {
    forall a | a in m' ensures Contents(m')[a] == Contents(m)[x := s][a] {
      if a != x { assert a in m && m'[a].size == m[a].size; }
    }
  }

  /** LinkBefore changes records of the ring's bin only. */
  lemma {:induction false} LinkBeforeOnly(m: Mem, t: int, x: int, rec: TChunk)
    requires x !in m && t in m && m[t].prev in m && m[m[t].prev].index == m[t].index == rec.index
    ensures var m' := LinkBefore(m, t, x, rec);
            && OnlyBin(m, m', rec.index) && m'.Keys == m.Keys + {x}
            && m'[x].size == rec.size && m'[x].index == rec.index
  {
  }

  lemma {:induction false} JoinRingOk(roots: seq<int>, marks: Word, m: Mem, trees: seq<Tree>, x: int, s: nat,
                                      path: seq<bool>)
    requires AllOk(roots, marks, m, trees) && x !in m && x > ROOT_PARENT
    requires MAX_SMALL_SIZE < s < WORD && s % 8 == 0 && marks[ComputeTreeIndex(s)]
    requires var t := trees[ComputeTreeIndex(s)];
             && HasPath(t, path) && At(t, path).Node? && At(t, path).size == s
             && Insert(t, BinBits(ComputeTreeIndex(s)), s, x) == Put(t, path, Joined(At(t, path), true, false, s, x))
    ensures var i := ComputeTreeIndex(s); var t := trees[i]; var n := Root(At(t, path));
            var rec := TChunk(s, x, x, NULL, NULL, RING_PARENT, i);
            && n in m && m[n].prev in m
            && AllOk(roots, marks, LinkBefore(m, n, x, rec), trees[i := Insert(t, BinBits(i), s, x)])
            && Contents(LinkBefore(m, n, x, rec)) == Contents(m)[x := s]
  {
    var i := ComputeTreeIndex(s);
    var t := trees[i];
    var rec := TChunk(s, x, x, NULL, NULL, RING_PARENT, i);
    assert TreeOk(m, roots[i], marks[i], i, t);
    JoinRing(m, roots[i], i, t, path, x, rec);
    RepMembers(m, roots[i], ROOT_PARENT, i, t);
    var n := Root(At(t, path));
    LinkBeforeOnly(m, n, x, rec);
    JoinOk(roots, marks, m, trees, x, s, LinkBefore(m, n, x, rec));
  }

  lemma {:induction false} JoinLeafOk(roots: seq<int>, marks: Word, m: Mem, trees: seq<Tree>, x: int, s: nat,
                                      path: seq<bool>, d: bool)
    requires AllOk(roots, marks, m, trees) && x !in m && x > ROOT_PARENT
    requires MAX_SMALL_SIZE < s < WORD && s % 8 == 0 && marks[ComputeTreeIndex(s)]
    requires var t := trees[ComputeTreeIndex(s)];
             && HasPath(t, path) && At(t, path).Node? && At(t, path).Child(d).Empty?
             && Insert(t, BinBits(ComputeTreeIndex(s)), s, x) == Put(t, path, Joined(At(t, path), false, d, s, x))
    ensures var i := ComputeTreeIndex(s); var t := trees[i]; var n := Root(At(t, path));
            var rec := TChunk(s, x, x, NULL, NULL, n, i);
            && n in m && n != x
            && AllOk(roots, marks, m[x := rec][n := m[n].WithChild(d, x)], trees[i := Insert(t, BinBits(i), s, x)])
            && Contents(m[x := rec][n := m[n].WithChild(d, x)]) == Contents(m)[x := s]
  {
    var i := ComputeTreeIndex(s);
    var t := trees[i];
    var n := Root(At(t, path));
    var rec := TChunk(s, x, x, NULL, NULL, n, i);
    assert TreeOk(m, roots[i], marks[i], i, t);
    JoinLeaf(m, roots[i], i, t, path, d, x, rec);
    RepMembers(m, roots[i], ROOT_PARENT, i, t);
    var m' := m[x := rec][n := m[n].WithChild(d, x)];
    assert OnlyBin(m, m', i);
    JoinOk(roots, marks, m, trees, x, s, m');
  }
}
