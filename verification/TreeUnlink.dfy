/** Removing a chunk from the large bins: the pointer updates of unlink_large_chunk yield the tries
    without that chunk, whichever of its cases applies. */
module TreeUnlink {
  import opened SizeBits
  import opened Bitmaps
  import opened Trie
  import opened TrieOps
  import opened TrieMemory
  import opened TreeIndex

  /** Memories with the same chunks, under the same sizes and bins. */
  predicate SameFiling(m: Mem, m': Mem)
  {
    m'.Keys == m.Keys && forall a | a in m :: m'[a].index == m[a].index && m'[a].size == m[a].size
  }

  predicate SameOutside(m: Mem, m': Mem, s: set<int>)
  {
    forall a | a in m && a !in s :: a in m' && m'[a] == m[a]
  }

  /** The parent of x now points to r instead. */
  function SetHolder(m: Mem, x: int, r: int): (m': Mem)
    requires x in m && m[x].parent in m
  {
    var xp := m[x].parent;
    if m[xp].child0 == x then m[xp := m[xp].(child0 := r)] else m[xp := m[xp].(child1 := r)]
  }

  /** Tree node x gives up its place in memory m1 to r, if any. */
  function Transplant(m1: Mem, x: int, r: int, atRoot: bool): (m': Mem)
    requires x in m1 && (atRoot || (m1[x].parent in m1 && m1[x].parent != x)) && (r == NULL || r in m1)
    requires m1[x].child0 == NULL || m1[x].child0 in m1
    requires m1[x].child1 == NULL || m1[x].child1 in m1
  {
    var m2 := if atRoot then m1 else SetHolder(m1, x, r);
    if r == NULL then m2 else Replace(m2, x, r)
  }

  /** The same, and then x is cleared. */
  function Uproot(m1: Mem, x: int, r: int, atRoot: bool): (m': Mem)
    requires x in m1 && (atRoot || (m1[x].parent in m1 && m1[x].parent != x)) && (r == NULL || r in m1)
    requires m1[x].child0 == NULL || m1[x].child0 in m1
    requires m1[x].child1 == NULL || m1[x].child1 in m1
  {
    Transplant(m1, x, r, atRoot) - {x}
  }

  lemma {:induction false} HolderFacts(m: Mem, p: int, i: nat, t: Tree, path: seq<bool>)
    requires Rep(m, p, ROOT_PARENT, i, t) && Separate(t) && path != [] && HasPath(t, path) && At(t, path).Node?
    ensures var x := Root(At(t, path)); var q := Holder(t, path); var d := path[|path| - 1];
            && x in m && m[x].parent == q && q in m && q in Addrs(t) && q !in Addrs(At(t, path)) && q != x
            && m[q].Child(d) == x && m[q].Child(!d) != x
            && q > ROOT_PARENT && x in Addrs(At(t, path))
    decreases path
  {
    var d := path[0];
    var c := t.Child(d);
    RepRoot(m, p, ROOT_PARENT, i, t);
    AtRep(m, p, ROOT_PARENT, i, t, path);
    HolderOutside(m, p, ROOT_PARENT, i, t, path);
    RepMember(m, p, ROOT_PARENT, i, t, Holder(t, path));
    SiblingApart(m, p, ROOT_PARENT, i, t, path);
    assert Root(At(t, path)) in Elems(At(t, path).ring);
  }

  lemma {:induction false} SiblingApart(m: Mem, p: int, up: int, i: nat, t: Tree, path: seq<bool>)
    requires Rep(m, p, up, i, t) && Separate(t) && path != [] && HasPath(t, path) && At(t, path).Node?
    requires Holder(t, path) in m
    ensures m[Holder(t, path)].Child(!path[|path| - 1]) != Root(At(t, path))
    decreases path
  {
    var d := path[0];
    RepRoot(m, p, up, i, t);
    if |path| == 1 {
      assert path[1..] == [] && At(t, path) == t.Child(d);
      RepRoot(m, m[p].Child(d), p, i, t.Child(d));
      RepRoot(m, m[p].Child(!d), p, i, t.Child(!d));
    } else {
      assert path[1..][|path[1..]| - 1] == path[|path| - 1];
      SiblingApart(m, m[p].Child(d), p, i, t.Child(d), path[1..]);
    }
  }

  /** What Uproot needs of the intermediate memory m1: it differs from m only inside the subtree of
      x, and there x can be replaced by the head of a ring. */
  ghost predicate Ready(m: Mem, m1: Mem, here: Tree, x: int, i: nat, ring: seq<int>, size: nat, left: Tree, right: Tree)
  {
    && x in m && SameFiling(m, m1) && SameOutside(m, m1, Addrs(here)) && m1[x].parent == m[x].parent
    && Replaceable(m1, x, i, ring, size, left, right)
    && Addrs(Node(ring, size, left, right)) == Addrs(here) - {x}
  }

  lemma {:induction false} ReplaceableFrame(m: Mem, m': Mem, x: int, ix: nat, ring: seq<int>, size: nat, left: Tree,
                                            right: Tree)
    requires Replaceable(m, x, ix, ring, size, left, right)
    requires forall a | a in m && (a == x || a in Addrs(Node(ring, size, left, right))) :: a in m' && m'[a] == m[a]
    ensures Replaceable(m', x, ix, ring, size, left, right)
  {
    forall a | a in ring && a in m ensures a in m' && m'[a] == m[a] { assert a in Elems(ring); }
    RingFrame2(m, m', ring, size, ix);
    assert ring[0] in Elems(ring);
    assert LinkOk(m', ring, size, ix, 0);
    RepMembers(m, m[x].child0, x, ix, left);
    RepMembers(m, m[x].child1, x, ix, right);
    RepFrame(m, m', m[x].child0, x, ix, left);
    RepFrame(m, m', m[x].child1, x, ix, right);
  }

  lemma {:induction false} ReplaceAway(m: Mem, x: int, i: nat, ring: seq<int>, size: nat, left: Tree, right: Tree)
    requires Replaceable(m, x, i, ring, size, left, right)
    ensures m[x].child0 == NULL || m[x].child0 in m
    ensures m[x].child1 == NULL || m[x].child1 in m
    ensures var m', sub := Replace(m, x, ring[0]) - {x}, Node(ring, size, left, right);
            && Rep(m', ring[0], m[x].parent, i, sub) && m'.Keys == m.Keys - {x}
            && forall a | a in m && a !in Addrs(sub) && a != x :: a in m' && m'[a] == m[a]
  {
    hide Rep, Replace, Ordered, Separate, Sizes;
    ReplaceRep(m, x, i, ring, size, left, right);
    var r, m', sub := ring[0], Replace(m, x, ring[0]), Node(ring, size, left, right);
    RepMembers(m', r, m[x].parent, i, sub);
    assert x !in Elems(ring);
    RepFrame(m', m' - {x}, r, m[x].parent, i, sub);
  }

  /** Where x stood, the subtree of r now stands. */
  lemma {:induction false} UprootHere(m: Mem, m1: Mem, here: Tree, x: int, i: nat, ring: seq<int>, size: nat,
                                      left: Tree, right: Tree, atRoot: bool)
    requires Ready(m, m1, here, x, i, ring, size, left, right)
    requires atRoot || (m[x].parent in m && m[x].parent !in Addrs(here) && m[x].parent != x)
    ensures m1[x].child0 == NULL || m1[x].child0 in m1
    ensures m1[x].child1 == NULL || m1[x].child1 in m1
    ensures ring[0] in m1 && ring[0] != NULL
    ensures var m' := Uproot(m1, x, ring[0], atRoot); var m2 := if atRoot then m1 else SetHolder(m1, x, ring[0]);
            && Rep(m', ring[0], m[x].parent, i, Node(ring, size, left, right))
            && m'.Keys == m.Keys - {x}
            && forall a | a in m && a !in Addrs(here) && a != x :: a in m' && m'[a] == m2[a]
  {
    hide Rep, Replace, Ordered, Separate, Sizes;
    var r := ring[0];
    var m2 := if atRoot then m1 else SetHolder(m1, x, r);
    ReplaceableFrame(m1, m2, x, i, ring, size, left, right);
    ReplaceAway(m2, x, i, ring, size, left, right);
    RepRoot(m1, m1[x].child0, x, i, left);
    RepRoot(m1, m1[x].child1, x, i, right);
  }

  /** The whole tree after x is uprooted in favour of r. */
  lemma {:induction false} UprootRep(m: Mem, m1: Mem, p: int, i: nat, t: Tree, path: seq<bool>, x: int,
                                     ring: seq<int>, size: nat, left: Tree, right: Tree)
    requires Rep(m, p, ROOT_PARENT, i, t) && Separate(t) && HasPath(t, path) && At(t, path).Node?
    requires x == Root(At(t, path))
    requires Ready(m, m1, At(t, path), x, i, ring, size, left, right)
    ensures m1[x].child0 == NULL || m1[x].child0 in m1
    ensures m1[x].child1 == NULL || m1[x].child1 in m1
    ensures ring[0] in m1 && ring[0] != NULL && (path == [] || (m1[x].parent in m1 && m1[x].parent != x))
    ensures Rep(Uproot(m1, x, ring[0], path == []), if path == [] then ring[0] else p, ROOT_PARENT, i,
                Put(t, path, Node(ring, size, left, right)))
  {
    var here := At(t, path);
    var sub := Node(ring, size, left, right);
    if path == [] {
      UprootHere(m, m1, here, x, i, ring, size, left, right, true);
    } else {
      HolderFacts(m, p, i, t, path);
      UprootHere(m, m1, here, x, i, ring, size, left, right, false);
      RepMembers(m, p, ROOT_PARENT, i, t);
      UprootGrafted(m, m1, t, path, x, ring[0], sub, Uproot(m1, x, ring[0], false));
      PutRep(m, Uproot(m1, x, ring[0], false), p, ROOT_PARENT, i, t, path, sub);
    }
  }

  lemma {:induction false} UprootGrafted(m: Mem, m1: Mem, t: Tree, path: seq<bool>, x: int, r: int, sub: Tree, m': Mem)
    requires HasPath(t, path) && path != [] && x in Addrs(At(t, path)) && Addrs(t) <= m.Keys
    requires SameOutside(m, m1, Addrs(At(t, path)))
    requires Addrs(sub) == Addrs(At(t, path)) - {x} && Root(sub) == r
    requires var q := Holder(t, path); var d := path[|path| - 1];
             && x in m1 && m1[x].parent == q && q in m && q in m1 && q !in Addrs(At(t, path))
             && m[q].Child(d) == x && m[q].Child(!d) != x
    requires m'.Keys == m.Keys - {x} && m1.Keys == m.Keys
    requires forall a | a in m && a !in Addrs(At(t, path)) && a != x :: a in m' && m'[a] == SetHolder(m1, x, r)[a]
    ensures Grafted(m, m', t, path, sub)
  {
    var q := Holder(t, path);
    assert m1[q] == m[q];
  }

  /** The whole tree after leaf x, the only chunk of its size, is gone. */
  lemma {:induction false} UprootLeafRep(m: Mem, p: int, i: nat, t: Tree, path: seq<bool>, x: int)
    requires Rep(m, p, ROOT_PARENT, i, t) && Separate(t) && HasPath(t, path) && At(t, path).Node?
    requires x == Root(At(t, path)) && At(t, path).ring == [x]
    requires At(t, path).left.Empty? && At(t, path).right.Empty?
    ensures x in m && m[x].child0 == m[x].child1 == NULL
    ensures path == [] || (m[x].parent in m && m[x].parent != x)
    ensures Rep(Uproot(m, x, NULL, path == []), if path == [] then NULL else p, ROOT_PARENT, i, Put(t, path, Empty))
  {
    AtRep(m, p, ROOT_PARENT, i, t, path);
    if path != [] {
      HolderFacts(m, p, i, t, path);
      var q := Holder(t, path);
      var m' := Uproot(m, x, NULL, false);
      RepMembers(m, p, ROOT_PARENT, i, t);
      assert Addrs(At(t, path)) == Elems([x]) && x in Elems([x]);
      assert m'[q] == m[q].WithChild(path[|path| - 1], NULL);
      PutRep(m, m', p, ROOT_PARENT, i, t, path, Empty);
    }
  }

  /** unlink_large_chunk's search for the leaf that takes the place of x: right where possible, else
      left, to the bottom.  It yields the leaf and the pointer to it. */
  method FindLeaf(m: Mem, x: int, ghost up: int, ghost i: nat, ghost here: Tree)
    returns (r: int, h: int, d: bool)
    requires Rep(m, x, up, i, here) && here.Node?
    ensures here.left.Empty? && here.right.Empty? ==> r == NULL
    ensures !(here.left.Empty? && here.right.Empty?) ==>
              var path := LeafPath(here);
              && path != [] && r == Root(At(here, path)) && r != NULL
              && h == Holder(here, path) && d == path[|path| - 1]
  {
    RepRoot(m, x, up, i, here);
    LeafStep(m, x, up, i, here, []);
    r, h, d := x, x, false;
    ghost var path := [];
    while m[r].child1 != NULL || m[r].child0 != NULL
      invariant HasPath(here, path) && At(here, path).Node? && r == Root(At(here, path)) && r in m && r != NULL
      invariant path != [] ==> h == Holder(here, path) && d == path[|path| - 1]
      invariant path == [] ==> r == x
      invariant LeafPath(here) == path + LeafPath(At(here, path))
      decreases At(here, path)
    {
      LeafStep(m, x, up, i, here, path);
      h := r;
      d := m[r].child1 != NULL;
      r := m[r].Child(d);
      path := path + [d];
    }
    LeafStep(m, x, up, i, here, path);
    if r == x {
      r := NULL;
    }
  }

  /** One step of that search: the pointers read are those of the tree. */
  lemma {:induction false} LeafStep(m: Mem, x: int, up: int, i: nat, here: Tree, path: seq<bool>)
    requires Rep(m, x, up, i, here) && HasPath(here, path) && At(here, path).Node?
    requires LeafPath(here) == path + LeafPath(At(here, path))
    ensures var r := Root(At(here, path)); r in m && r != NULL
    ensures var r := Root(At(here, path)); var d := m[r].child1 != NULL;
            if d || m[r].child0 != NULL then
              && HasPath(here, path + [d]) && At(here, path + [d]) == At(here, path).Child(d)
              && At(here, path + [d]).Node? && m[r].Child(d) == Root(At(here, path + [d])) && m[r].Child(d) in m
              && m[r].Child(d) != NULL && Holder(here, path + [d]) == r
              && LeafPath(here) == path + [d] + LeafPath(At(here, path + [d]))
            else
              LeafPath(here) == path && At(here, path).left.Empty? && At(here, path).right.Empty?
  {
    hide Rep, LeafPath, At, HasPath, Holder;
    var sub := At(here, path);
    ChildPointer(m, x, up, i, here, path, true);
    ChildPointer(m, x, up, i, here, path, false);
    var d := m[Root(sub)].child1 != NULL;
    AtRep(m, x, up, i, here, path);
    RepRoot(m, Root(sub), if path == [] then up else Holder(here, path), i, sub);
    HolderAt(here, path, d);
    LeafPathStep(sub, path, d);
  }

  lemma {:induction false} LeafPathStep(t: Tree, path: seq<bool>, d: bool)
    requires t.Node? && (d <==> t.right.Node?)
    ensures t.Child(d).Node? ==> path + LeafPath(t) == path + [d] + LeafPath(t.Child(d))
    ensures t.Child(d).Empty? ==> path + LeafPath(t) == path
  {
    if t.Child(d).Node? {
      assert LeafPath(t) == [d] + LeafPath(t.Child(d));
      assert path + ([d] + LeafPath(t.Child(d))) == path + [d] + LeafPath(t.Child(d));
    }
  }

  // ---------- The bins after a removal ----------

  predicate Removed(m: Mem, m': Mem, x: int)
  {
    && x in m && m'.Keys == m.Keys - {x}
    && forall a | a in m && a != x :: m'[a].index == m[a].index && m'[a].size == m[a].size
  }

  lemma {:induction false} InBinRemove(m: Mem, m': Mem, x: int)
    requires Removed(m, m', x)
    ensures InBin(m', m[x].index) == InBin(m, m[x].index) - {x}
    ensures Contents(m') == Contents(m) - {x}
  {
    var i := m[x].index;
    forall a | a in InBin(m, i) - {x} ensures a in InBin(m', i) { assert a in m' && m'[a].index == m[a].index; }
    forall a | a in InBin(m', i) ensures a in InBin(m, i) - {x} { assert a in m && m'[a].index == m[a].index; }
    forall a | a in m' ensures Contents(m')[a] == (Contents(m) - {x})[a] { assert m'[a].size == m[a].size; }
  }

  /** All bins after x is removed, given the tree of its own bin. */
  lemma {:induction false} UnlinkedOk(roots: seq<int>, marks: Word, m: Mem, trees: seq<Tree>, x: int, path: seq<bool>,
                                      m': Mem, root: int)
    requires AllOk(roots, marks, m, trees) && Removed(m, m', x) && m[x].index < N_TREE_BINS
    requires OnlyBin(m, m', m[x].index)
    requires var t := trees[m[x].index]; HasPath(t, path) && At(t, path).Node? && x in At(t, path).ring
    requires var i := m[x].index; var t := trees[i];
             Rep(m', root, ROOT_PARENT, i, Put(t, path, UnlinkHere(At(t, path), x)))
    ensures var i := m[x].index; var t := trees[i];
            AllOk(roots[i := root], if root == NULL then And(marks, Not(Idx2Bit(i))) else marks, m',
                  trees[i := Put(t, path, UnlinkHere(At(t, path), x))])
    ensures Contents(m') == Contents(m) - {x}
  {
    hide Rep, Ordered, Put, UnlinkHere;
    var i := m[x].index;
    var t := trees[i];
    var t' := Put(t, path, UnlinkHere(At(t, path), x));
    var marks' := if root == NULL then And(marks, Not(Idx2Bit(i))) else marks;
    assert TreeOk(m, roots[i], marks[i], i, t);
    AtRep(m, roots[i], ROOT_PARENT, i, t, path);
    NodeRing(m, Root(At(t, path)), if path == [] then ROOT_PARENT else Holder(t, path), i, At(t, path));
    UnlinkOrdered(t, BinBits(i), BinPrefix(i), path, x);
    UnlinkAddrs(t, path, x);
    InBinRemove(m, m', x);
    RepRoot(m, roots[i], ROOT_PARENT, i, t);
    RepRoot(m', root, ROOT_PARENT, i, t');
    HasNodeMarked(t, path);
    assert TreeOk(m', root, marks'[i], i, t');
    assert NodesOk(m') by {
      forall a | a in m' ensures NodeOk(a, m'[a]) {
        assert NodeOk(a, m[a]);
        assert m'[a].index == m[a].index && m'[a].size == m[a].size;
      }
    }
    OneBin(roots, marks, m, trees, roots[i := root], marks', m', trees[i := t'], i);
  }

  lemma {:induction false} NodeRing(m: Mem, p: int, up: int, i: nat, t: Tree)
    requires Rep(m, p, up, i, t) && t.Node?
    ensures Distinct(t.ring)
  {
  }

  lemma {:induction false} HasNodeMarked(t: Tree, path: seq<bool>)
    requires HasPath(t, path) && At(t, path).Node?
    ensures t.Node?
  {
  }

  // ---------- The four cases of the removal ----------

  lemma {:induction false} UnhookFiling(m: Mem, x: int)
    requires x in m && m[x].next in m && m[x].prev in m
    ensures SameFiling(m, Unhook(m, x))
    ensures forall a | a in m && a != m[x].next && a != m[x].prev :: Unhook(m, x)[a] == m[a]
  {
  }

  lemma {:induction false} UnhookChanges(m: Mem, p: int, i: nat, t: Tree, path: seq<bool>, x: int)
    requires Rep(m, p, ROOT_PARENT, i, t) && HasPath(t, path)
    requires At(t, path).Node? && x in At(t, path).ring && |At(t, path).ring| > 1
    ensures x in m && m[x].next in m && m[x].prev in m && m[x].index == i && m[x].prev != x
    ensures m[x].next in At(t, path).ring && m[x].prev in At(t, path).ring
    ensures SameFiling(m, Unhook(m, x)) && OnlyBin(m, Unhook(m, x), i)
    ensures Removed(m, Unhook(m, x) - {x}, x) && OnlyBin(m, Unhook(m, x) - {x}, i)
  {
    var here := At(t, path);
    AtRep(m, p, ROOT_PARENT, i, t, path);
    UnhookRing(m, here.ring, here.size, i, x);
    UnhookFiling(m, x);
    RingMember(m, here.ring, here.size, i, x);
    RingMember(m, here.ring, here.size, i, m[x].next);
    RingMember(m, here.ring, here.size, i, m[x].prev);
  }

  lemma {:induction false} UnhookPut(m: Mem, p: int, i: nat, t: Tree, path: seq<bool>, x: int)
    requires Rep(m, p, ROOT_PARENT, i, t) && Separate(t) && HasPath(t, path)
    requires At(t, path).Node? && x in At(t, path).ring && x != Root(At(t, path))
    requires x in m && m[x].next in m && m[x].prev in m && m[x].next in At(t, path).ring
    requires m[x].prev in At(t, path).ring
    ensures Rep(Unhook(m, x) - {x}, p, ROOT_PARENT, i, Put(t, path, UnlinkHere(At(t, path), x)))
  {
    var here := At(t, path);
    var sub := UnlinkHere(here, x);
    var m' := Unhook(m, x) - {x};
    var up := if path == [] then ROOT_PARENT else Holder(t, path);
    RepRoot(m, p, ROOT_PARENT, i, t);
    AtRep(m, p, ROOT_PARENT, i, t, path);
    AtPart(t, path);
    UnhookRep(m, Root(here), up, i, here, x);
    if path != [] {
      UnhookGrafted(m, p, i, t, path, x, m', sub);
      PutRep(m, m', p, ROOT_PARENT, i, t, path, sub);
    }
  }

  lemma {:induction false} UnhookGrafted(m: Mem, p: int, i: nat, t: Tree, path: seq<bool>, x: int, m': Mem, sub: Tree)
    requires Rep(m, p, ROOT_PARENT, i, t) && Separate(t) && HasPath(t, path) && path != []
    requires At(t, path).Node? && x in At(t, path).ring && Separate(At(t, path)) && Distinct(At(t, path).ring)
    requires x in m && m[x].next in m && m[x].prev in m && m[x].next in At(t, path).ring
    requires m[x].prev in At(t, path).ring
    requires m' == Unhook(m, x) - {x} && sub == UnlinkHere(At(t, path), x)
    requires Rep(m', Root(At(t, path)), Holder(t, path), i, sub)
    ensures Grafted(m, m', t, path, sub) && Root(sub) == Root(At(t, path))
  {
    var here := At(t, path);
    HolderOutside(m, p, ROOT_PARENT, i, t, path);
    RepMembers(m, p, ROOT_PARENT, i, t);
    UnlinkHereAddrs(here, x);
    RepRoot(m', Root(here), Holder(t, path), i, sub);
    assert x in Elems(here.ring) && m[x].next in Elems(here.ring) && m[x].prev in Elems(here.ring);
    assert m[Holder(t, path)].WithChild(path[|path| - 1], Root(here)) == m[Holder(t, path)];
  }

  /** x is on a ring but not the tree node of its size. */
  lemma {:induction false} UnlinkRingMember(roots: seq<int>, marks: Word, m: Mem, trees: seq<Tree>, x: int,
                                            path: seq<bool>)
    requires AllOk(roots, marks, m, trees) && x in m && m[x].index < N_TREE_BINS
    requires var t := trees[m[x].index];
             HasPath(t, path) && At(t, path).Node? && x in At(t, path).ring && x != Root(At(t, path))
    ensures m[x].next in m && m[x].prev in m
    ensures var i := m[x].index; var t := trees[i]; var m' := Unhook(m, x) - {x};
            && AllOk(roots, marks, m', trees[i := Put(t, path, UnlinkHere(At(t, path), x))])
            && Contents(m') == Contents(m) - {x}
  {
    var i := m[x].index;
    var t := trees[i];
    assert TreeOk(m, roots[i], marks[i], i, t);
    UnhookChanges(m, roots[i], i, t, path, x);
    UnhookPut(m, roots[i], i, t, path, x);
    RepRoot(m, roots[i], ROOT_PARENT, i, t);
    HasNodeMarked(t, path);
    UnlinkedOk(roots, marks, m, trees, x, path, Unhook(m, x) - {x}, roots[i]);
    assert roots[i := roots[i]] == roots;
  }

  /** x is the tree node of its size and others share its ring: the last of them takes its place. */
  lemma {:induction false} HeadReady(m: Mem, x: int, up: int, i: nat, here: Tree)
    requires Rep(m, x, up, i, here) && here.Node? && Separate(here) && |here.ring| > 1
    ensures x in m && m[x].next in m && m[x].prev in m && m[x].prev == RingWithout(here.ring, x)[0]
    ensures Ready(m, Unhook(m, x), here, x, i, RingWithout(here.ring, x), here.size, here.left, here.right)
  {
    var ring := RingWithout(here.ring, x);
    UnhookRing(m, here.ring, here.size, i, x);
    RingWithoutElems(here.ring, x);
    UnhookFiling(m, x);
    var m1 := Unhook(m, x);
    var last := |here.ring| - 1;
    assert LinkOk(m, here.ring, here.size, i, last);
    assert ring[0] == here.ring[last];
    assert m[x].next in Elems(here.ring) && m[x].prev in Elems(here.ring) && x in Elems(here.ring);
    RepMembers(m, x, up, i, here);
    RepFrame(m, m1, m[x].child0, x, i, here.left);
    RepFrame(m, m1, m[x].child1, x, i, here.right);
    assert LinkOk(m1, ring, here.size, i, 0);
    assert x !in Elems(ring);
  }

  /** x is the only chunk of its size but not a leaf: a leaf from below takes its place. */
  lemma {:induction false} LeafReady(m: Mem, x: int, up: int, i: nat, here: Tree)
    requires Rep(m, x, up, i, here) && here.Node? && Separate(here) && |here.ring| == 1
    requires !(here.left.Empty? && here.right.Empty?)
    ensures LeafPath(here) != [] && Holder(here, LeafPath(here)) in m
    ensures var leaf := At(here, LeafPath(here)); var rest := Put(here, LeafPath(here), Empty);
            && rest.Node?
            && Ready(m, CutLeaf(m, here), here, x, i, leaf.ring, leaf.size, rest.left, rest.right)
            && UnlinkHere(here, x) == Node(leaf.ring, leaf.size, rest.left, rest.right)
  {
    CutLeafReplaceable(m, x, up, i, here);
    UnlinkHereAddrs(here, x);
  }

  /** Uprooting changes pointers of the bin of x only. */
  lemma {:induction false} UprootChanges(m: Mem, m1: Mem, p: int, i: nat, t: Tree, path: seq<bool>, x: int,
                                         ring: seq<int>, size: nat, left: Tree, right: Tree)
    requires Rep(m, p, ROOT_PARENT, i, t) && Separate(t) && HasPath(t, path) && At(t, path).Node?
    requires x == Root(At(t, path))
    requires Ready(m, m1, At(t, path), x, i, ring, size, left, right)
    ensures m1[x].child0 == NULL || m1[x].child0 in m1
    ensures m1[x].child1 == NULL || m1[x].child1 in m1
    ensures ring[0] in m1 && (path == [] || (m1[x].parent in m1 && m1[x].parent != x))
    ensures var m' := Uproot(m1, x, ring[0], path == []); Removed(m, m', x) && OnlyBin(m, m', i)
  {
    var here := At(t, path);
    RepMembers(m, p, ROOT_PARENT, i, t);
    AtPart(t, path);
    AtRep(m, p, ROOT_PARENT, i, t, path);
    assert x in Elems(here.ring);
    if path != [] { HolderFacts(m, p, i, t, path); }
    UprootHere(m, m1, here, x, i, ring, size, left, right, path == []);
    UprootFiling(m1, x, ring[0], path == []);
  }

  lemma {:induction false} UprootFiling(m1: Mem, x: int, r: int, atRoot: bool)
    requires x in m1 && (atRoot || (m1[x].parent in m1 && m1[x].parent != x)) && (r == NULL || r in m1)
    requires m1[x].child0 == NULL || m1[x].child0 in m1
    requires m1[x].child1 == NULL || m1[x].child1 in m1
    ensures Removed(m1, Uproot(m1, x, r, atRoot), x)
  {
    hide Replace, SetHolder;
    var m2 := if atRoot then m1 else SetHolder(m1, x, r);
    if !atRoot { SetHolderFiling(m1, x, r); }
    if r != NULL { ReplaceFiling(m2, x, r); }
    assert SameFiling(m1, Transplant(m1, x, r, atRoot));
  }

  lemma {:induction false} SetHolderFiling(m: Mem, x: int, r: int)
    requires x in m && m[x].parent in m && m[x].parent != x
    ensures SameFiling(m, SetHolder(m, x, r)) && SetHolder(m, x, r)[x] == m[x]
  {
  }

  lemma {:induction false} ReplaceFiling(m: Mem, x: int, r: int)
    requires x in m && r in m && (m[x].child0 == NULL || m[x].child0 in m) && (m[x].child1 == NULL || m[x].child1 in m)
    ensures SameFiling(m, Replace(m, x, r))
  {
  }

  /** x is a tree node that another chunk replaces. */
  lemma {:induction false} UnlinkReplaced(roots: seq<int>, marks: Word, m: Mem, trees: seq<Tree>, x: int,
                                          path: seq<bool>,
                                          m1: Mem, ring: seq<int>, size: nat, left: Tree, right: Tree)
    requires AllOk(roots, marks, m, trees) && x in m && m[x].index < N_TREE_BINS
    requires var t := trees[m[x].index];
             && HasPath(t, path) && At(t, path).Node? && x in At(t, path).ring && x == Root(At(t, path))
             && Ready(m, m1, At(t, path), x, m[x].index, ring, size, left, right)
             && UnlinkHere(At(t, path), x) == Node(ring, size, left, right)
    ensures m1[x].child0 == NULL || m1[x].child0 in m1
    ensures m1[x].child1 == NULL || m1[x].child1 in m1
    ensures ring[0] in m1 && ring[0] != NULL && (path == [] || (m1[x].parent in m1 && m1[x].parent != x))
    ensures var i := m[x].index; var t := trees[i]; var m' := Uproot(m1, x, ring[0], path == []);
            && AllOk(if path == [] then roots[i := ring[0]] else roots, marks, m',
                     trees[i := Put(t, path, UnlinkHere(At(t, path), x))])
            && Contents(m') == Contents(m) - {x}
  {
    var i := m[x].index;
    var t := trees[i];
    assert TreeOk(m, roots[i], marks[i], i, t);
    UprootChanges(m, m1, roots[i], i, t, path, x, ring, size, left, right);
    UprootRep(m, m1, roots[i], i, t, path, x, ring, size, left, right);
    RepRoot(m, roots[i], ROOT_PARENT, i, t);
    HasNodeMarked(t, path);
    var root := if path == [] then ring[0] else roots[i];
    UnlinkedOk(roots, marks, m, trees, x, path, Uproot(m1, x, ring[0], path == []), root);
    assert path != [] ==> roots[i := root] == roots;
  }

  /** x is a leaf and the only chunk of its size. */
  lemma {:induction false} UnlinkLeaf(roots: seq<int>, marks: Word, m: Mem, trees: seq<Tree>, x: int, path: seq<bool>)
    requires AllOk(roots, marks, m, trees) && x in m && m[x].index < N_TREE_BINS
    requires var t := trees[m[x].index];
             && HasPath(t, path) && At(t, path).Node? && At(t, path).ring == [x]
             && At(t, path).left.Empty? && At(t, path).right.Empty?
    ensures m[x].child0 == m[x].child1 == NULL
    ensures path == [] || (m[x].parent in m && m[x].parent != x)
    ensures var i := m[x].index; var t := trees[i]; var m' := Uproot(m, x, NULL, path == []);
            && AllOk(if path == [] then roots[i := NULL] else roots,
                     if path == [] then And(marks, Not(Idx2Bit(i))) else marks, m',
                     trees[i := Put(t, path, UnlinkHere(At(t, path), x))])
            && Contents(m') == Contents(m) - {x}
  {
    var i := m[x].index;
    var t := trees[i];
    assert TreeOk(m, roots[i], marks[i], i, t);
    UprootLeafRep(m, roots[i], i, t, path, x);
    UprootFiling(m, x, NULL, path == []);
    if path != [] {
      HolderFacts(m, roots[i], i, t, path);
      RepMember(m, roots[i], ROOT_PARENT, i, t, Holder(t, path));
    }
    RepRoot(m, roots[i], ROOT_PARENT, i, t);
    HasNodeMarked(t, path);
    var m' := Uproot(m, x, NULL, path == []);
    assert OnlyBin(m, m', i);
    var root := if path == [] then NULL else roots[i];
    UnlinkedOk(roots, marks, m, trees, x, path, m', root);
    assert path != [] ==> roots[i := root] == roots;
  }

  /** What unlink_large_chunk can tell from the record of x and the root of its bin. */
  lemma {:induction false} Classify(roots: seq<int>, marks: Word, m: Mem, trees: seq<Tree>, x: int)
    requires AllOk(roots, marks, m, trees) && x in m
    ensures m[x].index < N_TREE_BINS && x in Addrs(trees[m[x].index])
    ensures var i := m[x].index; var t := trees[i]; var path := PathTo(t, x); var here := At(t, path);
            && TreeOk(m, roots[i], marks[i], i, t)
            && |here.ring| > 0
            && (m[x].prev != x <==> |here.ring| > 1)
            && (m[x].parent != RING_PARENT <==> x == Root(here))
            && (roots[i] == x <==> path == [] && x == Root(here))
            && (path != [] ==> Root(here) != roots[i])
            && (x == Root(here) ==> Rep(m, x, if path == [] then ROOT_PARENT else Holder(t, path), i, here))
            && Separate(here)
  {
    var i := m[x].index;
    var t := trees[i];
    assert NodeOk(x, m[x]);
    assert TreeOk(m, roots[i], marks[i], i, t);
    assert x in InBin(m, i);
    ClassifyTree(m, roots[i], i, t, x, PathTo(t, x));
  }

  lemma {:induction false} ClassifyTree(m: Mem, p: int, i: nat, t: Tree, x: int, path: seq<bool>)
    requires Rep(m, p, ROOT_PARENT, i, t) && Separate(t) && HasPath(t, path)
    requires At(t, path).Node? && x in At(t, path).ring
    ensures var here := At(t, path);
            && |here.ring| > 0
            && x in m
            && (m[x].prev != x <==> |here.ring| > 1)
            && (m[x].parent != RING_PARENT <==> x == Root(here))
            && (p == x <==> path == [] && x == Root(here))
            && (path != [] ==> Root(here) != p)
            && (x == Root(here) ==> Rep(m, x, if path == [] then ROOT_PARENT else Holder(t, path), i, here))
            && Separate(here)
  {
    var here := At(t, path);
    AtRep(m, p, ROOT_PARENT, i, t, path);
    AtPart(t, path);
    var j := IndexOf(here.ring, x);
    assert LinkOk(m, here.ring, here.size, i, j);
    RepRoot(m, p, ROOT_PARENT, i, t);
    if path != [] {
      HolderFacts(m, p, i, t, path);
      AtPart(t.Child(path[0]), path[1..]);
      assert p in Elems(t.ring);
      assert x in Elems(here.ring) && Root(here) in Elems(here.ring);
    }
  }

  /** The last of several chunks of a size leaves its ring, and its place in the tree if it has one. */
  lemma {:induction false} UnlinkSharedOk(roots: seq<int>, marks: Word, m: Mem, trees: seq<Tree>, x: int)
    requires AllOk(roots, marks, m, trees) && x in m && m[x].prev != x
    ensures var i := m[x].index; i < N_TREE_BINS && x in Addrs(trees[i])
    ensures m[x].next in m && m[x].prev in m && m[x].prev != NULL && Unhook(m, x)[x].parent == m[x].parent
    ensures var i := m[x].index; var t := trees[i]; var path := PathTo(t, x); var r := m[x].prev;
            var trees' := trees[i := Put(t, path, UnlinkHere(At(t, path), x))]; var m1 := Unhook(m, x);
            if m[x].parent == RING_PARENT then
              AllOk(roots, marks, m1 - {x}, trees') && Contents(m1 - {x}) == Contents(m) - {x}
            else
              && (m1[x].child0 == NULL || m1[x].child0 in m1) && (m1[x].child1 == NULL || m1[x].child1 in m1)
              && (roots[i] == x || (m1[x].parent in m1 && m1[x].parent != x))
              && AllOk(if roots[i] == x then roots[i := r] else roots, marks, Uproot(m1, x, r, roots[i] == x), trees')
              && Contents(Uproot(m1, x, r, roots[i] == x)) == Contents(m) - {x}
  {
    Classify(roots, marks, m, trees, x);
    var i := m[x].index;
    var t := trees[i];
    var path := PathTo(t, x);
    var here := At(t, path);
    UnhookChanges(m, roots[i], i, t, path, x);
    if m[x].parent == RING_PARENT {
      UnlinkRingMember(roots, marks, m, trees, x, path);
      UnhookParent(m, x);
    } else {
      HeadReady(m, x, if path == [] then ROOT_PARENT else Holder(t, path), i, here);
      UnlinkReplaced(roots, marks, m, trees, x, path, Unhook(m, x), RingWithout(here.ring, x), here.size, here.left,
                     here.right);
    }
    RingMember(m, here.ring, here.size, i, m[x].prev) by { AtRep(m, roots[i], ROOT_PARENT, i, t, path); }
  }

  lemma {:induction false} UnhookParent(m: Mem, x: int)
    requires x in m && m[x].next in m && m[x].prev in m
    ensures Unhook(m, x)[x].parent == m[x].parent
  {
  }

  /** The leaf that takes the place of x, when x is the only chunk of its size; null if x is a leaf. */
  function Successor(here: Tree): (r: int)
    requires here.Node?
  {
    if here.left.Empty? && here.right.Empty? then NULL else Root(At(here, LeafPath(here)))
  }

  /** Memory after that leaf is cut off. */
  function CutSuccessor(m: Mem, here: Tree): (r: Mem)
    requires here.Node? && (LeafPath(here) != [] ==> Holder(here, LeafPath(here)) in m)
  {
    if LeafPath(here) == [] then m else CutLeaf(m, here)
  }

  /** The only chunk of its size leaves the tree. */
  lemma {:induction false} UnlinkLastOk(roots: seq<int>, marks: Word, m: Mem, trees: seq<Tree>, x: int)
    requires AllOk(roots, marks, m, trees) && x in m && m[x].prev == x
    ensures var i := m[x].index; i < N_TREE_BINS && x in Addrs(trees[i])
    ensures var i := m[x].index; var t := trees[i]; var path := PathTo(t, x); var here := At(t, path);
            && Rep(m, x, if path == [] then ROOT_PARENT else Holder(t, path), i, here) && here.Node?
            && (LeafPath(here) != [] ==> Holder(here, LeafPath(here)) in m)
    ensures var i := m[x].index; var t := trees[i]; var path := PathTo(t, x); var here := At(t, path);
            var r := Successor(here); var m1 := CutSuccessor(m, here);
            && x in m1 && m1[x].parent != RING_PARENT && (r == NULL || r in m1)
            && (m1[x].child0 == NULL || m1[x].child0 in m1) && (m1[x].child1 == NULL || m1[x].child1 in m1)
            && (roots[i] == x || (m1[x].parent in m1 && m1[x].parent != x))
            && var m' := Uproot(m1, x, r, roots[i] == x);
               && AllOk(if roots[i] == x then roots[i := r] else roots,
                        if roots[i] == x && r == NULL then And(marks, Not(Idx2Bit(i))) else marks, m',
                        trees[i := Put(t, path, UnlinkHere(here, x))])
               && Contents(m') == Contents(m) - {x}
  {
    Classify(roots, marks, m, trees, x);
    var i := m[x].index;
    var t := trees[i];
    var path := PathTo(t, x);
    var here := At(t, path);
    assert here.ring == [x];
    if here.left.Empty? && here.right.Empty? {
      UnlinkLeaf(roots, marks, m, trees, x, path);
    } else {
      LeafReady(m, x, if path == [] then ROOT_PARENT else Holder(t, path), i, here);
      var leaf, rest := At(here, LeafPath(here)), Put(here, LeafPath(here), Empty);
      UnlinkReplaced(roots, marks, m, trees, x, path, CutLeaf(m, here), leaf.ring, leaf.size, rest.left, rest.right);
    }
  }
}
