/** The pointer updates of the large bins and the trees they yield: linking a chunk into a ring,
    unhooking one, and putting a chunk in the place of a removed tree node. */
module TrieMemory {
  import opened Trie
  import opened TrieOps

  // ---------- Rings ----------

  /** emplace_before on the ring of tree node t: x becomes its last element. */
  function LinkBefore(m: Mem, t: int, x: int, rec: TChunk): (r: Mem)
    requires t in m && m[t].prev in m
  {
    var last := m[t].prev;
    var m1 := m[x := rec.(next := t, prev := last)];
    var m2 := m1[last := m1[last].(next := x)];
    m2[t := m2[t].(prev := x)]
  }

  lemma {:induction false} LinkBeforeRing(m: Mem, ring: seq<int>, size: nat, ix: nat, x: int, rec: TChunk)
    requires RingRep(m, ring, size, ix) && x !in m && x > ROOT_PARENT
    requires rec.size == size && rec.index == ix && rec.parent == RING_PARENT && rec.child0 == rec.child1 == NULL
    ensures LinkOk(m, ring, size, ix, 0) && m[ring[0]].prev == ring[|ring| - 1] && m[ring[0]].prev in m
    ensures RingRep(LinkBefore(m, ring[0], x, rec), ring + [x], size, ix)
  {
    assert LinkOk(m, ring, size, ix, 0);
    assert LinkOk(m, ring, size, ix, |ring| - 1);
    var m' := LinkBefore(m, ring[0], x, rec);
    var ring' := ring + [x];
    forall i: nat | i < |ring| ensures ring[i] != x { assert LinkOk(m, ring, size, ix, i); }
    forall i: nat | i < |ring'| ensures LinkOk(m', ring', size, ix, i) {
      if i < |ring| { assert LinkOk(m, ring, size, ix, i); }
    }
  }

  /** A chunk joins the ring of a node: the node's subtree gains exactly that chunk. */
  lemma {:induction false} LinkBeforeRep(m: Mem, p: int, parent: int, ix: nat, t: Tree, x: int, rec: TChunk)
    requires Rep(m, p, parent, ix, t) && t.Node? && Separate(t) && x !in m && x > ROOT_PARENT
    requires rec.size == t.size && rec.index == ix && rec.parent == RING_PARENT && rec.child0 == rec.child1 == NULL
    ensures p in m && m[p].prev in m && m[p].prev in t.ring
    ensures Rep(LinkBefore(m, p, x, rec), p, parent, ix, t.(ring := t.ring + [x]))
  {
    LinkBeforeRing(m, t.ring, t.size, ix, x, rec);
    var m' := LinkBefore(m, p, x, rec);
    RepMembers(m, p, parent, ix, t);
    RepFrame(m, m', m[p].child0, p, ix, t.left);
    RepFrame(m, m', m[p].child1, p, ix, t.right);
    assert LinkOk(m', t.ring + [x], t.size, ix, 0);
  }

  /** unsafe_remove on the ring of x. */
  function Unhook(m: Mem, x: int): (r: Mem)
    requires x in m && m[x].next in m && m[x].prev in m
  {
    var f := m[x].next;
    var b := m[x].prev;
    var m1 := m[f := m[f].(prev := b)];
    m1[b := m1[b].(next := f)]
  }

  lemma {:induction false} UnhookRing(m: Mem, ring: seq<int>, size: nat, ix: nat, x: int)
    requires RingRep(m, ring, size, ix) && x in ring && |ring| > 1
    ensures x in m && m[x].next in ring && m[x].prev in ring && m[x].next in m && m[x].prev in m && m[x].prev != x
    ensures x == ring[0] ==> m[x].prev == RingWithout(ring, x)[0]
    ensures RingRep(Unhook(m, x), RingWithout(ring, x), size, ix)
  {
    var j := IndexOf(ring, x);
    var n := |ring|;
    var ring' := RingWithout(ring, x);
    assert LinkOk(m, ring, size, ix, j);
    assert LinkOk(m, ring, size, ix, if j + 1 < n then j + 1 else 0);
    assert LinkOk(m, ring, size, ix, if j > 0 then j - 1 else n - 1);
    var m' := Unhook(m, x);
    forall i: nat | i < |ring'| ensures LinkOk(m', ring', size, ix, i) {
      if j == 0 { UnhookFirst(m, ring, size, ix, i); } else { UnhookLater(m, ring, size, ix, j, i); }
    }
  }

  /** A member of the ring after its first one left. */
  lemma {:induction false} UnhookFirst(m: Mem, ring: seq<int>, size: nat, ix: nat, i: nat)
    requires RingRep(m, ring, size, ix) && |ring| > 1 && IndexOf(ring, ring[0]) == 0 && i < |RingWithout(ring, ring[0])|
    requires ring[0] in m && m[ring[0]].next in m && m[ring[0]].prev in m
    ensures LinkOk(Unhook(m, ring[0]), RingWithout(ring, ring[0]), size, ix, i)
  {
    var n := |ring|;
    assert LinkOk(m, ring, size, ix, 0) && LinkOk(m, ring, size, ix, 1) && LinkOk(m, ring, size, ix, n - 1);
    if i > 0 { assert LinkOk(m, ring, size, ix, i); }
  }

  lemma {:induction false} UnhookLater(m: Mem, ring: seq<int>, size: nat, ix: nat, j: nat, i: nat)
    requires RingRep(m, ring, size, ix) && 0 < j < |ring| && IndexOf(ring, ring[j]) == j
    requires i < |RingWithout(ring, ring[j])|
    requires ring[j] in m && m[ring[j]].next in m && m[ring[j]].prev in m
    ensures LinkOk(Unhook(m, ring[j]), RingWithout(ring, ring[j]), size, ix, i)
  {
    hide RingWithout, IndexOf;
    var n := |ring|;
    WithoutAt(ring, j);
    assert LinkOk(m, ring, size, ix, j) && LinkOk(m, ring, size, ix, if j + 1 < n then j + 1 else 0);
    assert LinkOk(m, ring, size, ix, j - 1);
    assert LinkOk(m, ring, size, ix, if i < j then i else i + 1);
  }

  lemma {:induction false} WithoutAt(ring: seq<int>, j: nat)
    requires 0 < j < |ring| && IndexOf(ring, ring[j]) == j && Distinct(ring)
    ensures var r := RingWithout(ring, ring[j]);
            |r| == |ring| - 1 && forall k: nat {:trigger r[k]} | k < |r| :: r[k] == ring[if k < j then k else k + 1]
  {
  }

  lemma {:induction false} RingRemove(m: Mem, ring: seq<int>, size: nat, ix: nat, x: int)
    requires RingRep(m, ring, size, ix) && x !in ring
    ensures RingRep(m - {x}, ring, size, ix)
  {
    RingFrame2(m, m - {x}, ring, size, ix);
  }

  lemma {:induction false} RingFrame2(m: Mem, m': Mem, ring: seq<int>, size: nat, ix: nat)
    requires RingRep(m, ring, size, ix)
    requires forall a | a in ring && a in m :: a in m' && m'[a] == m[a]
    ensures RingRep(m', ring, size, ix)
  {
    forall a | a in ring ensures a in m && a in m' && m'[a] == m[a] { RingMember(m, ring, size, ix, a); }
    RingFrame(m, m', ring, size, ix);
  }

  /** A chunk other than the tree node leaves the ring of a node. */
  lemma {:induction false} UnhookRep(m: Mem, p: int, parent: int, ix: nat, t: Tree, x: int)
    requires Rep(m, p, parent, ix, t) && t.Node? && Separate(t) && x in t.ring && x != p
    ensures x in m && m[x].next in m && m[x].prev in m
    ensures Rep(Unhook(m, x) - {x}, p, parent, ix, UnlinkHere(t, x))
  {
    var ring' := RingWithout(t.ring, x);
    assert |t.ring| > 1;
    UnhookRing(m, t.ring, t.size, ix, x);
    RingWithoutElems(t.ring, x);
    var m1 := Unhook(m, x);
    var m' := m1 - {x};
    assert x !in Elems(ring');
    RingRemove(m1, ring', t.size, ix, x);
    RepMembers(m, p, parent, ix, t);
    assert x in Elems(t.ring) && m[x].next in Elems(t.ring) && m[x].prev in Elems(t.ring);
    RepFrame(m, m', m[p].child0, p, ix, t.left);
    RepFrame(m, m', m[p].child1, p, ix, t.right);
    assert ring'[0] == p;
    assert LinkOk(m', ring', t.size, ix, 0);
  }

  // ---------- Replacing a tree node ----------

  /** Put r, a chunk without children, in the place of tree node x: parent and children of x become
      those of r, and the children point back to r. */
  function Replace(m: Mem, x: int, r: int): (m': Mem)
    requires x in m && r in m
    requires m[x].child0 == NULL || m[x].child0 in m
    requires m[x].child1 == NULL || m[x].child1 in m
  {
    var c0, c1 := m[x].child0, m[x].child1;
    var m1 := m[r := m[r].(parent := m[x].parent)];
    var m2 := if c0 == NULL then m1 else
                var n := m1[r := m1[r].(child0 := c0)];
                n[c0 := n[c0].(parent := r)];
    if c1 == NULL then m2 else
      var n := m2[r := m2[r].(child1 := c1)];
      n[c1 := n[c1].(parent := r)]
  }

  lemma {:induction false} Reparent(m: Mem, m': Mem, p: int, up: int, up': int, ix: nat, t: Tree)
    requires Rep(m, p, up, ix, t) && t.Node? && Separate(t)
    requires p in m && p in m' && m'[p] == m[p].(parent := up')
    requires forall a | a in Addrs(t) && a != p :: a in m && a in m' && m'[a] == m[a]
    ensures Rep(m', p, up', ix, t)
  {
    forall i: nat | i < |t.ring| ensures LinkOk(m', t.ring, t.size, ix, i) {
      assert LinkOk(m, t.ring, t.size, ix, i);
      assert t.ring[i] in Elems(t.ring);
    }
    assert p in Elems(t.ring);
    RepFrame(m, m', m[p].child0, p, ix, t.left);
    RepFrame(m, m', m[p].child1, p, ix, t.right);
  }

  /** What Replace needs: x has subtrees left and right, and r heads a ring apart from both. */
  ghost predicate Replaceable(m: Mem, x: int, ix: nat, ring: seq<int>, size: nat, left: Tree, right: Tree)
  {
    && RingRep(m, ring, size, ix) && LinkOk(m, ring, size, ix, 0)
    && m[ring[0]].child0 == m[ring[0]].child1 == NULL
    && x in m && Rep(m, m[x].child0, x, ix, left) && Rep(m, m[x].child1, x, ix, right)
    && Separate(Node(ring, size, left, right))
    && x !in Addrs(left) && x !in Addrs(right) && x !in ring
  }

  lemma {:induction false} ReplaceRep(m: Mem, x: int, ix: nat, ring: seq<int>, size: nat, left: Tree, right: Tree)
    requires Replaceable(m, x, ix, ring, size, left, right)
    ensures m[x].child0 == NULL || m[x].child0 in m
    ensures m[x].child1 == NULL || m[x].child1 in m
    ensures Rep(Replace(m, x, ring[0]), ring[0], m[x].parent, ix, Node(ring, size, left, right))
    ensures forall a | a in m && a !in Elems(ring) && a !in Addrs(left) && a !in Addrs(right) ::
              a in Replace(m, x, ring[0]) && Replace(m, x, ring[0])[a] == m[a]
    ensures Replace(m, x, ring[0]).Keys == m.Keys
  {
    var r, c0, c1 := ring[0], m[x].child0, m[x].child1;
    RepRoot(m, c0, x, ix, left);
    RepRoot(m, c1, x, ix, right);
    var m' := Replace(m, x, r);
    assert r in Elems(ring);
    ReplaceChanges(m, x, r);
    forall i: nat | i < |ring| ensures LinkOk(m', ring, size, ix, i) {
      assert LinkOk(m, ring, size, ix, i);
      assert ring[i] in Elems(ring);
    }
    RepMembers(m, c0, x, ix, left);
    RepMembers(m, c1, x, ix, right);
    if left.Node? { Reparent(m, m', c0, x, r, ix, left); }
    if right.Node? { Reparent(m, m', c1, x, r, ix, right); }
  }

  lemma {:induction false} ReplaceChanges(m: Mem, x: int, r: int)
    requires x in m && r in m && x != r
    requires m[x].child0 == NULL || (m[x].child0 in m && m[x].child0 != r && m[x].child0 != x)
    requires m[x].child1 == NULL || (m[x].child1 in m && m[x].child1 != r && m[x].child1 != x)
    requires m[x].child0 != NULL ==> m[x].child0 != m[x].child1
    requires m[r].child0 == m[r].child1 == NULL
    ensures var m' := Replace(m, x, r);
            && m'.Keys == m.Keys
            && m'[r] == m[r].(parent := m[x].parent, child0 := m[x].child0, child1 := m[x].child1)
            && (m[x].child0 != NULL ==> m'[m[x].child0] == m[m[x].child0].(parent := r))
            && (m[x].child1 != NULL ==> m'[m[x].child1] == m[m[x].child1].(parent := r))
            && forall a | a in m && a != r && (m[x].child0 == NULL || a != m[x].child0)
                        && (m[x].child1 == NULL || a != m[x].child1) :: m'[a] == m[a]
  {
  }

  // ---------- Taking a leaf from below ----------

  /** Cut the leaf below x off its holder. */
  function CutLeaf(m: Mem, t: Tree): (r: Mem)
    requires t.Node? && LeafPath(t) != [] && Holder(t, LeafPath(t)) in m
  {
    var path := LeafPath(t);
    var h := Holder(t, path);
    m[h := m[h].WithChild(path[|path| - 1], NULL)]
  }

  /** What is left below x after the cut. */
  lemma {:induction false} CutLeafRest(m: Mem, x: int, parent: int, ix: nat, t: Tree)
    requires Rep(m, x, parent, ix, t) && t.Node? && Separate(t)
    requires !(t.left.Empty? && t.right.Empty?)
    ensures LeafPath(t) != [] && Holder(t, LeafPath(t)) in m && Holder(t, LeafPath(t)) in Addrs(t)
    ensures Rep(CutLeaf(m, t), x, parent, ix, Put(t, LeafPath(t), Empty))
  {
    var path := LeafPath(t);
    HolderOutside(m, x, parent, ix, t, path);
    RepMembers(m, x, parent, ix, t);
    PutRep(m, CutLeaf(m, t), x, parent, ix, t, path, Empty);
  }

  /** The leaf itself is untouched by the cut. */
  lemma {:induction false} CutLeafLeaf(m: Mem, x: int, parent: int, ix: nat, t: Tree)
    requires Rep(m, x, parent, ix, t) && t.Node? && Separate(t)
    requires LeafPath(t) != [] && Holder(t, LeafPath(t)) in m
    ensures var leaf := At(t, LeafPath(t)); var m1 := CutLeaf(m, t);
            && RingRep(m1, leaf.ring, leaf.size, ix) && LinkOk(m1, leaf.ring, leaf.size, ix, 0)
            && m1[leaf.ring[0]].child0 == m1[leaf.ring[0]].child1 == NULL
  {
    var path := LeafPath(t);
    var leaf := At(t, path);
    HolderOutside(m, x, parent, ix, t, path);
    AtRep(m, x, parent, ix, t, path);
    forall a | a in leaf.ring && a in m ensures CutLeaf(m, t)[a] == m[a] { assert a in Elems(leaf.ring); }
    RingFrame2(m, CutLeaf(m, t), leaf.ring, leaf.size, ix);
    assert LinkOk(CutLeaf(m, t), leaf.ring, leaf.size, ix, 0);
  }

  lemma {:induction false} CutLeafSeparate(t: Tree, x: int)
    requires t.Node? && Separate(t) && |t.ring| == 1 && t.ring[0] == x
    requires LeafPath(t) != []
    ensures var leaf := At(t, LeafPath(t)); var rest := Put(t, LeafPath(t), Empty);
            && rest.Node? && Addrs(rest) <= Addrs(t) && Addrs(leaf) <= Addrs(t)
            && Separate(Node(leaf.ring, leaf.size, rest.left, rest.right))
            && x !in Addrs(rest.left) && x !in Addrs(rest.right) && x !in leaf.ring
  {
    var path := LeafPath(t);
    var leaf := At(t, path);
    AtPart(t, path);
    AtPart(t.Child(path[0]), path[1..]);
    PutAddrs(t, path, Empty);
    assert Addrs(leaf) == Elems(leaf.ring);
    assert x in Elems(t.ring) && x !in Elems(leaf.ring);
  }

  /** After the cut, the leaf and what is left below x are ready for Replace. */
  lemma {:induction false} CutLeafReplaceable(m: Mem, x: int, parent: int, ix: nat, t: Tree)
    requires Rep(m, x, parent, ix, t) && t.Node? && Separate(t) && |t.ring| == 1
    requires !(t.left.Empty? && t.right.Empty?)
    ensures LeafPath(t) != [] && Holder(t, LeafPath(t)) in m && Holder(t, LeafPath(t)) in Addrs(t)
    ensures var leaf := At(t, LeafPath(t)); var rest := Put(t, LeafPath(t), Empty); var m1 := CutLeaf(m, t);
            && rest.Node? && Addrs(rest) <= Addrs(t) && Addrs(leaf) <= Addrs(t)
            && Replaceable(m1, x, ix, leaf.ring, leaf.size, rest.left, rest.right)
            && x in m1 && m1[x].parent == parent
  {
    CutLeafRest(m, x, parent, ix, t);
    CutLeafLeaf(m, x, parent, ix, t);
    CutLeafSeparate(t, x);
  }
}
