/** The bitwise size tries of the large bins: the records that free large chunks keep in memory, the
    trees those records represent, and how replacing a subtree in memory replaces it in the tree. */
module Trie {
  import opened SizeBits

  const NULL := 0
  const RING_PARENT := 0   // parent of a chunk reached only through the ring of its size
  const ROOT_PARENT := 1   // parent of the root of a bin

  /** What a free large chunk keeps in memory: the size from its header, then the fields of its body. */
  datatype TChunk = TChunk(size: nat, prev: int, next: int, child0: int, child1: int, parent: int, index: nat) {
    function Child(d: bool): (c: int) { if d then child1 else child0 }

    function WithChild(d: bool, c: int): (t: TChunk) {
      if d then this.(child1 := c) else this.(child0 := c)
    }
  }

  type Mem = map<int, TChunk>

  /** A trie: one node for each size, holding the ring of the chunks of that size, tree node first. */
  datatype Tree = Empty | Node(ring: seq<int>, size: nat, left: Tree, right: Tree) {
    function Child(d: bool): (t: Tree)
      requires Node?
    {
      if d then right else left
    }

    function WithChild(d: bool, c: Tree): (t: Tree)
      requires Node?
    {
      if d then this.(right := c) else this.(left := c)
    }
  }

  function Elems(ring: seq<int>): (r: set<int>) { set x | x in ring }

  predicate Distinct(s: seq<int>)
  {
    forall i: nat, j: nat | i < j < |s| :: s[i] != s[j]
  }

  function Addrs(t: Tree): (r: set<int>)
  {
    match t
    case Empty => {}
    case Node(ring, _, left, right) => Elems(ring) + Addrs(left) + Addrs(right)
  }

  function Sizes(t: Tree): (r: set<nat>)
  {
    match t
    case Empty => {}
    case Node(_, size, left, right) => {size} + Sizes(left) + Sizes(right)
  }

  /** The address of the tree node of a subtree, or null. */
  function Root(t: Tree): (p: int)
  {
    if t.Node? && |t.ring| > 0 then t.ring[0] else NULL
  }

  /** No chunk occurs in two places of the tree. */
  predicate Separate(t: Tree)
  {
    match t
    case Empty => true
    case Node(ring, _, left, right) =>
      && Elems(ring) !! Addrs(left) && Elems(ring) !! Addrs(right) && Addrs(left) !! Addrs(right)
      && Separate(left) && Separate(right)
  }

  /** Trie order below a node with b unresolved size bits: every size of the tree has the given
      prefix above them, the next bit decides between left and right, and no size occurs twice. */
  predicate Ordered(t: Tree, b: nat, prefix: nat)
    decreases t
  {
    match t
    case Empty => true
    case Node(_, size, left, right) =>
      && Prefix(size, b) == prefix && size % 8 == 0
      && size !in Sizes(left) && size !in Sizes(right)
      && if b <= 3 then left.Empty? && right.Empty?
         else Ordered(left, b - 1, 2 * prefix) && Ordered(right, b - 1, 2 * prefix + 1)
  }

  // ---------- Memory ----------

  /** Element i of a ring: its record has the ring's size and bin and the links of a circular list,
      and only element 0 is a tree node. */
  predicate LinkOk(m: Mem, ring: seq<int>, size: nat, ix: nat, i: nat)
    requires i < |ring|
  {
    && ring[i] in m && ring[i] > ROOT_PARENT
    && var c := m[ring[i]];
       && c.size == size && c.index == ix
       && c.next == (if i + 1 < |ring| then ring[i + 1] else ring[0])
       && c.prev == (if i > 0 then ring[i - 1] else ring[|ring| - 1])
       && (i > 0 ==> c.parent == RING_PARENT && c.child0 == NULL && c.child1 == NULL)
  }

  ghost predicate RingRep(m: Mem, ring: seq<int>, size: nat, ix: nat)
  {
    && |ring| > 0
    && (forall i: nat {:trigger LinkOk(m, ring, size, ix, i)} | i < |ring| :: LinkOk(m, ring, size, ix, i))
    && Distinct(ring)
  }

  /** The records in memory below pointer p are those of tree t of bin ix. */
  ghost predicate Rep(m: Mem, p: int, parent: int, ix: nat, t: Tree)
    decreases t
  {
    match t
    case Empty => p == NULL
    case Node(ring, size, left, right) =>
      && RingRep(m, ring, size, ix) && p == ring[0]
      && LinkOk(m, ring, size, ix, 0)
      && m[p].parent == parent
      && Rep(m, m[p].child0, p, ix, left)
      && Rep(m, m[p].child1, p, ix, right)
  }

  lemma {:induction false} RepRoot(m: Mem, p: int, parent: int, ix: nat, t: Tree)
    requires Rep(m, p, parent, ix, t)
    ensures p == Root(t)
    ensures p == NULL <==> t.Empty?
    ensures t.Node? ==> p in m && p in Addrs(t) && m[p].size == t.size && p > ROOT_PARENT
  {
  }

  lemma {:induction false} RingFrame(m: Mem, m': Mem, ring: seq<int>, size: nat, ix: nat)
    requires RingRep(m, ring, size, ix)
    requires forall a | a in ring :: a in m && a in m' && m'[a] == m[a]
    ensures RingRep(m', ring, size, ix)
  {
    forall i: nat | i < |ring| ensures LinkOk(m', ring, size, ix, i) {
      assert LinkOk(m, ring, size, ix, i);
    }
  }

  /** Memory outside a tree does not matter to it. */
  lemma {:induction false} RepFrame(m: Mem, m': Mem, p: int, parent: int, ix: nat, t: Tree)
    requires Rep(m, p, parent, ix, t)
    requires forall a | a in Addrs(t) :: a in m && a in m' && m'[a] == m[a]
    ensures Rep(m', p, parent, ix, t)
    decreases t
  {
    if t.Node? {
      RingFrame(m, m', t.ring, t.size, ix);
      RepRoot(m, p, parent, ix, t);
      RepFrame(m, m', m[p].child0, p, ix, t.left);
      RepFrame(m, m', m[p].child1, p, ix, t.right);
      assert LinkOk(m', t.ring, t.size, ix, 0);
    }
  }

  lemma {:induction false} RingMember(m: Mem, ring: seq<int>, size: nat, ix: nat, a: int)
    requires RingRep(m, ring, size, ix) && a in ring
    ensures a in m && m[a].size == size && m[a].index == ix && a > ROOT_PARENT
  {
    var i :| 0 <= i < |ring| && ring[i] == a;
    assert LinkOk(m, ring, size, ix, i);
  }

  /** Every chunk of a tree has a record of its bin, with one of the tree's sizes. */
  lemma {:induction false} RepMember(m: Mem, p: int, parent: int, ix: nat, t: Tree, a: int)
    requires Rep(m, p, parent, ix, t) && a in Addrs(t)
    ensures a in m && m[a].size in Sizes(t) && m[a].index == ix && a > ROOT_PARENT
    decreases t
  {
    if a in t.ring {
      RingMember(m, t.ring, t.size, ix, a);
    } else if a in Addrs(t.left) {
      RepMember(m, m[p].child0, p, ix, t.left, a);
    } else {
      RepMember(m, m[p].child1, p, ix, t.right, a);
    }
  }

  lemma {:induction false} RepMembers(m: Mem, p: int, parent: int, ix: nat, t: Tree)
    requires Rep(m, p, parent, ix, t)
    ensures Addrs(t) <= m.Keys
    ensures forall a | a in Addrs(t) :: a in m && m[a].size in Sizes(t) && m[a].index == ix && a > ROOT_PARENT
  {
    forall a | a in Addrs(t) ensures a in m && m[a].size in Sizes(t) && m[a].index == ix && a > ROOT_PARENT {
      RepMember(m, p, parent, ix, t, a);
    }
  }

  // ---------- Paths ----------

  predicate HasPath(t: Tree, path: seq<bool>)
  {
    path == [] || (t.Node? && HasPath(t.Child(path[0]), path[1..]))
  }

  /** The subtree at a path; false turns left, true turns right. */
  function At(t: Tree, path: seq<bool>): (r: Tree)
    requires HasPath(t, path)
  {
    if path == [] then t else At(t.Child(path[0]), path[1..])
  }

  /** The tree with the subtree at a path replaced. */
  function Put(t: Tree, path: seq<bool>, sub: Tree): (r: Tree)
    requires HasPath(t, path)
  {
    if path == [] then sub else t.WithChild(path[0], Put(t.Child(path[0]), path[1..], sub))
  }

  lemma {:induction false} PathSnoc(t: Tree, path: seq<bool>, d: bool)
    requires HasPath(t, path) && At(t, path).Node?
    ensures HasPath(t, path + [d])
    ensures At(t, path + [d]) == At(t, path).Child(d)
    decreases path
  {
    if path == [] {
      assert path + [d] == [d];
    } else {
      PathSnoc(t.Child(path[0]), path[1..], d);
      assert (path + [d])[1..] == path[1..] + [d];
    }
  }

  lemma {:induction false} PutSnoc(t: Tree, path: seq<bool>, d: bool, sub: Tree)
    requires HasPath(t, path) && At(t, path).Node? && HasPath(t, path + [d])
    ensures Put(t, path + [d], sub) == Put(t, path, At(t, path).WithChild(d, sub))
    decreases path
  {
    if path == [] {
      assert path + [d] == [d];
    } else {
      PathSnoc(t.Child(path[0]), path[1..], d);
      PutSnoc(t.Child(path[0]), path[1..], d, sub);
      assert (path + [d])[1..] == path[1..] + [d];
    }
  }

  lemma {:induction false} AtPart(t: Tree, path: seq<bool>)
    requires HasPath(t, path)
    ensures Addrs(At(t, path)) <= Addrs(t) && Sizes(At(t, path)) <= Sizes(t)
    ensures Separate(t) ==> Separate(At(t, path))
    decreases path
  {
    if path != [] { AtPart(t.Child(path[0]), path[1..]); }
  }

  /** The chunk whose record points to the subtree at a non-empty path. */
  function Holder(t: Tree, path: seq<bool>): (p: int)
    requires path != [] && HasPath(t, path)
  {
    if |path| == 1 then Root(t) else Holder(t.Child(path[0]), path[1..])
  }

  lemma {:induction false} AtRep(m: Mem, p: int, parent: int, ix: nat, t: Tree, path: seq<bool>)
    requires Rep(m, p, parent, ix, t) && HasPath(t, path)
    ensures var up := if path == [] then parent else Holder(t, path);
            Rep(m, Root(At(t, path)), up, ix, At(t, path))
    decreases path
  {
    RepRoot(m, p, parent, ix, t);
    if path != [] {
      var d := path[0];
      AtRep(m, m[p].Child(d), p, ix, t.Child(d), path[1..]);
    }
  }

  lemma {:induction false} HolderAt(t: Tree, path: seq<bool>, d: bool)
    requires HasPath(t, path + [d]) && HasPath(t, path)
    ensures Holder(t, path + [d]) == Root(At(t, path))
    decreases path
  {
    if path == [] {
      assert path + [d] == [d];
    } else {
      assert (path + [d])[1..] == path[1..] + [d];
      assert (path + [d])[0] == path[0];
      HolderAt(t.Child(path[0]), path[1..], d);
    }
  }

  /** The holder of a subtree lies outside of it. */
  lemma {:induction false} HolderOutside(m: Mem, p: int, parent: int, ix: nat, t: Tree, path: seq<bool>)
    requires Rep(m, p, parent, ix, t) && Separate(t) && path != [] && HasPath(t, path)
    ensures Holder(t, path) in Addrs(t) && Holder(t, path) !in Addrs(At(t, path))
    ensures Holder(t, path) in m && m[Holder(t, path)].Child(path[|path| - 1]) == Root(At(t, path))
    decreases path
  {
    var d := path[0];
    RepRoot(m, p, parent, ix, t);
    AtPart(t.Child(d), path[1..]);
    if |path| == 1 {
      AtRep(m, m[p].Child(d), p, ix, t.Child(d), []);
    } else {
      HolderOutside(m, m[p].Child(d), p, ix, t.Child(d), path[1..]);
      assert path[1..][|path[1..]| - 1] == path[|path| - 1];
    }
  }

  /** Memory m' is memory m with the subtree at the path replaced by sub: the rest of the tree is
      untouched except that the holder now points to sub. */
  ghost predicate Grafted(m: Mem, m': Mem, t: Tree, path: seq<bool>, sub: Tree)
    requires path != [] && HasPath(t, path)
  {
    var q := Holder(t, path);
    && (forall a | a in Addrs(t) - Addrs(At(t, path)) - {q} :: a in m && a in m' && m'[a] == m[a])
    && q in m && q in m' && m'[q] == m[q].WithChild(path[|path| - 1], Root(sub))
    && Addrs(sub) !! (Addrs(t) - Addrs(At(t, path)))
  }

  lemma {:induction false} PutAddrs(t: Tree, path: seq<bool>, sub: Tree)
    requires HasPath(t, path) && Separate(t) && Separate(sub)
    requires Addrs(sub) !! (Addrs(t) - Addrs(At(t, path)))
    ensures Addrs(Put(t, path, sub)) == Addrs(t) - Addrs(At(t, path)) + Addrs(sub)
    ensures Separate(Put(t, path, sub))
    decreases path
  {
    if path != [] {
      var c := t.Child(path[0]);
      AtPart(c, path[1..]);
      PutAddrs(c, path[1..], sub);
    }
  }

  /** A node keeps its ring and its other subtree when one of its subtrees changes. */
  lemma {:induction false} ChildRep(m: Mem, m': Mem, p: int, parent: int, ix: nat, t: Tree, d: bool, sub: Tree)
    requires Rep(m, p, parent, ix, t) && Separate(t) && t.Node?
    requires p in m && p in m' && m'[p] == m[p].WithChild(d, Root(sub))
    requires forall a | a in Addrs(t) - Addrs(t.Child(d)) - {p} :: a in m && a in m' && m'[a] == m[a]
    requires Rep(m', Root(sub), p, ix, sub)
    ensures Rep(m', p, parent, ix, t.WithChild(d, sub))
  {
    forall i: nat | i < |t.ring| ensures LinkOk(m', t.ring, t.size, ix, i) {
      assert LinkOk(m, t.ring, t.size, ix, i);
      assert t.ring[i] in Elems(t.ring);
    }
    assert p in Elems(t.ring);
    RepFrame(m, m', m[p].Child(!d), p, ix, t.Child(!d));
  }

  /** Grafting a subtree in memory is grafting it in the tree. */
  lemma {:induction false} PutRep(m: Mem, m': Mem, p: int, parent: int, ix: nat, t: Tree, path: seq<bool>, sub: Tree)
    requires Rep(m, p, parent, ix, t) && Separate(t) && path != [] && HasPath(t, path)
    requires Grafted(m, m', t, path, sub)
    requires Rep(m', Root(sub), Holder(t, path), ix, sub)
    ensures Rep(m', p, parent, ix, Put(t, path, sub))
    decreases path
  {
    var d := path[0];
    var c := t.Child(d);
    RepRoot(m, p, parent, ix, t);
    if |path| == 1 {
      assert path[1..] == [] && At(t, path) == c;
      ChildRep(m, m', p, parent, ix, t, d, sub);
    } else {
      AtPart(c, path[1..]);
      HolderOutside(m, m[p].Child(d), p, ix, c, path[1..]);
      assert path[1..][|path[1..]| - 1] == path[|path| - 1];
      PutRep(m, m', m[p].Child(d), p, ix, c, path[1..], sub);
      var c' := Put(c, path[1..], sub);
      RepRoot(m', m[p].Child(d), p, ix, c');
      assert p in Elems(t.ring) && p !in Addrs(c);
      assert m'[p] == m[p] == m[p].WithChild(d, Root(c'));
      ChildRep(m, m', p, parent, ix, t, d, c');
    }
  }
}
