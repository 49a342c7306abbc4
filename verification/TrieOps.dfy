/** Insertion and removal on the size tries as tree functions, and the laws that make them a
    size-indexed collection of chunks. */
module TrieOps {
  import opened SizeBits
  import opened Trie

  // ---------- Prefixes ----------

  /** Every size of an ordered tree has the tree's prefix. */
  lemma {:induction false} SizePrefix(t: Tree, b: nat, prefix: nat, s: nat)
    requires Ordered(t, b, prefix) && s in Sizes(t)
    ensures Prefix(s, b) == prefix && s % 8 == 0
    decreases t
  {
    if s != t.size {
      if s in Sizes(t.left) {
        SizePrefix(t.left, b - 1, 2 * prefix, s);
      } else {
        SizePrefix(t.right, b - 1, 2 * prefix + 1, s);
      }
      PrefixStep(s, b);
    }
  }

  lemma {:induction false} SizesDisjoint(t: Tree, b: nat, prefix: nat)
    requires Ordered(t, b, prefix) && t.Node?
    ensures Sizes(t.left) !! Sizes(t.right)
  {
    if s :| s in Sizes(t.left) && s in Sizes(t.right) {
      SizePrefix(t.left, b - 1, 2 * prefix, s);
      SizePrefix(t.right, b - 1, 2 * prefix + 1, s);
    }
  }

  /** The prefix reached by following a path. */
  function PrefixAt(prefix: nat, path: seq<bool>): (r: nat)
    decreases path
  {
    if path == [] then prefix else PrefixAt(2 * prefix + (if path[0] then 1 else 0), path[1..])
  }

  lemma {:induction false} AtOrdered(t: Tree, b: nat, prefix: nat, path: seq<bool>)
    requires Ordered(t, b, prefix) && HasPath(t, path) && At(t, path).Node?
    ensures |path| <= b && Ordered(At(t, path), b - |path|, PrefixAt(prefix, path))
    decreases path
  {
    if path != [] {
      var c := t.Child(path[0]);
      assert c.Node?;
      AtOrdered(c, b - 1, 2 * prefix + (if path[0] then 1 else 0), path[1..]);
    }
  }

  /** Replacing a subtree by one with no further sizes keeps the trie order. */
  lemma {:induction false} PutOrdered(t: Tree, b: nat, prefix: nat, path: seq<bool>, sub: Tree)
    requires Ordered(t, b, prefix) && HasPath(t, path)
    requires Sizes(sub) <= Sizes(At(t, path))
    requires sub.Node? ==> |path| <= b && Ordered(sub, b - |path|, PrefixAt(prefix, path))
    ensures Ordered(Put(t, path, sub), b, prefix)
    ensures Sizes(Put(t, path, sub)) <= Sizes(t)
    decreases path
  {
    if path != [] {
      var d := path[0];
      if b <= 3 {
        assert t.Child(d).Empty?;
        assert path[1..] == [];
        assert Sizes(sub) == {};
      } else {
        PutOrdered(t.Child(d), b - 1, 2 * prefix + (if d then 1 else 0), path[1..], sub);
      }
    }
  }

  // ---------- Insertion ----------

  /** Add chunk x of size s to a tree with b unresolved bits: on the ring of its size if there is
      one, else as a new leaf where the bits of s lead. */
  function Insert(t: Tree, b: nat, s: nat, x: int): (r: Tree)
    decreases t
  {
    match t
    case Empty => Node([x], s, Empty, Empty)
    case Node(ring, size, _, _) =>
      if size == s then t.(ring := ring + [x])
      else if b == 0 then t
      else
        var d := Bit(s, b - 1) == 1;
        t.WithChild(d, Insert(t.Child(d), b - 1, s, x))
  }

  lemma {:induction false} InsertOrdered(t: Tree, b: nat, prefix: nat, s: nat, x: int)
    requires Ordered(t, b, prefix) && b >= 3 && s % 8 == 0 && Prefix(s, b) == prefix
    ensures Ordered(Insert(t, b, s, x), b, prefix)
    ensures Sizes(Insert(t, b, s, x)) == Sizes(t) + {s}
    decreases t
  {
    if t.Node? && t.size != s {
      if b == 3 { PrefixEight(s, t.size); }
      PrefixStep(s, b);
      var d := Bit(s, b - 1) == 1;
      InsertOrdered(t.Child(d), b - 1, 2 * prefix + (if d then 1 else 0), s, x);
    }
  }

  lemma {:induction false} InsertAddrs(t: Tree, b: nat, prefix: nat, s: nat, x: int)
    requires Ordered(t, b, prefix) && b >= 3 && s % 8 == 0 && Prefix(s, b) == prefix
    requires Separate(t) && x !in Addrs(t)
    ensures Addrs(Insert(t, b, s, x)) == Addrs(t) + {x}
    ensures Separate(Insert(t, b, s, x))
    decreases t
  {
    if t.Node? && t.size != s {
      if b == 3 { PrefixEight(s, t.size); }
      PrefixStep(s, b);
      var d := Bit(s, b - 1) == 1;
      InsertAddrs(t.Child(d), b - 1, 2 * prefix + (if d then 1 else 0), s, x);
    }
  }

  // ---------- Removal ----------

  /** The way to the leaf that takes the place of a removed node: right where possible, else left. */
  function LeafPath(t: Tree): (path: seq<bool>)
    requires t.Node?
    ensures HasPath(t, path) && At(t, path).Node?
    ensures At(t, path).left.Empty? && At(t, path).right.Empty?
  {
    if t.right.Node? then [true] + LeafPath(t.right)
    else if t.left.Node? then [false] + LeafPath(t.left)
    else []
  }

  /** A node whose last chunk goes: gone itself when a leaf, else replaced by a leaf from below. */
  function DropNode(t: Tree): (r: Tree)
    requires t.Node?
  {
    if t.left.Empty? && t.right.Empty? then Empty
    else
      var leaf := At(t, LeafPath(t));
      var rest := Put(t, LeafPath(t), Empty);
      if rest.Node? then Node(leaf.ring, leaf.size, rest.left, rest.right) else Empty
  }

  /** A ring without x; the last chunk takes the place of a removed tree node. */
  function RingWithout(ring: seq<int>, x: int): (r: seq<int>)
    requires x in ring
  {
    if x == ring[0] then
      (if |ring| == 1 then [] else [ring[|ring| - 1]] + ring[1..|ring| - 1])
    else
      var j := IndexOf(ring, x);
      ring[..j] + ring[j + 1..]
  }

  function IndexOf(ring: seq<int>, x: int): (j: nat)
    requires x in ring
    ensures j < |ring| && ring[j] == x
    ensures forall i | 0 <= i < j :: ring[i] != x
  {
    if ring[0] == x then 0 else 1 + IndexOf(ring[1..], x)
  }

  function UnlinkHere(t: Tree, x: int): (r: Tree)
    requires t.Node? && x in t.ring
  {
    if |t.ring| > 1 then t.(ring := RingWithout(t.ring, x)) else DropNode(t)
  }

  /** The way to the node on whose ring x is. */
  function PathTo(t: Tree, x: int): (path: seq<bool>)
    requires x in Addrs(t)
    ensures HasPath(t, path) && At(t, path).Node? && x in At(t, path).ring
  {
    if x in t.ring then []
    else if x in Addrs(t.left) then [false] + PathTo(t.left, x)
    else [true] + PathTo(t.right, x)
  }

  lemma {:induction false} RingWithoutElems(ring: seq<int>, x: int)
    requires x in ring && Distinct(ring)
    ensures Elems(RingWithout(ring, x)) == Elems(ring) - {x}
    ensures |RingWithout(ring, x)| == |ring| - 1
  {
    var r := RingWithout(ring, x);
    var n := |ring|;
    var j := IndexOf(ring, x);
    if j == 0 && n == 1 {
      assert ring == [x];
    } else if j == 0 {
      forall a | a in ring && a != x ensures a in r {
        var i :| 0 <= i < n && ring[i] == a;
        if i < n - 1 { assert r[i] == a; } else { assert r[0] == a; }
      }
      forall a | a in r ensures a in ring && a != x {
        var i :| 0 <= i < |r| && r[i] == a;
        if i > 0 { assert r[i] == ring[i]; }
      }
    } else {
      forall a | a in ring && a != x ensures a in r {
        var i :| 0 <= i < n && ring[i] == a;
        if i < j { assert r[i] == a; } else { assert r[i - 1] == a; }
      }
      forall a | a in r ensures a in ring && a != x {
        var i :| 0 <= i < |r| && r[i] == a;
        if i < j { assert r[i] == ring[i]; } else { assert r[i] == ring[i + 1]; }
      }
    }
  }

  /** Cutting a leaf off removes its size and nothing else. */
  lemma {:induction false} CutLeafSizes(t: Tree, b: nat, prefix: nat, path: seq<bool>)
    requires Ordered(t, b, prefix) && HasPath(t, path) && At(t, path).Node?
    requires At(t, path).left.Empty? && At(t, path).right.Empty?
    ensures Sizes(Put(t, path, Empty)) == Sizes(t) - {At(t, path).size}
    ensures At(t, path).size in Sizes(t)
    ensures path != [] ==> At(t, path).size != t.size
    decreases path
  {
    if path != [] {
      var d := path[0];
      assert t.Child(d).Node?;
      CutLeafSizes(t.Child(d), b - 1, 2 * prefix + (if d then 1 else 0), path[1..]);
      SizesDisjoint(t, b, prefix);
    }
  }

  lemma {:induction false} DropNodeOrdered(t: Tree, b: nat, prefix: nat)
    requires Ordered(t, b, prefix) && t.Node?
    ensures Ordered(DropNode(t), b, prefix)
    ensures Sizes(DropNode(t)) <= Sizes(t)
  {
    if !(t.left.Empty? && t.right.Empty?) {
      var path := LeafPath(t);
      assert path != [];
      CutLeafSizes(t, b, prefix, path);
      SizePrefix(t, b, prefix, At(t, path).size);
      PutOrdered(t, b, prefix, path, Empty);
    }
  }

  lemma {:induction false} DropNodeAddrs(t: Tree)
    requires t.Node? && |t.ring| == 1 && Separate(t)
    ensures Addrs(DropNode(t)) == Addrs(t) - {t.ring[0]}
    ensures Separate(DropNode(t))
  {
    assert Elems(t.ring) == {t.ring[0]};
    if !(t.left.Empty? && t.right.Empty?) {
      var path := LeafPath(t);
      var leaf := At(t, path);
      var rest := Put(t, path, Empty);
      AtPart(t, path);
      PutAddrs(t, path, Empty);
      AtPart(t.Child(path[0]), path[1..]);
      assert Addrs(leaf) == Elems(leaf.ring);
      assert rest.ring == t.ring;
    }
  }

  lemma {:induction false} UnlinkHereOrdered(t: Tree, b: nat, prefix: nat, x: int)
    requires Ordered(t, b, prefix) && t.Node? && x in t.ring
    ensures Ordered(UnlinkHere(t, x), b, prefix)
    ensures Sizes(UnlinkHere(t, x)) <= Sizes(t)
  {
    if |t.ring| == 1 { DropNodeOrdered(t, b, prefix); }
  }

  lemma {:induction false} UnlinkHereAddrs(t: Tree, x: int)
    requires t.Node? && x in t.ring && Separate(t) && Distinct(t.ring)
    ensures Addrs(UnlinkHere(t, x)) == Addrs(t) - {x}
    ensures Separate(UnlinkHere(t, x))
  {
    RingWithoutElems(t.ring, x);
    assert x in Elems(t.ring);
    if |t.ring| == 1 { DropNodeAddrs(t); }
  }

  /** Removing x keeps the tree a trie and adds no size. */
  lemma {:induction false} UnlinkOrdered(t: Tree, b: nat, prefix: nat, path: seq<bool>, x: int)
    requires Ordered(t, b, prefix) && HasPath(t, path) && At(t, path).Node? && x in At(t, path).ring
    ensures var t' := Put(t, path, UnlinkHere(At(t, path), x));
            Ordered(t', b, prefix) && Sizes(t') <= Sizes(t)
  {
    AtOrdered(t, b, prefix, path);
    UnlinkHereOrdered(At(t, path), b - |path|, PrefixAt(prefix, path), x);
    PutOrdered(t, b, prefix, path, UnlinkHere(At(t, path), x));
  }

  /** Removing x removes exactly x. */
  lemma {:induction false} UnlinkAddrs(t: Tree, path: seq<bool>, x: int)
    requires Separate(t) && HasPath(t, path) && At(t, path).Node? && x in At(t, path).ring
    requires Distinct(At(t, path).ring)
    ensures var t' := Put(t, path, UnlinkHere(At(t, path), x));
            Addrs(t') == Addrs(t) - {x} && Separate(t')
  {
    AtPart(t, path);
    UnlinkHereAddrs(At(t, path), x);
    assert x in Elems(At(t, path).ring);
    PutAddrs(t, path, UnlinkHere(At(t, path), x));
  }
}
