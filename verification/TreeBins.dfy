/** The large bins: twelve size tries threaded through the bodies of the free large chunks.  A chunk
    is named by the address of its header. */
module TreeBins {
  import opened SizeBits
  import opened Bitmaps
  import opened Trie
  import opened TrieOps
  import opened TrieMemory
  import opened TrieSearch
  import opened TreeIndex
  import opened TreeSearch
  import opened TreeUnlink

  class TreeBins {
    var treebins: seq<int>     // the root of each trie, or null
    var treemap: Word          // which bins are not empty
    var nodes: Mem             // the records in the bodies of the chunks
    ghost var trees: seq<Tree>

    ghost predicate Valid()
      reads this
    {
      AllOk(treebins, treemap, nodes, trees)
    }

    constructor ()
      ensures Valid() && nodes == map[]
    {
      treebins := seq(N_TREE_BINS, _ => NULL);
      treemap := ZERO;
      nodes := map[];
      trees := seq(N_TREE_BINS, _ => Empty);
    }

    /** insert_large_chunk */
    method InsertLarge(x: int, s: nat)
      requires Valid() && x !in nodes && x > ROOT_PARENT
      requires MAX_SMALL_SIZE < s < WORD && s % 8 == 0
      modifies this
      ensures Valid()
      ensures Contents(nodes) == old(Contents(nodes))[x := s]
    {
      var i := ComputeTreeIndex(s);
      if !treemap[i] {
        PlantOk(treebins, treemap, nodes, trees, x, s);
        treemap := Or(treemap, Idx2Bit(i));
        treebins := treebins[i := x];
        nodes := nodes[x := TChunk(s, x, x, NULL, NULL, ROOT_PARENT, i)];
        trees := trees[i := Node([x], s, Empty, Empty)];
      } else {
        JoinBin(x, s, i);
      }
    }

    method JoinBin(x: int, s: nat, i: nat)
      requires Valid() && x !in nodes && x > ROOT_PARENT
      requires MAX_SMALL_SIZE < s < WORD && s % 8 == 0 && i == ComputeTreeIndex(s) && treemap[i]
      modifies this
      ensures Valid()
      ensures Contents(nodes) == old(Contents(nodes))[x := s]
    {
      ghost var tree := trees[i];
      assert TreeOk(nodes, treebins[i], treemap[i], i, tree);
      RepRoot(nodes, treebins[i], ROOT_PARENT, i, tree);
      var t, same, d, path := FindSlot(nodes, treebins[i], i, s, tree, x);
      if same {
        JoinRingOk(treebins, treemap, nodes, trees, x, s, path);
        nodes := LinkBefore(nodes, t, x, TChunk(s, x, x, NULL, NULL, RING_PARENT, i));
      } else {
        JoinLeafOk(treebins, treemap, nodes, trees, x, s, path, d);
        nodes := nodes[x := TChunk(s, x, x, NULL, NULL, t, i)];
        nodes := nodes[t := nodes[t].WithChild(d, x)];
      }
      trees := trees[i := Insert(tree, BinBits(i), s, x)];
    }

    /** tmalloc_large, up to the choice of the chunk: null exactly if no large chunk is big enough. */
    method FindLarge(nb: nat) returns (v: int)
      requires Valid() && 64 < nb < WORD && nb % 8 == 0
      ensures v == NULL <==> forall a | a in nodes :: nodes[a].size < nb
      ensures v != NULL ==> v in nodes && nb <= nodes[v].size
      ensures Bounded(trees[ComputeTreeIndex(nb)])
      ensures v != NULL ==>
                (BestFit(nodes, nb, v) <==> Tight(trees[ComputeTreeIndex(nb)], BinBits(ComputeTreeIndex(nb)), nb))
    {
      var idx := ComputeTreeIndex(nb);
      BinFacts(treebins, treemap, nodes, trees, idx);
      if treebins[idx] == NULL {
        v := FindAbove(nb, idx);
        return;
      }
      ghost var tree := trees[idx];
      var w, rst, wPath, rPath := WalkLarge(nodes, treebins[idx], idx, nb, tree);
      SearchVerdict(tree, idx, nb, w, rst, wPath, rPath);
      if w == NULL && rst == NULL {
        v := FindAbove(nb, idx);
      } else {
        var t := if w != NULL then w else rst;
        ghost var path := if w != NULL then wPath else rPath;
        AtRep(nodes, treebins[idx], ROOT_PARENT, idx, tree, path);
        v := PickSmallest(nodes, t, nb, if path == [] then ROOT_PARENT else Holder(tree, path), idx, At(tree, path));
        OwnBin(treebins, treemap, nodes, trees, nb, v);
        assert NodeOk(v, nodes[v]);
      }
    }

    /** tmalloc_large's fallback to the least non-empty bin above that of the request. */
    method FindAbove(nb: nat, idx: nat) returns (v: int)
      requires Valid() && 64 < nb < WORD && idx == ComputeTreeIndex(nb)
      requires forall s | s in Sizes(trees[idx]) :: s < nb
      ensures v == NULL <==> forall a | a in nodes :: nodes[a].size < nb
      ensures v != NULL ==> BestFit(nodes, nb, v)
    {
      var leftbits := And(AboveLeast(Idx2Bit(idx)), treemap);
      NextMarked(treemap, idx);
      if leftbits == ZERO {
        NoBin(treebins, treemap, nodes, trees, nb);
        v := NULL;
      } else {
        var i := Ctz(IsolateLeast(leftbits));
        BinFacts(treebins, treemap, nodes, trees, i);
        v := PickSmallest(nodes, treebins[i], nb, ROOT_PARENT, i, trees[i]);
        NextBin(treebins, treemap, nodes, trees, nb, i, v);
        assert NodeOk(v, nodes[v]);
      }
    }

    /** tmalloc_small, up to the choice of the chunk: any large chunk serves a small request. */
    method FindForSmall(nb: nat) returns (v: int)
      requires Valid() && 0 < nb <= MAX_SMALL_SIZE && treemap != ZERO
      ensures BestFit(nodes, nb, v)
    {
      FirstMarked(treemap);
      var i := Ctz(IsolateLeast(treemap));
      BinFacts(treebins, treemap, nodes, trees, i);
      v := PickSmallest(nodes, treebins[i], nb, ROOT_PARENT, i, trees[i]);
      FirstBin(treebins, treemap, nodes, trees, nb, i, v);
    }

    /** The bitmap is clear exactly if there is no large chunk. */
    lemma {:induction false} EmptyMap()
      requires Valid()
      ensures treemap == ZERO <==> forall a :: a !in nodes
    {
      FirstMarked(treemap);
      if a :| a in nodes {
        assert NodeOk(a, nodes[a]);
        BinFacts(treebins, treemap, nodes, trees, nodes[a].index);
        assert treemap[nodes[a].index];
      }
      if treemap != ZERO {
        var i := Ctz(IsolateLeast(treemap));
        BinFacts(treebins, treemap, nodes, trees, i);
        RepRoot(nodes, treebins[i], ROOT_PARENT, i, trees[i]);
      }
    }

    /** unlink_large_chunk */
    method UnlinkLarge(x: int)
      requires Valid() && x in nodes
      modifies this
      ensures Valid()
      ensures Contents(nodes) == old(Contents(nodes)) - {x}
    {
      if nodes[x].prev != x {
        UnlinkShared(x);
      } else {
        UnlinkLast(x);
      }
    }

    /** x is one of several chunks of its size. */
    method UnlinkShared(x: int)
      requires Valid() && x in nodes && nodes[x].prev != x
      modifies this
      ensures Valid()
      ensures Contents(nodes) == old(Contents(nodes)) - {x}
    {
      UnlinkSharedOk(treebins, treemap, nodes, trees, x);
      var i := nodes[x].index;
      ghost var t := trees[i];
      var f, r := nodes[x].next, nodes[x].prev;
      nodes := nodes[f := nodes[f].(prev := r)];
      nodes := nodes[r := nodes[r].(next := f)];
      if nodes[x].parent != RING_PARENT {
        TakePlace(x, r, i);
      }
      nodes := nodes - {x};
      trees := trees[i := Put(t, PathTo(t, x), UnlinkHere(At(t, PathTo(t, x)), x))];
    }

    /** x is the only chunk of its size. */
    method UnlinkLast(x: int)
      requires Valid() && x in nodes && nodes[x].prev == x
      modifies this
      ensures Valid()
      ensures Contents(nodes) == old(Contents(nodes)) - {x}
    {
      hide Rep, Put, UnlinkHere, At, PathTo, Holder, Ordered, Separate, Addrs, And, Not, Idx2Bit;
      UnlinkLastOk(treebins, treemap, nodes, trees, x);
      var i := nodes[x].index;
      ghost var t := trees[i];
      ghost var path := PathTo(t, x);
      ghost var here := At(t, path);
      var r, h, d := FindLeaf(nodes, x, if path == [] then ROOT_PARENT else Holder(t, path), i, here);
      if r != NULL {
        nodes := nodes[h := nodes[h].WithChild(d, NULL)];
      }
      TakePlace(x, r, i);
      nodes := nodes - {x};
      trees := trees[i := Put(t, path, UnlinkHere(here, x))];
    }

    /** The second half of unlink_large_chunk: r, or nothing, takes the place of tree node x. */
    method TakePlace(x: int, r: int, i: nat)
      requires x in nodes && (r == NULL || r in nodes) && i < |treebins| && i < N_TREE_BINS
      requires treebins[i] == x || (nodes[x].parent in nodes && nodes[x].parent != x)
      requires nodes[x].child0 == NULL || nodes[x].child0 in nodes
      requires nodes[x].child1 == NULL || nodes[x].child1 in nodes
      modifies this`treebins, this`treemap, this`nodes
      ensures nodes == Transplant(old(nodes), x, r, old(treebins[i]) == x)
      ensures treebins == if old(treebins[i]) == x then old(treebins)[i := r] else old(treebins)
      ensures treemap == if old(treebins[i]) == x && r == NULL then And(old(treemap), Not(Idx2Bit(i))) else old(treemap)
    {
      var xp := nodes[x].parent;
      if treebins[i] == x {
        treebins := treebins[i := r];
        if r == NULL {
          treemap := And(treemap, Not(Idx2Bit(i)));
        }
      } else if nodes[xp].child0 == x {
        nodes := nodes[xp := nodes[xp].(child0 := r)];
      } else {
        nodes := nodes[xp := nodes[xp].(child1 := r)];
      }
      if r != NULL {
        var c0, c1 := nodes[x].child0, nodes[x].child1;
        nodes := nodes[r := nodes[r].(parent := xp)];
        if c0 != NULL {
          nodes := nodes[r := nodes[r].(child0 := c0)];
          nodes := nodes[c0 := nodes[c0].(parent := r)];
        }
        if c1 != NULL {
          nodes := nodes[r := nodes[r].(child1 := c1)];
          nodes := nodes[c1 := nodes[c1].(parent := r)];
        }
      }
    }
  }
}
