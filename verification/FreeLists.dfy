/** The free chunks: small ones in the small bins, large ones in the tree bins.  Sizes here count
    granules of eight bytes; the bins below work in bytes. */
module FreeLists {
  import opened SizeBits
  import opened Bitmaps
  import opened Trie
  import opened TrieSearch
  import opened TreeIndex
  import opened TreeSearch
  import opened SmallBins
  import opened TreeBins

  const MAX_SMALL_REQUEST := 56
  const MIN_REQUEST := 8

  /** The chunk at a with k granules is in the bins of its size, and only there. */
  predicate FiledAt(small: map<int, nat>, large: map<int, nat>, a: int, k: nat)
  {
    if k <= 8 then a in small && a !in large && small[a] == 8 * k
    else a in large && a !in small && large[a] == 8 * k
  }

  ghost predicate Filed(free: map<int, nat>, small: map<int, nat>, large: map<int, nat>)
  {
    && (forall a {:trigger FiledAt(small, large, a, free[a])} | a in free :: FiledAt(small, large, a, free[a]))
    && (forall a | a in small :: a in free)
    && (forall a | a in large :: a in free)
    && (forall a | a in free :: a > ROOT_PARENT && 2 <= free[a] < 0x1_0000)
  }

  /** The chunk at a is a free chunk of at least k granules, and none of those is smaller. */
  predicate BestChunk(free: map<int, nat>, k: nat, a: int)
  {
    a in free && k <= free[a] && forall x | x in free && k <= free[x] :: free[a] <= free[x]
  }

  /** The size that the chunk at a has when it is put to use for k granules: what is left over goes back, unless
      it is too small for a chunk. */
  function TakenSize(free: map<int, nat>, k: nat, a: int): (n: nat)
  {
    if a in free && free[a] == k + 1 then k + 1 else k
  }

  /** No free chunk has k granules. */
  predicate NoneFits(free: map<int, nat>, k: nat) { forall x | x in free :: free[x] < k }

  /** Some free chunk has s bytes. */
  ghost predicate Stocked(free: map<int, nat>, s: nat) { exists a :: a in free && 8 * free[a] == s }

  /** The tree is a size trie of bin i that holds exactly the large free sizes of that bin. */
  ghost predicate Shelf(free: map<int, nat>, i: nat, t: Tree)
  {
    && Bounded(t) && Ordered(t, BinBits(i), BinPrefix(i))
    && forall s: nat {:trigger s in Sizes(t)} ::
         s in Sizes(t) <==> MAX_SMALL_SIZE < s && ComputeTreeIndex(s) == i && Stocked(free, s)
  }

  /** The chunk found for a large request is a best fit exactly if the search of its bin is tight. */
  ghost predicate BestWhenTight(free: map<int, nat>, nb: nat, t: Tree, a: int)
  {
    && 0 < nb < WORD && Shelf(free, ComputeTreeIndex(nb), t)
    && (BestChunk(free, nb / 8, a) <==> Tight(t, BinBits(ComputeTreeIndex(nb)), nb))
  }

  /** The chunk size, in bytes, for a request. */
  function ChunkBytes(bytes: nat): (nb: nat)
    ensures nb % 8 == 0 && MIN_CHUNK_SIZE <= nb && bytes + HEADER_SIZE <= nb < bytes + HEADER_SIZE + 16
    ensures nb <= MAX_SMALL_SIZE <==> bytes <= MAX_SMALL_REQUEST
  {
    if bytes < MIN_REQUEST then MIN_CHUNK_SIZE else PadRequest(bytes)
  }

  // ---------- Laws ----------

  lemma {:induction false} FiledInsert(free: map<int, nat>, small: map<int, nat>, large: map<int, nat>, a: int, k: nat)
    requires Filed(free, small, large) && a !in free && a > ROOT_PARENT && 2 <= k < 0x1_0000
    ensures k <= 8 ==> Filed(free[a := k], small[a := 8 * k], large)
    ensures k > 8 ==> Filed(free[a := k], small, large[a := 8 * k])
  {
    var free' := free[a := k];
    var small', large' := if k <= 8 then small[a := 8 * k] else small, if k <= 8 then large else large[a := 8 * k];
    forall x | x in free' ensures FiledAt(small', large', x, free'[x]) {
      if x != a { assert FiledAt(small, large, x, free[x]); }
    }
  }

  lemma {:induction false} FiledRemove(free: map<int, nat>, small: map<int, nat>, large: map<int, nat>, a: int)
    requires Filed(free, small, large) && a in free
    ensures free[a] <= 8 ==> Filed(free - {a}, small - {a}, large)
    ensures free[a] > 8 ==> Filed(free - {a}, small, large - {a})
  {
    assert FiledAt(small, large, a, free[a]);
    if free[a] <= 8 {
      forall x | x in free - {a} ensures FiledAt(small - {a}, large, x, (free - {a})[x]) {
        assert FiledAt(small, large, x, free[x]);
      }
    } else {
      forall x | x in free - {a} ensures FiledAt(small, large - {a}, x, (free - {a})[x]) {
        assert FiledAt(small, large, x, free[x]);
      }
    }
  }

  /** A small chunk is in the ring that the bitmap marks. */
  lemma {:induction false} SmallMarked(rings: seq<seq<int>>, marks: Word, contents: map<int, nat>, a: int)
    requires SmallOk(rings, marks, contents) && a in contents
    ensures 0 < contents[a] && SmallIndex(contents[a]) < N_SMALL_BINS && marks[SmallIndex(contents[a])]
    ensures SmallIndex2Size(SmallIndex(contents[a])) == contents[a]
  {
    assert FiledOk(rings, contents[a], a);
    var i := SmallIndex(contents[a]);
    assert RingOk(rings[i], marks[i], i, contents);
  }

  /** If the small bins below i but not below that of the request are empty, bin i serves it best. */
  lemma {:induction false} SmallBest(free: map<int, nat>, rings: seq<seq<int>>, marks: Word, small: map<int, nat>,
                                     large: map<int, nat>, k: nat, i: nat, a: int)
    requires Filed(free, small, large) && SmallOk(rings, marks, small)
    requires 2 <= k <= 8 && k - 1 <= i < N_SMALL_BINS && (forall j | k - 1 <= j < i :: !marks[j])
    requires a in small && small[a] == SmallIndex2Size(i)
    ensures BestChunk(free, k, a) && free[a] == i + 1
  {
    assert a in free && FiledAt(small, large, a, free[a]);
    forall x | x in free && k <= free[x] ensures free[a] <= free[x] {
      assert FiledAt(small, large, x, free[x]);
      if free[x] <= 8 { SmallMarked(rings, marks, small, x); }
    }
  }

  /** If the small bins that could serve a request are empty, only large chunks can. */
  lemma {:induction false} NoSmall(free: map<int, nat>, rings: seq<seq<int>>, marks: Word, small: map<int, nat>,
                                   large: map<int, nat>, k: nat, x: int)
    requires Filed(free, small, large) && SmallOk(rings, marks, small) && 2 <= k <= 8
    requires (forall j | k - 1 <= j < 32 :: !marks[j]) && x in free && k <= free[x]
    ensures free[x] > 8
  {
    assert FiledAt(small, large, x, free[x]);
    if free[x] <= 8 { SmallMarked(rings, marks, small, x); }
  }

  /** What is best among the large chunks is best for a request that no small chunk serves. */
  lemma {:induction false} LargeBest(free: map<int, nat>, small: map<int, nat>, m: Mem, k: nat, v: int)
    requires Filed(free, small, Contents(m)) && v in m && 8 * k <= m[v].size
    requires forall x | x in free && k <= free[x] :: free[x] > 8
    ensures v in free && k <= free[v] && free[v] > 8 && m[v].size == 8 * free[v]
    ensures BestChunk(free, k, v) <==> BestFit(m, 8 * k, v)
  {
    assert v in Contents(m) && FiledAt(small, Contents(m), v, free[v]);
    if BestFit(m, 8 * k, v) {
      forall x | x in free && k <= free[x] ensures free[v] <= free[x] {
        assert FiledAt(small, Contents(m), x, free[x]);
      }
    }
    if BestChunk(free, k, v) {
      forall x | x in m && 8 * k <= m[x].size ensures m[v].size <= m[x].size {
        assert x in Contents(m) && FiledAt(small, Contents(m), x, free[x]);
      }
    }
  }

  lemma {:induction false} LargeNone(free: map<int, nat>, small: map<int, nat>, m: Mem, k: nat)
    requires Filed(free, small, Contents(m))
    requires forall x | x in free && k <= free[x] :: free[x] > 8
    requires forall x | x in m :: m[x].size < 8 * k
    ensures NoneFits(free, k)
  {
    forall x | x in free ensures free[x] < k { assert FiledAt(small, Contents(m), x, free[x]); }
  }

  lemma {:induction false} ShelfIs(free: map<int, nat>, small: map<int, nat>, roots: seq<int>, marks: Word, m: Mem,
                                   trees: seq<Tree>, i: nat)
    requires Filed(free, small, Contents(m)) && AllOk(roots, marks, m, trees) && i < N_TREE_BINS
    ensures Shelf(free, i, trees[i])
  {
    BinFacts(roots, marks, m, trees, i);
    var t := trees[i];
    forall s: nat ensures s in Sizes(t) <==> MAX_SMALL_SIZE < s && ComputeTreeIndex(s) == i && Stocked(free, s) {
      if s in Sizes(t) {
        SizeHasChunk(m, roots[i], ROOT_PARENT, i, t, s);
        var a :| a in m && m[a].size == s;
        assert a in Contents(m) && FiledAt(small, Contents(m), a, free[a]);
      }
      if MAX_SMALL_SIZE < s && ComputeTreeIndex(s) == i && Stocked(free, s) {
        var a :| a in free && 8 * free[a] == s;
        assert FiledAt(small, Contents(m), a, free[a]) && NodeOk(a, m[a]);
      }
    }
  }

  /** The search of the small bins: the bin of the request, or the least non-empty one above. */
  method FindSmallBin(smallmap: Word, idx: nat) returns (i: nat)
    requires idx < N_SMALL_BINS
    ensures i < 32 ==> idx <= i && smallmap[i] && forall j | idx <= j < i :: !smallmap[j]
    ensures i >= 32 ==> forall j | idx <= j < 32 :: !smallmap[j]
  {
    ShiftedSearch(smallmap, idx);
    NextMarked(smallmap, idx);
    var smallbits := Shr(smallmap, idx);
    if smallbits[0] {
      return idx;
    }
    if smallbits != ZERO {
      return Ctz(IsolateLeast(And(Shl(smallbits, idx), AboveLeast(Idx2Bit(idx)))));
    }
    return 32;
  }

  class FreeLists {
    const small: SmallBins
    const tree: TreeBins
    ghost var free: map<int, nat>

    ghost predicate Valid()
      reads this, small, tree
    {
      small.Valid() && tree.Valid() && Filed(free, small.contents, Contents(tree.nodes))
    }

    constructor ()
      ensures Valid() && free == map[] && fresh(small) && fresh(tree)
    {
      small := new SmallBins();
      tree := new TreeBins();
      free := map[];
    }

    /** insert_chunk */
    method InsertChunk(a: int, size: nat)
      requires Valid() && a !in free && a > ROOT_PARENT && size % 8 == 0 && 16 <= size < 8 * 0x1_0000
      modifies this, small, tree
      ensures Valid() && free == old(free)[a := size / 8]
    {
      FiledInsert(free, small.contents, Contents(tree.nodes), a, size / 8);
      if IsSmall(size) {
        small.InsertSmall(a, size);
      } else {
        tree.InsertLarge(a, size);
      }
      free := free[a := size / 8];
    }

    /** unlink_chunk */
    method UnlinkChunk(a: int, size: nat)
      requires Valid() && a in free && size == 8 * free[a]
      modifies this, small, tree
      ensures Valid() && free == old(free) - {a}
    {
      FiledRemove(free, small.contents, Contents(tree.nodes), a);
      assert FiledAt(small.contents, Contents(tree.nodes), a, free[a]);
      if IsSmall(size) {
        small.UnlinkSmall(a, size);
      } else {
        tree.UnlinkLarge(a);
      }
      free := free - {a};
    }

    lemma {:induction false} Bins()
      requires Valid()
      ensures |tree.trees| == N_TREE_BINS
    {
    }

    /** The search of mspace_malloc_internal: choose a free chunk of at least nb bytes and unlink it. */
    method TakeFit(nb: nat) returns (a: int)
      requires Valid() && nb % 8 == 0 && MIN_CHUNK_SIZE <= nb < WORD
      modifies this, small, tree
      ensures Valid()
      ensures a == NULL <==> NoneFits(old(free), nb / 8)
      ensures a == NULL ==> free == old(free)
      ensures a != NULL ==> a in old(free) && nb / 8 <= old(free)[a] && free == old(free) - {a}
      ensures a != NULL && nb <= MAX_SMALL_SIZE ==> BestChunk(old(free), nb / 8, a)
      ensures a != NULL && nb > MAX_SMALL_SIZE ==>
                BestWhenTight(old(free), nb, old(tree.trees)[ComputeTreeIndex(nb)], a)
    {
      if nb <= MAX_SMALL_SIZE {
        a := TakeSmall(nb);
      } else {
        a := TakeLarge(nb);
      }
    }

    /** For a small request: the bin of its size, or the next small bin with a chunk, or the trees. */
    method TakeSmall(nb: nat) returns (a: int)
      requires Valid() && nb % 8 == 0 && MIN_CHUNK_SIZE <= nb <= MAX_SMALL_SIZE
      modifies this, small, tree
      ensures Valid()
      ensures a == NULL <==> NoneFits(old(free), nb / 8)
      ensures a == NULL ==> free == old(free)
      ensures a != NULL ==> BestChunk(old(free), nb / 8, a) && free == old(free) - {a}
    {
      var i := FindSmallBin(small.smallmap, SmallIndex(nb));
      if i < 32 {
        a := TakeFirst(nb, i);
      } else if tree.treemap != ZERO {
        a := TakeTree(nb);
      } else {
        tree.EmptyMap();
        forall x | x in free && nb / 8 <= free[x] ensures free[x] > 8 {
          NoSmall(free, small.rings, small.smallmap, small.contents, Contents(tree.nodes), nb / 8, x);
        }
        LargeNone(free, small.contents, tree.nodes, nb / 8);
        a := NULL;
      }
    }

    method TakeFirst(ghost nb: nat, i: nat) returns (a: int)
      requires Valid() && nb % 8 == 0 && MIN_CHUNK_SIZE <= nb <= MAX_SMALL_SIZE
      requires SmallIndex(nb) <= i < 32 && small.smallmap[i] && forall j | SmallIndex(nb) <= j < i :: !small.smallmap[j]
      modifies this, small, tree
      ensures Valid() && BestChunk(old(free), nb / 8, a) && free == old(free) - {a} && a != NULL
    {
      a := small.UnlinkFirst(i);
      SmallBest(free, old(small.rings), old(small.smallmap), old(small.contents), Contents(tree.nodes), nb / 8, i, a);
      FiledRemove(free, old(small.contents), Contents(tree.nodes), a);
      free := free - {a};
    }

    method TakeTree(nb: nat) returns (a: int)
      requires Valid() && nb % 8 == 0 && MIN_CHUNK_SIZE <= nb <= MAX_SMALL_SIZE
      requires tree.treemap != ZERO && forall j | SmallIndex(nb) <= j < 32 :: !small.smallmap[j]
      modifies this, small, tree
      ensures Valid() && BestChunk(old(free), nb / 8, a) && free == old(free) - {a} && a != NULL
    {
      a := tree.FindForSmall(nb);
      forall x | x in free && nb / 8 <= free[x] ensures free[x] > 8 {
        NoSmall(free, small.rings, small.smallmap, small.contents, Contents(tree.nodes), nb / 8, x);
      }
      LargeBest(free, small.contents, tree.nodes, nb / 8, a);
      FiledRemove(free, small.contents, Contents(tree.nodes), a);
      tree.UnlinkLarge(a);
      free := free - {a};
    }

    /** For a large request: the trees. */
    method TakeLarge(nb: nat) returns (a: int)
      requires Valid() && nb % 8 == 0 && MAX_SMALL_SIZE < nb < WORD
      modifies this, small, tree
      ensures Valid()
      ensures a == NULL <==> NoneFits(old(free), nb / 8)
      ensures a == NULL ==> free == old(free)
      ensures a != NULL ==> a in old(free) && nb / 8 <= old(free)[a] && free == old(free) - {a}
      ensures a != NULL ==>
                BestWhenTight(old(free), nb, old(tree.trees)[ComputeTreeIndex(nb)], a)
    {
      a := NULL;
      tree.EmptyMap();
      if tree.treemap != ZERO {
        a := tree.FindLarge(nb);
      }
      if a == NULL {
        LargeNone(free, small.contents, tree.nodes, nb / 8);
      } else {
        LargeBest(free, small.contents, tree.nodes, nb / 8, a);
        ShelfIs(free, small.contents, tree.treebins, tree.treemap, tree.nodes, tree.trees, ComputeTreeIndex(nb));
        FiledRemove(free, small.contents, Contents(tree.nodes), a);
        tree.UnlinkLarge(a);
        free := free - {a};
      }
    }
  }
}
