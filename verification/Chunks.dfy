/** Chunk headers: the boundary tags that tile the heap, and the header updates of splitting a chunk,
    merging chunks, and moving a chunk in and out of use.  Everything in the heap is aligned to eight
    bytes, so addresses and sizes count granules of eight bytes here, as the 16-bit compressed sizes of
    the headers do.  A header is one granule; a chunk is named by the address of its header. */
module Chunks {

  const HEAD := 0x1_0000            // values of a 16-bit compressed size
  const MIN_CHUNK := 2              // a header and room for the links of a free chunk

  datatype Header = Header(prevSize: nat, currSize: nat, owner: nat, isSealed: bool,
                           prevInUse: bool, currInUse: bool, claims: nat)

  type Headers = map<int, Header>

  /** cell_next and cell_prev */
  function Next(h: Headers, a: int): (n: int)
    requires a in h
  {
    a + h[a].currSize
  }

  function Prev(h: Headers, a: int): (p: int)
    requires a in h
  {
    a - h[a].prevSize
  }

  // ---------- What the headers say ----------

  /** The sizes at a lead to its neighbours, and theirs back to a. */
  predicate Linked(h: Headers, lo: int, hi: int, a: int)
    requires a in h
  {
    && lo <= a <= hi
    && (a < hi ==> h[a].currSize >= MIN_CHUNK && Next(h, a) in h && h[Next(h, a)].prevSize == h[a].currSize)
    && (lo < a ==> Prev(h, a) in h && Prev(h, a) < a && h[Prev(h, a)].currSize == h[a].prevSize)
    && (a == lo ==> h[a].prevSize == 0)
    && (a == hi ==> h[a].currSize == 1)
  }

  /** Chunks do not overlap. */
  predicate Apart(h: Headers, a: int, b: int)
    requires a in h && b in h
  {
    a < b ==> Next(h, a) <= b
  }

  /** The headers tile the heap from its first chunk at lo to the sentinel at hi. */
  ghost predicate Tiled(h: Headers, lo: int, hi: int)
  {
    && lo in h && hi in h && lo < hi < lo + HEAD
    && (forall a {:trigger Linked(h, lo, hi, a)} | a in h :: Linked(h, lo, hi, a))
    && (forall a, b {:trigger Apart(h, a, b)} | a in h && b in h :: Apart(h, a, b))
  }

  /** Both in-use bits of the boundary after a agree; free chunks carry no owner. */
  predicate FlagsAt(h: Headers, lo: int, hi: int, a: int)
    requires a in h
  {
    && (a < hi ==> Next(h, a) in h && h[Next(h, a)].prevInUse == h[a].currInUse)
    && (a == lo ==> h[a].prevInUse)
    && (a == hi ==> h[a].currInUse && h[a].owner == 0 && h[a].claims == 0)
    && (!h[a].currInUse ==> h[a].owner == 0 && h[a].claims == 0 && !h[a].isSealed)
  }

  ghost predicate Flagged(h: Headers, lo: int, hi: int)
  {
    forall a {:trigger FlagsAt(h, lo, hi, a)} | a in h :: FlagsAt(h, lo, hi, a)
  }

  /** A free chunk is followed by one in use. */
  predicate AloneAt(h: Headers, hi: int, a: int)
    requires a in h
  {
    a < hi && !h[a].currInUse ==> Next(h, a) in h && h[Next(h, a)].currInUse
  }

  ghost predicate Coalesced(h: Headers, hi: int)
  {
    forall a {:trigger AloneAt(h, hi, a)} | a in h :: AloneAt(h, hi, a)
  }

  /** The free chunks and their sizes. */
  function FreeMap(h: Headers): (m: map<int, nat>)
  {
    map a | a in h && !h[a].currInUse :: h[a].currSize
  }

  // ---------- Splitting and merging ----------

  /** A new header lands k granules into the chunk at a; it inherits the in-use status. */
  function Split(h: Headers, a: int, k: nat): (h': Headers)
    requires a in h && Next(h, a) in h && k <= h[a].currSize
  {
    var n := Next(h, a);
    var rest := h[a].currSize - k;
    h[a := h[a].(currSize := k)]
     [a + k := Header(k, rest, 0, false, h[a].currInUse, h[a].currInUse, 0)]
     [n := h[n].(prevSize := rest)]
  }

  /** The header at a is erased and its chunk becomes part of the one before. */
  function Unsplit(h: Headers, a: int): (h': Headers)
    requires a in h && Next(h, a) in h && Prev(h, a) in h
  {
    var p, n := Prev(h, a), Next(h, a);
    var size := h[p].currSize + h[a].currSize;
    h[p := h[p].(currSize := size)][n := h[n].(prevSize := size)] - {a}
  }

  /** mark_in_use, mark_free */
  function SetUse(h: Headers, a: int, inUse: bool): (h': Headers)
    requires a in h && Next(h, a) in h
  {
    var n := Next(h, a);
    h[a := h[a].(currInUse := inUse, isSealed := inUse && h[a].isSealed)][n := h[n].(prevInUse := inUse)]
  }

  lemma {:induction false} SplitLinked(h: Headers, lo: int, hi: int, a: int, k: nat, x: int)
    requires Tiled(h, lo, hi) && a in h && a < hi && 2 <= k <= h[a].currSize - 2
    requires Next(h, a) in h && a + k !in h && x in Split(h, a, k)
    ensures Linked(Split(h, a, k), lo, hi, x)
  {
    var n := Next(h, a);
    assert Linked(h, lo, hi, a) && Linked(h, lo, hi, n) && Apart(h, a, n);
    if x in h {
      assert Linked(h, lo, hi, x);
      assert Apart(h, x, a) && Apart(h, a, x) && Apart(h, x, n);
    }
  }

  lemma {:induction false} SplitApart(h: Headers, lo: int, hi: int, a: int, k: nat, x: int, y: int)
    requires Tiled(h, lo, hi) && a in h && a < hi && 2 <= k <= h[a].currSize - 2
    requires Next(h, a) in h && a + k !in h && x in Split(h, a, k) && y in Split(h, a, k)
    ensures Apart(Split(h, a, k), x, y)
  {
    assert Linked(h, lo, hi, a);
    if x in h && y in h { assert Apart(h, x, y); }
    if x in h { assert Linked(h, lo, hi, x) && Apart(h, x, a) && Apart(h, a, x); }
    if y in h { assert Apart(h, y, a) && Apart(h, a, y); }
  }

  /** Splitting keeps the tiling. */
  lemma {:induction false} SplitTiled(h: Headers, lo: int, hi: int, a: int, k: nat)
    requires Tiled(h, lo, hi) && a in h && a < hi && 2 <= k <= h[a].currSize - 2
    ensures Next(h, a) in h && a + k !in h
    ensures Tiled(Split(h, a, k), lo, hi)
  {
    assert Linked(h, lo, hi, a);
    assert a + k in h ==> Apart(h, a, a + k);
    forall x | x in Split(h, a, k) ensures Linked(Split(h, a, k), lo, hi, x) { SplitLinked(h, lo, hi, a, k, x); }
    forall x, y | x in Split(h, a, k) && y in Split(h, a, k) ensures Apart(Split(h, a, k), x, y) {
      SplitApart(h, lo, hi, a, k, x, y);
    }
  }

  lemma {:induction false} UnsplitLinked(h: Headers, lo: int, hi: int, a: int, x: int)
    requires Tiled(h, lo, hi) && a in h && lo < a < hi
    requires Next(h, a) in h && Prev(h, a) in h && x in Unsplit(h, a)
    ensures Linked(Unsplit(h, a), lo, hi, x)
  {
    var p, n := Prev(h, a), Next(h, a);
    assert Linked(h, lo, hi, a) && Linked(h, lo, hi, n) && Linked(h, lo, hi, p);
    assert Linked(h, lo, hi, x);
    assert Apart(h, x, a) && Apart(h, a, x) && Apart(h, x, n) && Apart(h, x, p) && Apart(h, p, x);
  }

  lemma {:induction false} UnsplitApart(h: Headers, lo: int, hi: int, a: int, x: int, y: int)
    requires Tiled(h, lo, hi) && a in h && lo < a < hi
    requires Next(h, a) in h && Prev(h, a) in h && x in Unsplit(h, a) && y in Unsplit(h, a)
    ensures Apart(Unsplit(h, a), x, y)
  {
    var p, n := Prev(h, a), Next(h, a);
    assert Linked(h, lo, hi, a) && Linked(h, lo, hi, p);
    assert Apart(h, x, y) && Apart(h, a, y) && Apart(h, p, y);
  }

  lemma {:induction false} UnsplitBounds(h: Headers, lo: int, hi: int, a: int)
    requires Tiled(h, lo, hi) && a in h && lo < a < hi
    ensures Next(h, a) in h && Prev(h, a) in h && lo <= Prev(h, a) < a < Next(h, a) <= hi
    ensures lo in Unsplit(h, a) && hi in Unsplit(h, a)
  {
    assert Linked(h, lo, hi, a) && Linked(h, lo, hi, Prev(h, a)) && Linked(h, lo, hi, Next(h, a));
  }

  /** Merging keeps the tiling. */
  lemma {:induction false} UnsplitTiled(h: Headers, lo: int, hi: int, a: int)
    requires Tiled(h, lo, hi) && a in h && lo < a < hi
    ensures Next(h, a) in h && Prev(h, a) in h && lo <= Prev(h, a) < a < Next(h, a) <= hi
    ensures Tiled(Unsplit(h, a), lo, hi)
  {
    hide Linked, Apart;
    UnsplitBounds(h, lo, hi, a);
    forall x | x in Unsplit(h, a) ensures Linked(Unsplit(h, a), lo, hi, x) { UnsplitLinked(h, lo, hi, a, x); }
    forall x, y | x in Unsplit(h, a) && y in Unsplit(h, a) ensures Apart(Unsplit(h, a), x, y) {
      UnsplitApart(h, lo, hi, a, x, y);
    }
  }

  /** Fields other than the sizes do not matter to the tiling. */
  lemma {:induction false} SizesTiled(h: Headers, h': Headers, lo: int, hi: int)
    requires Tiled(h, lo, hi) && h'.Keys == h.Keys
    requires forall a | a in h :: h'[a].currSize == h[a].currSize && h'[a].prevSize == h[a].prevSize
    ensures Tiled(h', lo, hi)
  {
    forall x | x in h' ensures Linked(h', lo, hi, x) { assert Linked(h, lo, hi, x); }
    forall x, y | x in h' && y in h' ensures Apart(h', x, y) { assert Apart(h, x, y); }
  }

  // ---------- Well-formed headers ----------

  ghost predicate Formed(h: Headers, lo: int, hi: int)
  {
    Tiled(h, lo, hi) && Flagged(h, lo, hi) && Coalesced(h, hi)
  }

  lemma {:induction false} FormedAt(h: Headers, lo: int, hi: int, a: int)
    requires Formed(h, lo, hi) && a in h
    ensures Linked(h, lo, hi, a) && FlagsAt(h, lo, hi, a) && AloneAt(h, hi, a)
    ensures a < hi ==> Next(h, a) in h && a + 2 <= Next(h, a) <= hi
    ensures lo < a ==> Prev(h, a) in h && lo <= Prev(h, a) && Next(h, Prev(h, a)) == a
    ensures lo < a ==> h[Prev(h, a)].currInUse == h[a].prevInUse
  {
    assert Linked(h, lo, hi, a) && FlagsAt(h, lo, hi, a) && AloneAt(h, hi, a);
    if a < hi { assert Linked(h, lo, hi, Next(h, a)); }
    if lo < a {
      assert Linked(h, lo, hi, Prev(h, a)) && FlagsAt(h, lo, hi, Prev(h, a));
    }
  }

  // ---------- Taking a free chunk ----------

  /** A free chunk at a is put to use with k granules; a remainder that can stand alone is split off. */
  function Take(h: Headers, a: int, k: nat): (h': Headers)
    requires a in h && Next(h, a) in h && 2 <= k <= h[a].currSize
  {
    if h[a].currSize - k >= 2 then SetUse(Split(h, a, k), a, true) else SetUse(h, a, true)
  }

  lemma {:induction false} TakeAt(h: Headers, lo: int, hi: int, a: int, k: nat, x: int)
    requires Formed(h, lo, hi) && a in h && a < hi && !h[a].currInUse
    requires 2 <= k <= h[a].currSize && Next(h, a) in h && a + k !in h - {Next(h, a)}
    requires x in Take(h, a, k)
    ensures FlagsAt(Take(h, a, k), lo, hi, x) && AloneAt(Take(h, a, k), hi, x)
  {
    var n := Next(h, a);
    FormedAt(h, lo, hi, a);
    FormedAt(h, lo, hi, n);
    if x in h {
      FormedAt(h, lo, hi, x);
      assert Apart(h, x, a) && Apart(h, a, x) && Apart(h, x, n);
    }
  }

  /** Taking a free chunk keeps the headers well formed. */
  lemma {:induction false} TakeFormed(h: Headers, lo: int, hi: int, a: int, k: nat)
    requires Formed(h, lo, hi) && a in h && !h[a].currInUse && 2 <= k <= h[a].currSize
    ensures a < hi && Next(h, a) in h
    ensures Formed(Take(h, a, k), lo, hi)
    ensures h[a].currSize - k >= 2 ==> a + k !in h
  {
    FormedAt(h, lo, hi, a);
    var h' := Take(h, a, k);
    if h[a].currSize - k >= 2 {
      SplitTiled(h, lo, hi, a, k);
      SizesTiled(Split(h, a, k), h', lo, hi);
    } else {
      SizesTiled(h, h', lo, hi);
      assert a + k in h ==> Apart(h, a, a + k);
    }
    forall x | x in h' ensures FlagsAt(h', lo, hi, x) && AloneAt(h', hi, x) { TakeAt(h, lo, hi, a, k, x); }
  }

  /** Taking a free chunk removes it from the free ones, in favour of the remainder split off, if any. */
  lemma {:induction false} TakeFree(h: Headers, lo: int, hi: int, a: int, k: nat)
    requires Formed(h, lo, hi) && a in h && !h[a].currInUse && 2 <= k <= h[a].currSize
    requires a < hi && Next(h, a) in h && (h[a].currSize - k >= 2 ==> a + k !in h)
    ensures FreeMap(Take(h, a, k)) ==
            if h[a].currSize - k >= 2 then (FreeMap(h) - {a})[a + k := h[a].currSize - k]
            else FreeMap(h) - {a}
  {
    hide Formed;
    FormedAt(h, lo, hi, a);
    var h', n := Take(h, a, k), Next(h, a);
    assert h[n].currInUse;
    assert h'.Keys == if h[a].currSize - k >= 2 then h.Keys + {a + k} else h.Keys;
    assert forall x | x in h && x != a :: h'[x].currInUse == h[x].currInUse && h'[x].currSize == h[x].currSize;
  }

  // ---------- Splitting a chunk in use ----------

  lemma {:induction false} SplitAt(h: Headers, lo: int, hi: int, a: int, k: nat, x: int)
    requires Formed(h, lo, hi) && a in h && a < hi && h[a].currInUse
    requires 2 <= k <= h[a].currSize - 2 && Next(h, a) in h && a + k !in h
    requires x in Split(h, a, k)
    ensures FlagsAt(Split(h, a, k), lo, hi, x) && AloneAt(Split(h, a, k), hi, x)
  {
    var n := Next(h, a);
    FormedAt(h, lo, hi, a);
    FormedAt(h, lo, hi, n);
    if x in h {
      FormedAt(h, lo, hi, x);
      assert Apart(h, x, a) && Apart(h, a, x) && Apart(h, x, n);
    }
  }

  lemma {:induction false} SplitFormed(h: Headers, lo: int, hi: int, a: int, k: nat)
    requires Formed(h, lo, hi) && a in h && a < hi && h[a].currInUse && 2 <= k <= h[a].currSize - 2
    ensures Next(h, a) in h && a + k !in h
    ensures Formed(Split(h, a, k), lo, hi)
  {
    SplitTiled(h, lo, hi, a, k);
    var h' := Split(h, a, k);
    forall x | x in h' ensures FlagsAt(h', lo, hi, x) && AloneAt(h', hi, x) { SplitAt(h, lo, hi, a, k, x); }
  }

  lemma {:induction false} SplitFree(h: Headers, a: int, k: nat)
    requires a in h && h[a].currInUse && 2 <= k <= h[a].currSize - 2 && Next(h, a) in h && a + k !in h
    ensures FreeMap(Split(h, a, k)) == FreeMap(h)
  {
    var h' := Split(h, a, k);
    assert h'.Keys == h.Keys + {a + k};
    assert forall x | x in h && x != a :: h'[x].currInUse == h[x].currInUse && h'[x].currSize == h[x].currSize;
  }

  // ---------- Giving a chunk back ----------

  /** Where the free chunk that results from freeing a begins and ends, and its size. */
  function MergeStart(h: Headers, a: int): (s: int)
    requires a in h
  {
    if h[a].prevInUse then a else Prev(h, a)
  }

  function MergeEnd(h: Headers, a: int): (e: int)
    requires a in h && Next(h, a) in h
  {
    var n := Next(h, a);
    if h[n].currInUse then n else Next(h, n)
  }

  function MergeSize(h: Headers, a: int): (k: nat)
    requires a in h && Next(h, a) in h && MergeStart(h, a) in h
  {
    var n := Next(h, a);
    (if h[a].prevInUse then 0 else h[MergeStart(h, a)].currSize) + h[a].currSize +
    (if h[n].currInUse then 0 else h[n].currSize)
  }

  /** The headers that merging erases. */
  function Erased(h: Headers, a: int): (r: set<int>)
    requires a in h && Next(h, a) in h
  {
    (if h[a].prevInUse then {} else {a}) + (if h[Next(h, a)].currInUse then {} else {Next(h, a)})
  }

  /** The chunk in use at a becomes free, one with its free neighbours. */
  function Release(h: Headers, a: int): (h': Headers)
    requires a in h && Next(h, a) in h && MergeStart(h, a) in h && MergeEnd(h, a) in h
  {
    var s, e, k := MergeStart(h, a), MergeEnd(h, a), MergeSize(h, a);
    h[s := h[s].(currSize := k, currInUse := false, isSealed := false)]
     [e := h[e].(prevSize := k, prevInUse := false)] - Erased(h, a)
  }

  lemma {:induction false} ReleaseBounds(h: Headers, lo: int, hi: int, a: int)
    requires Formed(h, lo, hi) && a in h && a < hi
    ensures Next(h, a) in h && MergeStart(h, a) in h && MergeEnd(h, a) in h
    ensures lo <= MergeStart(h, a) <= a < Next(h, a) <= MergeEnd(h, a) <= hi
    ensures MergeEnd(h, a) == MergeStart(h, a) + MergeSize(h, a)
    ensures h[a].prevInUse || (lo < a && !h[MergeStart(h, a)].currInUse)
    ensures h[Next(h, a)].currInUse || Next(h, a) < hi
  {
    FormedAt(h, lo, hi, a);
    FormedAt(h, lo, hi, Next(h, a));
  }

  lemma {:induction false} ReleaseTiled(h: Headers, lo: int, hi: int, a: int)
    requires Formed(h, lo, hi) && a in h && a < hi
    ensures Next(h, a) in h && MergeStart(h, a) in h && MergeEnd(h, a) in h
    ensures Tiled(Release(h, a), lo, hi)
  {
    ReleaseBounds(h, lo, hi, a);
    var n := Next(h, a);
    assert Linked(h, lo, hi, a) && Linked(h, lo, hi, n);
    if h[a].prevInUse && h[n].currInUse {
      SizesTiled(h, Release(h, a), lo, hi);
    } else if h[a].prevInUse {
      UnsplitTiled(h, lo, hi, n);
      SizesTiled(Unsplit(h, n), Release(h, a), lo, hi);
    } else if h[n].currInUse {
      UnsplitTiled(h, lo, hi, a);
      SizesTiled(Unsplit(h, a), Release(h, a), lo, hi);
    } else {
      UnsplitTiled(h, lo, hi, a);
      var h1 := Unsplit(h, a);
      assert n in h1 && Next(h1, n) == Next(h, n) && Prev(h1, n) == Prev(h, a);
      UnsplitTiled(h1, lo, hi, n);
      SizesTiled(Unsplit(h1, n), Release(h, a), lo, hi);
    }
  }

  lemma {:induction false} ReleaseAt(h: Headers, lo: int, hi: int, a: int, x: int)
    requires Formed(h, lo, hi) && a in h && a < hi && h[a].currInUse && h[a].owner == 0 && h[a].claims == 0
    requires Next(h, a) in h && MergeStart(h, a) in h && MergeEnd(h, a) in h && x in Release(h, a)
    ensures FlagsAt(Release(h, a), lo, hi, x) && AloneAt(Release(h, a), hi, x)
  {
    ReleaseBounds(h, lo, hi, a);
    var s, n, e := MergeStart(h, a), Next(h, a), MergeEnd(h, a);
    FormedAt(h, lo, hi, a);
    FormedAt(h, lo, hi, s);
    FormedAt(h, lo, hi, n);
    FormedAt(h, lo, hi, e);
    FormedAt(h, lo, hi, x);
    assert Apart(h, x, s) && Apart(h, x, a) && Apart(h, a, x) && Apart(h, x, n) && Apart(h, n, x) && Apart(h, x, e);
  }

  lemma {:induction false} ReleaseFree(h: Headers, lo: int, hi: int, a: int)
    requires Formed(h, lo, hi) && a in h && a < hi && h[a].currInUse
    requires Next(h, a) in h && MergeStart(h, a) in h && MergeEnd(h, a) in h
    ensures FreeMap(Release(h, a)) ==
            (FreeMap(h) - {MergeStart(h, a), Next(h, a)})[MergeStart(h, a) := MergeSize(h, a)]
  {
    ReleaseBounds(h, lo, hi, a);
    FormedAt(h, lo, hi, a);
    var e := MergeEnd(h, a);
    FormedAt(h, lo, hi, e);
    FormedAt(h, lo, hi, Next(h, a));
  }

  /** Giving a chunk back keeps the headers well formed; the free chunks gain it, one with those it
      merges with. */
  lemma {:induction false} ReleaseFormed(h: Headers, lo: int, hi: int, a: int)
    requires Formed(h, lo, hi) && a in h && a < hi && h[a].currInUse && h[a].owner == 0 && h[a].claims == 0
    ensures Next(h, a) in h && MergeStart(h, a) in h && MergeEnd(h, a) in h
    ensures Formed(Release(h, a), lo, hi)
  {
    ReleaseTiled(h, lo, hi, a);
    var h' := Release(h, a);
    forall x | x in h' ensures FlagsAt(h', lo, hi, x) && AloneAt(h', hi, x) { ReleaseAt(h, lo, hi, a, x); }
  }
}
