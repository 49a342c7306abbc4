/** The state of the heap as a value: headers, shadow marks, non-zero granules, and what each chunk in
    use is used for.  The operations of the allocator are given as functions of this state, and each
    keeps its invariant. */
module HeapState {
  import opened Chunks

  /** The use of a chunk: which allocation it serves, and how much of its body a client may
      hold a capability to.  A chunk that the allocator itself is working on has extent 0. */
  datatype Use = Use(gen: nat, extent: nat)

  datatype Heap = Heap(
    lo: int, hi: int,              // the first header and the sentinel header at the end
    h: Headers,
    use: map<int, Use>,            // chunks in use, sentinel excepted
    waits: map<int, nat>,          // quarantined chunks, with the even epoch they wait for
    marks: set<int>,               // shadow bits, by granule address
    dirty: set<int>)               // granules outside headers that are not zero

  /** The granules from one address up to another. */
  function Granules(from: int, to: int): (s: set<int>) { set g | from <= g < to && Within(g, from, to) }

  predicate Within(g: int, from: int, to: int) { from <= g < to }

  /** How much of the body of a free chunk its list or tree links occupy. */
  function MetaSize(s: nat): (r: nat) { if s <= 8 then 1 else 5 }

  function Meta(a: int, s: nat): (r: set<int>) { Granules(a + 1, a + 1 + MetaSize(s)) }

  /** How much of the body of the chunk at a may be non-zero. */
  function HoldSize(H: Heap, a: int): (r: nat)
    requires a in H.h
  {
    if !H.h[a].currInUse then MetaSize(H.h[a].currSize)
    else if a in H.waits then 1
    else if a in H.use then H.use[a].extent else 0
  }

  function InUse(h: Headers, hi: int): (s: set<int>) { set a | a in h && a < hi && h[a].currInUse }

  predicate UseAt(H: Heap, a: int)
    requires a in H.use && a in H.h
  {
    && 1 + H.use[a].extent <= H.h[a].currSize
    && (a in H.waits ==> H.h[a].owner == 0 && H.h[a].claims == 0 && H.use[a].extent >= 1)
    && (H.use[a].extent == 0 ==> H.h[a].owner == 0 && H.h[a].claims == 0)
  }

  /** Shadow marks of a chunk: its header, and the painted part of its body if it is quarantined. */
  predicate MarksAt(H: Heap, a: int)
    requires a in H.h && (a in H.waits ==> a in H.use)
  {
    && a in H.marks
    && forall g | a < g < Next(H.h, a) ::
         g in H.marks <==> a in H.waits && g < a + 1 + H.use[a].extent
  }

  /** Only the part of a body that may be non-zero is. */
  predicate DirtyAt(H: Heap, a: int)
    requires a in H.h
  {
    a !in H.dirty && forall g | a < g < Next(H.h, a) && g in H.dirty :: g < a + 1 + HoldSize(H, a)
  }

  ghost predicate Uses(H: Heap)
  {
    && H.use.Keys == InUse(H.h, H.hi) && H.waits.Keys <= H.use.Keys
    && forall a {:trigger UseAt(H, a)} | a in H.use :: UseAt(H, a)
  }

  ghost predicate Marks(H: Heap)
  {
    && H.waits.Keys <= H.use.Keys
    && (forall a {:trigger MarksAt(H, a)} | a in H.h :: MarksAt(H, a))
    && (forall g | g in H.marks :: H.lo <= g <= H.hi)
  }

  ghost predicate Zeros(H: Heap)
  {
    && (forall a {:trigger DirtyAt(H, a)} | a in H.h :: DirtyAt(H, a))
    && (forall g | g in H.dirty :: H.lo <= g <= H.hi)
  }

  ghost predicate Inv(H: Heap)
  {
    Formed(H.h, H.lo, H.hi) && Uses(H) && Marks(H) && Zeros(H)
  }

  /** A chunk the allocator is working on: in use, and nothing of it handed out. */
  predicate Held(H: Heap, a: int)
  {
    a in H.use && a !in H.waits && H.use[a].extent == 0
  }

  // ---------- Taking ----------

  function SplitsAt(H: Heap, a: int, k: nat): (b: bool)
    requires a in H.h
  {
    H.h[a].currSize - k >= 2
  }

  /** Put the free chunk at a to use with k granules. */
  function TakeChunk(H: Heap, a: int, k: nat): (H': Heap)
    requires a in H.h && Next(H.h, a) in H.h && 2 <= k <= H.h[a].currSize
  {
    var m := a + k;
    var s := H.h[a].currSize;
    var split := SplitsAt(H, a, k);
    H.(h := Take(H.h, a, k),
       use := H.use[a := Use(0, 0)],
       marks := if split then H.marks + {m} else H.marks,
       dirty := if split then H.dirty - Meta(a, s) + Meta(m, s - k) else H.dirty - Meta(a, s))
  }

  /** A chunk that an operation does not touch keeps its marks and its zeros. */
  predicate SameChunk(H: Heap, H': Heap, x: int)
    requires x in H.h && x in H'.h
  {
    && x < Next(H.h, x)
    && H'.h[x].currSize == H.h[x].currSize && H'.h[x].currInUse == H.h[x].currInUse
    && (x in H'.use <==> x in H.use) && (x in H.use ==> H'.use[x] == H.use[x])
    && (x in H'.waits <==> x in H.waits)
  }

  lemma {:induction false} SameMarks(H: Heap, H': Heap, x: int)
    requires x in H.h && x in H'.h && SameChunk(H, H', x) && (x in H.waits ==> x in H.use)
    requires forall g | x <= g < Next(H.h, x) :: g in H'.marks <==> g in H.marks
    requires MarksAt(H, x)
    ensures MarksAt(H', x)
  {
  }

  lemma {:induction false} SameZeros(H: Heap, H': Heap, x: int)
    requires x in H.h && x in H'.h && SameChunk(H, H', x)
    requires forall g | x <= g < Next(H.h, x) :: g in H'.dirty <==> g in H.dirty
    requires DirtyAt(H, x)
    ensures DirtyAt(H', x)
  {
  }

  ghost predicate CanTake(H: Heap, a: int, k: nat)
  {
    && Inv(H) && a in H.h && a < H.hi && !H.h[a].currInUse && 2 <= k <= H.h[a].currSize
    && Next(H.h, a) in H.h && (SplitsAt(H, a, k) ==> a + k !in H.h)
  }

  lemma {:induction false} TakeMarks(H: Heap, a: int, k: nat)
    requires CanTake(H, a, k)
    ensures Marks(TakeChunk(H, a, k))
  {
    var H' := TakeChunk(H, a, k);
    FormedAt(H.h, H.lo, H.hi, a);
    assert MarksAt(H, a);
    forall x | x in H'.h ensures MarksAt(H', x) {
      if x != a && x in H.h {
        assert MarksAt(H, x) && Apart(H.h, x, a) && Apart(H.h, a, x) && Linked(H.h, H.lo, H.hi, x);
        SameMarks(H, H', x);
      }
    }
  }

  lemma {:induction false} TakeZeros(H: Heap, a: int, k: nat)
    requires CanTake(H, a, k)
    ensures Zeros(TakeChunk(H, a, k))
  {
    var H' := TakeChunk(H, a, k);
    TakenZeros(H, a, k);
    forall x | x in H'.h ensures DirtyAt(H', x) {
      if x != a && x in H.h { TakeOtherZeros(H, a, k, x); }
    }
  }

  lemma {:induction false} TakenZeros(H: Heap, a: int, k: nat)
    requires CanTake(H, a, k)
    ensures var H' := TakeChunk(H, a, k);
            && a in H'.h && DirtyAt(H', a) && (SplitsAt(H, a, k) ==> a + k in H'.h && DirtyAt(H', a + k))
            && (forall g | g in H'.dirty :: H.lo <= g <= H.hi)
  {
    FormedAt(H.h, H.lo, H.hi, a);
    assert DirtyAt(H, a);
  }

  lemma {:induction false} TakeOtherZeros(H: Heap, a: int, k: nat, x: int)
    requires CanTake(H, a, k) && x in H.h && x != a && x in TakeChunk(H, a, k).h
    ensures DirtyAt(TakeChunk(H, a, k), x)
  {
    FormedAt(H.h, H.lo, H.hi, a);
    assert DirtyAt(H, x) && Apart(H.h, x, a) && Apart(H.h, a, x) && Linked(H.h, H.lo, H.hi, x);
    SameZeros(H, TakeChunk(H, a, k), x);
  }

  lemma {:induction false} TakeUses(H: Heap, a: int, k: nat)
    requires CanTake(H, a, k)
    ensures Uses(TakeChunk(H, a, k))
  {
    var H' := TakeChunk(H, a, k);
    assert Linked(H.h, H.lo, H.hi, a) && FlagsAt(H.h, H.lo, H.hi, a);
    assert InUse(H'.h, H.hi) == InUse(H.h, H.hi) + {a};
    forall x | x in H'.use ensures UseAt(H', x) { if x != a { assert UseAt(H, x); } }
  }

  /** Taking a free chunk keeps the invariant. */
  lemma {:induction false} TakeInv(H: Heap, a: int, k: nat)
    requires Inv(H) && a in H.h && !H.h[a].currInUse && 2 <= k <= H.h[a].currSize
    ensures Next(H.h, a) in H.h && a < H.hi
    ensures Inv(TakeChunk(H, a, k))
    ensures Held(TakeChunk(H, a, k), a)
  {
    TakeFormed(H.h, H.lo, H.hi, a, k);
    TakeMarks(H, a, k);
    TakeZeros(H, a, k);
    TakeUses(H, a, k);
  }

  // ---------- Splitting a held chunk ----------

  /** Split the held chunk at a after k granules; both parts are held. */
  function SplitChunk(H: Heap, a: int, k: nat): (H': Heap)
    requires a in H.h && Next(H.h, a) in H.h && k <= H.h[a].currSize
  {
    H.(h := Split(H.h, a, k), use := H.use[a + k := Use(0, 0)], marks := H.marks + {a + k})
  }

  lemma {:induction false} SplitInv(H: Heap, a: int, k: nat)
    requires Inv(H) && Held(H, a) && a in H.h && 2 <= k <= H.h[a].currSize - 2
    ensures Next(H.h, a) in H.h && a + k !in H.h
    ensures Inv(SplitChunk(H, a, k)) && Held(SplitChunk(H, a, k), a) && Held(SplitChunk(H, a, k), a + k)
  {
    assert a in InUse(H.h, H.hi);
    FormedAt(H.h, H.lo, H.hi, a);
    SplitFormed(H.h, H.lo, H.hi, a, k);
    SplitMarks(H, a, k);
    SplitZeros(H, a, k);
    SplitUses(H, a, k);
  }

  lemma {:induction false} SplitMarks(H: Heap, a: int, k: nat)
    requires Inv(H) && Held(H, a) && a in H.h && 2 <= k <= H.h[a].currSize - 2 && a < H.hi
    requires Next(H.h, a) in H.h && a + k !in H.h && Next(H.h, a) <= H.hi && a >= H.lo
    ensures Marks(SplitChunk(H, a, k))
  {
    var H' := SplitChunk(H, a, k);
    assert MarksAt(H, a);
    forall x | x in H'.h ensures MarksAt(H', x) {
      if x != a && x in H.h {
        assert MarksAt(H, x) && Apart(H.h, x, a) && Apart(H.h, a, x) && Linked(H.h, H.lo, H.hi, x);
        SameMarks(H, H', x);
      }
    }
  }

  lemma {:induction false} SplitZeros(H: Heap, a: int, k: nat)
    requires Inv(H) && Held(H, a) && a in H.h && 2 <= k <= H.h[a].currSize - 2 && a < H.hi && H.h[a].currInUse
    requires Next(H.h, a) in H.h && a + k !in H.h
    ensures Zeros(SplitChunk(H, a, k))
  {
    var H' := SplitChunk(H, a, k);
    assert DirtyAt(H, a);
    forall x | x in H'.h ensures DirtyAt(H', x) {
      if x != a && x in H.h {
        assert DirtyAt(H, x) && Apart(H.h, x, a) && Apart(H.h, a, x) && Linked(H.h, H.lo, H.hi, x);
        SameZeros(H, H', x);
      }
    }
  }

  lemma {:induction false} SplitUses(H: Heap, a: int, k: nat)
    requires Inv(H) && Held(H, a) && a in H.h && 2 <= k <= H.h[a].currSize - 2 && a < H.hi && H.h[a].currInUse
    requires Next(H.h, a) in H.h && a + k !in H.h && Next(H.h, a) <= H.hi
    ensures Uses(SplitChunk(H, a, k))
  {
    var H' := SplitChunk(H, a, k);
    assert UseAt(H, a);
    assert InUse(H'.h, H.hi) == InUse(H.h, H.hi) + {a + k};
    forall x | x in H'.use ensures UseAt(H', x) { if x in H.use { assert UseAt(H, x); } }
  }

  // ---------- Giving a held chunk back ----------

  /** The links of the chunks that merge are cleared, and those of the resulting chunk written. */
  function ReleasedDirty(h: Headers, a: int, dirty: set<int>): (d: set<int>)
    requires a in h && Next(h, a) in h && MergeStart(h, a) in h
  {
    var s, n := MergeStart(h, a), Next(h, a);
    var d1 := if h[a].prevInUse then dirty else dirty - Meta(s, h[s].currSize);
    var d2 := if h[n].currInUse then d1 else d1 - Meta(n, h[n].currSize);
    d2 + Meta(s, MergeSize(h, a))
  }

  /** Free the held chunk at a without quarantine. */
  function ReleaseChunk(H: Heap, a: int): (H': Heap)
    requires a in H.h && Next(H.h, a) in H.h && MergeStart(H.h, a) in H.h && MergeEnd(H.h, a) in H.h
  {
    H.(h := Release(H.h, a), use := H.use - {a}, marks := H.marks - Erased(H.h, a),
       dirty := ReleasedDirty(H.h, a, H.dirty))
  }

  ghost predicate CanRelease(H: Heap, a: int)
  {
    && Inv(H) && Held(H, a) && a in H.h && a < H.hi && H.h[a].currInUse && H.h[a].owner == 0 && H.h[a].claims == 0
    && Next(H.h, a) in H.h && MergeStart(H.h, a) in H.h && MergeEnd(H.h, a) in H.h
  }

  lemma {:induction false} ReleaseInv(H: Heap, a: int)
    requires Inv(H) && Held(H, a)
    ensures CanRelease(H, a)
    ensures Inv(ReleaseChunk(H, a))
  {
    assert a in InUse(H.h, H.hi) && UseAt(H, a);
    ReleaseBounds(H.h, H.lo, H.hi, a);
    ReleaseFormed(H.h, H.lo, H.hi, a);
    ReleaseMarks(H, a);
    ReleaseZeros(H, a);
    ReleaseUses(H, a);
  }

  /** A chunk away from the ones that merge keeps its header size, use and place. */
  lemma {:induction false} ReleaseOthers(H: Heap, a: int, x: int)
    requires CanRelease(H, a) && x in Release(H.h, a) && x != MergeStart(H.h, a)
    ensures x in H.h && SameChunk(H, ReleaseChunk(H, a), x)
    ensures Next(H.h, x) <= MergeStart(H.h, a) || MergeEnd(H.h, a) <= x
  {
    ReleaseBounds(H.h, H.lo, H.hi, a);
    var s, n, e := MergeStart(H.h, a), Next(H.h, a), MergeEnd(H.h, a);
    FormedAt(H.h, H.lo, H.hi, a);
    FormedAt(H.h, H.lo, H.hi, s);
    FormedAt(H.h, H.lo, H.hi, n);
    assert Linked(H.h, H.lo, H.hi, x);
    assert Apart(H.h, x, s) && Apart(H.h, s, x) && Apart(H.h, a, x) && Apart(H.h, n, x);
  }

  lemma {:induction false} ReleaseMarks(H: Heap, a: int)
    requires CanRelease(H, a)
    ensures Marks(ReleaseChunk(H, a))
  {
    var H' := ReleaseChunk(H, a);
    var s, n, e := MergeStart(H.h, a), Next(H.h, a), MergeEnd(H.h, a);
    ReleaseBounds(H.h, H.lo, H.hi, a);
    FormedAt(H.h, H.lo, H.hi, a);
    assert MarksAt(H, a) && MarksAt(H, s) && MarksAt(H, n);
    forall x | x in H'.h ensures MarksAt(H', x) {
      if x != s {
        ReleaseOthers(H, a, x);
        assert MarksAt(H, x);
        SameMarks(H, H', x);
      }
    }
  }

  lemma {:induction false} ReleaseZeros(H: Heap, a: int)
    requires CanRelease(H, a)
    ensures Zeros(ReleaseChunk(H, a))
  {
    var H' := ReleaseChunk(H, a);
    ReleasedZeros(H, a);
    forall x | x in H'.h ensures DirtyAt(H', x) {
      if x != MergeStart(H.h, a) { ReleaseOtherZeros(H, a, x); }
    }
  }

  lemma {:induction false} ReleasedZeros(H: Heap, a: int)
    requires CanRelease(H, a)
    ensures var H' := ReleaseChunk(H, a); var s := MergeStart(H.h, a);
            s in H'.h && DirtyAt(H', s) && forall g | g in H'.dirty :: H.lo <= g <= H.hi
  {
    var s, n, e := MergeStart(H.h, a), Next(H.h, a), MergeEnd(H.h, a);
    ReleaseBounds(H.h, H.lo, H.hi, a);
    FormedAt(H.h, H.lo, H.hi, a);
    assert DirtyAt(H, a) && DirtyAt(H, s) && DirtyAt(H, n);
  }

  lemma {:induction false} ReleaseOtherZeros(H: Heap, a: int, x: int)
    requires CanRelease(H, a) && x in Release(H.h, a) && x != MergeStart(H.h, a)
    ensures DirtyAt(ReleaseChunk(H, a), x)
  {
    ReleaseOthers(H, a, x);
    ReleaseBounds(H.h, H.lo, H.hi, a);
    FormedAt(H.h, H.lo, H.hi, a);
    assert DirtyAt(H, x);
    SameZeros(H, ReleaseChunk(H, a), x);
  }

  lemma {:induction false} ReleaseUses(H: Heap, a: int)
    requires CanRelease(H, a)
    ensures Uses(ReleaseChunk(H, a))
  {
    var H' := ReleaseChunk(H, a);
    ReleaseBounds(H.h, H.lo, H.hi, a);
    FormedAt(H.h, H.lo, H.hi, a);
    assert InUse(H'.h, H.hi) == InUse(H.h, H.hi) - {a};
    forall x | x in H'.use ensures UseAt(H', x) { assert UseAt(H, x); }
  }

  // ---------- Handing out, quarantine and back ----------

  /** Hand the held chunk at a out for allocation gen: extent granules of its body. */
  function Grant(H: Heap, a: int, gen: nat, extent: nat, owner: nat, isSealed: bool): (H': Heap)
    requires a in H.h
  {
    H.(h := H.h[a := H.h[a].(owner := owner, isSealed := isSealed)], use := H.use[a := Use(gen, extent)])
  }

  /** A chunk in use that is not the allocator's own nor in quarantine. */
  predicate Live(H: Heap, a: int)
  {
    a in H.use && a !in H.waits && H.use[a].extent >= 1
  }

  /** Paint, clear and quarantine the live chunk at a, until a sweep after epoch w has ended. */
  function Quarantine(H: Heap, a: int, w: nat): (H': Heap)
    requires a in H.use
  {
    var body := Granules(a + 1, a + 1 + H.use[a].extent);
    H.(waits := H.waits[a := w], marks := H.marks + body, dirty := H.dirty - body + {a + 1})
  }

  /** Unpaint the quarantined chunk at a and clear its link; it is held again. */
  function Unquarantine(H: Heap, a: int): (H': Heap)
    requires a in H.h
  {
    H.(waits := H.waits - {a}, use := H.use[a := Use(0, 0)],
       marks := H.marks - Granules(a + 1, Next(H.h, a)), dirty := H.dirty - {a + 1})
  }

  /** Set the owner and the claims of the live chunk at a. */
  function SetHolder(H: Heap, a: int, owner: nat, claims: nat): (H': Heap)
    requires a in H.h
  {
    H.(h := H.h[a := H.h[a].(owner := owner, claims := claims)])
  }

  /** A store to granule g. */
  function Store(H: Heap, g: int): (H': Heap) { H.(dirty := H.dirty + {g}) }

  /** Only fields of the chunk in use at a that say nothing about its size or use change. */
  lemma {:induction false} FieldsFormed(h: Headers, lo: int, hi: int, a: int, c: Header)
    requires Formed(h, lo, hi) && a in h && a < hi && h[a].currInUse
    requires c.prevSize == h[a].prevSize && c.currSize == h[a].currSize && c.prevInUse == h[a].prevInUse && c.currInUse
    ensures Formed(h[a := c], lo, hi)
  {
    var h' := h[a := c];
    SizesTiled(h, h', lo, hi);
    forall x | x in h' ensures FlagsAt(h', lo, hi, x) && AloneAt(h', hi, x) {
      assert FlagsAt(h, lo, hi, x) && AloneAt(h, hi, x);
    }
  }

  lemma {:induction false} InUseFields(h: Headers, hi: int, a: int, c: Header)
    requires a in h && a < hi && h[a].currInUse && c.currInUse
    ensures InUse(h[a := c], hi) == InUse(h, hi)
  {
  }

  lemma {:induction false} GrantAt(H: Heap, a: int, gen: nat, extent: nat, owner: nat, isSealed: bool, x: int)
    requires Inv(H) && Held(H, a) && a in H.h && 1 <= extent < H.h[a].currSize
    ensures var H' := Grant(H, a, gen, extent, owner, isSealed);
            (x in H'.use ==> UseAt(H', x)) && (x in H'.h ==> MarksAt(H', x) && DirtyAt(H', x))
  {
    hide Formed;
    if x in H.use { assert UseAt(H, x); }
    if x in H.h { assert MarksAt(H, x) && DirtyAt(H, x); }
  }

  lemma {:induction false} GrantInv(H: Heap, a: int, gen: nat, extent: nat, owner: nat, isSealed: bool)
    requires Inv(H) && Held(H, a) && a in H.h && 1 <= extent < H.h[a].currSize
    ensures Inv(Grant(H, a, gen, extent, owner, isSealed)) && Live(Grant(H, a, gen, extent, owner, isSealed), a)
  {
    hide Formed, UseAt, MarksAt, DirtyAt;
    var H' := Grant(H, a, gen, extent, owner, isSealed);
    assert a in InUse(H.h, H.hi);
    FieldsFormed(H.h, H.lo, H.hi, a, H'.h[a]);
    InUseFields(H.h, H.hi, a, H'.h[a]);
    forall x ensures x in H'.use ==> UseAt(H', x) { GrantAt(H, a, gen, extent, owner, isSealed, x); }
    forall x | x in H'.h ensures MarksAt(H', x) && DirtyAt(H', x) { GrantAt(H, a, gen, extent, owner, isSealed, x); }
  }

  lemma {:induction false} SetHolderInv(H: Heap, a: int, owner: nat, claims: nat)
    requires Inv(H) && Live(H, a)
    ensures a in H.h && Inv(SetHolder(H, a, owner, claims)) && Live(SetHolder(H, a, owner, claims), a)
  {
    assert a in InUse(H.h, H.hi);
    var H' := SetHolder(H, a, owner, claims);
    FieldsFormed(H.h, H.lo, H.hi, a, H'.h[a]);
    InUseFields(H.h, H.hi, a, H'.h[a]);
    forall x | x in H'.use ensures UseAt(H', x) { assert UseAt(H, x); }
    forall x | x in H'.h ensures MarksAt(H', x) { assert MarksAt(H, x); }
    forall x | x in H'.h ensures DirtyAt(H', x) { assert DirtyAt(H, x); }
  }

  lemma {:induction false} QuarantineMarks(H: Heap, a: int, w: nat)
    requires Inv(H) && Live(H, a) && a in H.h
    ensures Marks(Quarantine(H, a, w))
  {
    var H' := Quarantine(H, a, w);
    assert a in InUse(H.h, H.hi) && UseAt(H, a);
    FormedAt(H.h, H.lo, H.hi, a);
    assert MarksAt(H, a);
    forall x | x in H'.h ensures MarksAt(H', x) {
      assert MarksAt(H, x);
      if x != a {
        assert Apart(H.h, x, a) && Apart(H.h, a, x) && Linked(H.h, H.lo, H.hi, x);
        SameMarks(H, H', x);
      }
    }
  }

  lemma {:induction false} QuarantineZeros(H: Heap, a: int, w: nat)
    requires Inv(H) && Live(H, a) && a in H.h
    ensures Zeros(Quarantine(H, a, w))
  {
    var H' := Quarantine(H, a, w);
    assert a in InUse(H.h, H.hi) && UseAt(H, a);
    FormedAt(H.h, H.lo, H.hi, a);
    assert DirtyAt(H, a);
    forall x | x in H'.h ensures DirtyAt(H', x) {
      assert DirtyAt(H, x);
      if x != a {
        assert Apart(H.h, x, a) && Apart(H.h, a, x) && Linked(H.h, H.lo, H.hi, x);
        SameZeros(H, H', x);
      }
    }
  }

  /** Freeing a chunk into quarantine keeps the invariant. */
  lemma {:induction false} QuarantineInv(H: Heap, a: int, w: nat)
    requires Inv(H) && Live(H, a) && a in H.h && H.h[a].owner == 0 && H.h[a].claims == 0
    ensures Inv(Quarantine(H, a, w))
  {
    QuarantineMarks(H, a, w);
    QuarantineZeros(H, a, w);
    forall x | x in H.use ensures UseAt(Quarantine(H, a, w), x) { assert UseAt(H, x); }
  }

  lemma {:induction false} UnquarantineMarks(H: Heap, a: int)
    requires Inv(H) && a in H.waits && a in H.h
    ensures Marks(Unquarantine(H, a))
  {
    var H' := Unquarantine(H, a);
    assert a in InUse(H.h, H.hi) && UseAt(H, a);
    FormedAt(H.h, H.lo, H.hi, a);
    assert MarksAt(H, a);
    forall x | x in H'.h ensures MarksAt(H', x) {
      assert MarksAt(H, x);
      if x != a {
        assert Apart(H.h, x, a) && Apart(H.h, a, x) && Linked(H.h, H.lo, H.hi, x);
        SameMarks(H, H', x);
      }
    }
  }

  lemma {:induction false} UnquarantineZeros(H: Heap, a: int)
    requires Inv(H) && a in H.waits && a in H.h
    ensures Zeros(Unquarantine(H, a))
  {
    var H' := Unquarantine(H, a);
    assert a in InUse(H.h, H.hi) && UseAt(H, a);
    FormedAt(H.h, H.lo, H.hi, a);
    assert DirtyAt(H, a);
    forall x | x in H'.h ensures DirtyAt(H', x) {
      assert DirtyAt(H, x);
      if x != a {
        assert Apart(H.h, x, a) && Apart(H.h, a, x) && Linked(H.h, H.lo, H.hi, x);
        SameZeros(H, H', x);
      }
    }
  }

  /** Taking a chunk out of quarantine keeps the invariant. */
  lemma {:induction false} UnquarantineInv(H: Heap, a: int)
    requires Inv(H) && a in H.waits
    ensures a in H.h && Inv(Unquarantine(H, a)) && Held(Unquarantine(H, a), a)
  {
    assert a in InUse(H.h, H.hi) && UseAt(H, a);
    FormedAt(H.h, H.lo, H.hi, a);
    UnquarantineMarks(H, a);
    UnquarantineZeros(H, a);
    forall x | x in H.use ensures UseAt(Unquarantine(H, a), x) { assert UseAt(H, x); }
  }

  lemma {:induction false} StoreInv(H: Heap, a: int, g: int)
    requires Inv(H) && Live(H, a) && a < g < a + 1 + H.use[a].extent
    ensures Inv(Store(H, g))
  {
    var H' := Store(H, g);
    StoreZeros(H, a, g);
    forall x | x in H'.use ensures UseAt(H', x) { assert UseAt(H, x); }
    forall x | x in H'.h ensures MarksAt(H', x) { assert MarksAt(H, x); }
  }

  lemma {:induction false} StoreZeros(H: Heap, a: int, g: int)
    requires Inv(H) && Live(H, a) && a < g < a + 1 + H.use[a].extent
    ensures Zeros(Store(H, g))
  {
    var H' := Store(H, g);
    assert a in InUse(H.h, H.hi) && UseAt(H, a);
    FormedAt(H.h, H.lo, H.hi, a);
    forall x | x in H'.h ensures DirtyAt(H', x) {
      assert DirtyAt(H, x) && Apart(H.h, x, a) && Apart(H.h, a, x);
    }
  }

  // ---------- What the invariant says ----------

  /** Every address of the heap belongs to exactly one chunk. */
  lemma {:induction false} ChunkOf(h: Headers, lo: int, hi: int, g: int, from: int) returns (a: int)
    requires Tiled(h, lo, hi) && from in h && from <= g <= hi
    ensures a in h && a <= g < Next(h, a)
    ensures forall b | b in h && b <= g < Next(h, b) :: b == a
    decreases hi - from
  {
    assert Linked(h, lo, hi, from);
    if g < Next(h, from) {
      a := from;
      forall b | b in h && b <= g < Next(h, b) ensures b == a { assert Apart(h, a, b) && Apart(h, b, a); }
    } else {
      assert Linked(h, lo, hi, Next(h, from));
      a := ChunkOf(h, lo, hi, g, Next(h, from));
    }
  }

  /** The body of a held chunk is all zero and unmarked: whatever is handed out next is. */
  lemma {:induction false} HeldIsZero(H: Heap, a: int, g: int)
    requires Inv(H) && Held(H, a) && a in H.h && a < g < Next(H.h, a)
    ensures g !in H.dirty && g !in H.marks && g !in H.h
  {
    assert a in InUse(H.h, H.hi);
    assert MarksAt(H, a) && DirtyAt(H, a);
    assert g in H.h ==> Apart(H.h, a, g);
  }
}
