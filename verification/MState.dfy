/** The allocator state: headers, free lists, quarantine and size counters, updated in place.  Each
    method is a sequence of the steps of the world that it keeps in order. */
module MState {
  import opened SizeBits
  import opened Trie
  import opened Chunks
  import opened HeapState
  import opened Accounts
  import opened Revoker
  import opened Quarantine
  import opened FreeLists
  import opened World
  import Runs
  import opened Steps
  import opened Bounds

  /** A request that leaves room for its header and padding has a chunk size in 32 bits. */
  lemma {:induction false} RequestFits(bytes: nat)
    requires bytes + 24 < WORD
    ensures var nb := ChunkBytes(bytes);
            && nb % 8 == 0 && MIN_CHUNK_SIZE <= nb < WORD && 16 <= nb
            && (nb <= MAX_SMALL_SIZE <==> bytes <= MAX_SMALL_REQUEST)
  {
  }

  /** The chunk size that mspace_memalign looks for, in bytes. */
  function Needed(bytes: nat, alignment: nat): (nb: nat)
  {
    if alignment <= 8 then ChunkBytes(bytes) else ChunkBytes(PadRequest(bytes) + alignment + 16)
  }

  lemma {:induction false} NeededIs(bytes: nat, alignment: nat)
    requires 0 < bytes && bytes + alignment + 64 < WORD && (alignment <= 8 || alignment % 8 == 0)
    ensures alignment <= 8 ==> Needed(bytes, alignment) == ChunkBytes(bytes)
    ensures alignment > 8 ==> Needed(bytes, alignment) == ChunkBytes(PadRequest(bytes) + alignment + 16)
    ensures alignment > 8 ==> Needed(bytes, alignment) == PadRequest(bytes) + alignment + 24
    ensures NULL == 0 && ChunkBytes(bytes) % 8 == 0 && PadRequest(bytes) % 8 == 0
    ensures 16 <= PadRequest(bytes) <= bytes + 16
  {
  }

  datatype AllocationResult =
    | FailurePermanent
    | FailureRevocationNeeded(waitingEpoch: nat)
    | FailureQuotaExceeded
    | FailureHeapFull
    | Allocated(chunk: int, length: nat)

  /** The bytes of the heap, the sentinel included. */
  function HeapBytes(H: Heap): (n: int) { 8 * (H.hi + 1 - H.lo) }

  /** What mspace_dispatch reports when there is no chunk for a rounded request: to wait for the label at the
      head cursor exactly if something is in quarantine and what is free or there would do; otherwise, that it
      is of no use to wait exactly if the request with its header is larger than the heap. */
  ghost predicate Refused(W: World, alignSize: nat, epoch: nat, r: AllocationResult)
  {
    var need := alignSize + HEADER_SIZE;
    var wait := W.H.waits != map[] && need <= Walked(W.H, FreeMap(W.H.h).Keys + W.H.waits.Keys);
    && (r.FailureRevocationNeeded? <==> wait) && (wait ==> r == FailureRevocationNeeded(epoch))
    && (r.FailurePermanent? <==> !wait && HeapBytes(W.H) < need)
    && (r.FailureHeapFull? <==> !wait && need <= HeapBytes(W.H))
  }

  /** No free chunk is big enough for a request. */
  ghost predicate Unmet(W: World, bytes: nat)
  {
    NoneFits(FreeMap(W.H.h), Needed(AlignSize(bytes), Unit(bytes)) / 8)
  }

  /** The chunk at chunk was free and big enough, and what was put to use of it has size bytes. */
  ghost predicate Picked(free: map<int, nat>, bytes: nat, alignment: nat, chunk: int, size: nat)
  {
    var k := Needed(bytes, alignment) / 8;
    && chunk in free && k <= free[chunk]
    && size == (if alignment <= 8 then 8 * TakenSize(free, k, chunk) else PadRequest(bytes))
    && (alignment <= 8 && bytes <= MAX_SMALL_REQUEST ==> BestChunk(free, k, chunk))
  }

  /** An attempt to allocate: what it came to, the state after the initial dequeue, and the free chunk chosen
      in it with the size of what was put to use of it, if any. */
  datatype Attempt = Attempt(r: AllocationResult, mid: World, chunk: int, size: nat)

  /** Out of n chunks in quarantine, k have left, or nothing that could have left is there any more. */
  ghost predicate Reclaimed(n: nat, k: nat, W: World, q: Queue)
  {
    |W.H.waits| + k == n || (q.finished == [] && (q.timely ==> Unfinished(q, W.p.sweeps)))
  }

  /** What a request in state W comes to, which leads to state W' with quarantine q. */
  ghost predicate Decided(bytes: nat, quota: nat, W: World, W': World, q: Queue, try: Attempt)
  {
    var alignSize := AlignSize(bytes);
    if alignSize == 0 || HeapBytes(W.H) < alignSize then try.r == FailurePermanent && W' == W
    else if alignSize > quota then try.r == FailureQuotaExceeded && W' == W
    else
      && Reclaimed(|W.H.waits|, 4, try.mid, q)
      && if Unmet(try.mid, bytes) then
           Kicked(try.mid, W', try.mid.H.waits != map[]) && Refused(W', alignSize, HeadLabel(q), try.r)
         else
           && Picked(FreeMap(try.mid.H.h), alignSize, Unit(bytes), try.chunk, try.size)
           && (try.size == alignSize + 8 || (Unit(bytes) <= 8 && try.size == alignSize + 16))
           && if try.size > quota then try.r == FailureQuotaExceeded else try.r.Allocated?
  }

  /** A label that a failed allocation reports: that of the eldest pending chunks exactly if some ring is
      pending, and none is exactly if everything in quarantine is on the finished ring. */
  ghost predicate Reported(q: Queue, waits: map<int, nat>, epoch: nat)
  {
    && (IsEldest(q, waits, epoch) <==> !q.empty)
    && (q.empty <==> forall a | a in waits :: a in q.finished)
  }

  /** Not even an empty heap of this size has a chunk for the request. */
  ghost predicate Hopeless(H: Heap, bytes: nat)
  {
    H.lo < H.hi && NoneFits(FreeMap(Make(H.lo, H.hi)), Needed(AlignSize(bytes), Unit(bytes)) / 8)
  }

  lemma {:induction false} HopelessIs(H: Heap, bytes: nat)
    requires H.lo < H.hi
    ensures Hopeless(H, bytes) <==> HeapBytes(H) < Needed(AlignSize(bytes), Unit(bytes)) + 8
    ensures AlignSize(bytes) + HEADER_SIZE <= Needed(AlignSize(bytes), Unit(bytes))
  {
    hide AlignSize, Unit, FreeMap, Make;
    EmptyFree(H.lo, H.hi);
    assert H.lo in FreeMap(Make(H.lo, H.hi));
  }

  lemma {:induction false} EmptyFree(lo: int, hi: int)
    requires lo < hi
    ensures FreeMap(Make(lo, hi)) == map[lo := hi - lo]
  {
  }

  /** Then no state of the heap ever has one. */
  lemma {:induction false} NeverMet(W: World, bytes: nat)
    requires Ok(W) && Hopeless(W.H, bytes)
    ensures Unmet(W, bytes)
  {
    hide AlignSize, Unit, Needed;
    EmptyFree(W.H.lo, W.H.hi);
    assert W.H.lo in FreeMap(Make(W.H.lo, W.H.hi));
    forall x | x in FreeMap(W.H.h) ensures FreeMap(W.H.h)[x] <= W.H.hi - W.H.lo { FormedAt(W.H.h, W.H.lo, W.H.hi, x); }
  }

  /** A failure is reported as permanent only if the request, unless it is empty or too long to represent, can
      never be met.  The converse fails exactly if the heap is as large as the request with one header, but not
      large enough for the chunk that is looked for and the sentinel. */
  lemma {:induction false} PermanentMeans(bytes: nat, quota: nat, W: World, W': World, q: Queue, try: Attempt)
    requires Decided(bytes, quota, W, W', q, try) && W.H.lo < W.H.hi && W'.H.lo == W.H.lo && W'.H.hi == W.H.hi
    ensures try.r.FailurePermanent? ==> AlignSize(bytes) == 0 || Hopeless(W.H, bytes)
    ensures try.r.FailurePermanent? || try.r.FailureHeapFull? ==>
              var s := AlignSize(bytes);
              s == 0 || ((try.r.FailurePermanent? <==> Hopeless(W.H, bytes)) <==>
                         !(s + HEADER_SIZE <= HeapBytes(W.H) < Needed(s, Unit(bytes)) + 8))
  {
    hide AlignSize, Unit, Needed, Kicked, Picked, Reclaimed, Unmet, Walked, FreeMap, Hopeless;
    HopelessIs(W.H, bytes);
  }

  /** An instance: an empty heap of 1024 bytes answers a request for 1016 with the advice to wait until
      something is freed. */
  lemma {:induction false} FullForever(epoch: nat)
    ensures var W := FirstWorld(2, 129, []);
            && Ok(W) && LiveMap(W.H) == map[] && HeapBytes(W.H) == 1024 && AlignSize(1016) == 1016
            && Unmet(W, 1016) && Hopeless(W.H, 1016) && Refused(W, 1016, epoch, FailureHeapFull)
  {
    Request1016();
    hide AlignSize, Unit, Needed;
    FirstWorldOk(2, 129, []);
    HopelessIs(FirstHeap(2, 129), 1016);
    NeverMet(FirstWorld(2, 129, []), 1016);
    hide Walked;
  }

  lemma {:induction false} Request1016()
    ensures AlignSize(1016) == 1016 && Unit(1016) == 2 && Needed(1016, 2) == 1024
  {
    assert ExponentFrom(1016, 1) == 1;
    assert Exponent(1016) == 1;
    assert RoundUp(1016, 1) == 1016;
  }

  /** What mspace_dispatch asks mspace_memalign for when the rounded request fits the heap. */
  lemma {:induction false} RequestIs(bytes: nat)
    requires bytes < WORD && 0 < AlignSize(bytes) <= 8 * HEAD
    ensures var s, u := AlignSize(bytes), Unit(bytes);
            && 0 < u && (u <= 8 || u % 8 == 0) && s + u + 64 < WORD && s % 8 == 0
            && (u <= 8 <==> Exponent(bytes) <= 3) && ChunkBytes(s) == PadRequest(s) == s + 8
    ensures NULL == 0
  {
    hide AlignSize, Exponent, Pow2, Multiple, ChunkBytes, PadRequest;
    AlignSizeIs(bytes);
    SmallUnit(Exponent(bytes));
    PadExact(AlignSize(bytes));
  }

  lemma {:induction false} SmallUnit(e: nat)
    requires e <= MAX_EXPONENT
    ensures 0 < Pow2(e) <= 0x4000 && (Pow2(e) <= 8 <==> e <= 3) && (Pow2(e) <= 8 || Pow2(e) % 8 == 0)
  {
    Powers();
    Pow2Monotone(e, MAX_EXPONENT);
    if e <= 3 {
      Pow2Monotone(e, 3);
    } else {
      Pow2Monotone(4, e);
      Pow2Add(3, e - 3);
    }
  }

  lemma {:induction false} PadExact(s: nat)
    requires s % 8 == 0 && s > 0
    ensures ChunkBytes(s) == PadRequest(s) == s + 8
  {
  }

  /** The body that mspace_dispatch got, and how much of it is handed out. */
  lemma {:induction false} BodyIs(bytes: nat, a: int, size: nat)
    requires bytes < WORD && 0 < AlignSize(bytes) <= 8 * HEAD && a > 0 && size > 0
    requires Unit(bytes) <= 8 ==> 8 * size == AlignSize(bytes) + 8 || 8 * size == AlignSize(bytes) + 16
    requires Unit(bytes) > 8 ==> 8 * size == AlignSize(bytes) + 8 && (8 * (a + 1)) % Unit(bytes) == 0
    ensures var base, body := 8 * (a + 1), 8 * size - 8; var l := BodyLength(base, body);
            && l == (if IsPreciseRange(base, body) then body else AlignSize(bytes)) && IsPreciseRange(base, l)
            && bytes <= l <= body && l % 8 == 0 && 1 <= l / 8 < size
            && (l != body <==> body == AlignSize(bytes) + 8 && body == 4096 && base % 16 != 0)
  {
    hide AlignSize, Exponent, IsPreciseRange, Multiple, BodyLength, Unit, Pow2, ChunkBytes, PadRequest;
    RequestIs(bytes);
    var base, body := 8 * (a + 1), 8 * size - 8;
    BaseIs(bytes, a);
    HandedOut(bytes, base, body);
    var l := BodyLength(base, body);
    assert l <= 8 * (size - 1) && l == 8 * (l / 8);
  }

  lemma {:induction false} BaseIs(bytes: nat, a: int)
    requires a >= 0
    ensures var base := 8 * (a + 1);
            && Multiple(3, base) && (Multiple(4, base) <==> base % 16 == 0)
            && (base % Unit(bytes) == 0 ==> Multiple(Exponent(bytes), base))
  {
    hide Pow2, Exponent, Multiple, RoundDown;
    var base := 8 * (a + 1);
    EightTimes(a + 1);
    Eights(base);
    if base % Unit(bytes) == 0 { UnitMultiple(bytes, base); }
  }

  lemma {:induction false} EightTimes(k: int)
    ensures (8 * k) % 8 == 0
  {
  }

  lemma {:induction false} UnitMultiple(bytes: nat, base: nat)
    requires base % Unit(bytes) == 0
    ensures Multiple(Exponent(bytes), base)
  {
    hide Pow2, Exponent, Multiple, RoundDown;
    MultipleIsMod(Exponent(bytes), base);
  }

  class MState {
    const lo: int                  // the first header
    const hi: int                  // the sentinel header
    const lists: FreeLists
    const quarantine: Quarantine
    const revoker: Revoker
    var h: Headers
    var dirty: set<int>            // granules outside headers that are not zero
    var heapTotalSize: nat
    var heapFreeSize: int
    var heapQuarantineSize: int
    ghost var use: map<int, Use>
    ghost var waits: map<int, nat>
    ghost var last: map<int, nat>
    var nextGen: nat               // counts allocations; no decision depends on it

    ghost function View(): (W: World)
      reads this, revoker
    {
      World(Heap(lo, hi, h, use, waits, revoker.marks, dirty), revoker.Now(), revoker.slots,
            last, nextGen, heapFreeSize, heapQuarantineSize)
    }

    ghost predicate Rest()
      reads this`heapTotalSize
    {
      8 * (hi + 1) <= WORD && heapTotalSize == 8 * (hi + 1 - lo)
    }

    /** Everything agrees: the parts of the state are in order, the free lists hold the free chunks and
        the quarantine the quarantined ones. */
    ghost predicate Sound()
      reads this, lists, lists.small, lists.tree, quarantine, revoker
    {
      Consistent() && Ok(View())
    }

    /** As much of that as does not speak of the counters. */
    ghost predicate Consistent()
      reads this, lists, lists.small, lists.tree, quarantine, revoker
    {
      && lists.Valid() && lists.free == FreeMap(h) && 1 < lo && revoker.Valid() && Rest()
      && Kept(quarantine.View(), waits, revoker.sweeps)
    }

    ghost predicate Blank()
      reads this, lists, lists.small, lists.tree, quarantine, revoker
    {
      && lists.Valid() && lists.free == map[] && Kept(quarantine.View(), map[], 0)
      && revoker.Valid() && revoker.Now() == Progress(0, 0)
      && (forall i | 0 <= i < |revoker.slots| :: revoker.slots[i] == NoCap)
      && use == map[] && waits == map[] && last == map[] && nextGen == 1
      && heapTotalSize == 0 && heapFreeSize == 0 && heapQuarantineSize == 0
    }

    /** A heap of size bytes from granule start on, with nothing in it yet. */
    constructor (start: int, size: nat, rev: Revoker)
      requires rev.Valid() && rev.Now() == Progress(0, 0) && forall i | 0 <= i < |rev.slots| :: rev.slots[i] == NoCap
      ensures Blank() && lo == start && hi == start + size / 8 - 1 && quarantine.timely
      ensures revoker == rev && fresh(lists) && fresh(lists.small) && fresh(lists.tree) && fresh(quarantine)
    {
      lo, hi := start, start + size / 8 - 1;
      lists := new FreeLists();
      revoker := rev;
      quarantine := new Quarantine();
      h, dirty := map[], {};
      heapTotalSize, heapFreeSize, heapQuarantineSize := 0, 0, 0;
      use, waits, last, nextGen := map[], map[], map[], 1;
    }

    /** mspace_firstchunk_add: the whole heap, which the loader cleared, is one free chunk. */
    method AddFirstChunk(size: nat)
      requires lists.Valid() && lists.free == map[] && heapTotalSize == 0 && heapFreeSize == 0
      requires 1 < lo && size % 8 == 0 && 24 <= size <= 8 * HEAD && hi == lo + size / 8 - 1
      modifies this`h, this`dirty, this`heapTotalSize, this`heapFreeSize, lists, lists.small, lists.tree, revoker`marks
      ensures lists.Valid() && lists.free == map[lo := hi - lo] && h == Make(lo, hi)
      ensures revoker.marks == {lo, hi} && dirty == Meta(lo, hi - lo) && heapTotalSize == size
      ensures heapFreeSize == 8 * (hi - lo)
    {
      h := Make(lo, hi);
      revoker.marks := {lo, hi};
      heapTotalSize := heapTotalSize + size;
      heapFreeSize := heapFreeSize + 8 * h[lo].currSize;
      lists.InsertChunk(lo, 8 * h[lo].currSize);
      dirty := Meta(lo, h[lo].currSize);
    }

    /** The rest of mstate_init. */
    method Init(size: nat)
      requires Blank() && 1 < lo && size % 8 == 0 && 24 <= size <= 8 * HEAD && 8 * lo + size <= WORD
      requires hi == lo + size / 8 - 1
      modifies this`h, this`dirty, this`heapTotalSize, this`heapFreeSize, lists, lists.small, lists.tree, revoker`marks
      ensures Sound() && View() == FirstWorld(lo, hi, old(revoker.slots)) && heapTotalSize == size
      ensures NoneHeld(View().H) && LiveMap(View().H) == map[]
    {
      hide *;
      UnpackBlank();
      AddFirstChunk(size);
      FirstView();
      FirstWorldOk(lo, hi, revoker.slots);
      PackRest(size);
      Pack();
    }

    lemma {:induction false} UnpackBlank()
      requires Blank()
      ensures lists.Valid() && lists.free == map[] && heapTotalSize == 0 && heapFreeSize == 0 && heapQuarantineSize == 0
      ensures use == map[] && waits == map[] && last == map[] && nextGen == 1
      ensures revoker.Valid() && revoker.Now() == Progress(0, 0) && Kept(quarantine.View(), waits, revoker.sweeps)
      ensures forall i | 0 <= i < |revoker.slots| :: revoker.slots[i] == NoCap
    {
    }

    lemma {:induction false} FirstView()
      requires lo <= hi && h == Make(lo, hi) && revoker.marks == {lo, hi} && dirty == Meta(lo, hi - lo)
      requires heapFreeSize == 8 * (hi - lo) && heapQuarantineSize == 0 && revoker.Now() == Progress(0, 0)
      requires use == map[] && waits == map[] && last == map[] && nextGen == 1
      ensures View() == FirstWorld(lo, hi, revoker.slots)
    {
    }

    lemma {:induction false} PackRest(size: nat)
      requires size % 8 == 0 && 8 * lo + size <= WORD && hi == lo + size / 8 - 1 && heapTotalSize == size
      ensures Rest()
    {
    }

    ghost function Lay(): (L: Layout)
      reads this, lists, revoker
    {
      Layout(h, lists.free, revoker.marks, dirty)
    }

    /** Unlink the free chunk at x and erase the header at gone, merging two chunks. */
    method Merge(x: int, gone: int)
      requires lists.Valid() && x in lists.free && x in h && lists.free[x] == h[x].currSize
      requires gone in h && Prev(h, gone) in h && Next(h, gone) in h
      modifies this`h, this`dirty, lists, lists.small, lists.tree, revoker`marks
      ensures lists.Valid() && Lay() == Merged(old(Lay()), x, gone)
    {
      lists.UnlinkChunk(x, 8 * h[x].currSize);
      dirty := dirty - Meta(x, h[x].currSize);
      h := Unsplit(h, gone);
      revoker.marks := revoker.marks - {gone};
    }

    /** Consolidate backward. */
    method MergeBack(a: int) returns (p: int)
      requires lists.Valid() && a in h && Next(h, a) in h && (!h[a].prevInUse ==> Prev(h, a) in h)
      requires !h[a].prevInUse ==> Prev(h, a) in lists.free && lists.free[Prev(h, a)] == h[Prev(h, a)].currSize
      modifies this`h, this`dirty, lists, lists.small, lists.tree, revoker`marks
      ensures lists.Valid() && Lay() == MergedBack(old(Lay()), a) && p == MergeStart(old(h), a)
    {
      p := a;
      if !h[a].prevInUse {
        p := Prev(h, a);
        Merge(p, a);
      }
    }

    /** Consolidate forward. */
    method MergeOn(p: int)
      requires lists.Valid() && CanMergeOn(Lay(), p)
      requires !h[Next(h, p)].currInUse ==> Next(h, p) in lists.free && lists.free[Next(h, p)] == h[Next(h, p)].currSize
      modifies this`h, this`dirty, lists, lists.small, lists.tree, revoker`marks
      ensures lists.Valid() && Lay() == MergedOn(old(Lay()), p)
    {
      var next := Next(h, p);
      if !h[next].currInUse {
        Merge(next, next);
      }
    }

    method MarkFree(p: int)
      requires lists.Valid() && p in h && Next(h, p) in h && p !in lists.free && 1 < p && 2 <= h[p].currSize < HEAD
      modifies this`h, this`dirty, lists, lists.small, lists.tree
      ensures lists.Valid() && Lay() == Freed(old(Lay()), p)
    {
      h := SetUse(h, p, false);
      lists.InsertChunk(p, 8 * h[p].currSize);
      dirty := dirty + Meta(p, h[p].currSize);
    }

    /** mspace_free_internal */
    method FreeInternal(a: int)
      requires lists.Valid() && lists.free == FreeMap(h) && 1 < lo
      requires Formed(h, lo, hi) && a in h && a < hi && h[a].currInUse
      modifies this`h, this`dirty, lists, lists.small, lists.tree, revoker`marks
      ensures Next(old(h), a) in old(h) && MergeStart(old(h), a) in old(h) && MergeEnd(old(h), a) in old(h)
      ensures lists.Valid()
      ensures Lay() == Layout(Release(old(h), a), FreeMap(Release(old(h), a)), old(revoker.marks) - Erased(old(h), a),
                              ReleasedDirty(old(h), a, old(dirty)))
    {
      ghost var L := Lay();
      ReleaseSteps(L, lo, hi, a);
      BackStep(L, lo, hi, a);
      OnStep(L, lo, hi, a);
      var p := MergeBack(a);
      MergeOn(p);
      MarkFree(p);
    }

    /** Free a held chunk. */
    method FreeHeld(a: int)
      requires Formed(h, lo, hi) && lists.Valid() && lists.free == FreeMap(h) && 1 < lo && a in h && a < hi
      requires h[a].currInUse
      modifies this`h, this`dirty, this`use, lists, lists.small, lists.tree, revoker`marks
      ensures lists.Valid() && lists.free == FreeMap(h)
      ensures Next(old(h), a) in old(h) && MergeStart(old(h), a) in old(h) && MergeEnd(old(h), a) in old(h)
      ensures View() == DoRelease(old(View()), a)
    {
      FreeInternal(a);
      use := use - {a};
    }

    /** Take the first finished chunk off its ring, clear its link and unpaint it. */
    method Unpaint() returns (fore: int)
      requires quarantine.finished != [] && quarantine.finished[0] in h
      modifies this`dirty, this`heapFreeSize, this`heapQuarantineSize, this`use, this`waits
      modifies revoker`marks, quarantine`finished
      ensures fore == old(quarantine.finished)[0] && quarantine.finished == old(quarantine.finished)[1..]
      ensures quarantine.View() == old(quarantine.View()).(finished := old(quarantine.finished)[1..])
      ensures View() == DoUnquarantine(old(View()), fore) && waits == old(waits) - {fore}
    {
      fore := quarantine.finished[0];
      quarantine.finished := quarantine.finished[1..];
      dirty := dirty - {fore + 1};
      heapQuarantineSize := heapQuarantineSize - 8 * h[fore].currSize;
      heapFreeSize := heapFreeSize + 8 * h[fore].currSize;
      revoker.marks := revoker.marks - Granules(fore + 1, Next(h, fore));
      use := use[fore := Use(0, 0)];
      waits := waits - {fore};
    }

    /** The parts of Sound, for methods that hide definitions. */
    lemma {:induction false} Unpack()
      requires Sound()
      ensures lists.Valid() && lists.free == FreeMap(h) && 1 < lo && revoker.Valid() && Ok(View()) && Rest()
      ensures Kept(quarantine.View(), waits, revoker.sweeps) && Consistent()
    {
    }

    lemma {:induction false} Pack()
      requires lists.Valid() && lists.free == FreeMap(h) && 1 < lo && revoker.Valid() && Ok(View()) && Rest()
      requires Kept(quarantine.View(), waits, revoker.sweeps)
      ensures Sound()
    {
    }

    lemma {:induction false} DequeueReady()
      requires Sound() && quarantine.finished != []
      ensures var a, W := quarantine.finished[0], View();
              && Formed(h, lo, hi) && a in h && a < hi && h[a].currInUse
              && Next(h, a) in h && MergeStart(h, a) in h && MergeEnd(h, a) in h
              && Ok(DoRelease(DoUnquarantine(W, a), a)) && Quiet(W, DoRelease(DoUnquarantine(W, a), a))
              && Kept(quarantine.View().(finished := quarantine.finished[1..]), waits - {a}, revoker.sweeps)
              && a in waits
    {
      KeptFirst(quarantine.View(), waits, revoker.sweeps);
      DequeueOk(View(), quarantine.finished[0]);
      assert quarantine.finished[0] in InUse(h, hi);
    }

    /** One turn of mspace_qtbin_deqn: the first finished chunk leaves quarantine. */
    method DequeueFirst()
      requires Sound() && quarantine.finished != []
      modifies this`h, this`dirty, this`heapFreeSize, this`heapQuarantineSize, this`use, this`waits
      modifies lists, lists.small, lists.tree, revoker`marks, quarantine`finished
      ensures Sound()
      ensures Quiet(old(View()), View()) && |waits| + 1 == old(|waits|)
      ensures quarantine.finished == old(quarantine.finished)[1..]
      ensures quarantine.View() == old(quarantine.View()).(finished := quarantine.finished)
    {
      hide *;
      Unpack();
      DequeueReady();
      MapLess(waits, quarantine.finished[0]);
      var fore := Unpaint();
      FreeHeld(fore);
      Pack();
    }

    lemma {:induction false} PendingReady()
      requires Kept(quarantine.View(), waits, revoker.sweeps)
      ensures Shaped(quarantine.View()) && forall ix: nat | ix < 2 :: quarantine.epochs[ix] < WORD
    {
    }

    method Prod()
      requires revoker.Valid() && Shaped(quarantine.View()) && (forall ix: nat | ix < 2 :: quarantine.epochs[ix] < WORD)
      modifies quarantine, revoker`epoch, revoker`scanning, revoker`offset, revoker`sweeps, revoker`slots
      ensures revoker.Valid() && old(revoker.sweeps) <= revoker.sweeps
      ensures quarantine.View() == Checked(old(quarantine.View()), revoker.sweeps % WORD)
      ensures View() == old(View()).(p := View().p, slots := View().slots) && View().p == revoker.Now()
      ensures ProddedAtMost(View().H.marks, old(View()).p, old(View()).slots, View().p, View().slots)
    {
      quarantine.PendingToFinished(revoker);
      ProddedSweeps(revoker.marks, old(revoker.Now()), old(revoker.slots), revoker.Now(), revoker.slots);
    }

    /** quarantine_pending_to_finished */
    method PendingToFinished()
      requires Sound()
      modifies quarantine, revoker`epoch, revoker`scanning, revoker`offset, revoker`sweeps, revoker`slots
      ensures Sound() && Quiet(old(View()), View()) && Advanced(old(revoker.Now()), revoker.Now())
      ensures quarantine.timely == old(quarantine.timely)
      ensures quarantine.timely && quarantine.finished == [] ==> Unfinished(quarantine.View(), revoker.sweeps)
      ensures Drained(old(quarantine.View()), quarantine.View(), old(revoker.sweeps))
    {
      hide *;
      Unpack();
      PendingReady();
      ghost var q, W, s := quarantine.View(), View(), revoker.sweeps;
      PeekFinished();
      PeekProgress();
      PeekWaits();
      Prod();
      ProdOk(W, View().p, View().slots);
      AdvancedIs(W.p, View().p);
      PeekWaits();
      KeptChecked(q, waits, s, revoker.sweeps);
      DrainedLook(q, waits, s, revoker.sweeps);
      PeekFinished();
      Pack();
    }

    lemma {:induction false} PeekFinished()
      ensures quarantine.View().finished == quarantine.finished && quarantine.View().timely == quarantine.timely
    {
    }

    lemma {:induction false} Parities()
      requires revoker.Valid()
      ensures revoker.epoch % 2 == 0 <==> !Running(revoker.Now())
    {
      EpochParity(revoker.epoch, revoker.sweeps);
    }

    lemma {:induction false} PeekProgress()
      ensures View().p == revoker.Now()
    {
    }

    /** mspace_qtbin_deqn */
    method Deqn(loops: nat) returns (dequeued: nat)
      requires Sound()
      modifies this`h, this`dirty, this`heapFreeSize, this`heapQuarantineSize, this`use, this`waits
      modifies lists, lists.small, lists.tree, quarantine
      modifies revoker`marks, revoker`epoch, revoker`scanning, revoker`offset, revoker`sweeps, revoker`slots
      ensures Sound() && Quiet(old(View()), View()) && Advanced(old(revoker.Now()), revoker.Now())
      ensures quarantine.timely == old(quarantine.timely)
      ensures dequeued <= loops && |waits| + dequeued == old(|waits|)
      ensures dequeued < loops ==> quarantine.finished == []
      ensures dequeued < loops && quarantine.timely ==> Unfinished(quarantine.View(), revoker.sweeps)
      ensures Drained(old(quarantine.View()), quarantine.View(), old(revoker.sweeps))
      ensures Paced(old(quarantine.View()), old(revoker.sweeps), quarantine.View(), revoker.sweeps, 1)
    {
      hide *;
      dequeued := 0;
      QuietSame(View());
      AdvancedSame(revoker.Now());
      Unpack();
      PendingReady();
      PeekView();
      DrainedSame(quarantine.View(), quarantine.finished, revoker.sweeps);
      PeekWaits();
      PeekFinished();
      ghost var q0, s0, ws0 := quarantine.View(), revoker.sweeps, waits;
      while dequeued < loops
        invariant Sound() && Quiet(old(View()), View()) && Advanced(old(revoker.Now()), revoker.Now())
        invariant quarantine.timely == old(quarantine.timely) && Drained(q0, quarantine.View(), s0)
        invariant dequeued <= loops && |waits| + dequeued == old(|waits|)
      {
        if quarantine.finished == [] {
          ghost var W, p, q := View(), revoker.Now(), quarantine.View();
          AdvancedIs(old(revoker.Now()), p);
          PeekWaits();
          PendingToFinished();
          DrainedTrans(q0, q, quarantine.View(), s0, p.sweeps);
          QuietTrans(old(View()), W, View());
          AdvancedTrans(old(revoker.Now()), p, revoker.Now());
          if quarantine.finished == [] {
            PeekFinished();
            PaceOf(q0, ws0, old(revoker.Now()));
            return;
          }
        }
        ghost var W, q := View(), quarantine.View();
        AdvancedIs(old(revoker.Now()), revoker.Now());
        PeekWaits();
        Unpack();
        PendingReady();
        DequeueFirst();
        DrainedSame(q, quarantine.finished, revoker.sweeps);
        DrainedTrans(q0, q, quarantine.View(), s0, revoker.sweeps);
        QuietTrans(old(View()), W, View());
        dequeued := dequeued + 1;
      }
      PeekFinished();
      PaceOf(q0, ws0, old(revoker.Now()));
    }

    /** quarantine_dequeue */
    method QuarantineDequeue() returns (any: bool)
      requires Sound()
      modifies this`h, this`dirty, this`heapFreeSize, this`heapQuarantineSize, this`use, this`waits
      modifies lists, lists.small, lists.tree, quarantine
      modifies revoker`marks, revoker`epoch, revoker`scanning, revoker`offset, revoker`sweeps, revoker`slots
      ensures Sound() && Quiet(old(View()), View()) && quarantine.timely == old(quarantine.timely)
      ensures Reclaimed(old(|waits|), 4, View(), quarantine.View()) && (any <==> |waits| < old(|waits|))
      ensures Paced(old(quarantine.View()), old(revoker.sweeps), quarantine.View(), revoker.sweeps, 1)
    {
      hide *;
      var n := Deqn(4);
      PeekWaits();
      PeekFinished();
      FoldReclaimed(old(|waits|), 4, n, View(), quarantine.View());
      any := n > 0;
    }

    lemma {:induction false} PeekView()
      ensures quarantine.View() == quarantine.View().(finished := quarantine.finished)
    {
    }

    /** What draining takes up. */
    lemma {:induction false} PaceOf(q: Queue, ws: map<int, nat>, p: Progress)
      requires Kept(q, ws, p.sweeps) && Drained(q, quarantine.View(), p.sweeps) && quarantine.timely == q.timely
      requires Advanced(p, revoker.Now())
      ensures Paced(q, p.sweeps, quarantine.View(), revoker.sweeps, 1)
    {
      AdvancedIs(p, revoker.Now());
      hide *;
      PeekFinished();
      PeekWaits();
      PacedDrained(q, ws, p.sweeps, quarantine.View(), revoker.sweeps);
    }

    /** mspace_bg_revoker_kick */
    method Kick(force: bool) returns (pending: bool)
      requires Sound()
      modifies revoker`epoch, revoker`scanning, revoker`offset, revoker`sweeps, revoker`slots
      ensures Sound() && Quiet(old(View()), View())
      ensures View().H == old(View().H) && (pending <==> heapQuarantineSize != 0)
      ensures old(revoker.sweeps) <= revoker.sweeps <= old(revoker.sweeps) + 2
      ensures Kicked(old(View()), View(),
                     heapQuarantineSize != 0 && (force || heapQuarantineSize > heapFreeSize / 4 * 3))
    {
      hide *;
      QuietSame(View());
      NotKicked(View());
      if heapQuarantineSize == 0 {
        return false;
      }
      if force || heapQuarantineSize > heapFreeSize / 4 * 3 {
        Tick();
      }
      return true;
    }

    method Tick()
      requires Sound()
      modifies revoker`epoch, revoker`scanning, revoker`offset, revoker`sweeps, revoker`slots
      ensures Sound() && Quiet(old(View()), View()) && View().H == old(View().H)
      ensures old(revoker.sweeps) <= revoker.sweeps <= old(revoker.sweeps) + 2
      ensures Kicked(old(View()), View(), true)
    {
      hide *;
      Unpack();
      ghost var q, W, s := quarantine.View(), View(), revoker.sweeps;
      PeekWaits();
      TickRevoker();
      FoldKicked(W, View());
      TickSweeps(W);
      PeekWaits();
      TickQuiet(W);
      KeptLater(q, waits, s, revoker.sweeps);
      Pack();
    }

    method TickRevoker()
      requires revoker.Valid()
      modifies revoker`epoch, revoker`scanning, revoker`offset, revoker`sweeps, revoker`slots
      ensures revoker.Valid() && old(revoker.sweeps) <= revoker.sweeps
      ensures Running(old(View()).p) ==> old(View()).p.offset <= old(|View().slots|)
      ensures View() == DoTick(old(View())) && View().H == old(View().H)
    {
      revoker.Tick();
    }

    // ---------- Allocating ----------

    /** Split off what is left of the chunk at a after nb bytes, and file it. */
    method SplitRest(a: int, nb: nat)
      requires lists.Valid() && a in h && Next(h, a) in h && 1 < a && nb % 8 == 0
      requires nb + 16 <= 8 * h[a].currSize < 8 * HEAD
      requires a + nb / 8 !in lists.free
      modifies this`h, this`dirty, lists, lists.small, lists.tree, revoker`marks
      ensures lists.Valid() && lists.free == old(lists.free)[a + nb / 8 := old(h)[a].currSize - nb / 8]
      ensures h == Split(old(h), a, nb / 8) && revoker.marks == old(revoker.marks) + {a + nb / 8}
      ensures dirty == old(dirty) + Meta(a + nb / 8, old(h)[a].currSize - nb / 8)
    {
      var r, rsize := a + nb / 8, 8 * h[a].currSize - nb;
      h := Split(h, a, nb / 8);
      revoker.marks := revoker.marks + {r};
      lists.InsertChunk(r, rsize);
      dirty := dirty + Meta(r, rsize / 8);
    }

    /** The end of the search: split off what is left over if it can stand alone, and mark the chunk,
        which is off the lists already, as in use. */
    method PutToUse(a: int, nb: nat)
      requires lists.Valid() && a in h && Next(h, a) in h && 1 < a && nb % 8 == 0
      requires 16 <= nb <= 8 * h[a].currSize < 8 * HEAD
      requires SplitsAt(View().H, a, nb / 8) ==> a + nb / 8 !in lists.free
      modifies this`h, this`dirty, this`use, lists, lists.small, lists.tree, revoker`marks
      ensures lists.Valid() && View() == DoTake(old(View()), a, nb / 8)
      ensures lists.free ==
              if SplitsAt(old(View()).H, a, nb / 8) then old(lists.free)[a + nb / 8 := old(h)[a].currSize - nb / 8]
                            else old(lists.free)
    {
      dirty := dirty - Meta(a, h[a].currSize);
      if 8 * h[a].currSize - nb >= MIN_CHUNK_SIZE {
        SplitRest(a, nb);
      }
      h := SetUse(h, a, true);
      use := use[a := Use(0, 0)];
    }

    lemma {:induction false} PeekHeap()
      ensures View().H.h == h && View().H.lo == lo && View().H.hi == hi && View().freeSize == heapFreeSize
    {
    }

    /** mspace_malloc_internal: null exactly if, after the initial dequeue, no free chunk is big enough;
        otherwise a chunk of the size asked for or eight bytes more.  A small request gets a best fit, and a
        large one exactly if the search of bin, the size trie of its size, is tight. */
    method MallocInternal(bytes: nat) returns (a: int, ghost mid: World, ghost bin: Tree)
      requires Sound() && NoneHeld(View().H) && bytes + 24 < WORD
      modifies this`h, this`dirty, this`heapFreeSize, this`heapQuarantineSize, this`use, this`waits
      modifies lists, lists.small, lists.tree, quarantine
      modifies revoker`marks, revoker`epoch, revoker`scanning, revoker`offset, revoker`sweeps, revoker`slots
      ensures Sound() && Ok(mid) && Quiet(old(View()), mid)
      ensures quarantine.timely == old(quarantine.timely)
      ensures a == NULL <==> NoneFits(FreeMap(mid.H.h), ChunkBytes(bytes) / 8)
      ensures Reclaimed(old(|waits|), 4, mid, quarantine.View())
      ensures a == NULL ==> Quiet(mid, View()) && Kicked(mid, View(), mid.H.waits != map[])
      ensures a != NULL ==> Took(mid, View(), a, ChunkBytes(bytes) / 8)
      ensures a != NULL ==> a in h && h[a].currSize == TakenSize(FreeMap(mid.H.h), ChunkBytes(bytes) / 8, a)
      ensures a != NULL ==> 8 * h[a].currSize == ChunkBytes(bytes) || 8 * h[a].currSize == ChunkBytes(bytes) + 8
      ensures a != NULL && bytes <= MAX_SMALL_REQUEST ==> BestChunk(FreeMap(mid.H.h), ChunkBytes(bytes) / 8, a)
      ensures a != NULL && bytes > MAX_SMALL_REQUEST ==> BestWhenTight(FreeMap(mid.H.h), ChunkBytes(bytes), bin, a)
      ensures Paced(old(quarantine.View()), old(revoker.sweeps), quarantine.View(), revoker.sweeps, 3)
    {
      hide *;
      ghost var q0, s0 := quarantine.View(), revoker.sweeps;
      var _ := QuarantineDequeue();
      ghost var q, s := quarantine.View(), revoker.sweeps;
      mid := View();
      Unpack();
      PeekHeap();
      var nb := ChunkBytes(bytes);
      RequestFits(bytes);
      lists.Bins();
      bin := lists.tree.trees[ComputeTreeIndex(nb)];
      a := lists.TakeFit(nb);
      if a == NULL {
        Pack();
        PeekWaits();
        NothingPending(mid);
        var _ := Kick(true);
        PacedTick(q, s, revoker.sweeps);
      } else {
        PacedSame(q, s, 2);
        TakenSizeIs(FreeMap(mid.H.h), nb / 8, a);
        TakeCalm(mid, a, nb / 8);
        TakeLists(mid, a, nb / 8);
        PutToUse(a, nb);
        FoldTook(mid, View(), a, nb / 8);
        PeekHeap();
        Pack();
      }
      PacedTrans(q0, s0, q, s, quarantine.View(), revoker.sweeps, 1, 2);
    }

    method SplitInUse(a: int, k: nat)
      requires a in h && Next(h, a) in h && k <= h[a].currSize
      modifies this`h, this`use, revoker`marks
      ensures View() == DoSplit(old(View()), a, k)
    {
      h := Split(h, a, k);
      revoker.marks := revoker.marks + {a + k};
      use := use[a + k := Use(0, 0)];
    }

    /** Split the chunk at a, which is in use, and give one part back. */
    method Trim(a: int, k: nat, front: bool)
      requires Sound() && Held(View().H, a) && HeldIn(View().H, {a}) && a in h && 2 <= k <= h[a].currSize - 2
      modifies this`h, this`dirty, this`use, lists, lists.small, lists.tree, revoker`marks
      ensures front ==> a + k in h && h[a + k].currSize == old(h[a].currSize) - k
      ensures !front ==> a in h && h[a].currSize == k
      ensures Calm(old(View()), View()) && View().freeSize == old(View().freeSize)
      ensures var kept := if front then a + k else a; Held(View().H, kept) && HeldIn(View().H, {kept})
      ensures Sound()
    {
      hide *;
      Unpack();
      PeekHeap();
      ghost var W := View();
      var gone := if front then a else a + k;
      TrimCalm(W, a, k, gone, if front then a + k else a);
      TrimFrame(W, a, k, gone);
      SplitInUse(a, k);
      PeekHeap();
      FreeHeld(gone);
      PeekHeap();
      Pack();
    }

    /** mspace_memalign but for the counter: a chunk of exactly the padded size whose body is aligned. */
    method FindAligned(bytes: nat, alignment: nat) returns (a: int, ghost mid: World, ghost chosen: int)
      requires Sound() && NoneHeld(View().H) && 0 < alignment && (alignment <= 8 || alignment % 8 == 0)
      requires 0 < bytes && bytes + alignment + 64 < WORD
      modifies this`h, this`dirty, this`heapFreeSize, this`heapQuarantineSize, this`use, this`waits
      modifies lists, lists.small, lists.tree, quarantine
      modifies revoker`marks, revoker`epoch, revoker`scanning, revoker`offset, revoker`sweeps, revoker`slots
      ensures Sound() && Ok(mid) && Quiet(old(View()), mid)
      ensures quarantine.timely == old(quarantine.timely)
      ensures Reclaimed(old(|waits|), 4, mid, quarantine.View())
      ensures a == NULL ==> Quiet(mid, View()) && Kicked(mid, View(), mid.H.waits != map[])
      ensures a == NULL <==> NoneFits(FreeMap(mid.H.h), Needed(bytes, alignment) / 8)
      ensures a != NULL ==> Calm(mid, View()) && Held(View().H, a) && HeldIn(View().H, {a}) && a in h
      ensures a != NULL ==> View().freeSize == mid.freeSize
      ensures a != NULL && alignment <= 8 ==>
                8 * h[a].currSize == ChunkBytes(bytes) || 8 * h[a].currSize == ChunkBytes(bytes) + 8
      ensures a != NULL && alignment > 8 ==> 8 * h[a].currSize == PadRequest(bytes) && (8 * (a + 1)) % alignment == 0
      ensures a != NULL ==> Picked(FreeMap(mid.H.h), bytes, alignment, chosen, 8 * h[a].currSize)
      ensures Paced(old(quarantine.View()), old(revoker.sweeps), quarantine.View(), revoker.sweeps, 3)
    {
      hide *;
      ghost var bin;
      NeededIs(bytes, alignment);
      if alignment <= 8 {
        a, mid, bin := MallocInternal(bytes);
        AfterMalloc(old(View()), mid, a, ChunkBytes(bytes) / 8);
        chosen := a;
        if a != NULL { FoldPicked(FreeMap(mid.H.h), bytes, alignment, chosen, 8 * h[a].currSize); }
        return;
      }
      var nb := PadRequest(bytes);
      a, mid, bin := MallocInternal(nb + alignment + 16);
      AfterMalloc(old(View()), mid, a, Needed(bytes, alignment) / 8);
      chosen := a;
      if a == NULL {
        return;
      }
      a := TrimFront(a, alignment, mid);
      ghost var W := View();
      Trim(a, nb / 8, false);
      CalmTrans(mid, W, View());
      FoldPicked(FreeMap(mid.H.h), bytes, alignment, chosen, nb);
    }

    /** The facts about the outcome of MallocInternal that FindAligned goes on with. */
    lemma {:induction false} AfterMalloc(W: World, mid: World, a: int, k: nat)
      requires Sound() && Ok(mid) && Quiet(W, mid) && NoneHeld(W.H) && (a != NULL ==> Took(mid, View(), a, k))
      ensures a != NULL ==>
                Calm(mid, View()) && Held(View().H, a) && HeldIn(View().H, {a}) && View().freeSize == mid.freeSize
      ensures a != NULL ==> a in h && a > 0 && (h[a].currSize == k || h[a].currSize == k + 1)
      ensures a != NULL ==> a in FreeMap(mid.H.h) && k <= FreeMap(mid.H.h)[a]
    {
      QuietHeld(W, mid);
      if a != NULL {
        TookCalm(mid, View(), a, k);
        assert Linked(h, lo, hi, a);
      }
    }

    /** Give leading space back so that the body is aligned. */
    method TrimFront(p: int, alignment: nat, ghost mid: World) returns (a: int)
      requires Sound() && Calm(mid, View()) && Held(View().H, p) && HeldIn(View().H, {p}) && p in h
      requires View().freeSize == mid.freeSize
      requires alignment > 8 && alignment % 8 == 0 && 8 * h[p].currSize >= alignment + 24 && p > 0
      modifies this`h, this`dirty, this`use, lists, lists.small, lists.tree, revoker`marks
      ensures Sound() && Calm(mid, View()) && Held(View().H, a) && HeldIn(View().H, {a}) && a in h
      ensures View().freeSize == mid.freeSize
      ensures (8 * (a + 1)) % alignment == 0 && 8 * h[a].currSize + alignment + 8 >= 8 * old(h[p].currSize) && a >= p
    {
      hide *;
      a := p;
      var memAddress := 8 * (p + 1);
      if memAddress % alignment != 0 {
        AlignPad(memAddress, alignment);
        var alignpad := alignment - memAddress % alignment;
        if alignpad < 16 {
          alignpad := alignpad + alignment;
        }
        ghost var W := View();
        Trim(p, alignpad / 8, true);
        a := p + alignpad / 8;
        CalmTrans(mid, W, View());
      }
    }

    /** mspace_memalign: for an alignment above eight bytes, the body is aligned as asked, the chunk has
        exactly the padded size, and heapFreeSize is lower by that size. */
    method Memalign(bytes: nat, alignment: nat) returns (a: int, ghost mid: World, ghost W: World, ghost chosen: int)
      requires Sound() && NoneHeld(View().H) && 0 < alignment && (alignment <= 8 || alignment % 8 == 0)
      requires 0 < bytes && bytes + alignment + 64 < WORD
      modifies this`h, this`dirty, this`heapFreeSize, this`heapQuarantineSize, this`use, this`waits
      modifies lists, lists.small, lists.tree, quarantine
      modifies revoker`marks, revoker`epoch, revoker`scanning, revoker`offset, revoker`sweeps, revoker`slots
      ensures Consistent() && Ok(W) && Ok(mid) && Quiet(old(View()), mid)
      ensures quarantine.timely == old(quarantine.timely)
      ensures Reclaimed(old(|waits|), 4, mid, quarantine.View())
      ensures a == NULL ==> Quiet(mid, W) && View() == W && Kicked(mid, W, mid.H.waits != map[])
      ensures a == NULL <==> NoneFits(FreeMap(mid.H.h), Needed(bytes, alignment) / 8)
      ensures a != NULL ==> Calm(mid, W) && Held(W.H, a) && HeldIn(W.H, {a}) && a in h && a > 0
      ensures a != NULL ==> View() == W.(freeSize := W.freeSize - 8 * h[a].currSize)
      ensures a != NULL ==> heapFreeSize == mid.freeSize - 8 * h[a].currSize
      ensures a != NULL && alignment <= 8 ==>
                8 * h[a].currSize == ChunkBytes(bytes) || 8 * h[a].currSize == ChunkBytes(bytes) + 8
      ensures a != NULL && alignment > 8 ==> 8 * h[a].currSize == PadRequest(bytes) && (8 * (a + 1)) % alignment == 0
      ensures a != NULL ==> Picked(FreeMap(mid.H.h), bytes, alignment, chosen, 8 * h[a].currSize)
      ensures Paced(old(quarantine.View()), old(revoker.sweeps), quarantine.View(), revoker.sweeps, 3)
    {
      hide *;
      a, mid, chosen := FindAligned(bytes, alignment);
      Unpack();
      W := View();
      if a != NULL {
        MallocSuccess(a);
        PackConsistent();
      }
    }

    /** mspace_malloc_success */
    method MallocSuccess(a: int)
      requires a in h && Held(View().H, a) && Sound()
      modifies this`heapFreeSize
      ensures View() == old(View()).(freeSize := old(View().freeSize) - 8 * h[a].currSize)
      ensures heapFreeSize == old(View().freeSize) - 8 * h[a].currSize && a > 0
    {
      assert Linked(h, lo, hi, a);
      heapFreeSize := heapFreeSize - 8 * h[a].currSize;
    }

    lemma {:induction false} PackConsistent()
      requires lists.Valid() && lists.free == FreeMap(h) && 1 < lo && revoker.Valid() && Rest()
      requires Kept(quarantine.View(), waits, revoker.sweeps)
      ensures Consistent()
    {
    }

    /** The header and the use of a chunk that is handed out. */
    method SetOwner(a: int, identifier: nat, isSealed: bool, ghost extent: nat)
      requires a in h
      modifies this`h, this`use, this`nextGen
      ensures var H' := Grant(old(View().H), a, old(nextGen), extent, identifier, isSealed);
              View() == old(View()).(H := H', nextGen := old(nextGen) + 1)
    {
      h := h[a := h[a].(isSealed := isSealed)];
      h := h[a := h[a].(owner := identifier)];
      use := use[a := Use(nextGen, extent)];
      nextGen := nextGen + 1;
    }

    /** mspace_dispatch.  The allocator uses only the first granule of its own records, which is what
        record is for.  A failure leaves every allocation and the quota as they were.  A success hands
        out a body that covers the request, is exactly representable, zero, unmarked, out of reach of
        every existing capability and not freed since the last full sweep, and charges the whole chunk.
        Which of these it comes to is decided by the request, the quota, the counters, and whether a free
        chunk was big enough after the initial dequeue, and if so by the one chosen. */
    method Dispatch(bytes: nat, quota: nat, identifier: nat, isSealed: bool, ghost record: bool)
      returns (r: AllocationResult, left: nat, ghost x: Alloc, ghost try: Attempt)
      requires Sound() && NoneHeld(View().H) && bytes < WORD
      modifies this`h, this`dirty, this`heapFreeSize, this`heapQuarantineSize, this`use, this`waits, this`nextGen
      modifies lists, lists.small, lists.tree, quarantine
      modifies revoker`marks, revoker`epoch, revoker`scanning, revoker`offset, revoker`sweeps, revoker`slots
      ensures Sound() && NoneHeld(View().H)
      ensures quarantine.timely == old(quarantine.timely)
      ensures !r.Allocated? ==> left == quota && Quiet(old(View()), View())
      ensures r.Allocated? ==>
                Handed(old(View()), View(), r.chunk, x) && x.owner == identifier && x.isSealed == isSealed
      ensures r.Allocated? ==> left + 8 * x.size == quota && Delivered(bytes, r, x, record)
      ensures try.r == r && Quiet(old(View()), try.mid) && (r.Allocated? ==> try.size == 8 * x.size)
      ensures Decided(bytes, quota, old(View()), View(), quarantine.View(), try)
      ensures r.FailureRevocationNeeded? && quarantine.timely ==> Reported(quarantine.View(), waits, r.waitingEpoch)
      ensures Paced(old(quarantine.View()), old(revoker.sweeps), quarantine.View(), revoker.sweeps, 3)
    {
      hide *;
      left := quota;
      x := Alloc(0, 0, 0, false, 0, 0);
      try := Attempt(FailurePermanent, View(), 0, 0);
      QuietSame(View());
      PacedSame(quarantine.View(), revoker.sweeps, 3);
      Unpack();
      TotalSize();
      ghost var W0 := View();
      var alignSize := AlignSize(bytes);
      if alignSize == 0 || heapTotalSize < alignSize {
        r := FailurePermanent;
        DecideEarly(bytes, quota, W0, quarantine.View(), try);
        return;
      }
      if alignSize > quota {
        r := FailureQuotaExceeded;
        try := try.(r := r);
        DecideEarly(bytes, quota, W0, quarantine.View(), try);
        return;
      }
      RequestIs(bytes);
      PeekWaits();
      var a;
      ghost var mid, W, chosen;
      a, mid, W, chosen := Memalign(alignSize, Unit(bytes));
      FoldUnmet(mid, bytes);
      if a == NULL {
        QuietTrans(W0, mid, W);
        QuietHeld(W0, W);
        PackOk();
        r := NoMemory(alignSize);
        try := Attempt(r, mid, 0, 0);
        Decide(bytes, quota, W0, View(), quarantine.View(), try);
        return;
      }
      QuietHeld(W0, mid);
      CalmTrans(W0, mid, W);
      PeekHeap();
      var found := 8 * h[a].currSize;
      if found > quota {
        GiveBack(a, found, W, W0);
        r := FailureQuotaExceeded;
        try := Attempt(r, mid, chosen, found);
        Decide(bytes, quota, W0, View(), quarantine.View(), try);
        return;
      }
      BodyIs(bytes, a, h[a].currSize);
      var bodySize := found - 8;
      var length := if IsPreciseRange(8 * (a + 1), bodySize) then bodySize else alignSize;
      x := HandOut(a, identifier, isSealed, if record then 1 else length / 8, W, W0);
      left := quota - found;
      r := Allocated(a, length);
      try := Attempt(r, mid, chosen, found);
      Deliver(bytes, r, x, record);
      Decide(bytes, quota, W0, View(), quarantine.View(), try);
    }

    lemma {:induction false} TotalIs()
      requires Sound()
      ensures heapTotalSize == 8 * (hi + 1 - lo)
    {
    }

    /** The counters bound the heap. */
    lemma {:induction false} TotalSize()
      requires Sound()
      ensures heapTotalSize <= 8 * HEAD && heapTotalSize == HeapBytes(View().H)
    {
    }

    lemma {:induction false} PackOk()
      requires Consistent() && Ok(View())
      ensures Sound()
    {
    }

    /** Which failure to report when there is no chunk. */
    method NoMemory(alignSize: nat) returns (r: AllocationResult)
      requires Sound() && NoneHeld(View().H)
      ensures Refused(View(), alignSize, HeadLabel(quarantine.View()), r) && !r.Allocated?
      ensures r.FailureRevocationNeeded? && quarantine.timely ==> Reported(quarantine.View(), waits, r.waitingEpoch)
    {
      hide *;
      Unpack();
      TotalSize();
      PeekHeap();
      PeekWaits();
      PeekLabel();
      WalkedIs(View());
      if quarantine.timely {
        Eldest();
      }
      var neededSize := alignSize + HEADER_SIZE;
      if heapQuarantineSize > 0 && heapQuarantineSize + heapFreeSize >= neededSize {
        r := FailureRevocationNeeded(quarantine.epochs[quarantine.head]);
      } else if heapTotalSize < neededSize {
        r := FailurePermanent;
      } else {
        r := FailureHeapFull;
      }
      FoldRefused(View(), alignSize, HeadLabel(quarantine.View()), r);
    }

    lemma {:induction false} PeekLabel()
      requires Kept(quarantine.View(), waits, revoker.sweeps)
      ensures quarantine.head < |quarantine.epochs|
      ensures HeadLabel(quarantine.View()) == quarantine.epochs[quarantine.head]
    {
    }

    lemma {:induction false} Eldest()
      requires Kept(quarantine.View(), waits, revoker.sweeps) && quarantine.timely
      ensures Reported(quarantine.View(), waits, HeadLabel(quarantine.View()))
    {
      EldestWhen(quarantine.View(), waits, revoker.sweeps);
    }

    /** A chunk larger than the quota goes back without quarantine. */
    method GiveBack(a: int, size: nat, ghost W: World, ghost W0: World)
      requires Consistent() && Ok(W) && Calm(W0, W) && NoneHeld(W0.H) && Held(W.H, a) && HeldIn(W.H, {a})
      requires a in h && size == 8 * h[a].currSize && View() == W.(freeSize := W.freeSize - size)
      modifies this`h, this`dirty, this`use, this`heapFreeSize, lists, lists.small, lists.tree, revoker`marks
      ensures Sound() && NoneHeld(View().H) && Quiet(W0, View())
    {
      hide *;
      UnpackConsistent();
      AddFree(size);
      assert View() == W;
      PeekHeap();
      ReleaseCalm(W, a, {a});
      FreeHeld(a);
      PeekHeap();
      CalmTrans(W0, W, View());
      NothingHeld(W0, View(), a);
      Pack();
    }

    method AddFree(size: nat)
      modifies this`heapFreeSize
      ensures View() == old(View()).(freeSize := old(View().freeSize) + size)
    {
      heapFreeSize := heapFreeSize + size;
    }

    lemma {:induction false} UnpackConsistent()
      requires Consistent()
      ensures lists.Valid() && lists.free == FreeMap(h) && 1 < lo && revoker.Valid() && Rest()
      ensures Kept(quarantine.View(), waits, revoker.sweeps)
    {
    }

    method HandOut(a: int, identifier: nat, isSealed: bool, ghost extent: nat, ghost W: World, ghost W0: World)
      returns (ghost x: Alloc)
      requires Consistent() && Ok(W) && Calm(W0, W) && Held(W.H, a) && HeldIn(W.H, {a})
      requires a in h && View() == W.(freeSize := W.freeSize - 8 * h[a].currSize) && 1 <= extent < h[a].currSize
      modifies this`h, this`use, this`nextGen
      ensures Sound() && NoneHeld(View().H) && Handed(W0, View(), a, x)
      ensures x == Alloc(old(h[a].currSize), identifier, 0, isSealed, W.nextGen, extent)
    {
      hide *;
      UnpackConsistent();
      PeekHeap();
      PeekGen();
      GrantHanded(W0, W, a, extent, identifier, isSealed);
      GrantView(W, a, extent, identifier, isSealed);
      x := Alloc(h[a].currSize, identifier, 0, isSealed, W.nextGen, extent);
      SetOwner(a, identifier, isSealed, extent);
      PeekHeap();
      Pack();
    }

    lemma {:induction false} PeekGen()
      ensures View().nextGen == nextGen
    {
    }

    // ---------- Freeing ----------

    /** The label for a chunk freed now, rounded up to even in 32 bits. */
    method LabelNow() returns (epoch: nat, ghost w: nat)
      requires revoker.Valid()
      ensures w == EvenEpoch(revoker.Now()) && epoch == w % WORD
    {
      EvenWrap(revoker.sweeps);
      w := EvenEpoch(revoker.Now());
      epoch := revoker.epoch;
      epoch := (epoch + epoch % 2) % WORD;
    }

    /** Paint and clear the body, and push the chunk on a pending ring. */
    method PaintAndPush(a: int, bodySize: nat)
      requires a in h && a in use && bodySize == 8 * use[a].extent
      requires revoker.Valid() && Shaped(quarantine.View()) && (forall ix: nat | ix < 2 :: quarantine.epochs[ix] < WORD)
      modifies this`dirty, this`heapQuarantineSize, this`waits, this`last, quarantine
      modifies revoker`marks, revoker`epoch, revoker`scanning, revoker`offset, revoker`sweeps, revoker`slots
      ensures revoker.Valid()
      ensures View() == DoQuarantine(old(View()), a).(p := View().p, slots := View().slots) && View().p == revoker.Now()
      ensures ProddedAtMost(View().H.marks, old(View()).p, old(View()).slots, View().p, View().slots)
      ensures quarantine.View() == Pushed(old(quarantine.View()), a, EvenEpoch(old(View().p)), revoker.sweeps)
      ensures waits == old(waits)[a := EvenEpoch(old(View().p))]
    {
      hide Pushed, Prodded, ProddedAtMost, Shaped, Relabel, Granules;
      var epoch, w := PaintNow(a, bodySize);
      quarantine.Push(epoch, a, revoker, w);
      dirty := dirty + {a + 1};
      heapQuarantineSize := heapQuarantineSize + 8 * h[a].currSize;
      waits := waits[a := w];
      last := Relabel(last, a, use[a].extent, w);
    }

    /** Paint the body, note the epoch, and clear the body. */
    method PaintNow(a: int, bodySize: nat) returns (epoch: nat, ghost w: nat)
      requires a in use && bodySize == 8 * use[a].extent && revoker.Valid()
      modifies this`dirty, revoker`marks
      ensures w == EvenEpoch(revoker.Now()) && epoch == w % WORD
      ensures var body := Granules(a + 1, a + 1 + use[a].extent);
              revoker.marks == old(revoker.marks) + body && dirty == old(dirty) - body
    {
      var body := Granules(a + 1, a + 1 + bodySize / 8);
      revoker.marks := revoker.marks + body;
      epoch, w := LabelNow();
      dirty := dirty - body;
    }

    /** mspace_free, without hazards: the allocation is over, and its chunk waits in quarantine for a sweep
        that starts after this; it cannot leave quarantine within the call.  Up to three others leave it, which
        leads to state mid, and the revoker goes on if there is much in quarantine. */
    method Free(a: int, bodySize: nat) returns (ghost mid: World)
      requires Sound() && NoneHeld(View().H) && Live(View().H, a)
      requires a in h && h[a].owner == 0 && h[a].claims == 0 && a in use && bodySize == 8 * use[a].extent
      modifies this`h, this`dirty, this`heapFreeSize, this`heapQuarantineSize, this`use, this`waits, this`last
      modifies lists, lists.small, lists.tree, quarantine
      modifies revoker`marks, revoker`epoch, revoker`scanning, revoker`offset, revoker`sweeps, revoker`slots
      ensures Sound() && NoneHeld(View().H) && Retired(old(View()), View(), a)
      ensures old(quarantine.timely && NotTooLate(quarantine.View(), revoker.sweeps)) ==> quarantine.timely
      ensures quarantine.timely ==> old(quarantine.timely)
      ensures Paced(old(quarantine.View()), old(revoker.sweeps), quarantine.View(), revoker.sweeps, 4)
      ensures Retired(old(View()), mid, a) && Reclaimed(old(|waits|) + 1, 3, mid, quarantine.View())
      ensures Kicked(mid, View(), mid.quarSize > mid.freeSize / 4 * 3)
    {
      hide *;
      ghost var W, q0, s0 := View(), quarantine.View(), revoker.sweeps;
      PushFreed(a, bodySize);
      ghost var V, q1, s1 := View(), quarantine.View(), revoker.sweeps;
      PeekWaits();
      var n := Deqn(3);
      PeekWaits();
      PeekFinished();
      mid := View();
      FoldReclaimed(old(|waits|) + 1, 3, n, mid, quarantine.View());
      ghost var q2, s2 := quarantine.View(), revoker.sweeps;
      PacedTrans(q0, s0, q1, s1, q2, s2, 1, 1);
      PeekProgress();
      QuietHeld(V, View());
      AdvancedTrans(W.p, V.p, View().p);
      RetiredStays(W, V, View(), a);
      Unpack();
      StillWaits(W, mid, a);
      PeekHeap();
      var _ := Kick(false);
      PacedTick(q2, s2, revoker.sweeps);
      PacedTrans(q0, s0, q2, s2, quarantine.View(), revoker.sweeps, 2, 2);
      QuietHeld(mid, View());
      RetiredAfter(W, mid, View(), a);
    }

    method PushFreed(a: int, bodySize: nat)
      requires Sound() && NoneHeld(View().H) && Live(View().H, a)
      requires a in h && h[a].owner == 0 && h[a].claims == 0 && a in use && bodySize == 8 * use[a].extent
      modifies this`dirty, this`heapQuarantineSize, this`waits, this`last, quarantine
      modifies revoker`marks, revoker`epoch, revoker`scanning, revoker`offset, revoker`sweeps, revoker`slots
      ensures Sound() && NoneHeld(View().H) && Retired(old(View()), View(), a) && Advanced(old(View().p), View().p)
      ensures View().p == revoker.Now()
      ensures old(quarantine.timely && NotTooLate(quarantine.View(), revoker.sweeps)) ==> quarantine.timely
      ensures (quarantine.timely ==> old(quarantine.timely)) && |waits| == old(|waits|) + 1
      ensures Paced(old(quarantine.View()), old(revoker.sweeps), quarantine.View(), revoker.sweeps, 1)
    {
      hide *;
      Unpack();
      PendingReady();
      PeekHeap();
      PeekProgress();
      PeekWaits();
      PeekFinished();
      ghost var W, q, ws := View(), quarantine.View(), waits;
      QuarantineRetires(W, a);
      MapMore(ws, a, EvenEpoch(W.p));
      PaintAndPush(a, bodySize);
      AfterPush(W, View(), q, ws, a);
      PeekFinished();
      PeekHeap();
      PeekWaits();
      Pack();
    }

    lemma {:induction false} PeekWaits()
      ensures View().H.waits == waits && View().p.sweeps == revoker.sweeps == revoker.Now().sweeps
      ensures View().quarSize == heapQuarantineSize
    {
    }

    /** chunk_body_size */
    method ChunkBodySize(a: int) returns (size: int)
      requires a in h && a >= 0 && h[a].currSize >= 1
      ensures size == BodyLength(8 * (a + 1), 8 * h[a].currSize - 8)
    {
      size := 8 * h[a].currSize - HEADER_SIZE;
      if !IsPreciseRange(8 * (a + 1), size) {
        size := size - 8;
      }
    }

    method FindMark(g: int) returns (m: int)
      requires lo in revoker.marks && lo <= g
      ensures lo <= m <= g && m in revoker.marks && forall x | m < x <= g :: x !in revoker.marks
    {
      m := g;
      while m !in revoker.marks && m > lo
        invariant lo <= m <= g && forall x | m < x <= g :: x !in revoker.marks
      {
        m := m - 1;
      }
    }

    /** allocation_start.  A granule that is no header reads as not in use unless it is not zero. */
    method AllocationStart(address: nat) returns (r: int)
      requires Sound()
      ensures Located(View().H, address / 8, r)
    {
      hide Located, Inv, Ok, Good;
      StartReady();
      var g := address / 8;
      if g < lo || g > hi + 1 {
        LocatedNowhere(View().H, g);
        return 0;
      }
      if g in revoker.marks {
        LocatedNowhere(View().H, g);
        return 0;
      }
      var m := FindMark(g);
      var inUse := *;
      if m in h {
        inUse := h[m].currInUse;
      } else if m !in dirty {
        inUse := false;
      }
      r := if inUse then m else 0;
      LocatedAt(View().H, g, m, r);
    }

    lemma {:induction false} StartReady()
      requires Sound()
      ensures Inv(View().H) && lo in revoker.marks
    {
      assert MarksAt(View().H, lo);
    }

    // ---------- Holders, records and clients ----------

    /** Set the owner and the first claim in the header of a live chunk. */
    method SetHolder(a: int, owner: nat, claims: nat)
      requires Sound() && NoneHeld(View().H) && Live(View().H, a)
      modifies this`h
      ensures Sound() && NoneHeld(View().H) && a in old(View().H.h)
      ensures View() == DoSetHolder(old(View()), a, owner, claims)
      ensures a in old(View().H.use)
      ensures LiveMap(View().H) ==
              old(LiveMap(View().H))[a := AllocAt(old(View().H), a).(owner := owner, claims := claims)]
      ensures Runs.Reaches(old(View()), View())
    {
      hide *;
      Unpack();
      PeekHeap();
      LiveInUse(View().H, a);
      HolderFrame(View(), a, owner, claims);
      HolderReaches(View(), a, owner, claims);
      SetFields(a, owner, claims);
      PeekHeap();
      Pack();
    }

    method SetFields(a: int, owner: nat, claims: nat)
      requires a in h
      modifies this`h
      ensures View() == DoSetHolder(old(View()), a, owner, claims)
    {
      h := h[a := h[a].(owner := owner, claims := claims)];
    }

    /** Write the record that the live chunk at a holds for the allocator. */
    method WriteRecord(a: int)
      requires Sound() && NoneHeld(View().H) && Live(View().H, a)
      modifies this`dirty
      ensures Sound() && NoneHeld(View().H) && View() == DoWrite(old(View()), a)
      ensures LiveMap(View().H) == old(LiveMap(View().H)) && Runs.Reaches(old(View()), View())
    {
      hide *;
      Unpack();
      PeekHeap();
      WriteReaches(View(), a);
      WriteFrame(View(), a);
      MarkWritten(a);
      PeekHeap();
      Pack();
    }

    method MarkWritten(a: int)
      modifies this`dirty
      ensures View() == DoWrite(old(View()), a)
    {
      dirty := dirty + {a + 1};
    }

    /** A client puts into slot j what it derived from the capability that it loaded from slot i. */
    method ClientCopy(i: nat, j: nat, d: Cap)
      requires Sound() && i < |revoker.slots| && j < |revoker.slots|
      requires Derives(Load(revoker.marks, revoker.slots[i]), d)
      modifies revoker`slots
      ensures Sound() && revoker.slots == old(revoker.slots)[j := d] && View() == old(View()).(slots := revoker.slots)
      ensures Runs.Reaches(old(View()), View())
    {
      CopyOk(View(), i, j, d);
      CopyReaches(View(), i, j, d);
      SetSlot(j, d);
    }

    /** A client puts the capability to the allocation at a, which it was just given, into slot j. */
    method ClientReceive(j: nat, a: int, length: nat, gen: nat)
      requires Sound() && j < |revoker.slots| && Live(View().H, a) && length == 8 * use[a].extent && gen == use[a].gen
      modifies revoker`slots
      ensures Sound() && revoker.slots == old(revoker.slots)[j := Cap(8 * (a + 1), length, a, gen)]
      ensures View() == old(View()).(slots := revoker.slots) && Runs.Reaches(old(View()), View())
    {
      ReceiveOk(View(), j, a);
      ReceiveReaches(View(), j, a);
      SetSlot(j, Cap(8 * (a + 1), length, a, gen));
    }

    method SetSlot(j: nat, d: Cap)
      requires Consistent() && j < |revoker.slots| && Ok(DoCopy(View(), j, d))
      modifies revoker`slots
      ensures Sound() && revoker.slots == old(revoker.slots)[j := d] && View() == old(View()).(slots := revoker.slots)
    {
      revoker.slots := revoker.slots[j := d];
    }

    /** A client stores data through the capability that it loaded from slot i. */
    method ClientStore(i: nat, offset: nat)
      requires Sound() && i < |revoker.slots| && Load(revoker.marks, revoker.slots[i]).Cap?
      requires offset < revoker.slots[i].len
      modifies this`dirty
      ensures Sound() && LiveMap(View().H) == old(LiveMap(View().H))
      ensures dirty == old(dirty) + {(revoker.slots[i].base + offset) / 8}
      ensures View().H.use == old(View().H.use) && View().H.waits == old(View().H.waits)
      ensures Runs.Reaches(old(View()), View())
    {
      hide *;
      Unpack();
      PeekSlots();
      StoreFrame(View(), i, offset);
      MarkStored((revoker.slots[i].base + offset) / 8);
      Pack();
    }

    lemma {:induction false} PeekSlots()
      ensures View().slots == revoker.slots && View().H.marks == revoker.marks
    {
    }

    method MarkStored(g: int)
      modifies this`dirty
      ensures dirty == old(dirty) + {g} && View() == old(View()).(H := Store(old(View().H), g))
    {
      dirty := dirty + {g};
    }

    // ---------- Flushing the quarantine ----------

    /** Dequeue until nothing is left to dequeue. */
    method Drain()
      requires Sound()
      modifies this`h, this`dirty, this`heapFreeSize, this`heapQuarantineSize, this`use, this`waits
      modifies lists, lists.small, lists.tree, quarantine
      modifies revoker`marks, revoker`epoch, revoker`scanning, revoker`offset, revoker`sweeps, revoker`slots
      ensures Sound() && Quiet(old(View()), View()) && quarantine.finished == []
      ensures quarantine.timely == old(quarantine.timely)
      ensures quarantine.timely ==> Unfinished(quarantine.View(), revoker.sweeps)
      ensures Drained(old(quarantine.View()), quarantine.View(), old(revoker.sweeps))
      ensures Advanced(old(revoker.Now()), revoker.Now())
      ensures Paced(old(quarantine.View()), old(revoker.sweeps), quarantine.View(), revoker.sweeps, 1)
    {
      hide *;
      ghost var W, q0, p0, ws0 := View(), quarantine.View(), revoker.Now(), waits;
      Unpack();
      PeekWaits();
      PeekFinished();
      var n := Deqn(4);
      while n > 0
        invariant Sound() && Quiet(W, View()) && quarantine.timely == old(quarantine.timely)
        invariant Advanced(p0, revoker.Now()) && Drained(q0, quarantine.View(), p0.sweeps)
        invariant n == 0 ==> quarantine.finished == []
        invariant n == 0 && quarantine.timely ==> Unfinished(quarantine.View(), revoker.sweeps)
        decreases |waits|, n
      {
        ghost var V, q, p := View(), quarantine.View(), revoker.Now();
        AdvancedIs(p0, p);
        PeekWaits();
        n := Deqn(4);
        QuietTrans(W, V, View());
        AdvancedTrans(p0, p, revoker.Now());
        DrainedTrans(q0, q, quarantine.View(), p0.sweeps, p.sweeps);
      }
      PeekFinished();
      PaceOf(q0, ws0, p0);
    }

    /** has_revocation_finished_for_epoch, for the allocator state as a whole. */
    method Poll(epoch: nat, ghost w: nat) returns (done: bool)
      requires Sound() && epoch == w % WORD && w <= revoker.sweeps + 1
      modifies revoker`epoch, revoker`scanning, revoker`offset, revoker`sweeps, revoker`slots
      ensures Sound() && Quiet(old(View()), View()) && old(revoker.sweeps) <= revoker.sweeps
      ensures done ==> w + 2 <= revoker.sweeps
      ensures done <==> Finished(revoker.sweeps % WORD, w % WORD)
      ensures Advanced(old(revoker.Now()), revoker.Now())
      ensures revoker.Now() == Looked(old(revoker.Now()), |revoker.slots|) && |revoker.slots| == old(|revoker.slots|)
    {
      hide *;
      Unpack();
      PeekProgress();
      ghost var q, W, s := quarantine.View(), View(), revoker.sweeps;
      done := PollRevoker(epoch, w);
      PeekProgress();
      ProdOk(W, View().p, View().slots);
      KeptLater(q, waits, s, revoker.sweeps);
      Pack();
    }

    method PollRevoker(epoch: nat, ghost w: nat) returns (done: bool)
      requires revoker.Valid() && epoch == w % WORD && w <= revoker.sweeps + 1
      modifies revoker`epoch, revoker`scanning, revoker`offset, revoker`sweeps, revoker`slots
      ensures revoker.Valid() && old(revoker.sweeps) <= revoker.sweeps
      ensures View() == old(View()).(p := View().p, slots := View().slots) && View().p == revoker.Now()
      ensures ProddedAtMost(View().H.marks, old(View()).p, old(View()).slots, View().p, View().slots)
      ensures (done ==> w + 2 <= revoker.sweeps) && (done <==> Finished(revoker.sweeps % WORD, w % WORD))
      ensures revoker.Now() == Looked(old(revoker.Now()), |revoker.slots|) && |revoker.slots| == old(|revoker.slots|)
    {
      done := revoker.HasFinished(epoch);
      ProddedSweeps(revoker.marks, old(revoker.Now()), old(revoker.slots), revoker.Now(), revoker.slots);
      FinishedIsFinished(revoker.sweeps, w);
    }

    /** The first half of heap_quarantine_flush: drain, and note the epoch whose sweep to wait for. */
    method FlushStart() returns (done: bool, epoch: nat, ghost w: nat)
      requires Sound()
      modifies this`h, this`dirty, this`heapFreeSize, this`heapQuarantineSize, this`use, this`waits
      modifies lists, lists.small, lists.tree, quarantine
      modifies revoker`marks, revoker`epoch, revoker`scanning, revoker`offset, revoker`sweeps, revoker`slots
      ensures Sound() && Quiet(old(View()), View()) && w == EvenEpoch(old(View().p)) && epoch == w % WORD
      ensures w <= revoker.sweeps + 1
      ensures quarantine.timely == old(quarantine.timely)
      ensures (forall a | a in old(waits) :: old(waits)[a] <= w) && (done <==> waits == map[])
      ensures quarantine.finished == [] && (quarantine.timely ==> Unfinished(quarantine.View(), revoker.sweeps))
      ensures Drained(old(quarantine.View()), quarantine.View(), old(revoker.sweeps))
      ensures Paced(old(quarantine.View()), old(revoker.sweeps), quarantine.View(), revoker.sweeps, 3)
    {
      hide *;
      Unpack();
      PeekProgress();
      ghost var W, q0, s0 := View(), quarantine.View(), revoker.sweeps;
      epoch, w := LabelNow();
      KeptLabels(quarantine.View(), waits, revoker.sweeps);
      EvenEpochIs(revoker.Now());
      PeekWaits();
      Drain();
      PacedMore(q0, s0, quarantine.View(), revoker.sweeps, 1, 3);
      QuietSweeps(W, View(), w);
      PeekWaits();
      Unpack();
      NothingPending(View());
      done := heapQuarantineSize == 0;
    }

    /** Start another sweep if none is running. */
    method KickIfIdle()
      requires Sound()
      modifies revoker`epoch, revoker`scanning, revoker`offset, revoker`sweeps, revoker`slots
      ensures Sound() && Quiet(old(View()), View()) && Kicked(old(View()), View(), !Running(old(View().p)))
      ensures old(revoker.sweeps) <= revoker.sweeps <= old(revoker.sweeps) + 2
    {
      hide *;
      Unpack();
      Parities();
      PeekProgress();
      QuietSame(View());
      NotKicked(View());
      if revoker.epoch % 2 == 0 {
        Tick();
      }
    }

    /** One turn of waiting in heap_quarantine_flush, with the lock held, and the second half of it when the
        wait is over, in epoch ended.  What was in quarantine at the first half has left when this reports
        success, whatever else ran since, as far as the labels then pending say.  A turn in vain brings the end
        of the sweep closer. */
    method FlushRetry(epoch: nat, ghost w: nat) returns (done: bool, ghost ended: nat)
      requires Sound() && epoch == w % WORD && w <= revoker.sweeps + 1
      modifies this`h, this`dirty, this`heapFreeSize, this`heapQuarantineSize, this`use, this`waits
      modifies lists, lists.small, lists.tree, quarantine
      modifies revoker`marks, revoker`epoch, revoker`scanning, revoker`offset, revoker`sweeps, revoker`slots
      ensures Sound() && Quiet(old(View()), View()) && w <= revoker.sweeps + 1
      ensures quarantine.timely == old(quarantine.timely)
      ensures old(revoker.sweeps) <= ended <= old(revoker.sweeps + revoker.sweeps % 2)
      ensures ended == Looked(old(revoker.Now()), old(|revoker.slots|)).sweeps
      ensures done <==> Finished(ended % WORD, epoch)
      ensures done && quarantine.timely ==> FlushOutcome(old(quarantine.View()), ended, waits, w)
      ensures !done ==> revoker.Now() == Waited(old(revoker.Now()), old(|revoker.slots|)) && waits == old(waits)
      ensures !done && ended < w + WORD / 2 ==> Runs.InVain(Runs.Turn(old(View()), View()), w)
      ensures Paced(old(quarantine.View()), old(revoker.sweeps), quarantine.View(), revoker.sweeps, 3)
    {
      hide *;
      ghost var W, q0, p0 := View(), quarantine.View(), revoker.Now();
      Unpack();
      PeekProgress();
      PeekSlots();
      PeekFinished();
      PeekWaits();
      done := Poll(epoch, w);
      ghost var V, p1 := View(), revoker.Now();
      ended := revoker.sweeps;
      AdvancedIs(p0, p1);
      PeekWaits();
      Unpack();
      if !done {
        PacedEpoch(q0, p0.sweeps, ended);
        PacedSame(q0, ended, 2);
        PeekProgress();
        PeekSlots();
        KickIfIdle();
        PeekWaits();
        PeekProgress();
        QuietTrans(W, V, View());
        QuietSweeps(V, View(), w);
        PacedTick(q0, ended, revoker.sweeps);
        PacedTrans(q0, p0.sweeps, q0, ended, q0, revoker.sweeps, 1, 2);
        VainTurn(W, V, View(), w);
        return;
      }
      ghost var ws := waits;
      Drain();
      QuietTrans(W, V, View());
      QuietSweeps(V, View(), w);
      AdvancedIs(p1, revoker.Now());
      PeekWaits();
      PeekFinished();
      Unpack();
      PacedEpoch(q0, p0.sweeps, ended);
      PacedMore(q0, ended, quarantine.View(), revoker.sweeps, 1, 2);
      PacedTrans(q0, p0.sweeps, q0, ended, quarantine.View(), revoker.sweeps, 1, 2);
      if quarantine.timely {
        Flushed(q0, ws, ended, quarantine.View(), waits, revoker.sweeps, w);
        FoldOutcome(q0, ended, waits, w);
      }
    }
  }

  /** What a client gets for a request. */
  predicate Delivered(bytes: nat, r: AllocationResult, x: Alloc, record: bool)
    requires r.Allocated?
  {
    && r.chunk > 0 && x.size >= 2 && r.length == BodyLength(8 * (r.chunk + 1), 8 * x.size - 8)
    && bytes <= r.length && IsPreciseRange(8 * (r.chunk + 1), r.length)
    && r.length % 8 == 0 && x.extent == if record then 1 else r.length / 8
  }

  lemma {:induction false} FoldUnmet(W: World, bytes: nat)
    ensures Unmet(W, bytes) <==> NoneFits(FreeMap(W.H.h), Needed(AlignSize(bytes), Unit(bytes)) / 8)
  {
  }

  lemma {:induction false} FoldReclaimed(n: nat, k: nat, dequeued: nat, W: World, q: Queue)
    requires |W.H.waits| + dequeued == n && dequeued <= k && (dequeued < k ==> q.finished == [])
    requires dequeued < k && q.timely ==> Unfinished(q, W.p.sweeps)
    ensures Reclaimed(n, k, W, q)
  {
  }

  lemma {:induction false} NotKicked(W: World)
    ensures Kicked(W, W, false)
  {
  }

  lemma {:induction false} FoldRefused(W: World, alignSize: nat, epoch: nat, r: AllocationResult)
    requires var need := alignSize + HEADER_SIZE;
             var wait := W.H.waits != map[] && need <= Walked(W.H, FreeMap(W.H.h).Keys + W.H.waits.Keys);
             r == if wait then FailureRevocationNeeded(epoch) else
                  if HeapBytes(W.H) < need then FailurePermanent else FailureHeapFull
    ensures Refused(W, alignSize, epoch, r)
  {
    hide Walked, FreeMap;
  }

  lemma {:induction false} DecideEarly(bytes: nat, quota: nat, W: World, q: Queue, try: Attempt)
    requires AlignSize(bytes) == 0 || HeapBytes(W.H) < AlignSize(bytes) || quota < AlignSize(bytes)
    requires try.r == if AlignSize(bytes) == 0 || HeapBytes(W.H) < AlignSize(bytes) then FailurePermanent
                      else FailureQuotaExceeded
    ensures Decided(bytes, quota, W, W, q, try)
  {
  }

  lemma {:induction false} Decide(bytes: nat, quota: nat, W: World, W': World, q: Queue, try: Attempt)
    requires 0 < AlignSize(bytes) <= HeapBytes(W.H) && AlignSize(bytes) <= quota
    requires Reclaimed(|W.H.waits|, 4, try.mid, q)
    requires Unmet(try.mid, bytes) ==>
               Kicked(try.mid, W', try.mid.H.waits != map[]) && Refused(W', AlignSize(bytes), HeadLabel(q), try.r)
    requires !Unmet(try.mid, bytes) ==> Picked(FreeMap(try.mid.H.h), AlignSize(bytes), Unit(bytes), try.chunk, try.size)
    requires !Unmet(try.mid, bytes) ==>
               try.size == AlignSize(bytes) + 8 || (Unit(bytes) <= 8 && try.size == AlignSize(bytes) + 16)
    requires !Unmet(try.mid, bytes) ==> if try.size > quota then try.r == FailureQuotaExceeded else try.r.Allocated?
    ensures Decided(bytes, quota, W, W', q, try)
  {
    hide AlignSize, Unit, Kicked, Refused, Picked, Reclaimed, Unmet;
  }

  /** What happens to the state after a success does not change what the request came to. */
  lemma {:induction false} DecidedStill(bytes: nat, quota: nat, W: World, V: World, W': World, q: Queue, try: Attempt)
    requires Decided(bytes, quota, W, V, q, try) && try.r.Allocated?
    ensures Decided(bytes, quota, W, W', q, try)
  {
    hide AlignSize, Unit, Kicked, Picked, Reclaimed, Unmet, Walked;
  }

  lemma {:induction false} TakenSizeIs(free: map<int, nat>, k: nat, a: int)
    requires a in free
    ensures TakenSize(free, k, a) == if free[a] == k + 1 then k + 1 else k
  {
  }

  lemma {:induction false} FoldPicked(free: map<int, nat>, bytes: nat, alignment: nat, chunk: int, size: nat)
    requires var k := Needed(bytes, alignment) / 8;
             && chunk in free && k <= free[chunk]
             && size == (if alignment <= 8 then 8 * TakenSize(free, k, chunk) else PadRequest(bytes))
             && (alignment <= 8 && bytes <= MAX_SMALL_REQUEST ==> BestChunk(free, k, chunk))
    ensures Picked(free, bytes, alignment, chunk, size)
  {
  }

  lemma {:induction false} DrainedLook(q: Queue, waits: map<int, nat>, seen: nat, sweeps: nat)
    requires Kept(q, waits, seen) && seen <= sweeps <= seen + seen % 2
    ensures Drained(q, Checked(q, sweeps % WORD), seen)
  {
    DrainedChecked(q, waits, seen, sweeps);
  }

  lemma {:induction false} AdvancedIs(p: Progress, p': Progress)
    requires Advanced(p, p')
    ensures p.sweeps <= p'.sweeps <= p.sweeps + p.sweeps % 2
  {
  }

  lemma {:induction false} Deliver(bytes: nat, r: AllocationResult, x: Alloc, record: bool)
    requires r.Allocated? && r.chunk > 0 && x.size >= 2 && r.length == BodyLength(8 * (r.chunk + 1), 8 * x.size - 8)
    requires bytes <= r.length && IsPreciseRange(8 * (r.chunk + 1), r.length)
    requires r.length % 8 == 0 && x.extent == if record then 1 else r.length / 8
    ensures Delivered(bytes, r, x, record)
  {
  }

  /** What a push leaves, given what the revoker did meanwhile. */
  lemma {:induction false} AfterPush(W: World, W': World, q: Queue, waits: map<int, nat>, a: int)
    requires Ok(W) && a in W.H.h && a in W.H.use && Ok(DoQuarantine(W, a)) && Retired(W, DoQuarantine(W, a), a)
    requires Shaped(q) && Kept(q, waits, W.p.sweeps) && a !in waits
    requires W' == DoQuarantine(W, a).(p := W'.p, slots := W'.slots)
    requires ProddedAtMost(W'.H.marks, W.p, W.slots, W'.p, W'.slots)
    ensures Ok(W') && Retired(W, W', a) && Advanced(W.p, W'.p) && W'.H == DoQuarantine(W, a).H
    ensures Kept(Pushed(q, a, EvenEpoch(W.p), W'.p.sweeps), waits[a := EvenEpoch(W.p)], W'.p.sweeps)
    ensures var q' := Pushed(q, a, EvenEpoch(W.p), W'.p.sweeps);
            (q'.timely ==> q.timely) && (q.timely && NotTooLate(q, W.p.sweeps) ==> q'.timely)
    ensures NoneHeld(DoQuarantine(W, a).H) ==> NoneHeld(W'.H)
    ensures Paced(q, W.p.sweeps, Pushed(q, a, EvenEpoch(W.p), W'.p.sweeps), W'.p.sweeps, 1)
  {
    hide Ok, Inv, Kept, NotTooLate, Pushed, OnTime, Tidy, Paced, Retired, NoneHeld, Relabel, HeapState.Quarantine;
    var V := DoQuarantine(W, a);
    ProdOk(V, W'.p, W'.slots);
    assert W' == V.(p := W'.p, slots := W'.slots);
    RetiredAfter(W, V, W', a);
    KeptPushed(q, waits, W.p.sweeps, W'.p.sweeps, a);
  }

  /** A chunk just freed is counted. */
  lemma {:induction false} StillWaits(W: World, W': World, a: int)
    requires Ok(W') && Retired(W, W', a)
    ensures W'.quarSize != 0
  {
    NothingPending(W');
  }

  /** What a turn of waiting in vain leads to. */
  lemma {:induction false} VainTurn(W: World, V: World, W': World, w: nat)
    requires Ok(W) && V.p == Looked(W.p, |W.slots|) && |V.slots| == |W.slots| && Kicked(V, W', !Running(V.p))
    requires !Finished(V.p.sweeps % WORD, w % WORD) && w <= V.p.sweeps + 1
    ensures W'.p == Waited(W.p, |W.slots|)
    ensures V.p.sweeps < w + WORD / 2 ==> Runs.InVain(Runs.Turn(W, W'), w)
  {
    hide Inv, Finished;
    FinishedIsFinished(V.p.sweeps, w);
    if V.p.sweeps < w + WORD / 2 { WaitToGo(W.p, |W.slots|, w); }
  }

  lemma {:induction false} LiveInUse(H: Heap, a: int)
    requires Live(H, a)
    ensures a in H.use
  {
  }

  lemma {:induction false} EvenEpochIs(p: Progress)
    ensures EvenEpoch(p) == p.sweeps + p.sweeps % 2
  {
  }

  lemma {:induction false} QuietSweeps(W: World, W': World, w: nat)
    requires Quiet(W, W')
    ensures W.p.sweeps <= W'.p.sweeps && (w == EvenEpoch(W.p) ==> w <= W'.p.sweeps + 1)
  {
  }
}
