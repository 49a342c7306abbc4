/** Sequences of steps of the world as the operations of the allocator take them: what each needs, and
    what it leaves alone. */
module Steps {
  import opened SizeBits
  import opened Chunks
  import opened HeapState
  import opened Sums
  import opened Accounts
  import opened Revoker
  import opened World
  import Runs

  // ---------- Freeing, step by step ----------

  /** Headers, free chunks, marks and non-zero granules. */
  datatype Layout = Layout(h: Headers, free: map<int, nat>, marks: set<int>, dirty: set<int>)

  /** The free chunk at x leaves the lists and the header at gone is erased. */
  function Merged(L: Layout, x: int, gone: int): (L': Layout)
    requires x in L.h && gone in L.h && Prev(L.h, gone) in L.h && Next(L.h, gone) in L.h
  {
    Layout(Unsplit(L.h, gone), L.free - {x}, L.marks - {gone}, L.dirty - Meta(x, L.h[x].currSize))
  }

  function MergedBack(L: Layout, a: int): (L': Layout)
    requires a in L.h && (!L.h[a].prevInUse ==> Prev(L.h, a) in L.h && Next(L.h, a) in L.h)
  {
    if L.h[a].prevInUse then L else Merged(L, Prev(L.h, a), a)
  }

  predicate CanMergeOn(L: Layout, p: int)
  {
    && p in L.h && Next(L.h, p) in L.h
    && var n := Next(L.h, p); !L.h[n].currInUse ==> Prev(L.h, n) in L.h && Next(L.h, n) in L.h
  }

  function MergedOn(L: Layout, p: int): (L': Layout)
    requires CanMergeOn(L, p)
  {
    var n := Next(L.h, p);
    if L.h[n].currInUse then L else Merged(L, n, n)
  }

  function Freed(L: Layout, p: int): (L': Layout)
    requires p in L.h && Next(L.h, p) in L.h
  {
    var k := L.h[p].currSize;
    Layout(SetUse(L.h, p, false), L.free[p := k], L.marks, L.dirty + Meta(p, k))
  }

  ghost predicate ListsAgree(L: Layout) { L.free == FreeMap(L.h) }

  /** Merging backward, then forward, then marking free: where it leads, and that each step can be taken. */
  lemma {:induction false} BackStep(L: Layout, lo: int, hi: int, a: int)
    requires Formed(L.h, lo, hi) && a in L.h && a < hi && L.h[a].currInUse && ListsAgree(L)
    ensures Next(L.h, a) in L.h && (!L.h[a].prevInUse ==> Prev(L.h, a) in L.h)
    ensures !L.h[a].prevInUse ==> Prev(L.h, a) in L.free && L.free[Prev(L.h, a)] == L.h[Prev(L.h, a)].currSize
  {
    ReleaseBounds(L.h, lo, hi, a);
  }

  lemma {:induction false} OnStep(L: Layout, lo: int, hi: int, a: int)
    requires Formed(L.h, lo, hi) && a in L.h && a < hi && L.h[a].currInUse && ListsAgree(L)
    requires Next(L.h, a) in L.h && MergeStart(L.h, a) in L.h
    ensures var L1, p := MergedBack(L, a), MergeStart(L.h, a);
            && CanMergeOn(L1, p)
            && var n := Next(L1.h, p);
            && n == Next(L.h, a) && L1.h[n].currInUse == L.h[n].currInUse && L1.h[n].currSize == L.h[n].currSize
            && (!L1.h[n].currInUse ==> n in L1.free && L1.free[n] == L1.h[n].currSize)
  {
    ReleaseBounds(L.h, lo, hi, a);
    FormedAt(L.h, lo, hi, a);
    FormedAt(L.h, lo, hi, Next(L.h, a));
  }

  lemma {:induction false} ReleaseHeaders(L: Layout, lo: int, hi: int, a: int)
    requires Formed(L.h, lo, hi) && a in L.h && a < hi
    requires Next(L.h, a) in L.h && MergeStart(L.h, a) in L.h && MergeEnd(L.h, a) in L.h
    requires CanMergeOn(MergedBack(L, a), MergeStart(L.h, a))
    ensures var p := MergeStart(L.h, a); var L2 := MergedOn(MergedBack(L, a), p);
            && p in L2.h && Next(L2.h, p) in L2.h && L2.h[p].currSize == MergeSize(L.h, a)
            && SetUse(L2.h, p, false) == Release(L.h, a)
  {
    hide Formed, Release, SetUse;
    ReleaseBounds(L.h, lo, hi, a);
    FormedAt(L.h, lo, hi, a);
    FormedAt(L.h, lo, hi, Next(L.h, a));
    ReleaseAgrees(L, lo, hi, a);
  }

  lemma {:induction false} ReleaseAgrees(L: Layout, lo: int, hi: int, a: int)
    requires Formed(L.h, lo, hi) && a in L.h && a < hi
    requires Next(L.h, a) in L.h && MergeStart(L.h, a) in L.h && MergeEnd(L.h, a) in L.h
    requires CanMergeOn(MergedBack(L, a), MergeStart(L.h, a))
    ensures var p := MergeStart(L.h, a); var L2 := MergedOn(MergedBack(L, a), p);
            p in L2.h && Next(L2.h, p) in L2.h && SetUse(L2.h, p, false) == Release(L.h, a)
  {
    hide Formed;
    ReleaseBounds(L.h, lo, hi, a);
    FormedAt(L.h, lo, hi, a);
    FormedAt(L.h, lo, hi, Next(L.h, a));
  }

  lemma {:induction false} ReleaseLists(L: Layout, lo: int, hi: int, a: int)
    requires Formed(L.h, lo, hi) && a in L.h && a < hi && L.h[a].currInUse && ListsAgree(L)
    requires Next(L.h, a) in L.h && MergeStart(L.h, a) in L.h && MergeEnd(L.h, a) in L.h
    requires CanMergeOn(MergedBack(L, a), MergeStart(L.h, a))
    requires Next(MergedBack(L, a).h, MergeStart(L.h, a)) == Next(L.h, a)
    requires MergedBack(L, a).h[Next(L.h, a)].currInUse == L.h[Next(L.h, a)].currInUse
    ensures var p := MergeStart(L.h, a); var f := MergedOn(MergedBack(L, a), p).free;
            p !in f && f[p := MergeSize(L.h, a)] == FreeMap(Release(L.h, a))
  {
    ReleaseBounds(L.h, lo, hi, a);
    ReleaseFree(L.h, lo, hi, a);
    var p, n := MergeStart(L.h, a), Next(L.h, a);
    assert L.h[n].currInUse ==> n !in FreeMap(L.h);
    assert L.h[a].prevInUse ==> p !in FreeMap(L.h);
  }

  /** The three steps of mspace_free_internal free the chunk, one with its free neighbours. */
  lemma {:induction false} ReleaseSteps(L: Layout, lo: int, hi: int, a: int)
    requires Formed(L.h, lo, hi) && a in L.h && a < hi && L.h[a].currInUse && ListsAgree(L)
    ensures Next(L.h, a) in L.h && MergeStart(L.h, a) in L.h && MergeEnd(L.h, a) in L.h
    ensures CanMergeOn(MergedBack(L, a), MergeStart(L.h, a))
    ensures var p := MergeStart(L.h, a); var L2 := MergedOn(MergedBack(L, a), p);
            && p in L2.h && Next(L2.h, p) in L2.h && p !in L2.free
            && lo <= p && 2 <= L2.h[p].currSize < HEAD
            && Freed(L2, p) == Layout(Release(L.h, a), FreeMap(Release(L.h, a)), L.marks - Erased(L.h, a),
                                      ReleasedDirty(L.h, a, L.dirty))
  {
    ReleaseBounds(L.h, lo, hi, a);
    FormedAt(L.h, lo, hi, a);
    OnStep(L, lo, hi, a);
    ReleaseHeaders(L, lo, hi, a);
    ReleaseLists(L, lo, hi, a);
  }

  // ---------- What the operations keep ----------

  /** No chunk is half-way between free and handed out. */
  ghost predicate NoneHeld(H: Heap) { forall a {:trigger Held(H, a)} :: !Held(H, a) }

  /** The allocation that a capability was derived for is live. */
  predicate Lives(live: map<int, Alloc>, c: Cap) { c.Cap? && c.chunk in live && live[c.chunk].gen == c.gen }

  /** No capability appears, and only such as are not to a live allocation may be lost. */
  predicate Fewer(live: map<int, Alloc>, slots: seq<Cap>, slots': seq<Cap>)
  {
    && |slots'| == |slots|
    && forall i {:trigger slots'[i]} | 0 <= i < |slots'| ::
         slots'[i] == slots[i] || (slots'[i] == NoCap && !Lives(live, slots[i]))
  }

  /** A sweep does not touch capabilities to live allocations. */
  lemma {:induction false} FewerSwept(W: World, from: nat, to: nat)
    requires Ok(W)
    ensures Fewer(LiveMap(W.H), W.slots, Swept(W.H.marks, W.slots, from, to))
  {
    hide Swept, Inv, Aged;
    var s := Swept(W.H.marks, W.slots, from, to);
    forall i | 0 <= i < |s| ensures s[i] == W.slots[i] || (s[i] == NoCap && !Lives(LiveMap(W.H), W.slots[i])) {
      SweptIs(W.H.marks, W.slots, from, to, i);
      assert CapOk(W.H.use, W.H.waits, W.p, i, W.slots[i]);
      if Lives(LiveMap(W.H), W.slots[i]) { LiveLoads(W.H, W.p, i, W.slots[i]); }
    }
  }

  lemma {:induction false} FewerTrans(live: map<int, Alloc>, s: seq<Cap>, s': seq<Cap>, s'': seq<Cap>)
    requires Fewer(live, s, s') && Fewer(live, s', s'')
    ensures Fewer(live, s, s'')
  {
    hide Lives;
    forall i | 0 <= i < |s''| ensures s''[i] == s[i] || (s''[i] == NoCap && !Lives(live, s[i])) {
      assert s'[i] == s[i] || (s'[i] == NoCap && !Lives(live, s[i]));
    }
  }

  /** Allocations only go, and capabilities are lost only to such as are gone. */
  ghost predicate Shrunk(live: map<int, Alloc>, slots: seq<Cap>, live': map<int, Alloc>, slots': seq<Cap>)
  {
    && (forall a {:trigger live'[a]} | a in live' :: a in live && live'[a].gen == live[a].gen)
    && Fewer(live', slots, slots')
  }

  lemma {:induction false} FewerSame(live: map<int, Alloc>, slots: seq<Cap>)
    ensures Fewer(live, slots, slots) && Shrunk(live, slots, live, slots)
  {
  }

  lemma {:induction false} ShrunkTrans(l: map<int, Alloc>, s: seq<Cap>, l': map<int, Alloc>, s': seq<Cap>,
                                       l'': map<int, Alloc>, s'': seq<Cap>)
    requires Shrunk(l, s, l', s') && Shrunk(l', s', l'', s'')
    ensures Shrunk(l, s, l'', s'')
  {
    assert Fewer(l'', s, s') by {
      forall i | 0 <= i < |s'| ensures s'[i] == s[i] || (s'[i] == NoCap && !Lives(l'', s[i])) {
        if s[i].Cap? && s[i].chunk in l'' { assert l''[s[i].chunk].gen == l'[s[i].chunk].gen; }
      }
    }
    FewerTrans(l'', s, s', s'');
  }

  /** The allocator works on these chunks only. */
  ghost predicate HeldIn(H: Heap, s: set<int>) { forall a {:trigger Held(H, a)} | Held(H, a) :: a in s }

  /** Live allocations stay as they are, and chunks leave quarantine only when their sweep is over. */
  ghost predicate Calm(W: World, W': World)
  {
    && W'.H.lo == W.H.lo && W'.H.hi == W.H.hi
    && LiveMap(W'.H) == LiveMap(W.H)
    && W'.last == W.last && W'.nextGen == W.nextGen && Fewer(LiveMap(W.H), W.slots, W'.slots)
    && W.p.sweeps <= W'.p.sweeps && Runs.Reaches(W, W')
    && (forall a {:trigger KeptAt(W, W', a)} :: KeptAt(W, W', a))
  }

  /** And no chunk is left in the hands of the allocator. */
  ghost predicate Quiet(W: World, W': World)
  {
    Calm(W, W') && forall a {:trigger Held(W'.H, a)} | Held(W'.H, a) :: Held(W.H, a)
  }

  lemma {:induction false} CalmTrans(W: World, W': World, W'': World)
    requires Calm(W, W') && Calm(W', W'')
    ensures Calm(W, W'')
  {
    FewerTrans(LiveMap(W.H), W.slots, W'.slots, W''.slots);
    Runs.ReachesTrans(W, W', W'');
    forall a ensures KeptAt(W, W'', a) { assert KeptAt(W, W', a) && KeptAt(W', W'', a); }
  }

  /** After a quiet stretch from a state where the allocator held nothing, it holds nothing. */
  lemma {:induction false} QuietHeld(W: World, W': World)
    requires Quiet(W, W')
    ensures Calm(W, W') && (NoneHeld(W.H) ==> NoneHeld(W'.H))
  {
    if NoneHeld(W.H) { forall a ensures !Held(W'.H, a) { assert Held(W'.H, a) ==> Held(W.H, a); } }
  }

  predicate KeptAt(W: World, W': World, a: int)
  {
    && (a in W'.H.waits ==> a in W.H.waits && W'.H.waits[a] == W.H.waits[a])
    && (a in W.H.waits && a !in W'.H.waits ==> W.H.waits[a] + 2 <= W'.p.sweeps)
    && (a in W'.H.waits && a in W.H.h ==> a in W'.H.h && W'.H.h[a].currSize == W.H.h[a].currSize)
  }

  lemma {:induction false} QuietTrans(W: World, W': World, W'': World)
    requires Quiet(W, W') && Quiet(W', W'')
    ensures Quiet(W, W'')
  {
    CalmTrans(W, W', W'');
    forall a | Held(W''.H, a) ensures Held(W.H, a) { assert Held(W'.H, a); }
  }

  lemma {:induction false} QuietSame(W: World)
    ensures Quiet(W, W)
  {
    Runs.ReachesSame(W);
    forall a ensures KeptAt(W, W, a) {}
  }

  lemma {:induction false} TickQuiet(W: World)
    requires Ok(W)
    ensures Ok(DoTick(W)) && Quiet(W, DoTick(W))
  {
    TickOk(W);
    Runs.ReachesStep(W, Runs.Tick);
    FewerSwept(W, ScanStart(W.p), ScanEnd(W.p, |W.slots|));
    forall a ensures KeptAt(W, DoTick(W), a) {}
  }

  /** The revoker is kicked if on: it goes on by one tick. */
  ghost predicate Kicked(W: World, W': World, on: bool)
  {
    if on then (Running(W.p) ==> W.p.offset <= |W.slots|) && W' == DoTick(W) else W' == W
  }

  lemma {:induction false} FoldKicked(W: World, W': World)
    requires (Running(W.p) ==> W.p.offset <= |W.slots|) && W' == DoTick(W)
    ensures Kicked(W, W', true)
  {
  }

  /** A tick may start a sweep and end it. */
  lemma {:induction false} TickSweeps(W: World)
    requires Running(W.p) ==> W.p.offset <= |W.slots|
    ensures W.p.sweeps <= DoTick(W).p.sweeps <= W.p.sweeps + 2
  {
  }

  lemma {:induction false} ProdOk(W: World, p': Progress, slots': seq<Cap>)
    requires Ok(W) && ProddedAtMost(W.H.marks, W.p, W.slots, p', slots')
    ensures Ok(W.(p := p', slots := slots')) && Quiet(W, W.(p := p', slots := slots'))
    ensures Advanced(W.p, p')
  {
    var W' := W.(p := p', slots := slots');
    ProddedSweeps(W.H.marks, W.p, W.slots, p', slots');
    if p' == W.p && slots' == W.slots {
      assert W' == W;
      Runs.ReachesSame(W);
    } else {
      TickOk(W);
      Runs.ReachesStep(W, Runs.Tick);
      FewerSwept(W, ScanStart(W.p), ScanEnd(W.p, |W.slots|));
      assert W' == DoTick(W);
    }
    forall a ensures KeptAt(W, W', a) {}
  }

  /** A chunk leaves quarantine and becomes free. */
  function Dequeued(W: World, a: int): (W': World)
    requires a in W.H.h && Next(W.H.h, a) in W.H.h && MergeStart(W.H.h, a) in W.H.h && MergeEnd(W.H.h, a) in W.H.h
  {
    DoRelease(DoUnquarantine(W, a), a)
  }

  lemma {:induction false} DequeueOk(W: World, a: int)
    requires Ok(W) && a in W.H.waits && W.H.waits[a] + 2 <= W.p.sweeps
    ensures a in W.H.h && Ok(DoUnquarantine(W, a)) && Held(DoUnquarantine(W, a).H, a)
    ensures Next(W.H.h, a) in W.H.h && MergeStart(W.H.h, a) in W.H.h && MergeEnd(W.H.h, a) in W.H.h
    ensures Ok(Dequeued(W, a))
    ensures Quiet(W, Dequeued(W, a)) && Dequeued(W, a).H.waits == W.H.waits - {a} && Dequeued(W, a).p == W.p
  {
    UnquarantineOk(W, a);
    var V := DoUnquarantine(W, a);
    ReleaseOk(V, a);
    var W' := DoRelease(V, a);
    DequeueReaches(W, a);
    forall x ensures KeptAt(W, W', x) { if x in W'.H.waits { DequeueOther(V, a, x); } }
    forall x | Held(W'.H, x) ensures Held(W.H, x) {}
  }

  lemma {:induction false} DequeueReaches(W: World, a: int)
    requires a in W.H.h && Next(W.H.h, a) in W.H.h && MergeStart(W.H.h, a) in W.H.h && MergeEnd(W.H.h, a) in W.H.h
    requires a in W.H.waits && W.H.waits[a] + 2 <= W.p.sweeps && Held(DoUnquarantine(W, a).H, a)
    ensures Runs.Reaches(W, Dequeued(W, a))
  {
    hide Held;
    var V := DoUnquarantine(W, a);
    Runs.ReachesStep(W, Runs.Dequeue(a));
    Runs.ReachesStep(V, Runs.Release(a));
    Runs.ReachesTrans(W, V, DoRelease(V, a));
  }

  lemma {:induction false} DequeueOther(V: World, a: int, x: int)
    requires Ok(V) && Held(V.H, a) && CanRelease(V.H, a) && x in V.H.waits
    ensures x in V.H.h && x in DoRelease(V, a).H.h && DoRelease(V, a).H.h[x].currSize == V.H.h[x].currSize
  {
    assert x in InUse(V.H.h, V.H.hi);
    ReleaseBounds(V.H.h, V.H.lo, V.H.hi, a);
    ReleaseTouches(V.H, a);
    assert x != a;
    if x != Next(V.H.h, a) && x != MergeStart(V.H.h, a) { assert SameAt(V.H, DoRelease(V, a).H, x); }
  }

  // ---------- Taking, splitting and releasing ----------

  /** A chunk that a step leaves alone stays in quarantine as it was. */
  lemma {:induction false} SameKept(W: World, W': World, s: set<int>)
    requires SameBut(W.H, W'.H, s) && W'.p == W.p && W'.H.waits == W.H.waits && forall x | x in s :: x !in W.H.waits
    ensures forall a :: KeptAt(W, W', a)
  {
    forall a ensures KeptAt(W, W', a) { assert a !in s ==> SameAt(W.H, W'.H, a); }
  }

  /** A free chunk can be taken. */
  lemma {:induction false} TakeReady(W: World, a: int, k: nat)
    requires Ok(W) && a in FreeMap(W.H.h) && 2 <= k <= FreeMap(W.H.h)[a]
    ensures a in W.H.h && Next(W.H.h, a) in W.H.h && 2 <= k <= W.H.h[a].currSize < HEAD && W.H.lo <= a < W.H.hi
    ensures !W.H.h[a].currInUse && (SplitsAt(W.H, a, k) ==> a + k !in W.H.h) && CanTake(W.H, a, k)
  {
    TakeFormed(W.H.h, W.H.lo, W.H.hi, a, k);
    FormedAt(W.H.h, W.H.lo, W.H.hi, a);
  }

  lemma {:induction false} TakeKept(W: World, a: int, k: nat)
    requires CanTake(W.H, a, k)
    ensures forall x :: KeptAt(W, DoTake(W, a, k), x)
  {
    TakeTouches(W.H, a, k);
    Unused(W.H, a);
    if SplitsAt(W.H, a, k) { Unused(W.H, a + k); }
    SameKept(W, DoTake(W, a, k), if SplitsAt(W.H, a, k) then {a, a + k} else {a});
  }

  lemma {:induction false} CalmStep(W: World, W': World)
    requires W'.p == W.p && W'.slots == W.slots && W'.last == W.last && W'.nextGen == W.nextGen
    requires W'.H.lo == W.H.lo && W'.H.hi == W.H.hi && LiveMap(W'.H) == LiveMap(W.H) && forall x :: KeptAt(W, W', x)
    requires Runs.Reaches(W, W')
    ensures Calm(W, W')
  {
  }

  lemma {:induction false} TakeCalm(W: World, a: int, k: nat)
    requires Ok(W) && a in FreeMap(W.H.h) && 2 <= k <= FreeMap(W.H.h)[a]
    ensures a in W.H.h && Next(W.H.h, a) in W.H.h && 2 <= k <= W.H.h[a].currSize < HEAD && W.H.lo <= a < W.H.hi
    ensures !W.H.h[a].currInUse && (SplitsAt(W.H, a, k) ==> a + k !in W.H.h)
    ensures Ok(DoTake(W, a, k)) && Held(DoTake(W, a, k).H, a) && Calm(W, DoTake(W, a, k))
    ensures NoneHeld(W.H) ==> HeldIn(DoTake(W, a, k).H, {a})
  {
    hide *;
    TakeReady(W, a, k);
    TakeOk(W, a, k);
    TakeKept(W, a, k);
    TakeFrame(W, a, k);
    TakeReaches(W, a, k);
    CalmStep(W, DoTake(W, a, k));
    TakeHeld(W.H, a, k);
  }

  /** W' is W with a free chunk of at least k granules at a put to use. */
  ghost predicate Took(W: World, W': World, a: int, k: nat)
  {
    && a in FreeMap(W.H.h) && k <= FreeMap(W.H.h)[a]
    && a in W.H.h && Next(W.H.h, a) in W.H.h && 2 <= k <= W.H.h[a].currSize && W' == DoTake(W, a, k)
  }

  lemma {:induction false} FoldTook(W: World, W': World, a: int, k: nat)
    requires a in FreeMap(W.H.h) && k <= FreeMap(W.H.h)[a]
    requires a in W.H.h && Next(W.H.h, a) in W.H.h && 2 <= k <= W.H.h[a].currSize && W' == DoTake(W, a, k)
    ensures Took(W, W', a, k)
  {
  }

  lemma {:induction false} TakeReaches(W: World, a: int, k: nat)
    requires a in W.H.h && Next(W.H.h, a) in W.H.h && !W.H.h[a].currInUse && 2 <= k <= W.H.h[a].currSize
    ensures Runs.Reaches(W, DoTake(W, a, k))
  {
    Runs.ReachesStep(W, Runs.Take(a, k));
  }

  lemma {:induction false} TakeFrame(W: World, a: int, k: nat)
    requires a in W.H.h && Next(W.H.h, a) in W.H.h && 2 <= k <= W.H.h[a].currSize
    ensures var W' := DoTake(W, a, k);
            && W'.p == W.p && W'.slots == W.slots && W'.last == W.last && W'.nextGen == W.nextGen
            && W'.H == TakeChunk(W.H, a, k) && W'.H.lo == W.H.lo && W'.H.hi == W.H.hi
  {
  }

  lemma {:induction false} TakeHeld(H: Heap, a: int, k: nat)
    requires a in H.h && Next(H.h, a) in H.h && 2 <= k <= H.h[a].currSize
    ensures NoneHeld(H) ==> HeldIn(TakeChunk(H, a, k), {a})
  {
    if NoneHeld(H) {
      forall x | Held(TakeChunk(H, a, k), x) ensures x == a { assert x != a ==> Held(H, x); }
    }
  }

  /** The free chunks after taking one: its remainder, if any, takes its place. */
  lemma {:induction false} TakeLists(W: World, a: int, k: nat)
    requires Ok(W) && a in FreeMap(W.H.h) && 2 <= k <= FreeMap(W.H.h)[a]
    ensures a in W.H.h && Next(W.H.h, a) in W.H.h && 2 <= k <= W.H.h[a].currSize
    ensures FreeMap(DoTake(W, a, k).H.h) ==
            if SplitsAt(W.H, a, k) then (FreeMap(W.H.h) - {a})[a + k := W.H.h[a].currSize - k] else FreeMap(W.H.h) - {a}
    ensures a in DoTake(W, a, k).H.h
    ensures DoTake(W, a, k).H.h[a].currSize == if FreeMap(W.H.h)[a] == k + 1 then k + 1 else k
    ensures SplitsAt(W.H, a, k) ==> a + k !in FreeMap(W.H.h)
  {
    TakeFormed(W.H.h, W.H.lo, W.H.hi, a, k);
    Chunks.TakeFree(W.H.h, W.H.lo, W.H.hi, a, k);
  }

  lemma {:induction false} SplitKept(W: World, a: int, k: nat)
    requires Inv(W.H) && Held(W.H, a) && a in W.H.h && 0 < k < W.H.h[a].currSize && Next(W.H.h, a) in W.H.h
    requires a + k !in W.H.h
    ensures forall x :: KeptAt(W, DoSplit(W, a, k), x)
  {
    SplitTouches(W.H, a, k);
    Unused(W.H, a + k);
    SameKept(W, DoSplit(W, a, k), {a, a + k});
  }

  lemma {:induction false} SplitHeld(W: World, a: int, k: nat)
    requires a in W.H.h && Next(W.H.h, a) in W.H.h && k <= W.H.h[a].currSize
    ensures HeldIn(W.H, {a}) ==> HeldIn(DoSplit(W, a, k).H, {a, a + k})
  {
    if HeldIn(W.H, {a}) {
      forall x | Held(DoSplit(W, a, k).H, x) ensures x == a || x == a + k { assert x != a + k ==> Held(W.H, x); }
    }
  }

  lemma {:induction false} SplitFrame(W: World, a: int, k: nat)
    requires Ok(W) && Held(W.H, a) && a in W.H.h && Next(W.H.h, a) in W.H.h && 2 <= k <= W.H.h[a].currSize - 2
    requires a + k !in W.H.h
    ensures var W' := DoSplit(W, a, k);
            && W'.p == W.p && W'.slots == W.slots && W'.last == W.last && W'.nextGen == W.nextGen
            && W'.H.lo == W.H.lo && W'.H.hi == W.H.hi && FreeMap(W'.H.h) == FreeMap(W.H.h) && W'.freeSize == W.freeSize
            && a in W'.H.h && a + k in W'.H.h
            && W'.H.h[a].currSize == k && W'.H.h[a + k].currSize == W.H.h[a].currSize - k
    ensures Inv(W.H)
  {
    assert a in InUse(W.H.h, W.H.hi);
    SplitFree(W.H.h, a, k);
  }

  lemma {:induction false} SplitReaches(W: World, a: int, k: nat)
    requires Held(W.H, a) && a in W.H.h && Next(W.H.h, a) in W.H.h && 2 <= k <= W.H.h[a].currSize - 2
    ensures Runs.Reaches(W, DoSplit(W, a, k))
  {
    hide Held;
    Runs.ReachesStep(W, Runs.SplitUp(a, k));
  }

  lemma {:induction false} SplitCalm(W: World, a: int, k: nat)
    requires Ok(W) && Held(W.H, a) && a in W.H.h && 2 <= k <= W.H.h[a].currSize - 2
    ensures Next(W.H.h, a) in W.H.h && a + k !in W.H.h
    ensures var W' := DoSplit(W, a, k);
            && Ok(W') && Calm(W, W') && Held(W'.H, a) && Held(W'.H, a + k)
            && FreeMap(W'.H.h) == FreeMap(W.H.h) && W'.freeSize == W.freeSize && W'.H.lo == W.H.lo
            && a in W'.H.h && a + k in W'.H.h
            && W'.H.h[a].currSize == k && W'.H.h[a + k].currSize == W.H.h[a].currSize - k
    ensures HeldIn(W.H, {a}) ==> HeldIn(DoSplit(W, a, k).H, {a, a + k})
  {
    hide *;
    SplitOk(W, a, k);
    SplitFrame(W, a, k);
    SplitKept(W, a, k);
    SplitReaches(W, a, k);
    CalmStep(W, DoSplit(W, a, k));
    SplitHeld(W, a, k);
  }

  lemma {:induction false} ReleaseCalm(W: World, a: int, s: set<int>)
    requires Ok(W) && Held(W.H, a)
    ensures var h := W.H.h; Formed(h, W.H.lo, W.H.hi) && a in h && a < W.H.hi && h[a].currInUse
    ensures var h := W.H.h; Next(h, a) in h && MergeStart(h, a) in h && MergeEnd(h, a) in h
    ensures Ok(DoRelease(W, a)) && Calm(W, DoRelease(W, a))
    ensures HeldIn(W.H, s) ==> HeldIn(DoRelease(W, a).H, s - {a})
  {
    ReleaseOk(W, a);
    Runs.ReachesStep(W, Runs.Release(a));
    var H, W' := W.H, DoRelease(W, a);
    assert a in InUse(H.h, H.hi);
    forall x ensures KeptAt(W, W', x) { if x in W'.H.waits { DequeueOther(W, a, x); } }
    if HeldIn(H, s) { forall x | Held(W'.H, x) ensures x in s - {a} { assert Held(H, x); } }
  }

  lemma {:induction false} NothingHeld(W: World, W': World, a: int)
    requires HeldIn(W'.H, {a} - {a}) && Calm(W, W')
    ensures NoneHeld(W'.H) && Quiet(W, W')
  {
    forall x ensures !Held(W'.H, x) { assert Held(W'.H, x) ==> x in {a} - {a}; }
  }

  /** What stays of the other held chunk when one is released. */
  lemma {:induction false} ReleaseOther(W: World, a: int, x: int)
    requires Ok(W) && Held(W.H, a) && Held(W.H, x) && x != a
    ensures CanRelease(W.H, a) && x in W.H.h
    ensures Held(DoRelease(W, a).H, x) && x in DoRelease(W, a).H.h
    ensures DoRelease(W, a).H.h[x].currSize == W.H.h[x].currSize
  {
    ReleaseOk(W, a);
    assert x in InUse(W.H.h, W.H.hi);
    ReleaseBounds(W.H.h, W.H.lo, W.H.hi, a);
    ReleaseTouches(W.H, a);
    if x != Next(W.H.h, a) && x != MergeStart(W.H.h, a) { assert SameAt(W.H, DoRelease(W, a).H, x); }
  }

  /** What taking a chunk leaves: that chunk in the hands of the allocator, and nothing else changed. */
  lemma {:induction false} TookCalm(W: World, W': World, a: int, k: nat)
    requires Ok(W) && Took(W, W', a, k) && NoneHeld(W.H)
    ensures Calm(W, W') && Held(W'.H, a) && HeldIn(W'.H, {a}) && W'.freeSize == W.freeSize
    ensures a in W'.H.h && a in FreeMap(W.H.h) && k <= FreeMap(W.H.h)[a]
    ensures W'.H.h[a].currSize == if FreeMap(W.H.h)[a] == k + 1 then k + 1 else k
  {
    TakeCalm(W, a, k);
    TakeLists(W, a, k);
  }

  /** Split the held chunk at a after k granules and free one of the parts, keeping the other. */
  function DoTrim(W: World, a: int, k: nat, gone: int): (W': World)
    requires a in W.H.h && Next(W.H.h, a) in W.H.h && k <= W.H.h[a].currSize
    requires var h := DoSplit(W, a, k).H.h;
             gone in h && Next(h, gone) in h && MergeStart(h, gone) in h && MergeEnd(h, gone) in h
  {
    DoRelease(DoSplit(W, a, k), gone)
  }

  lemma {:induction false} TrimSets(a: int, b: int)
    requires a != b
    ensures {a, b} - {a} == {b} && {a, b} - {b} == {a}
  {
  }

  lemma {:induction false} TrimCalm(W: World, a: int, k: nat, gone: int, kept: int)
    requires Ok(W) && Held(W.H, a) && HeldIn(W.H, {a}) && a in W.H.h && 2 <= k <= W.H.h[a].currSize - 2
    requires (gone == a && kept == a + k) || (gone == a + k && kept == a)
    ensures Next(W.H.h, a) in W.H.h
    ensures var V := DoSplit(W, a, k); var h := V.H.h;
            && Formed(h, W.H.lo, W.H.hi) && FreeMap(h) == FreeMap(W.H.h)
            && gone in h && gone < W.H.hi && h[gone].currInUse
            && Next(h, gone) in h && MergeStart(h, gone) in h && MergeEnd(h, gone) in h
    ensures var W' := DoTrim(W, a, k, gone);
            && Ok(W') && Calm(W, W') && Held(W'.H, kept) && HeldIn(W'.H, {kept}) && W'.freeSize == W.freeSize
            && kept in W'.H.h && W'.H.h[kept].currSize == if gone == a then W.H.h[a].currSize - k else k
  {
    hide *;
    SplitCalm(W, a, k);
    var V := DoSplit(W, a, k);
    ReleaseCalm(V, gone, {a, a + k});
    ReleaseOther(V, gone, kept);
    CalmTrans(W, V, DoRelease(V, gone));
    TrimSets(a, a + k);
    TrimFrame(W, a, k, gone);
  }

  lemma {:induction false} TrimFrame(W: World, a: int, k: nat, gone: int)
    requires a in W.H.h && Next(W.H.h, a) in W.H.h && k <= W.H.h[a].currSize
    requires var h := DoSplit(W, a, k).H.h;
             gone in h && Next(h, gone) in h && MergeStart(h, gone) in h && MergeEnd(h, gone) in h
    ensures DoTrim(W, a, k, gone) == DoRelease(DoSplit(W, a, k), gone)
    ensures DoTrim(W, a, k, gone).freeSize == W.freeSize
    ensures DoSplit(W, a, k).H.lo == W.H.lo && DoSplit(W, a, k).H.hi == W.H.hi
  {
  }

  lemma {:induction false} ModEights(mem: nat, m: nat)
    requires mem % 8 == 0 && m > 0
    ensures mem % (8 * m) % 8 == 0
  {
    var q := mem / (8 * m);
    assert mem == (8 * m) * q + mem % (8 * m);
    assert (8 * m) * q == 8 * (m * q);
  }

  lemma {:induction false} NextMultiple(mem: nat, d: nat)
    requires d > 0
    ensures (mem + (d - mem % d)) % d == 0 && (mem + (d - mem % d) + d) % d == 0
  {
    var q := mem / d;
    assert mem == d * q + mem % d;
    assert d * (q + 1) == d * q + d && d * (q + 2) == d * q + 2 * d;
    DivUnique(mem + (d - mem % d), d, q + 1, 0);
    DivUnique(mem + (d - mem % d) + d, d, q + 2, 0);
  }

  /** The distance to the next aligned address that leaves room for a chunk in front. */
  lemma {:induction false} AlignPad(mem: nat, alignment: nat)
    requires mem % 8 == 0 && alignment > 8 && alignment % 8 == 0
    ensures var pad := alignment - mem % alignment;
            var p := if pad < 16 then pad + alignment else pad;
            p % 8 == 0 && 16 <= p <= alignment + 8 && (mem + p) % alignment == 0
  {
    var r, m := mem % alignment, alignment / 8;
    ModEights(mem, m);
    NextMultiple(mem, alignment);
    assert alignment - r == 8 * (m - r / 8);
  }

  // ---------- Handing out ----------

  /** Granule g is zero and unmarked, no capability anywhere reaches it, and if it was ever freed, a full
      sweep has passed since. */
  predicate FreshAt(W: World, g: int)
  {
    && g !in W.H.dirty && g !in W.H.marks
    && (forall i | 0 <= i < |W.slots| :: ClearOf(W.slots[i], g))
    && (g in W.last ==> W.last[g] + 2 <= W.p.sweeps)
  }

  predicate ClearOf(c: Cap, g: int) { c.Cap? ==> c.base + c.len <= 8 * g || 8 * (g + 1) <= c.base }

  ghost predicate FreshBody(W: World, a: int, size: nat)
  {
    forall g {:trigger FreshAt(W, g)} | a < g < a + size :: FreshAt(W, g)
  }

  /** W' is W with one more allocation, at a. */
  ghost predicate Handed(W: World, W': World, a: int, x: Alloc)
  {
    && W'.H.lo == W.H.lo && W'.H.hi == W.H.hi
    && a !in LiveMap(W.H) && LiveMap(W'.H) == LiveMap(W.H)[a := x] && x.gen == W.nextGen && x.claims == 0
    && W'.last == W.last && W'.nextGen == W.nextGen + 1 && Fewer(LiveMap(W.H), W.slots, W'.slots)
    && W.p.sweeps <= W'.p.sweeps && Runs.Reaches(W, W')
    && (forall b {:trigger KeptAt(W, W', b)} :: KeptAt(W, W', b))
    && FreshBody(W', a, x.size)
  }

  lemma {:induction false} GrantFresh(W: World, a: int, extent: nat, owner: nat, isSealed: bool)
    requires Ok(W) && Held(W.H, a) && a in W.H.h
    ensures FreshBody(DoGrant(W, a, extent, owner, isSealed), a, W.H.h[a].currSize)
  {
    var W' := DoGrant(W, a, extent, owner, isSealed);
    forall g | a < g < a + W.H.h[a].currSize ensures FreshAt(W', g) {
      HeldIsFresh(W, a, g);
      forall i | 0 <= i < |W'.slots| ensures ClearOf(W'.slots[i], g) {}
    }
  }

  lemma {:induction false} GrantHeld(W: World, a: int, extent: nat, owner: nat, isSealed: bool)
    requires a in W.H.h && HeldIn(W.H, {a}) && extent >= 1
    ensures NoneHeld(DoGrant(W, a, extent, owner, isSealed).H)
  {
    var H' := DoGrant(W, a, extent, owner, isSealed).H;
    forall x ensures !Held(H', x) { assert Held(H', x) ==> Held(W.H, x); }
  }

  lemma {:induction false} GrantFrame(W: World, a: int, extent: nat, owner: nat, isSealed: bool)
    requires Ok(W) && Held(W.H, a) && a in W.H.h
    ensures var W' := DoGrant(W, a, extent, owner, isSealed);
            && FreeMap(W'.H.h) == FreeMap(W.H.h) && forall x :: KeptAt(W, W', x)
    ensures W.H.h[a].claims == 0 && a !in LiveMap(W.H)
  {
    var W' := DoGrant(W, a, extent, owner, isSealed);
    assert a in InUse(W.H.h, W.H.hi) && UseAt(W.H, a);
    forall x ensures KeptAt(W, W', x) {}
  }

  /** From the state before the search to the state after handing out. */
  lemma {:induction false} HandedFrom(W: World, V: World, W': World, a: int, x: Alloc)
    requires Calm(W, V) && (forall b :: KeptAt(V, W', b)) && a !in LiveMap(V.H)
    requires LiveMap(W'.H) == LiveMap(V.H)[a := x] && x.gen == V.nextGen && x.claims == 0 && FreshBody(W', a, x.size)
    requires W'.H.lo == V.H.lo && W'.H.hi == V.H.hi && W'.last == V.last && W'.nextGen == V.nextGen + 1
    requires W'.slots == V.slots && W'.p == V.p && Runs.Reaches(V, W')
    ensures Handed(W, W', a, x)
  {
    Runs.ReachesTrans(W, V, W');
    forall b ensures KeptAt(W, W', b) { assert KeptAt(W, V, b) && KeptAt(V, W', b); }
  }

  lemma {:induction false} GrantView(W: World, a: int, extent: nat, owner: nat, isSealed: bool)
    requires a in W.H.h
    ensures var W' := DoGrant(W, a, extent, owner, isSealed);
            && W' == W.(freeSize := W.freeSize - 8 * W.H.h[a].currSize, nextGen := W.nextGen + 1,
                        H := Grant(W.H, a, W.nextGen, extent, owner, isSealed))
            && W'.H.lo == W.H.lo && W'.H.hi == W.H.hi
  {
  }

  lemma {:induction false} GrantReaches(W: World, a: int, extent: nat, owner: nat, isSealed: bool)
    requires Held(W.H, a) && a in W.H.h && 1 <= extent < W.H.h[a].currSize
    ensures Runs.Reaches(W, DoGrant(W, a, extent, owner, isSealed))
  {
    hide Held;
    Runs.ReachesStep(W, Runs.GrantTo(a, extent, owner, isSealed));
  }

  /** Handing out the held chunk at a. */
  lemma {:induction false} GrantHanded(W: World, V: World, a: int, extent: nat, owner: nat, isSealed: bool)
    requires Calm(W, V) && Ok(V) && Held(V.H, a) && HeldIn(V.H, {a}) && a in V.H.h && 1 <= extent < V.H.h[a].currSize
    ensures var W' := DoGrant(V, a, extent, owner, isSealed);
            && Ok(W') && NoneHeld(W'.H) && FreeMap(W'.H.h) == FreeMap(V.H.h)
            && Handed(W, W', a, Alloc(V.H.h[a].currSize, owner, 0, isSealed, V.nextGen, extent))
  {
    hide *;
    GrantOk(V, a, extent, owner, isSealed);
    GrantFresh(V, a, extent, owner, isSealed);
    GrantHeld(V, a, extent, owner, isSealed);
    GrantFrame(V, a, extent, owner, isSealed);
    GrantView(V, a, extent, owner, isSealed);
    GrantReaches(V, a, extent, owner, isSealed);
    HandedFrom(W, V, DoGrant(V, a, extent, owner, isSealed), a,
               Alloc(V.H.h[a].currSize, owner, 0, isSealed, V.nextGen, extent));
  }

  // ---------- Freeing ----------

  /** W' is W with the allocation at a freed: it waits in quarantine for a sweep that starts after now. */
  ghost predicate Retired(W: World, W': World, a: int)
  {
    && W'.H.lo == W.H.lo && W'.H.hi == W.H.hi
    && LiveMap(W'.H) == LiveMap(W.H) - {a} && W'.nextGen == W.nextGen && Fewer(LiveMap(W'.H), W.slots, W'.slots)
    && a in W.H.use && W'.last == Relabel(W.last, a, W.H.use[a].extent, EvenEpoch(W.p))
    && W.p.sweeps <= W'.p.sweeps && Runs.Reaches(W, W')
    && a in W'.H.waits && W'.H.waits[a] == EvenEpoch(W.p)
    && a in W.H.h && a in W'.H.h && W'.H.h[a].currSize == W.H.h[a].currSize
    && (forall b {:trigger KeptAt(W, W', b)} | b != a :: KeptAt(W, W', b))
  }

  lemma {:induction false} QuarantineReaches(W: World, a: int)
    requires Live(W.H, a) && a in W.H.h && W.H.h[a].owner == 0 && W.H.h[a].claims == 0
    ensures Runs.Reaches(W, DoQuarantine(W, a))
  {
    hide Live, DoQuarantine;
    Runs.ReachesStep(W, Runs.Free(a));
  }

  lemma {:induction false} QuarantineRetires(W: World, a: int)
    requires Ok(W) && Live(W.H, a) && a in W.H.h && W.H.h[a].owner == 0 && W.H.h[a].claims == 0
    ensures a in W.H.use && a !in W.H.waits && Ok(DoQuarantine(W, a)) && Retired(W, DoQuarantine(W, a), a)
    ensures NoneHeld(W.H) ==> NoneHeld(DoQuarantine(W, a).H)
    ensures DoQuarantine(W, a).H.h == W.H.h && DoQuarantine(W, a).H.waits == W.H.waits[a := EvenEpoch(W.p)]
  {
    hide Ok, Inv, LiveMap, Relabel, Granules, Runs.Reaches;
    QuarantineOk(W, a);
    QuarantineReaches(W, a);
    var W' := DoQuarantine(W, a);
    forall b | b != a ensures KeptAt(W, W', b) {}
    if NoneHeld(W.H) { forall x ensures !Held(W'.H, x) { assert Held(W'.H, x) ==> Held(W.H, x); } }
  }

  /** A chunk just freed cannot leave quarantine before a sweep has started, so nothing that only goes on
      with the running sweep brings it back. */
  lemma {:induction false} RetiredStays(W: World, V: World, W': World, a: int)
    requires Retired(W, V, a) && Quiet(V, W') && Advanced(W.p, W'.p)
    ensures Retired(W, W', a)
  {
    assert KeptAt(V, W', a);
    Runs.ReachesTrans(W, V, W');
    FewerTrans(LiveMap(V.H), W.slots, V.slots, W'.slots);
    forall b | b != a ensures KeptAt(W, W', b) { assert KeptAt(W, V, b) && KeptAt(V, W', b); }
  }

  lemma {:induction false} RetiredAfter(W: World, V: World, W': World, a: int)
    requires Retired(W, V, a) && Quiet(V, W') && W'.H == V.H
    ensures Retired(W, W', a)
  {
    Runs.ReachesTrans(W, V, W');
    FewerTrans(LiveMap(V.H), W.slots, V.slots, W'.slots);
    forall b | b != a ensures KeptAt(W, W', b) { assert KeptAt(W, V, b); }
  }

  // ---------- Finding an allocation by an address inside it ----------

  /** What allocation_start may answer for granule g: the chunk whose allocation g lies in; nothing for
      headers, free chunks, painted bodies and addresses outside the heap; the sentinel for the end of
      the heap. */
  ghost predicate Located(H: Heap, g: int, r: int)
  {
    && (forall a {:trigger a in H.use} | a in H.use && a in H.h && Live(H, a) && a < g < Next(H.h, a) :: r == a)
    && (forall a {:trigger H.h[a]} | a in H.h && !H.h[a].currInUse && a <= g < Next(H.h, a) :: r == 0)
    && (forall a {:trigger a in H.waits} | a in H.waits && a in H.use && a <= g < a + 1 + H.use[a].extent :: r == 0)
    && (g in H.h || g < H.lo || g > H.hi + 1 ==> r == 0)
    && (g == H.hi + 1 ==> r == H.hi)
  }

  /** The nearest mark at or below a granule leads to its chunk. */
  lemma {:induction false} NearestMark(H: Heap, g: int, m: int)
    requires Inv(H) && H.lo <= m <= g <= H.hi + 1 && m in H.marks && (forall x | m < x <= g :: x !in H.marks)
    ensures forall a {:trigger MarksAt(H, a)} | a in H.h && a <= g < Next(H.h, a) ::
              m == a || (a in H.waits && a < m && m < a + 1 + H.use[a].extent)
    ensures g == H.hi + 1 ==> m == H.hi
  {
    assert Linked(H.h, H.lo, H.hi, H.hi) && MarksAt(H, H.hi);
    forall a | a in H.h && a <= g < Next(H.h, a)
      ensures m == a || (a in H.waits && a < m && m < a + 1 + H.use[a].extent) {
      assert MarksAt(H, a);
    }
  }

  lemma {:induction false} LocatedAt(H: Heap, g: int, m: int, r: int)
    requires Inv(H) && H.lo <= m <= g <= H.hi + 1 && m in H.marks && (forall x | m < x <= g :: x !in H.marks)
    requires g !in H.marks
    requires r == 0 || r == m
    requires m in H.h ==> r == if H.h[m].currInUse then m else 0
    ensures Located(H, g, r)
  {
    NearestMark(H, g, m);
    forall a | a in H.h ensures MarksAt(H, a) {}
    forall a | a in H.use ensures a in InUse(H.h, H.hi) && UseAt(H, a) {}
    assert FlagsAt(H.h, H.lo, H.hi, H.hi);
  }

  lemma {:induction false} LocatedNowhere(H: Heap, g: int)
    requires Inv(H) && (g in H.marks || g < H.lo || g > H.hi + 1)
    ensures Located(H, g, 0)
  {
    forall a | a in H.h ensures MarksAt(H, a) && Linked(H.h, H.lo, H.hi, a) {}
    forall a | a in H.use ensures a in InUse(H.h, H.hi) && UseAt(H, a) {}
    forall a | a in H.h && a < H.hi ensures Next(H.h, a) <= H.hi { FormedAt(H.h, H.lo, H.hi, a); }
  }

  // ---------- Small updates ----------

  // Single steps are runs.

  lemma {:induction false} HolderReaches(W: World, a: int, owner: nat, claims: nat)
    requires Live(W.H, a) && a in W.H.h
    ensures Runs.Reaches(W, DoSetHolder(W, a, owner, claims))
  {
    hide Live;
    Runs.ReachesStep(W, Runs.Rehold(a, owner, claims));
  }

  lemma {:induction false} WriteReaches(W: World, a: int)
    requires Live(W.H, a)
    ensures Runs.Reaches(W, DoWrite(W, a))
  {
    hide Live;
    Runs.ReachesStep(W, Runs.Write(a));
  }

  lemma {:induction false} CopyReaches(W: World, i: nat, j: nat, d: Cap)
    requires i < |W.slots| && j < |W.slots| && Derives(Load(W.H.marks, W.slots[i]), d)
    ensures Runs.Reaches(W, DoCopy(W, j, d))
  {
    hide Derives, Load;
    Runs.ReachesStep(W, Runs.Copy(i, j, d));
  }

  lemma {:induction false} ReceiveReaches(W: World, j: nat, a: int)
    requires j < |W.slots| && Live(W.H, a)
    ensures a in W.H.use
    ensures Runs.Reaches(W, DoCopy(W, j, Cap(8 * (a + 1), 8 * W.H.use[a].extent, a, W.H.use[a].gen)))
  {
    Runs.ReachesStep(W, Runs.Receive(j, a));
  }

  /** A client's store through the capability in slot i. */
  lemma {:induction false} StoreFrame(W: World, i: nat, offset: nat)
    requires Ok(W) && i < |W.slots| && Load(W.H.marks, W.slots[i]).Cap? && offset < W.slots[i].len
    ensures W.slots[i].Cap? && Ok(DoStore(W, W.slots[i], offset)) && Runs.Reaches(W, DoStore(W, W.slots[i], offset))
    ensures var W' := DoStore(W, W.slots[i], offset);
            && W' == W.(H := Store(W.H, (W.slots[i].base + offset) / 8)) && LiveMap(W'.H) == LiveMap(W.H)
            && W'.H.use == W.H.use && W'.H.waits == W.H.waits
  {
    hide Ok;
    StoreOk(W, i, offset);
    Runs.ReachesStep(W, Runs.StoreTo(i, offset));
  }

  lemma {:induction false} HolderFrame(W: World, a: int, owner: nat, claims: nat)
    requires Ok(W) && Live(W.H, a) && NoneHeld(W.H)
    ensures a in W.H.h && Ok(DoSetHolder(W, a, owner, claims)) && NoneHeld(DoSetHolder(W, a, owner, claims).H)
    ensures FreeMap(DoSetHolder(W, a, owner, claims).H.h) == FreeMap(W.H.h)
    ensures LiveMap(DoSetHolder(W, a, owner, claims).H) ==
            LiveMap(W.H)[a := AllocAt(W.H, a).(owner := owner, claims := claims)]
  {
    hide Ok, Inv, LiveMap, FreeMap;
    SetHolderOk(W, a, owner, claims);
    HolderLists(W, a, owner, claims);
    var H' := DoSetHolder(W, a, owner, claims).H;
    forall x ensures !Held(H', x) { assert Held(H', x) ==> Held(W.H, x); }
  }

  lemma {:induction false} HolderLists(W: World, a: int, owner: nat, claims: nat)
    requires Ok(W) && Live(W.H, a) && a in W.H.h
    ensures FreeMap(DoSetHolder(W, a, owner, claims).H.h) == FreeMap(W.H.h)
  {
    assert a in InUse(W.H.h, W.H.hi);
  }

  lemma {:induction false} WriteFrame(W: World, a: int)
    requires Ok(W) && Live(W.H, a) && NoneHeld(W.H)
    ensures Ok(DoWrite(W, a)) && NoneHeld(DoWrite(W, a).H) && LiveMap(DoWrite(W, a).H) == LiveMap(W.H)
    ensures DoWrite(W, a).H.h == W.H.h
  {
    WriteOk(W, a);
    forall x ensures !Held(DoWrite(W, a).H, x) { assert Held(DoWrite(W, a).H, x) ==> Held(W.H, x); }
  }

  // ---------- The counters ----------

  lemma {:induction false} SpareIsFree(H: Heap)
    requires Inv(H) && NoneHeld(H)
    ensures Spare(H) == SizesOf(H.h, From(H.h, FreeMap(H.h).Keys, H.lo, H.hi))
  {
    forall a | a in H.h ensures SpareAt(H, a) <==> !H.h[a].currInUse && H.lo <= a < H.hi {
      assert Linked(H.h, H.lo, H.hi, a) && FlagsAt(H.h, H.lo, H.hi, a) && !Held(H, a);
    }
  }

  lemma {:induction false} PendingIsWaiting(H: Heap)
    requires Inv(H)
    ensures Pending(H) == SizesOf(H.h, From(H.h, H.waits.Keys, H.lo, H.hi))
  {
    forall a | a in H.waits ensures a in H.h && H.lo <= a < H.hi {
      assert a in InUse(H.h, H.hi);
      assert Linked(H.h, H.lo, H.hi, a);
    }
  }

  /** A chunk below the sentinel is free, quarantined or live, and only one of these. */
  lemma {:induction false} Partition(H: Heap)
    requires Inv(H) && NoneHeld(H)
    ensures forall a | a in H.h && a < H.hi :: a in FreeMap(H.h).Keys + H.waits.Keys + LiveMap(H).Keys
    ensures FreeMap(H.h).Keys !! H.waits.Keys && FreeMap(H.h).Keys + H.waits.Keys !! LiveMap(H).Keys
  {
    forall a | a in H.h && a < H.hi ensures a in FreeMap(H.h).Keys + H.waits.Keys + LiveMap(H).Keys {
      if H.h[a].currInUse {
        assert a in InUse(H.h, H.hi) && !Held(H, a);
        assert a in H.waits || Live(H, a);
      }
    }
    forall a | a in FreeMap(H.h) ensures a !in H.use && a !in H.waits && a !in LiveMap(H) {
      assert a !in InUse(H.h, H.hi);
    }
  }

  /** Between operations the counters are the sums that a walk over the chunks gives, and free, quarantined
      and live chunks and the sentinel add up to the heap. */
  lemma {:induction false} Counters(W: World)
    requires Ok(W) && NoneHeld(W.H)
    ensures W.H.lo in W.H.h && Tiled(W.H.h, W.H.lo, W.H.hi)
    ensures W.freeSize == 8 * WalkSum(W.H.h, W.H.lo, W.H.hi, W.H.lo, FreeMap(W.H.h).Keys)
    ensures W.quarSize == 8 * WalkSum(W.H.h, W.H.lo, W.H.hi, W.H.lo, W.H.waits.Keys)
    ensures 8 * WalkSum(W.H.h, W.H.lo, W.H.hi, W.H.lo, LiveMap(W.H).Keys) + W.freeSize + W.quarSize + 8 ==
            8 * (W.H.hi + 1 - W.H.lo)
  {
    hide Inv, WalkSum, Tiled, LiveMap, Spare, Pending, FreeMap;
    var H := W.H;
    TiledHeap(H);
    var f, q, l := FreeMap(H.h).Keys, H.waits.Keys, LiveMap(H).Keys;
    SpareIsFree(H);
    PendingIsWaiting(H);
    Partition(H);
    WalkIsSum(H.h, H.lo, H.hi, H.lo, f);
    WalkIsSum(H.h, H.lo, H.hi, H.lo, q);
    WalkDisjoint(H.h, H.lo, H.hi, H.lo, f, q);
    WalkDisjoint(H.h, H.lo, H.hi, H.lo, f + q, l);
    WalkTotal(H.h, H.lo, H.hi, H.lo, f + q + l);
  }

  /** The bytes that a walk over the heap finds in chunks of a set. */
  ghost function Walked(H: Heap, s: set<int>): (n: nat)
  {
    if H.lo in H.h && Tiled(H.h, H.lo, H.hi) then 8 * WalkSum(H.h, H.lo, H.hi, H.lo, s) else 0
  }

  /** The bytes that are free or in quarantine, as found by a walk, are what the counters say. */
  lemma {:induction false} WalkedIs(W: World)
    requires Ok(W) && NoneHeld(W.H)
    ensures Walked(W.H, FreeMap(W.H.h).Keys + W.H.waits.Keys) == W.freeSize + W.quarSize
    ensures 0 <= W.quarSize && (W.H.waits == map[] <==> W.quarSize == 0)
  {
    hide Ok, Tiled, WalkSum, FreeMap;
    Counters(W);
    NothingPending(W);
    OkInv(W);
    Partition(W.H);
    WalkDisjoint(W.H.h, W.H.lo, W.H.hi, W.H.lo, FreeMap(W.H.h).Keys, W.H.waits.Keys);
  }

  lemma {:induction false} OkInv(W: World)
    requires Ok(W)
    ensures Inv(W.H) && 0 <= W.quarSize
  {
  }

  /** The counter is zero exactly if nothing is in quarantine. */
  lemma {:induction false} NothingPending(W: World)
    requires Ok(W)
    ensures W.quarSize == 0 <==> W.H.waits == map[]
  {
    hide CapsOk, Aged;
    if a :| a in W.H.waits {
      FormedAt(W.H.h, W.H.lo, W.H.hi, a);
      SumRemove(Pending(W.H), a);
    } else {
      assert Pending(W.H) == map[];
    }
  }

  lemma {:induction false} TiledHeap(H: Heap)
    requires Inv(H)
    ensures H.lo in H.h && Tiled(H.h, H.lo, H.hi)
  {
  }

  // ---------- The first state ----------

  /** MChunkHeader::make: one free chunk and the sentinel. */
  function Make(lo: int, hi: int): (h: Headers)
    requires lo <= hi
  {
    map[lo := Header(0, hi - lo, 0, false, true, false, 0), hi := Header(hi - lo, 1, 0, false, false, true, 0)]
  }

  function FirstHeap(lo: int, hi: int): (H: Heap)
    requires lo <= hi
  {
    Heap(lo, hi, Make(lo, hi), map[], map[], {lo, hi}, Meta(lo, hi - lo))
  }

  lemma {:induction false} FirstHeapInv(lo: int, hi: int)
    requires lo + 2 <= hi < lo + HEAD
    ensures Inv(FirstHeap(lo, hi))
  {
    FirstFormed(lo, hi);
    var H := FirstHeap(lo, hi);
    hide Formed;
    forall a | a in H.h ensures MarksAt(H, a) {}
    forall a | a in H.h ensures DirtyAt(H, a) {}
    assert InUse(H.h, hi) == {};
  }

  lemma {:induction false} FirstFormed(lo: int, hi: int)
    requires lo + 2 <= hi < lo + HEAD
    ensures Formed(Make(lo, hi), lo, hi)
  {
    hide Linked, FlagsAt, AloneAt, Apart;
    var h := Make(lo, hi);
    forall a | a in h ensures Linked(h, lo, hi, a) && FlagsAt(h, lo, hi, a) && AloneAt(h, hi, a) {
      FirstAt(lo, hi, a, a);
    }
    forall a, b | a in h && b in h ensures Apart(h, a, b) { FirstAt(lo, hi, a, b); }
  }

  lemma {:induction false} FirstAt(lo: int, hi: int, a: int, b: int)
    requires lo + 2 <= hi && a in Make(lo, hi) && b in Make(lo, hi)
    ensures var h := Make(lo, hi);
            && Linked(h, lo, hi, a) && FlagsAt(h, lo, hi, a) && AloneAt(h, hi, a) && Apart(h, a, b)
  {
  }

  function FirstWorld(lo: int, hi: int, slots: seq<Cap>): (W: World)
    requires lo <= hi
  {
    World(FirstHeap(lo, hi), Progress(0, 0), slots, map[], 1, 8 * (hi - lo), 0)
  }

  lemma {:induction false} FirstWorldOk(lo: int, hi: int, slots: seq<Cap>)
    requires lo + 2 <= hi < lo + HEAD && forall i | 0 <= i < |slots| :: slots[i] == NoCap
    ensures var W := FirstWorld(lo, hi, slots); Ok(W) && NoneHeld(W.H) && LiveMap(W.H) == map[]
    ensures FreeMap(Make(lo, hi)) == map[lo := hi - lo]
  {
    var H := FirstHeap(lo, hi);
    FirstHeapInv(lo, hi);
    assert Spare(H) == map[][lo := hi - lo];
    SumInsert(map[], lo, hi - lo);
    assert Pending(H) == map[];
  }

  lemma {:induction false} MapMore(m: map<int, nat>, a: int, k: nat)
    requires a !in m
    ensures |m[a := k]| == |m| + 1
  {
    assert m[a := k].Keys == m.Keys + {a};
  }

  lemma {:induction false} MapLess(m: map<int, nat>, a: int)
    requires a in m
    ensures |m - {a}| == |m| - 1
  {
    assert (m - {a}).Keys == m.Keys - {a};
  }
}
