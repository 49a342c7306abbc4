/** The heap together with the capabilities that exist anywhere in memory, the progress of the revoker,
    a history of what was freed when, and the size counters.  Every step that the allocator, its
    clients or the revoker take is a function of this state and keeps its invariant. */
module World {
  import opened Chunks
  import opened HeapState
  import opened Sums
  import opened Accounts
  import opened Revoker

  datatype World = World(
    H: Heap,
    p: Progress,
    slots: seq<Cap>,
    last: map<int, nat>,           // per granule, the epoch it waited for when it was freed last
    nextGen: nat,                  // allocations so far
    freeSize: int,                 // heapFreeSize, in bytes
    quarSize: int)                 // heapQuarantineSize, in bytes

  /** The epoch that a chunk freed now waits for: the current one, or the next if a sweep is running. */
  function EvenEpoch(p: Progress): (w: nat)
    ensures w % 2 == 0 && p.sweeps <= w <= p.sweeps + 1
  {
    p.sweeps + p.sweeps % 2
  }

  /** The epoch has not moved past the end of the sweep that was running, if any. */
  predicate Advanced(p: Progress, p': Progress) { p.sweeps <= p'.sweeps <= EvenEpoch(p) }

  lemma {:induction false} AdvancedSame(p: Progress)
    ensures Advanced(p, p)
  {
  }

  lemma {:induction false} AdvancedTrans(p: Progress, p': Progress, p'': Progress)
    requires Advanced(p, p') && Advanced(p', p'')
    ensures Advanced(p, p'')
  {
  }

  /** Granule g lies in the body of quarantined chunk a. */
  predicate InBody(H: Heap, a: int, g: int)
  {
    a in H.waits && a in H.use && a < g < a + 1 + H.use[a].extent
  }

  predicate LabelAt(H: Heap, last: map<int, nat>, a: int)
    requires a in H.waits
  {
    forall g | g in last && InBody(H, a, g) :: last[g] <= H.waits[a]
  }

  /** Every granule ever freed is still in quarantine, or a full sweep has passed since. */
  ghost predicate Aged(H: Heap, last: map<int, nat>, sweeps: nat)
  {
    && (forall g | g in last :: last[g] % 2 == 0 && (last[g] + 2 <= sweeps || exists a :: InBody(H, a, g)))
    && (forall a {:trigger LabelAt(H, last, a)} | a in H.waits :: LabelAt(H, last, a))
  }

  ghost predicate Ok(W: World)
  {
    && Inv(W.H) && EvenWaits(W.H.waits)
    && CapsOk(W.H.use, W.H.waits, W.p, W.slots)
    && Aged(W.H, W.last, W.p.sweeps)
    && (forall a | a in W.H.use :: W.H.use[a].gen < W.nextGen)
    && W.freeSize == 8 * Sum(Spare(W.H)) && W.quarSize == 8 * Sum(Pending(W.H))
    && (Running(W.p) ==> W.p.offset <= |W.slots|)
    && W.nextGen > 0
  }

  // ---------- Capabilities and history under the steps ----------

  /** A chunk that is not in use is the target of no capability. */
  lemma {:induction false} CapsTaken(use: map<int, Use>, waits: map<int, nat>, p: Progress, slots: seq<Cap>, a: int,
                                     u: Use)
    requires CapsOk(use, waits, p, slots) && a !in use
    ensures CapsOk(use[a := u], waits, p, slots)
  {
    forall i | 0 <= i < |slots| ensures CapOk(use[a := u], waits, p, i, slots[i]) {
      assert CapOk(use, waits, p, i, slots[i]);
    }
  }

  /** Nor is a chunk that the allocator works on. */
  lemma {:induction false} CapsHeld(use: map<int, Use>, waits: map<int, nat>, p: Progress, slots: seq<Cap>, a: int,
                                    u: Use)
    requires CapsOk(use, waits, p, slots) && a in use && use[a].extent == 0
    ensures CapsOk(use - {a}, waits, p, slots) && CapsOk(use[a := u], waits, p, slots)
  {
    forall i | 0 <= i < |slots|
      ensures CapOk(use - {a}, waits, p, i, slots[i]) && CapOk(use[a := u], waits, p, i, slots[i]) {
      assert CapOk(use, waits, p, i, slots[i]);
    }
  }

  /** Only chunks in quarantine and their uses matter to the history. */
  lemma {:induction false} AgedSame(H: Heap, H': Heap, last: map<int, nat>, sweeps: nat)
    requires Aged(H, last, sweeps) && H'.waits == H.waits
    requires forall a | a in H.waits :: (a in H'.use <==> a in H.use) && (a in H.use ==> H'.use[a] == H.use[a])
    ensures Aged(H', last, sweeps)
  {
    forall g | g in last ensures last[g] + 2 <= sweeps || exists a :: InBody(H', a, g) {
      if a :| InBody(H, a, g) { assert InBody(H', a, g); }
    }
    forall a | a in H'.waits ensures LabelAt(H', last, a) {
      assert LabelAt(H, last, a);
      forall g | g in last && InBody(H', a, g) ensures last[g] <= H'.waits[a] { assert InBody(H, a, g); }
    }
  }

  lemma {:induction false} Unused(H: Heap, a: int)
    requires Inv(H) && (a !in H.h || !H.h[a].currInUse)
    ensures a !in H.use && a !in H.waits
  {
    assert a !in InUse(H.h, H.hi);
  }

  // ---------- The allocator's steps ----------

  function DoTake(W: World, a: int, k: nat): (W': World)
    requires a in W.H.h && Next(W.H.h, a) in W.H.h && 2 <= k <= W.H.h[a].currSize
  {
    W.(H := TakeChunk(W.H, a, k))
  }

  lemma {:induction false} TakeOk(W: World, a: int, k: nat)
    requires Ok(W) && a in W.H.h && !W.H.h[a].currInUse && 2 <= k <= W.H.h[a].currSize
    ensures Next(W.H.h, a) in W.H.h
    ensures Ok(DoTake(W, a, k)) && Held(DoTake(W, a, k).H, a)
    ensures LiveMap(DoTake(W, a, k).H) == LiveMap(W.H)
  {
    var H := W.H;
    TakeInv(H, a, k);
    TakeFormed(H.h, H.lo, H.hi, a, k);
    TakeAccounts(H, a, k);
    TakeSpare(H, a, k);
    Unused(H, a);
    CapsTaken(H.use, H.waits, W.p, W.slots, a, Use(0, 0));
    AgedSame(H, TakeChunk(H, a, k), W.last, W.p.sweeps);
  }

  function DoSplit(W: World, a: int, k: nat): (W': World)
    requires a in W.H.h && Next(W.H.h, a) in W.H.h && k <= W.H.h[a].currSize
  {
    W.(H := SplitChunk(W.H, a, k))
  }

  lemma {:induction false} SplitOk(W: World, a: int, k: nat)
    requires Ok(W) && Held(W.H, a) && a in W.H.h && 2 <= k <= W.H.h[a].currSize - 2
    ensures Next(W.H.h, a) in W.H.h && a + k !in W.H.h
    ensures Ok(DoSplit(W, a, k)) && Held(DoSplit(W, a, k).H, a) && Held(DoSplit(W, a, k).H, a + k)
    ensures LiveMap(DoSplit(W, a, k).H) == LiveMap(W.H)
  {
    var H := W.H;
    SplitInv(H, a, k);
    SplitAccounts(H, a, k);
    SplitSpare(H, a, k);
    SplitCaps(W, a, k);
  }

  lemma {:induction false} SplitCaps(W: World, a: int, k: nat)
    requires Ok(W) && a in W.H.h && k <= W.H.h[a].currSize && Next(W.H.h, a) in W.H.h && a + k !in W.H.h
    ensures var H' := SplitChunk(W.H, a, k);
            && CapsOk(H'.use, H'.waits, W.p, W.slots) && Aged(H', W.last, W.p.sweeps)
            && forall x | x in H'.use :: H'.use[x].gen < W.nextGen
  {
    Unused(W.H, a + k);
    CapsTaken(W.H.use, W.H.waits, W.p, W.slots, a + k, Use(0, 0));
    AgedSame(W.H, SplitChunk(W.H, a, k), W.last, W.p.sweeps);
  }

  function DoRelease(W: World, a: int): (W': World)
    requires a in W.H.h && Next(W.H.h, a) in W.H.h && MergeStart(W.H.h, a) in W.H.h && MergeEnd(W.H.h, a) in W.H.h
  {
    W.(H := ReleaseChunk(W.H, a))
  }

  lemma {:induction false} ReleaseOk(W: World, a: int)
    requires Ok(W) && Held(W.H, a)
    ensures CanRelease(W.H, a) && Ok(DoRelease(W, a))
    ensures LiveMap(DoRelease(W, a).H) == LiveMap(W.H)
  {
    var H := W.H;
    ReleaseInv(H, a);
    ReleaseAccounts(H, a);
    ReleaseSpare(H, a);
    CapsHeld(H.use, H.waits, W.p, W.slots, a, Use(0, 0));
    AgedSame(H, ReleaseChunk(H, a), W.last, W.p.sweeps);
  }

  /** Hand out the held chunk at a as a new allocation. */
  function DoGrant(W: World, a: int, extent: nat, owner: nat, isSealed: bool): (W': World)
    requires a in W.H.h
  {
    W.(H := Grant(W.H, a, W.nextGen, extent, owner, isSealed), nextGen := W.nextGen + 1,
       freeSize := W.freeSize - 8 * W.H.h[a].currSize)
  }

  lemma {:induction false} GrantOk(W: World, a: int, extent: nat, owner: nat, isSealed: bool)
    requires Ok(W) && Held(W.H, a) && a in W.H.h && 1 <= extent < W.H.h[a].currSize
    ensures Ok(DoGrant(W, a, extent, owner, isSealed))
    ensures LiveMap(DoGrant(W, a, extent, owner, isSealed).H) ==
            LiveMap(W.H)[a := Alloc(W.H.h[a].currSize, owner, W.H.h[a].claims, isSealed, W.nextGen, extent)]
  {
    var H := W.H;
    GrantInv(H, a, W.nextGen, extent, owner, isSealed);
    GrantAccounts(H, a, W.nextGen, extent, owner, isSealed);
    SumRemove(Spare(H), a);
    CapsHeld(H.use, H.waits, W.p, W.slots, a, Use(W.nextGen, extent));
    AgedSame(H, Grant(H, a, W.nextGen, extent, owner, isSealed), W.last, W.p.sweeps);
  }

  function DoSetHolder(W: World, a: int, owner: nat, claims: nat): (W': World)
    requires a in W.H.h
  {
    W.(H := SetHolder(W.H, a, owner, claims))
  }

  lemma {:induction false} SetHolderOk(W: World, a: int, owner: nat, claims: nat)
    requires Ok(W) && Live(W.H, a)
    ensures a in W.H.h && Ok(DoSetHolder(W, a, owner, claims))
    ensures LiveMap(DoSetHolder(W, a, owner, claims).H) ==
            LiveMap(W.H)[a := AllocAt(W.H, a).(owner := owner, claims := claims)]
  {
    SetHolderInv(W.H, a, owner, claims);
    SetHolderAccounts(W.H, a, owner, claims);
    AgedSame(W.H, SetHolder(W.H, a, owner, claims), W.last, W.p.sweeps);
  }

  /** Free the live chunk at a into quarantine. */
  function DoQuarantine(W: World, a: int): (W': World)
    requires a in W.H.h && a in W.H.use
  {
    var w := EvenEpoch(W.p);
    W.(H := HeapState.Quarantine(W.H, a, w), last := Relabel(W.last, a, W.H.use[a].extent, w),
       quarSize := W.quarSize + 8 * W.H.h[a].currSize)
  }

  /** The granules of a body freed now wait for epoch w. */
  function Relabel(last: map<int, nat>, a: int, extent: nat, w: nat): (r: map<int, nat>)
  {
    var body := Granules(a + 1, a + 1 + extent);
    last + map g | g in body :: w
  }

  lemma {:induction false} QuarantineAged(H: Heap, last: map<int, nat>, sweeps: nat, a: int, w: nat)
    requires Inv(H) && Live(H, a) && a in H.h && Aged(H, last, sweeps) && w % 2 == 0
    ensures Aged(HeapState.Quarantine(H, a, w), Relabel(last, a, H.use[a].extent, w), sweeps)
  {
    var H' := HeapState.Quarantine(H, a, w);
    var last' := Relabel(last, a, H.use[a].extent, w);
    forall g | g in last' ensures last'[g] + 2 <= sweeps || exists x :: InBody(H', x, g) {
      if a < g < a + 1 + H.use[a].extent {
        assert InBody(H', a, g);
      } else {
        assert last'[g] == last[g];
        if x :| InBody(H, x, g) { assert InBody(H', x, g); }
      }
    }
    forall x | x in H'.waits ensures LabelAt(H', last', x) {
      if x != a {
        assert LabelAt(H, last, x);
        forall g | g in last' && InBody(H', x, g) ensures last'[g] <= H'.waits[x] {
          assert InBody(H, x, g);
          BodiesApart(H, a, x, g);
        }
      }
    }
  }

  /** The bodies of two chunks in use have no granule in common. */
  lemma {:induction false} BodiesApart(H: Heap, a: int, x: int, g: int)
    requires Inv(H) && a in H.use && x in H.use && a != x && x < g < x + 1 + H.use[x].extent
    ensures !(a < g < a + 1 + H.use[a].extent)
  {
    assert a in InUse(H.h, H.hi) && x in InUse(H.h, H.hi);
    assert UseAt(H, a) && UseAt(H, x) && Apart(H.h, a, x) && Apart(H.h, x, a);
  }

  lemma {:induction false} CapsQuarantined(use: map<int, Use>, waits: map<int, nat>, p: Progress, slots: seq<Cap>,
                                           a: int)
    requires CapsOk(use, waits, p, slots)
    ensures CapsOk(use, waits[a := EvenEpoch(p)], p, slots)
  {
    forall i | 0 <= i < |slots| ensures CapOk(use, waits[a := EvenEpoch(p)], p, i, slots[i]) {
      assert CapOk(use, waits, p, i, slots[i]);
    }
  }

  lemma {:induction false} QuarantineOk(W: World, a: int)
    requires Ok(W) && Live(W.H, a) && a in W.H.h && W.H.h[a].owner == 0 && W.H.h[a].claims == 0
    ensures Ok(DoQuarantine(W, a))
    ensures LiveMap(DoQuarantine(W, a).H) == LiveMap(W.H) - {a}
  {
    var w := EvenEpoch(W.p);
    QuarantineInv(W.H, a, w);
    QuarantineAccounts(W.H, a, w);
    SumInsert(Pending(W.H), a, W.H.h[a].currSize);
    CapsQuarantined(W.H.use, W.H.waits, W.p, W.slots, a);
    QuarantineAged(W.H, W.last, W.p.sweeps, a, w);
  }

  /** Take the chunk at a out of quarantine. */
  function DoUnquarantine(W: World, a: int): (W': World)
    requires a in W.H.h
  {
    var k := 8 * W.H.h[a].currSize;
    W.(H := Unquarantine(W.H, a), quarSize := W.quarSize - k, freeSize := W.freeSize + k)
  }

  lemma {:induction false} UnquarantineAged(H: Heap, last: map<int, nat>, sweeps: nat, a: int)
    requires Aged(H, last, sweeps) && a in H.waits && a in H.h && H.waits[a] + 2 <= sweeps
    ensures Aged(Unquarantine(H, a), last, sweeps)
  {
    var H' := Unquarantine(H, a);
    assert LabelAt(H, last, a);
    forall g | g in last ensures last[g] + 2 <= sweeps || exists x :: InBody(H', x, g) {
      if x :| InBody(H, x, g) { assert x != a ==> InBody(H', x, g); }
    }
    forall x | x in H'.waits ensures LabelAt(H', last, x) {
      assert LabelAt(H, last, x);
      forall g | g in last && InBody(H', x, g) ensures last[g] <= H'.waits[x] { assert InBody(H, x, g); }
    }
  }

  lemma {:induction false} CapsUnquarantined(W: World, a: int)
    requires CapsOk(W.H.use, W.H.waits, W.p, W.slots) && a in W.H.waits && W.H.waits[a] + 2 <= W.p.sweeps
    ensures CapsOk(W.H.use[a := Use(0, 0)], W.H.waits - {a}, W.p, W.slots)
  {
    forall i | 0 <= i < |W.slots| ensures CapOk(W.H.use[a := Use(0, 0)], W.H.waits - {a}, W.p, i, W.slots[i]) {
      assert CapOk(W.H.use, W.H.waits, W.p, i, W.slots[i]);
      NoCapsLeft(W.H, W.p, W.slots, a, i);
    }
  }

  lemma {:induction false} UnquarantineOk(W: World, a: int)
    requires Ok(W) && a in W.H.waits && W.H.waits[a] + 2 <= W.p.sweeps
    ensures a in W.H.h && Ok(DoUnquarantine(W, a)) && Held(DoUnquarantine(W, a).H, a)
    ensures LiveMap(DoUnquarantine(W, a).H) == LiveMap(W.H)
  {
    UnquarantineInv(W.H, a);
    UnquarantineAccounts(W.H, a);
    SumRemove(Pending(W.H), a);
    SumInsert(Spare(W.H), a, W.H.h[a].currSize);
    CapsUnquarantined(W, a);
    UnquarantineAged(W.H, W.last, W.p.sweeps, a);
  }

  // ---------- The revoker's and the clients' steps ----------

  function DoTick(W: World): (W': World)
    requires Running(W.p) ==> W.p.offset <= |W.slots|
  {
    W.(p := Ticked(W.p, |W.slots|), slots := Swept(W.H.marks, W.slots, ScanStart(W.p), ScanEnd(W.p, |W.slots|)))
  }

  lemma {:induction false} AgedLater(H: Heap, last: map<int, nat>, sweeps: nat, sweeps': nat)
    requires Aged(H, last, sweeps) && sweeps <= sweeps'
    ensures Aged(H, last, sweeps')
  {
  }

  lemma {:induction false} TickOk(W: World)
    requires Ok(W)
    ensures Ok(DoTick(W))
  {
    TickCaps(W.H, W.p, W.slots);
    AgedLater(W.H, W.last, W.p.sweeps, DoTick(W).p.sweeps);
  }

  /** A client stores a capability that passed the load barrier, or one derived from it by narrowing,
      to slot j. */
  predicate Derives(c: Cap, d: Cap)
  {
    d == NoCap ||
    (c.Cap? && d.Cap? && d.chunk == c.chunk && d.gen == c.gen && d.len >= 1 && c.base <= d.base &&
     d.base + d.len <= c.base + c.len)
  }

  function DoCopy(W: World, j: nat, d: Cap): (W': World)
    requires j < |W.slots|
  {
    W.(slots := W.slots[j := d])
  }

  lemma {:induction false} CopyOk(W: World, i: nat, j: nat, d: Cap)
    requires Ok(W) && i < |W.slots| && j < |W.slots| && Derives(Load(W.H.marks, W.slots[i]), d)
    ensures Ok(DoCopy(W, j, d))
  {
    var c, slots' := W.slots[i], W.slots[j := d];
    assert CapOk(W.H.use, W.H.waits, W.p, i, c);
    if c.Cap? && c.chunk in W.H.waits { QuarantinedDoesNotLoad(W.H, W.p, i, c); }
    forall x | 0 <= x < |slots'| ensures CapOk(W.H.use, W.H.waits, W.p, x, slots'[x]) {
      assert CapOk(W.H.use, W.H.waits, W.p, x, W.slots[x]);
    }
  }

  /** A client keeps the capability to a live allocation that it was given. */
  lemma {:induction false} ReceiveOk(W: World, j: nat, a: int)
    requires Ok(W) && j < |W.slots| && Live(W.H, a)
    ensures Ok(DoCopy(W, j, Cap(8 * (a + 1), 8 * W.H.use[a].extent, a, W.H.use[a].gen)))
  {
    var slots' := W.slots[j := Cap(8 * (a + 1), 8 * W.H.use[a].extent, a, W.H.use[a].gen)];
    forall x | 0 <= x < |slots'| ensures CapOk(W.H.use, W.H.waits, W.p, x, slots'[x]) {
      assert CapOk(W.H.use, W.H.waits, W.p, x, W.slots[x]);
    }
  }

  /** The allocator writes its own record, in the first granule of a live chunk. */
  function DoWrite(W: World, a: int): (W': World) { W.(H := Store(W.H, a + 1)) }

  lemma {:induction false} WriteOk(W: World, a: int)
    requires Ok(W) && Live(W.H, a)
    ensures Ok(DoWrite(W, a)) && LiveMap(DoWrite(W, a).H) == LiveMap(W.H)
  {
    StoreInv(W.H, a, a + 1);
    StoreAccounts(W.H, a + 1);
    AgedSame(W.H, Store(W.H, a + 1), W.last, W.p.sweeps);
  }

  /** A client stores data through a capability that passed the load barrier. */
  function DoStore(W: World, c: Cap, offset: nat): (W': World)
    requires c.Cap?
  {
    W.(H := Store(W.H, (c.base + offset) / 8))
  }

  lemma {:induction false} StoreOk(W: World, i: nat, offset: nat)
    requires Ok(W) && i < |W.slots|
    requires Load(W.H.marks, W.slots[i]).Cap? && offset < W.slots[i].len
    ensures Ok(DoStore(W, W.slots[i], offset)) && LiveMap(DoStore(W, W.slots[i], offset).H) == LiveMap(W.H)
  {
    var c := W.slots[i];
    LoadsLive(W, i);
    var g := (c.base + offset) / 8;
    assert c.chunk < g < c.chunk + 1 + W.H.use[c.chunk].extent;
    StoreInv(W.H, c.chunk, g);
    StoreAccounts(W.H, g);
    AgedSame(W.H, Store(W.H, g), W.last, W.p.sweeps);
  }

  lemma {:induction false} StoreAccounts(H: Heap, g: int)
    ensures LiveMap(Store(H, g)) == LiveMap(H) && Spare(Store(H, g)) == Spare(H) && Pending(Store(H, g)) == Pending(H)
  {
    Untouched(H, Store(H, g), {});
    SameSpare(H, Store(H, g), {});
    UntouchedPending(H, Store(H, g), {});
    assert Spare(H) - {} == Spare(H) && Spare(Store(H, g)) - {} == Spare(Store(H, g));
  }

  // ---------- Temporal safety ----------

  /** Whatever capability passes the load barrier, wherever it is kept, is to the allocation it was
      created for: that allocation is still live, and the capability stays within what was handed out. */
  lemma {:induction false} LoadsLive(W: World, i: nat)
    requires Ok(W) && i < |W.slots| && Load(W.H.marks, W.slots[i]).Cap?
    ensures var c := W.slots[i];
            && c.chunk in LiveMap(W.H) && LiveMap(W.H)[c.chunk].gen == c.gen
            && 8 * (c.chunk + 1) <= c.base && c.len >= 1
            && c.base + c.len <= 8 * (c.chunk + 1 + LiveMap(W.H)[c.chunk].extent)
  {
    var c := W.slots[i];
    assert CapOk(W.H.use, W.H.waits, W.p, i, c);
    if c.chunk in W.H.waits { QuarantinedDoesNotLoad(W.H, W.p, i, c); }
    assert c.chunk in InUse(W.H.h, W.H.hi);
  }

  /** The body of a held chunk, which is what is handed out next, is zero, unmarked, not reached by any
      capability anywhere, and none of it was freed since the last full sweep began. */
  lemma {:induction false} HeldIsFresh(W: World, a: int, g: int)
    requires Ok(W) && Held(W.H, a) && a in W.H.h && a < g < Next(W.H.h, a)
    ensures g !in W.H.dirty && g !in W.H.marks
    ensures forall i | 0 <= i < |W.slots| :: W.slots[i].Cap? ==>
              W.slots[i].base + W.slots[i].len <= 8 * g || 8 * (g + 1) <= W.slots[i].base
    ensures g in W.last ==> W.last[g] + 2 <= W.p.sweeps
  {
    HeldIsZero(W.H, a, g);
    var H := W.H;
    forall i | 0 <= i < |W.slots| && W.slots[i].Cap?
      ensures W.slots[i].base + W.slots[i].len <= 8 * g || 8 * (g + 1) <= W.slots[i].base
    {
      var c := W.slots[i];
      assert CapOk(H.use, H.waits, W.p, i, c);
      UseApart(H, a, c.chunk);
    }
    forall x | InBody(H, x, g) ensures false { UseApart(H, a, x); }
  }

  /** What is handed out of chunk x lies outside the held chunk a. */
  lemma {:induction false} UseApart(H: Heap, a: int, x: int)
    requires Inv(H) && Held(H, a) && a in H.h && x in H.use
    ensures H.use[x].extent == 0 || x + 1 + H.use[x].extent <= a || Next(H.h, a) <= x
  {
    assert a in InUse(H.h, H.hi) && x in InUse(H.h, H.hi);
    assert UseAt(H, x) && Apart(H.h, a, x) && Apart(H.h, x, a);
  }
}
