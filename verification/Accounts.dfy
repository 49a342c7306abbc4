/** What the operations on the heap do to the live allocations and to the sizes that the counters of
    the allocator count. */
module Accounts {
  import opened Chunks
  import opened HeapState
  import opened Sums

  /** A live allocation as its header and its use describe it; size and extent in granules. */
  datatype Alloc = Alloc(size: nat, owner: nat, claims: nat, isSealed: bool, gen: nat, extent: nat)

  function AllocAt(H: Heap, a: int): (r: Alloc)
    requires a in H.h && a in H.use
  {
    var c := H.h[a];
    Alloc(c.currSize, c.owner, c.claims, c.isSealed, H.use[a].gen, H.use[a].extent)
  }

  function LiveMap(H: Heap): (m: map<int, Alloc>)
  {
    map a | a in H.h && Live(H, a) :: AllocAt(H, a)
  }

  /** Free chunks, and chunks the allocator is working on: what heapFreeSize counts. */
  predicate SpareAt(H: Heap, a: int)
    requires a in H.h
  {
    a < H.hi && (!H.h[a].currInUse || Held(H, a))
  }

  function Spare(H: Heap): (m: map<int, nat>)
  {
    map a | a in H.h && SpareAt(H, a) :: H.h[a].currSize
  }

  /** Quarantined chunks: what heapQuarantineSize counts. */
  function Pending(H: Heap): (m: map<int, nat>)
  {
    map a | a in H.h && a in H.waits :: H.h[a].currSize
  }

  // ---------- Operations touch few chunks ----------

  /** Address x has the same chunk, put to the same use. */
  predicate SameAt(H: Heap, H': Heap, x: int)
  {
    && (x in H'.h <==> x in H.h)
    && (x in H.h ==>
          && H'.h[x].currSize == H.h[x].currSize && H'.h[x].currInUse == H.h[x].currInUse
          && H'.h[x].owner == H.h[x].owner && H'.h[x].claims == H.h[x].claims && H'.h[x].isSealed == H.h[x].isSealed)
    && (x in H'.use <==> x in H.use) && (x in H.use ==> H'.use[x] == H.use[x])
    && (x in H'.waits <==> x in H.waits)
  }

  ghost predicate SameBut(H: Heap, H': Heap, s: set<int>)
  {
    H'.lo == H.lo && H'.hi == H.hi && forall x {:trigger SameAt(H, H', x)} | x !in s :: SameAt(H, H', x)
  }

  lemma {:induction false} SameLive(H: Heap, H': Heap, s: set<int>)
    requires SameBut(H, H', s)
    ensures LiveMap(H') - s == LiveMap(H) - s
  {
    forall x | x !in s ensures SameAt(H, H', x) {}
  }

  lemma {:induction false} SameSpare(H: Heap, H': Heap, s: set<int>)
    requires SameBut(H, H', s)
    ensures Spare(H') - s == Spare(H) - s
  {
    forall x | x !in s ensures SameAt(H, H', x) {}
  }

  lemma {:induction false} SamePending(H: Heap, H': Heap, s: set<int>)
    requires SameBut(H, H', s)
    ensures Pending(H') - s == Pending(H) - s
  {
    var p, p' := Pending(H) - s, Pending(H') - s;
    forall x ensures (x in p' <==> x in p) && (x in p ==> p'[x] == p[x]) { assert x !in s ==> SameAt(H, H', x); }
  }

  lemma {:induction false} TakeTouches(H: Heap, a: int, k: nat)
    requires CanTake(H, a, k)
    ensures SameBut(H, TakeChunk(H, a, k), if SplitsAt(H, a, k) then {a, a + k} else {a})
  {
  }

  lemma {:induction false} SplitTouches(H: Heap, a: int, k: nat)
    requires a in H.h && Next(H.h, a) in H.h && 0 < k < H.h[a].currSize
    ensures SameBut(H, SplitChunk(H, a, k), {a, a + k})
  {
  }

  lemma {:induction false} ReleaseTouches(H: Heap, a: int)
    requires CanRelease(H, a)
    ensures SameBut(H, ReleaseChunk(H, a), {MergeStart(H.h, a), a, Next(H.h, a)})
  {
    ReleaseBounds(H.h, H.lo, H.hi, a);
  }

  /** If nothing live or quarantined is touched, live and quarantined chunks stay what they are. */
  lemma {:induction false} Untouched(H: Heap, H': Heap, s: set<int>)
    requires SameBut(H, H', s) && forall x | x in s :: !Live(H, x) && !Live(H', x)
    ensures LiveMap(H') == LiveMap(H)
  {
    SameLive(H, H', s);
    var m, m' := LiveMap(H), LiveMap(H');
    forall x ensures (x in m' <==> x in m) && (x in m ==> m'[x] == m[x]) {
      assert x !in s ==> (x in m' <==> x in m' - s) && (x in m <==> x in m - s);
    }
  }

  lemma {:induction false} UntouchedPending(H: Heap, H': Heap, s: set<int>)
    requires SameBut(H, H', s) && forall x | x in s :: x !in H.waits && x !in H'.waits
    ensures Pending(H') == Pending(H)
  {
    SamePending(H, H', s);
    var m, m' := Pending(H), Pending(H');
    forall x ensures (x in m' <==> x in m) && (x in m ==> m'[x] == m[x]) {
      assert x !in s ==> (x in m' <==> x in m' - s) && (x in m <==> x in m - s);
    }
  }

  /** The sum over the spare chunks, but for those touched. */
  lemma {:induction false} SumBut(m: map<int, nat>, s: set<int>, a: int)
    requires a !in s
    ensures Sum(m - s) == Sum(m - (s + {a})) + if a in m then m[a] else 0
  {
    if a in m {
      SumRemove(m - s, a);
      assert m - s - {a} == m - (s + {a});
    } else {
      assert m - s == m - (s + {a});
    }
  }

  lemma {:induction false} SumButTwo(m: map<int, nat>, a: int, b: int)
    requires a != b
    ensures Sum(m) == Sum(m - {a, b}) + (if a in m then m[a] else 0) + (if b in m then m[b] else 0)
  {
    SumBut(m, {}, a);
    SumBut(m, {a}, b);
    assert m - {} == m && {} + {a} == {a} && {a} + {b} == {a, b};
  }

  lemma {:induction false} SumButThree(m: map<int, nat>, a: int, b: int, c: int)
    requires a != b && b != c && a != c
    ensures Sum(m) == Sum(m - {a, b, c}) + (if a in m then m[a] else 0) + (if b in m then m[b] else 0)
                      + (if c in m then m[c] else 0)
  {
    SumButTwo(m, a, b);
    SumBut(m, {a, b}, c);
    assert {a, b} + {c} == {a, b, c};
  }

  // ---------- Taking and splitting ----------

  lemma {:induction false} TakeAccounts(H: Heap, a: int, k: nat)
    requires CanTake(H, a, k)
    ensures LiveMap(TakeChunk(H, a, k)) == LiveMap(H)
    ensures Pending(TakeChunk(H, a, k)) == Pending(H)
  {
    var H' := TakeChunk(H, a, k);
    var s := if SplitsAt(H, a, k) then {a, a + k} else {a};
    TakeTouches(H, a, k);
    assert a !in InUse(H.h, H.hi) && (SplitsAt(H, a, k) ==> a + k !in InUse(H.h, H.hi));
    Untouched(H, H', s);
    UntouchedPending(H, H', s);
  }

  lemma {:induction false} TakeUnused(H: Heap, a: int, k: nat)
    requires CanTake(H, a, k)
    ensures a !in H.use && a !in H.waits && a < Next(H.h, a) <= H.hi
  {
    FormedAt(H.h, H.lo, H.hi, a);
    assert a !in InUse(H.h, H.hi);
  }

  lemma {:induction false} TakeSpare(H: Heap, a: int, k: nat)
    requires CanTake(H, a, k)
    ensures Sum(Spare(TakeChunk(H, a, k))) == Sum(Spare(H))
  {
    hide Inv, SameBut, Sum, Sums.Sum;
    var H' := TakeChunk(H, a, k);
    TakeTouches(H, a, k);
    TakeUnused(H, a, k);
    if SplitsAt(H, a, k) {
      SameSpare(H, H', {a, a + k});
      SumButTwo(Spare(H), a, a + k);
      SumButTwo(Spare(H'), a, a + k);
    } else {
      SameSpare(H, H', {a});
      SumRemove(Spare(H), a);
      SumRemove(Spare(H'), a);
    }
  }

  lemma {:induction false} SplitAccounts(H: Heap, a: int, k: nat)
    requires Inv(H) && Held(H, a) && a in H.h && 2 <= k <= H.h[a].currSize - 2 && Next(H.h, a) in H.h && a + k !in H.h
    ensures LiveMap(SplitChunk(H, a, k)) == LiveMap(H)
    ensures Pending(SplitChunk(H, a, k)) == Pending(H)
  {
    SplitTouches(H, a, k);
    assert a + k !in InUse(H.h, H.hi);
    Untouched(H, SplitChunk(H, a, k), {a, a + k});
    UntouchedPending(H, SplitChunk(H, a, k), {a, a + k});
  }

  lemma {:induction false} SplitSpare(H: Heap, a: int, k: nat)
    requires Inv(H) && Held(H, a) && a in H.h && 2 <= k <= H.h[a].currSize - 2 && Next(H.h, a) in H.h && a + k !in H.h
    ensures Sum(Spare(SplitChunk(H, a, k))) == Sum(Spare(H))
  {
    var H' := SplitChunk(H, a, k);
    SplitTouches(H, a, k);
    assert a in InUse(H.h, H.hi);
    FormedAt(H.h, H.lo, H.hi, a);
    SameSpare(H, H', {a, a + k});
    SumButTwo(Spare(H), a, a + k);
    SumButTwo(Spare(H'), a, a + k);
  }

  // ---------- Giving back ----------

  lemma {:induction false} ReleaseAccounts(H: Heap, a: int)
    requires CanRelease(H, a)
    ensures LiveMap(ReleaseChunk(H, a)) == LiveMap(H)
    ensures Pending(ReleaseChunk(H, a)) == Pending(H)
  {
    var H' := ReleaseChunk(H, a);
    var s, n := MergeStart(H.h, a), Next(H.h, a);
    ReleaseTouches(H, a);
    ReleaseBounds(H.h, H.lo, H.hi, a);
    if s != a { assert s !in InUse(H.h, H.hi); }
    if H.h[n].currInUse {
      ReleaseTouchesLess(H, a);
      Untouched(H, H', {s, a});
      UntouchedPending(H, H', {s, a});
    } else {
      assert n !in InUse(H.h, H.hi);
      Untouched(H, H', {s, a, n});
      UntouchedPending(H, H', {s, a, n});
    }
  }

  lemma {:induction false} ReleaseTouchesLess(H: Heap, a: int)
    requires CanRelease(H, a) && H.h[Next(H.h, a)].currInUse
    ensures SameBut(H, ReleaseChunk(H, a), {MergeStart(H.h, a), a})
  {
    ReleaseBounds(H.h, H.lo, H.hi, a);
  }

  lemma {:induction false} ReleaseSpare(H: Heap, a: int)
    requires CanRelease(H, a)
    ensures Sum(Spare(ReleaseChunk(H, a))) == Sum(Spare(H))
  {
    var H' := ReleaseChunk(H, a);
    var s, n := MergeStart(H.h, a), Next(H.h, a);
    ReleaseTouches(H, a);
    ReleaseBounds(H.h, H.lo, H.hi, a);
    SameSpare(H, H', {s, a, n});
    if s == a {
      assert {s, a, n} == {a, n};
      SumButTwo(Spare(H), a, n);
      SumButTwo(Spare(H'), a, n);
    } else {
      SumButThree(Spare(H), s, a, n);
      SumButThree(Spare(H'), s, a, n);
    }
  }

  // ---------- Handing out, quarantine and back ----------

  lemma {:induction false} GrantAccounts(H: Heap, a: int, gen: nat, extent: nat, owner: nat, isSealed: bool)
    requires Inv(H) && Held(H, a) && a in H.h && 1 <= extent
    ensures var H' := Grant(H, a, gen, extent, owner, isSealed);
            && LiveMap(H') == LiveMap(H)[a := Alloc(H.h[a].currSize, owner, H.h[a].claims, isSealed, gen, extent)]
            && Pending(H') == Pending(H) && a in Spare(H) && Spare(H') == Spare(H) - {a}
  {
    var H' := Grant(H, a, gen, extent, owner, isSealed);
    assert a in InUse(H.h, H.hi);
    SameLive(H, H', {a});
    SameSpare(H, H', {a});
    UntouchedPending(H, H', {a});
    LiveAfter(H, H', a);
    SpareAfter(H, H', a);
  }

  /** The maps after a step that touches a only. */
  lemma {:induction false} LiveAfter(H: Heap, H': Heap, a: int)
    requires SameBut(H, H', {a})
    ensures LiveMap(H') == if a in H'.h && Live(H', a) then LiveMap(H)[a := AllocAt(H', a)] else LiveMap(H) - {a}
  {
    SameLive(H, H', {a});
    var m, m' := LiveMap(H), LiveMap(H');
    forall x | x != a ensures (x in m' <==> x in m) && (x in m ==> m'[x] == m[x]) {
      assert (x in m' <==> x in m' - {a}) && (x in m <==> x in m - {a});
    }
  }

  lemma {:induction false} SpareAfter(H: Heap, H': Heap, a: int)
    requires SameBut(H, H', {a})
    ensures Spare(H') == if a in H'.h && SpareAt(H', a) then Spare(H)[a := H'.h[a].currSize] else Spare(H) - {a}
  {
    SameSpare(H, H', {a});
    var m, m' := Spare(H), Spare(H');
    forall x | x != a ensures (x in m' <==> x in m) && (x in m ==> m'[x] == m[x]) {
      assert (x in m' <==> x in m' - {a}) && (x in m <==> x in m - {a});
    }
  }

  lemma {:induction false} PendingAfter(H: Heap, H': Heap, a: int)
    requires SameBut(H, H', {a})
    ensures Pending(H') == if a in H'.h && a in H'.waits then Pending(H)[a := H'.h[a].currSize] else Pending(H) - {a}
  {
    SamePending(H, H', {a});
    var m, m' := Pending(H), Pending(H');
    forall x | x != a ensures (x in m' <==> x in m) && (x in m ==> m'[x] == m[x]) {
      assert (x in m' <==> x in m' - {a}) && (x in m <==> x in m - {a});
    }
  }

  lemma {:induction false} SetHolderAccounts(H: Heap, a: int, owner: nat, claims: nat)
    requires Inv(H) && Live(H, a) && a in H.h
    ensures var H' := SetHolder(H, a, owner, claims);
            && LiveMap(H') == LiveMap(H)[a := AllocAt(H, a).(owner := owner, claims := claims)]
            && Pending(H') == Pending(H) && Spare(H') == Spare(H)
  {
    var H' := SetHolder(H, a, owner, claims);
    assert a in InUse(H.h, H.hi);
    LiveAfter(H, H', a);
    SpareAfter(H, H', a);
    PendingAfter(H, H', a);
  }

  lemma {:induction false} QuarantineAccounts(H: Heap, a: int, w: nat)
    requires Inv(H) && Live(H, a) && a in H.h
    ensures var H' := Quarantine(H, a, w);
            && LiveMap(H') == LiveMap(H) - {a}
            && Pending(H') == Pending(H)[a := H.h[a].currSize] && a !in Pending(H) && Spare(H') == Spare(H)
  {
    var H' := Quarantine(H, a, w);
    assert a in InUse(H.h, H.hi);
    LiveAfter(H, H', a);
    SpareAfter(H, H', a);
    PendingAfter(H, H', a);
  }

  lemma {:induction false} UnquarantineAccounts(H: Heap, a: int)
    requires Inv(H) && a in H.waits && a in H.h
    ensures var H' := Unquarantine(H, a);
            && LiveMap(H') == LiveMap(H)
            && a in Pending(H) && Pending(H') == Pending(H) - {a}
            && a !in Spare(H) && Spare(H') == Spare(H)[a := H.h[a].currSize]
  {
    var H' := Unquarantine(H, a);
    assert a in InUse(H.h, H.hi) && UseAt(H, a);
    LiveAfter(H, H', a);
    SpareAfter(H, H', a);
    PendingAfter(H, H', a);
  }
}
