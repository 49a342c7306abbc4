/** A heap in which a failed allocation is told to wait for an epoch that no chunk waits for: five chunks of
    16 bytes, kept apart by live ones, were freed together; their sweep is over and the initial dequeue has
    just taken four of them out of quarantine, so that none is pending and one is left. */
module StaleHeap {
  import opened Chunks
  import opened HeapState
  import opened Sums
  import opened Accounts
  import opened Revoker
  import opened Quarantine
  import opened World
  import opened Steps
  import opened Bounds
  import opened MState

  /** The chunks at 2, 6, 10 and 14 are free. */
  predicate FreeAt(a: int) { a % 4 == 2 && a < 18 }

  function HeaderAt(a: int): (c: Header)
  {
    Header(if a == 2 then 0 else 2, if a == 22 then 1 else 2, if a % 4 == 0 then 1 else 0, false,
           a == 2 || !FreeAt(a - 2), !FreeAt(a), 0)
  }

  /** Chunks of two granules from 2 to the sentinel at 22; that at 18 is in quarantine, the others that are not
      free are live. */
  function Comb(): (H: Heap)
  {
    Heap(2, 22, map a | 2 <= a <= 22 && a % 2 == 0 :: HeaderAt(a),
         map a | 2 <= a < 22 && a % 2 == 0 && !FreeAt(a) :: Use(0, 1), map[18 := 0],
         set g | 2 <= g <= 22 && (g % 2 == 0 || g == 19), set g | 2 <= g <= 19 && g % 4 == 3)
  }

  /** In epoch 2, with no capability in memory, and all that was freed freed in epoch 0. */
  function Stale(): (W: World)
  {
    World(Comb(), Progress(2, 0), [], map g | 2 <= g <= 19 && g % 4 == 3 :: 0, 1, 64, 16)
  }

  lemma {:induction false} CombHeaders(a: int)
    requires a in Comb().h
    ensures 2 <= a <= 22 && a % 2 == 0 && Comb().h[a] == HeaderAt(a)
    ensures (a < 22 ==> a + 2 in Comb().h) && (a > 2 ==> a - 2 in Comb().h)
  {
  }

  lemma {:induction false} CombLinked(a: int)
    requires a in Comb().h
    ensures Linked(Comb().h, 2, 22, a)
  {
    hide Comb, FreeAt;
    CombHeaders(a);
    if a < 22 { CombHeaders(a + 2); }
    if a > 2 { CombHeaders(a - 2); }
  }

  lemma {:induction false} CombFlags(a: int)
    requires a in Comb().h
    ensures FlagsAt(Comb().h, 2, 22, a) && AloneAt(Comb().h, 22, a)
  {
    hide Comb;
    CombHeaders(a);
    if a < 22 { CombHeaders(a + 2); }
  }

  lemma {:induction false} CombApart(a: int, b: int)
    requires a in Comb().h && b in Comb().h
    ensures Apart(Comb().h, a, b)
  {
    hide Comb, FreeAt;
    CombHeaders(a);
    CombHeaders(b);
  }

  lemma {:induction false} CombEnds()
    ensures 2 in Comb().h && 22 in Comb().h && Comb().lo == 2 && Comb().hi == 22
  {
    hide HeaderAt, FreeAt;
  }

  lemma {:induction false} CombFormed()
    ensures Formed(Comb().h, 2, 22)
  {
    hide Comb, Linked, FlagsAt, AloneAt, Apart;
    var h := Comb().h;
    CombEnds();
    forall a, b | a in h && b in h ensures Apart(h, a, b) { CombApart(a, b); }
    forall a | a in h ensures Linked(h, 2, 22, a) && FlagsAt(h, 2, 22, a) && AloneAt(h, 22, a) {
      CombLinked(a);
      CombFlags(a);
    }
  }

  lemma {:induction false} CombGranule(g: int)
    ensures g in Comb().marks <==> 2 <= g <= 22 && (g % 2 == 0 || g == 19)
    ensures g in Comb().dirty <==> 2 <= g <= 19 && g % 4 == 3
  {
    hide HeaderAt, FreeAt;
  }

  lemma {:induction false} CombEighteen()
    ensures Comb().waits == map[18 := 0] && 18 in Comb().use && Comb().use[18] == Use(0, 1)
  {
    hide HeaderAt;
  }

  lemma {:induction false} CombHolds(a: int)
    requires a in Comb().h
    ensures a % 4 == 2 && a < 22 ==> HoldSize(Comb(), a) >= 1
  {
  }

  lemma {:induction false} CombMarks(a: int)
    requires a in Comb().h
    ensures MarksAt(Comb(), a)
  {
    hide Comb, FreeAt;
    CombHeaders(a);
    CombGranule(a);
    CombGranule(a + 1);
    CombEighteen();
  }

  lemma {:induction false} CombDirty(a: int)
    requires a in Comb().h
    ensures DirtyAt(Comb(), a)
  {
    hide Comb, FreeAt, HoldSize;
    CombHeaders(a);
    CombGranule(a);
    CombGranule(a + 1);
    CombHolds(a);
  }

  lemma {:induction false} CombUses()
    ensures Uses(Comb())
  {
    var H := Comb();
    assert H.use.Keys == InUse(H.h, H.hi);
  }

  lemma {:induction false} CombInv()
    ensures Inv(Comb())
  {
    CombFormed();
    CombUses();
    var H := Comb();
    assert H.waits.Keys == {18} && 18 in H.use;
    hide Formed, Uses, MarksAt, DirtyAt;
    forall a | a in H.h ensures MarksAt(H, a) && DirtyAt(H, a) {
      CombMarks(a);
      CombDirty(a);
    }
  }

  /** The chunks that are free, and those that are in quarantine. */
  lemma {:induction false} CombKinds(a: int)
    requires a in Comb().h
    ensures !Comb().h[a].currInUse <==> a in {2, 6, 10, 14}
    ensures (a in Comb().waits <==> a == 18) && (a < 22 ==> Comb().h[a].currSize == 2) && !Held(Comb(), a)
  {
    var i := a / 4;
    assert a == 4 * i || a == 4 * i + 2;
  }

  lemma {:induction false} CombFree()
    ensures FreeMap(Comb().h) == map[2 := 2, 6 := 2, 10 := 2, 14 := 2] && NoneHeld(Comb())
    ensures Spare(Comb()) == map[2 := 2, 6 := 2, 10 := 2, 14 := 2] && Pending(Comb()) == map[18 := 2]
  {
    var H := Comb();
    assert 2 in H.h && 6 in H.h && 10 in H.h && 14 in H.h && 18 in H.h;
    hide HeaderAt, FreeAt, Held;
    forall a | a in H.h
      ensures !H.h[a].currInUse <==> a in {2, 6, 10, 14}
      ensures (a in H.waits <==> a == 18) && (a < 22 ==> H.h[a].currSize == 2) && !Held(H, a) {
      CombKinds(a);
    }
    forall a ensures !Held(H, a) { UsedIn(a); }
  }

  lemma {:induction false} UsedIn(a: int)
    ensures !Held(Comb(), a)
  {
  }

  lemma {:induction false} CombSums()
    ensures Sum(map[2 := 2, 6 := 2, 10 := 2, 14 := 2]) == 8 && Sum(map[18 := 2]) == 2
  {
    var m: map<int, nat> := map[];
    SumInsert(m, 2, 2);
    SumInsert(m[2 := 2], 6, 2);
    SumInsert(m[2 := 2][6 := 2], 10, 2);
    SumInsert(m[2 := 2][6 := 2][10 := 2], 14, 2);
    SumInsert(m, 18, 2);
    assert m[2 := 2][6 := 2][10 := 2][14 := 2] == map[2 := 2, 6 := 2, 10 := 2, 14 := 2];
    assert m[18 := 2] == map[18 := 2];
  }

  lemma {:induction false} StaleOk()
    ensures Ok(Stale())
  {
    CombInv();
    CombFree();
    CombSums();
    hide Inv, Sum, Spare, Pending;
    var W := Stale();
    forall a | a in W.H.waits ensures LabelAt(W.H, W.last, a) {}
  }

  /** A request for 24 bytes, which needs a chunk of 32, fails there, as every free chunk has 16; the 64 bytes free
      and the 16 in quarantine would do; so the failure names the label at the head cursor, which is nobody's.
      W0 is the state before the dequeue, with five chunks in quarantine. */
  lemma {:induction false} StaleLabel(quota: nat, W0: World)
    requires quota >= 24 && W0.H.lo == 2 && W0.H.hi == 22 && |W0.H.waits| == 5
    ensures var W, q := Stale(), OneLeft();
            && Ok(W) && NoneHeld(W.H) && FreeMap(W.H.h) == map[2 := 2, 6 := 2, 10 := 2, 14 := 2]
            && W.H.waits == map[18 := 0] && Kept(q, W.H.waits, W.p.sweeps) && q.timely && q.empty && q.finished == [18]
            && Unmet(W, 24)
            && Decided(24, quota, W0, DoTick(W), q, Attempt(FailureRevocationNeeded(HeadLabel(q)), W, 0, 0))
            && !IsEldest(q, W.H.waits, HeadLabel(q))
  {
    StaleUnmet();
    NoEldest();
    Request24();
    StaleRefused(HeadLabel(OneLeft()));
    hide Walked, Refused, Unmet, AlignSize, Unit;
    var r := FailureRevocationNeeded(HeadLabel(OneLeft()));
    Decide(24, quota, W0, DoTick(Stale()), OneLeft(), Attempt(r, Stale(), 0, 0));
  }

  lemma {:induction false} StaleUnmet()
    ensures Ok(Stale()) && NoneHeld(Stale().H) && FreeMap(Stale().H.h) == map[2 := 2, 6 := 2, 10 := 2, 14 := 2]
    ensures Unmet(Stale(), 24)
  {
    StaleOk();
    CombFree();
    Request24();
    hide Ok, AlignSize, Unit, Needed;
  }

  lemma {:induction false} StaleRefused(epoch: nat)
    ensures Refused(DoTick(Stale()), 24, epoch, FailureRevocationNeeded(epoch))
  {
    StaleUnmet();
    WalkedIs(Stale());
    hide Walked, Ok, FreeMap, Unmet;
    FoldRefused(DoTick(Stale()), 24, epoch, FailureRevocationNeeded(epoch));
  }

  lemma {:induction false} Request24()
    ensures AlignSize(24) == 24 && Unit(24) == 1 && Needed(24, 1) == 32
  {
    assert Exponent(24) == 0;
  }
}
