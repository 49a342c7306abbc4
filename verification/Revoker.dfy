/** The software revoker: a sweep over all memory that holds capabilities, behind a load barrier that
    the shadow marks drive, and an epoch that counts the starts and ends of sweeps in 32 bits. */
module Revoker {
  import opened HeapState
  import opened SizeBits

  const TICK_SIZE := 4096          // slots scanned per tick

  /** What a slot of memory holds: nothing valid, or a capability to len bytes from byte address base.
      The chunk and the allocation it was derived from are recorded beside it; no code reads them. */
  datatype Cap = NoCap | Cap(base: int, len: nat, chunk: int, gen: nat)

  /** The load barrier: a capability to a marked granule loads as invalid. */
  function Load(marks: set<int>, c: Cap): (r: Cap)
  {
    if c.Cap? && c.base / 8 in marks then NoCap else c
  }

  /** A value that cannot be used to reach any memory passes for the value itself. */
  function Swept(marks: set<int>, slots: seq<Cap>, from: nat, to: nat): (r: seq<Cap>)
    ensures |r| == |slots|
  {
    seq(|slots|, i requires 0 <= i < |slots| => if from <= i < to then Load(marks, slots[i]) else slots[i])
  }

  /** A sweep loses nothing that loads: a slot keeps its capability unless the sweep passes it and the
      capability does not pass the load barrier. */
  lemma {:induction false} SweptIs(marks: set<int>, slots: seq<Cap>, from: nat, to: nat, i: int)
    requires 0 <= i < |slots|
    ensures var s := Swept(marks, slots, from, to);
            && (Load(marks, slots[i]).Cap? || !(from <= i < to) ==> s[i] == slots[i])
            && (!Load(marks, slots[i]).Cap? && from <= i < to ==> s[i] == NoCap)
  {
    var s := Swept(marks, slots, from, to);
    assert s[i] == if from <= i < to then Load(marks, slots[i]) else slots[i];
  }

  /** The progress of the revoker: sweeps counts starts and ends, so a sweep is running while it is
      odd; the running sweep has scanned the slots below offset. */
  datatype Progress = Progress(sweeps: nat, offset: nat)

  predicate Running(p: Progress) { p.sweeps % 2 == 1 }

  /** revoker_tick: start a sweep if none is running, scan some slots, and end the sweep at the end. */
  function Ticked(p: Progress, length: nat): (p': Progress)
    requires Running(p) ==> p.offset <= length
  {
    var s := if Running(p) then p.sweeps else p.sweeps + 1;
    var end := ScanEnd(p, length);
    if end == length then Progress(s + 1, 0) else Progress(s, end)
  }

  function ScanStart(p: Progress): (o: nat) { if Running(p) then p.offset else 0 }

  function ScanEnd(p: Progress, length: nat): (end: nat)
    requires Running(p) ==> p.offset <= length
    ensures ScanStart(p) <= end <= length
  {
    var o := ScanStart(p);
    if length - o < TICK_SIZE then length else o + TICK_SIZE
  }

  /** The progress after has_revocation_finished_for_epoch has looked: one tick if a sweep is running. */
  function Looked(p: Progress, length: nat): (p': Progress)
  {
    if Running(p) && p.offset <= length then Ticked(p, length) else p
  }

  /** The progress after one turn of wait_for_background_revoker: a look, and a new sweep if none is running. */
  function Waited(p: Progress, length: nat): (p': Progress)
  {
    var p1 := Looked(p, length);
    if Running(p1) then p1 else Ticked(p1, length)
  }

  function Times(k: nat, n: nat): (r: nat) { if k == 0 then 0 else n + Times(k - 1, n) }

  /** A bound on the ticks that it takes until a full sweep has passed since label w. */
  function ToGo(p: Progress, length: nat, w: nat): (n: nat)
  {
    if w + 2 <= p.sweeps then 0
    else Times(w + 2 - p.sweeps, length + 1) + if Running(p) && p.offset <= length then length - p.offset else 0
  }

  /** Every tick brings it closer. */
  lemma {:induction false} TickToGo(p: Progress, length: nat, w: nat)
    requires Running(p) ==> p.offset <= length
    ensures ToGo(Ticked(p, length), length, w) <= ToGo(p, length, w)
    ensures p.sweeps < w + 2 ==> ToGo(Ticked(p, length), length, w) < ToGo(p, length, w)
  {
    if p.sweeps < w + 2 {
      var k: nat := w + 2 - p.sweeps;
      assert Times(k, length + 1) == length + 1 + Times(k - 1, length + 1);
      if k > 1 { assert Times(k - 1, length + 1) == length + 1 + Times(k - 2, length + 1); }
    }
  }

  /** So does every turn of waiting. */
  lemma {:induction false} WaitToGo(p: Progress, length: nat, w: nat)
    requires (Running(p) ==> p.offset <= length) && Looked(p, length).sweeps < w + 2
    ensures ToGo(Waited(p, length), length, w) < ToGo(p, length, w)
  {
    hide ToGo;
    var p1 := Looked(p, length);
    if Running(p) { TickToGo(p, length, w); }
    if !Running(p1) { TickToGo(p1, length, w); }
  }

  /** What has_revocation_finished_for_epoch may do to the revoker: one tick if a sweep is running. */
  predicate Prodded(marks: set<int>, p: Progress, slots: seq<Cap>, p': Progress, slots': seq<Cap>)
  {
    if Running(p) then
      && p.offset <= |slots| && p' == Ticked(p, |slots|)
      && slots' == Swept(marks, slots, ScanStart(p), ScanEnd(p, |slots|))
    else
      p' == p && slots' == slots
  }

  /** Prodded, or left alone. */
  predicate ProddedAtMost(marks: set<int>, p: Progress, slots: seq<Cap>, p': Progress, slots': seq<Cap>)
  {
    Prodded(marks, p, slots, p', slots') || (p' == p && slots' == slots)
  }

  /** Prodding never takes the epoch past the end of the running sweep. */
  lemma {:induction false} ProddedSweeps(marks: set<int>, p: Progress, slots: seq<Cap>, p': Progress, slots': seq<Cap>)
    requires ProddedAtMost(marks, p, slots, p', slots')
    ensures p.sweeps <= p'.sweeps <= p.sweeps + p.sweeps % 2 && |slots'| == |slots|
  {
  }

  // ---------- Which capabilities may exist ----------

  /** A sweep that started after epoch w, when no sweep was running or about to end, has not yet
      passed slot i. */
  predicate NotYetSwept(w: nat, p: Progress, i: int)
  {
    p.sweeps <= w || (p.sweeps == w + 1 && p.offset <= i)
  }

  /** A capability in slot i is to a chunk that is still in use for the allocation it came from, lies
      within what was handed out, and, if the chunk is quarantined, no full sweep has passed it. */
  predicate CapOk(use: map<int, Use>, waits: map<int, nat>, p: Progress, i: int, c: Cap)
  {
    c.Cap? ==>
      && c.chunk in use && use[c.chunk].gen == c.gen
      && 8 * (c.chunk + 1) <= c.base && c.len >= 1
      && c.base + c.len <= 8 * (c.chunk + 1 + use[c.chunk].extent)
      && (c.chunk in waits ==> NotYetSwept(waits[c.chunk], p, i))
  }

  ghost predicate CapsOk(use: map<int, Use>, waits: map<int, nat>, p: Progress, slots: seq<Cap>)
  {
    forall i {:trigger slots[i]} | 0 <= i < |slots| :: CapOk(use, waits, p, i, slots[i])
  }

  /** Epochs that chunks wait for are even. */
  predicate EvenWaits(waits: map<int, nat>) { forall a | a in waits :: waits[a] % 2 == 0 }

  /** A capability to a quarantined chunk does not pass the load barrier. */
  lemma {:induction false} QuarantinedDoesNotLoad(H: Heap, p: Progress, i: int, c: Cap)
    requires Inv(H) && CapOk(H.use, H.waits, p, i, c) && c.Cap? && c.chunk in H.waits
    ensures Load(H.marks, c) == NoCap
  {
    var a, g := c.chunk, c.base / 8;
    assert a in InUse(H.h, H.hi) && UseAt(H, a) && MarksAt(H, a);
    assert a < g < a + 1 + H.use[a].extent;
  }

  /** A capability to a live allocation does. */
  lemma {:induction false} LiveLoads(H: Heap, p: Progress, i: int, c: Cap)
    requires Inv(H) && CapOk(H.use, H.waits, p, i, c) && c.Cap? && Live(H, c.chunk)
    ensures Load(H.marks, c) == c
  {
    var a, g := c.chunk, c.base / 8;
    assert a in InUse(H.h, H.hi) && UseAt(H, a) && MarksAt(H, a);
    assert a < g < a + H.h[a].currSize;
  }

  /** One tick of the revoker keeps every capability in order. */
  lemma {:induction false} TickCaps(H: Heap, p: Progress, slots: seq<Cap>)
    requires Inv(H) && EvenWaits(H.waits) && CapsOk(H.use, H.waits, p, slots)
    requires Running(p) ==> p.offset <= |slots|
    ensures CapsOk(H.use, H.waits, Ticked(p, |slots|), Swept(H.marks, slots, ScanStart(p), ScanEnd(p, |slots|)))
  {
    var p' := Ticked(p, |slots|);
    var slots' := Swept(H.marks, slots, ScanStart(p), ScanEnd(p, |slots|));
    forall i | 0 <= i < |slots'| ensures CapOk(H.use, H.waits, p', i, slots'[i]) {
      assert CapOk(H.use, H.waits, p, i, slots[i]);
      var c := slots[i];
      if c.Cap? && c.chunk in H.waits {
        QuarantinedDoesNotLoad(H, p, i, c);
        assert H.waits[c.chunk] % 2 == 0;
      }
    }
  }

  /** A chunk whose sweep has ended is the target of no capability anywhere in memory. */
  lemma {:induction false} NoCapsLeft(H: Heap, p: Progress, slots: seq<Cap>, a: int, i: int)
    requires CapsOk(H.use, H.waits, p, slots) && a in H.waits && H.waits[a] + 2 <= p.sweeps && 0 <= i < |slots|
    ensures slots[i].Cap? ==> slots[i].chunk != a
  {
    assert CapOk(H.use, H.waits, p, i, slots[i]);
  }

  // ---------- The wrapping epoch ----------

  /** The signed 32-bit distance from epoch previous to epoch current exceeds 1. */
  predicate Finished(current: nat, previous: nat)
  {
    var distance := (current - previous) % WORD;
    1 < distance < WORD / 2
  }

  /** Wrapped epochs never claim a sweep that did not happen.  They miss one that did exactly if the
      true distance, modulo 2^32, falls outside 2 .. 2^31 - 1, which takes 2^31 epochs or more. */
  lemma {:induction false} FinishedIsFinished(sweeps: nat, w: nat)
    requires w <= sweeps + 1
    ensures Finished(sweeps % WORD, w % WORD) ==> w + 2 <= sweeps
    ensures (Finished(sweeps % WORD, w % WORD) <==> w + 2 <= sweeps) <==>
            sweeps < w + 2 || 2 <= (sweeps - w) % WORD < WORD / 2
    ensures sweeps < w + WORD / 2 ==> (Finished(sweeps % WORD, w % WORD) <==> w + 2 <= sweeps)
  {
    var d := sweeps - w;
    assert (sweeps % WORD - w % WORD) % WORD == d % WORD by {
      var a, b := sweeps / WORD, w / WORD;
      assert sweeps == WORD * a + sweeps % WORD && w == WORD * b + w % WORD;
      assert d == WORD * (a - b) + (sweeps % WORD - w % WORD);
      ModShift(sweeps % WORD - w % WORD, a - b);
    }
  }

  lemma {:induction false} ModShift(x: int, k: int)
    ensures (WORD * k + x) % WORD == x % WORD
  {
    var q := x / WORD;
    assert x == WORD * q + x % WORD;
    assert WORD * k + x == WORD * (k + q) + x % WORD;
  }

  lemma {:induction false} NextEpoch(s: nat)
    ensures (s % WORD + 1) % WORD == (s + 1) % WORD
  {
    ModShift(s % WORD + 1, s / WORD);
    assert s + 1 == WORD * (s / WORD) + (s % WORD + 1);
  }

  lemma {:induction false} Parity(s: nat)
    ensures (s + 1) % 2 == 1 - s % 2
  {
  }

  /** Rounding a wrapped epoch up to even, in 32 bits. */
  lemma {:induction false} EvenWrap(s: nat)
    ensures (s % WORD + s % WORD % 2) % WORD == (s + s % 2) % WORD
  {
    var q := s / WORD;
    assert s == WORD * q + s % WORD;
    assert s % WORD % 2 == s % 2;
    ModShift(s % WORD + s % 2, q);
    assert s + s % 2 == WORD * q + (s % WORD + s % 2);
  }

  /** What the 32-bit epoch shows. */
  predicate EpochOf(epoch: nat, sweeps: nat) { epoch == sweeps % WORD }

  lemma {:induction false} EpochParity(epoch: nat, sweeps: nat)
    requires EpochOf(epoch, sweeps)
    ensures epoch % 2 == sweeps % 2
  {
    var q, r := sweeps / WORD, sweeps % WORD;
    assert sweeps == 2 * (SIGN * q) + r;
    ParityShift(SIGN * q, r);
  }

  lemma {:induction false} ParityShift(k: int, r: int)
    ensures (2 * k + r) % 2 == r % 2
  {
  }

  class Revoker {
    var marks: set<int>            // the shadow bitmap
    var epoch: nat                 // as read by the allocator
    var scanning: bool
    var offset: nat
    var slots: seq<Cap>            // all memory that may hold capabilities
    ghost var sweeps: nat          // the epoch without wrapping

    ghost predicate Valid()
      reads this`epoch, this`sweeps, this`scanning, this`offset, this`slots
    {
      && EpochOf(epoch, sweeps) && (scanning <==> sweeps % 2 == 1)
      && (scanning ==> offset <= |slots|) && (!scanning ==> offset == 0)
    }

    ghost function Now(): (p: Progress)
      reads this`sweeps, this`offset
    {
      Progress(sweeps, offset)
    }

    constructor (length: nat)
      ensures Valid() && sweeps == 0 && marks == {} && |slots| == length
      ensures forall i | 0 <= i < length :: slots[i] == NoCap
    {
      marks := {};
      epoch := 0;
      scanning := false;
      offset := 0;
      slots := seq(length, _ => NoCap);
      sweeps := 0;
    }

    /** advance: start or end a sweep. */
    method Advance()
      requires Valid()
      modifies this`epoch, this`scanning, this`offset, this`sweeps
      ensures Valid() && sweeps == old(sweeps) + 1 && offset == 0
    {
      NextEpoch(sweeps);
      Parity(sweeps);
      ghost var s := sweeps;
      scanning := !scanning;
      offset := 0;
      sweeps := s + 1;
      epoch := (epoch + 1) % WORD;
      assert epoch == (s + 1) % WORD;
    }

    /** revoker_tick */
    method Tick()
      requires Valid()
      modifies this`epoch, this`scanning, this`offset, this`sweeps, this`slots
      ensures Valid() && |slots| == old(|slots|)
      ensures Now() == Ticked(old(Now()), |slots|)
      ensures slots == Swept(marks, old(slots), ScanStart(old(Now())), ScanEnd(old(Now()), |slots|))
      ensures forall i | 0 <= i < |slots| :: slots[i] == old(slots)[i] || slots[i] == NoCap
      ensures forall i | 0 <= i < |slots| && Load(marks, old(slots)[i]).Cap? :: slots[i] == old(slots)[i]
    {
      hide EpochOf;
      if !scanning {
        Advance();
      }
      var end := offset + if |slots| - offset < TICK_SIZE then |slots| - offset else TICK_SIZE;
      ghost var before := slots;
      ghost var start := offset;
      var i := offset;
      while i < end
        invariant start <= i <= end <= |slots| && |slots| == |before|
        modifies this`slots
        invariant forall j | 0 <= j < |slots| ::
                    slots[j] == if start <= j < i then Load(marks, before[j]) else before[j]
      {
        slots := slots[i := Load(marks, slots[i])];
        i := i + 1;
      }
      offset := end;
      if offset == |slots| {
        Advance();
      }
    }

    /** has_revocation_finished_for_epoch, for an even epoch: prods a running sweep first. */
    method HasFinished(previous: nat) returns (done: bool)
      requires Valid() && previous < WORD
      modifies this`epoch, this`scanning, this`offset, this`sweeps, this`slots
      ensures Valid()
      ensures Prodded(marks, old(Now()), old(slots), Now(), slots)
      ensures done <==> Finished(epoch, previous)
    {
      hide EpochOf, Finished;
      EpochParity(epoch, sweeps);
      if epoch % 2 == 1 {
        Tick();
      }
      done := Finished(epoch, previous);
    }
  }
}
