/** The quarantine: two pending rings of freed chunks, each labelled with the even epoch its chunks
    wait for, a cursor pair that orders them, and the ring of chunks whose sweep has ended.  Rings are
    given by the sequence of their chunks in list order. */
module Quarantine {
  import opened SizeBits
  import opened Revoker
  import opened Trie

  /** Every waiting chunk is on exactly one ring, once. */
  predicate Placed(rings: seq<seq<int>>, finished: seq<int>, waits: map<int, nat>)
    requires |rings| == 2
  {
    && Distinct(finished) && Distinct(rings[0]) && Distinct(rings[1])
    && (forall a | a in rings[0] :: a !in rings[1] && a !in finished)
    && (forall a | a in rings[1] :: a !in finished)
    && (forall a | a in waits :: a in finished || a in rings[0] || a in rings[1])
  }

  /** A ring waits for a sweep after the latest epoch of its chunks; its label is that epoch in 32 bits. */
  predicate RingOk(ring: seq<int>, epoch: nat, bound: nat, waits: map<int, nat>, sweeps: nat)
  {
    && epoch == bound % WORD && bound % 2 == 0 && bound <= sweeps + 1
    && forall a | a in ring :: a in waits && waits[a] <= bound
  }

  /** The rings hold exactly the waiting chunks, and the finished ring only chunks whose sweep is over. */
  ghost predicate QueueOk(rings: seq<seq<int>>, epochs: seq<nat>, bounds: seq<nat>, finished: seq<int>,
                          waits: map<int, nat>, sweeps: nat)
  {
    && |rings| == |epochs| == |bounds| == 2
    && RingOk(rings[0], epochs[0], bounds[0], waits, sweeps)
    && RingOk(rings[1], epochs[1], bounds[1], waits, sweeps)
    && (forall a | a in finished :: a in waits && waits[a] + 2 <= sweeps)
    && Placed(rings, finished, waits) && EvenWaits(waits)
  }

  // ---------- The laws of the rings ----------

  lemma {:induction false} LaterSweeps(rings: seq<seq<int>>, epochs: seq<nat>, bounds: seq<nat>, finished: seq<int>,
                                       waits: map<int, nat>, sweeps: nat, sweeps': nat)
    requires QueueOk(rings, epochs, bounds, finished, waits, sweeps) && sweeps <= sweeps'
    ensures QueueOk(rings, epochs, bounds, finished, waits, sweeps')
  {
  }

  lemma {:induction false} DistinctAppend(s: seq<int>, r: seq<int>)
    requires Distinct(s) && Distinct(r) && forall a | a in r :: a !in s
    ensures Distinct(s + r)
  {
    forall i: nat, j: nat | i < j < |s + r| ensures (s + r)[i] != (s + r)[j] {
      if i < |s| <= j { assert r[j - |s|] in r && s[i] in s; }
    }
  }

  /** A ring whose sweep has ended moves to the finished ring. */
  lemma {:induction false} MoveRing(rings: seq<seq<int>>, epochs: seq<nat>, bounds: seq<nat>, finished: seq<int>,
                                    waits: map<int, nat>, sweeps: nat, ix: nat)
    requires QueueOk(rings, epochs, bounds, finished, waits, sweeps) && ix < 2 && bounds[ix] + 2 <= sweeps
    ensures QueueOk(rings[ix := []], epochs, bounds, finished + rings[ix], waits, sweeps)
  {
    DistinctAppend(finished, rings[ix]);
  }

  /** A chunk freed now joins the ring of the current epoch. */
  lemma {:induction false} JoinRing(rings: seq<seq<int>>, epochs: seq<nat>, bounds: seq<nat>, finished: seq<int>,
                                    waits: map<int, nat>, sweeps: nat, ix: nat, a: int, w: nat)
    requires QueueOk(rings, epochs, bounds, finished, waits, sweeps) && ix < 2 && a !in waits
    requires w % 2 == 0 && bounds[ix] <= w <= sweeps + 1
    ensures QueueOk(rings[ix := rings[ix] + [a]], epochs[ix := w % WORD], bounds[ix := w], finished, waits[a := w],
                    sweeps)
  {
    DistinctAppend(rings[ix], [a]);
    JoinedRing(rings[ix], epochs[ix], bounds[ix], waits, sweeps, a, w);
    OtherRing(rings[1 - ix], epochs[1 - ix], bounds[1 - ix], waits, sweeps, a, w);
  }

  lemma {:induction false} JoinedRing(ring: seq<int>, epoch: nat, bound: nat, waits: map<int, nat>, sweeps: nat,
                                      a: int, w: nat)
    requires RingOk(ring, epoch, bound, waits, sweeps) && w % 2 == 0 && bound <= w <= sweeps + 1
    ensures RingOk(ring + [a], w % WORD, w, waits[a := w], sweeps)
  {
  }

  lemma {:induction false} OtherRing(ring: seq<int>, epoch: nat, bound: nat, waits: map<int, nat>, sweeps: nat, a: int,
                                     w: nat)
    requires RingOk(ring, epoch, bound, waits, sweeps) && a !in waits
    ensures RingOk(ring, epoch, bound, waits[a := w], sweeps)
  {
  }

  /** The first finished chunk leaves quarantine. */
  lemma {:induction false} TakeFirst(rings: seq<seq<int>>, epochs: seq<nat>, bounds: seq<nat>, finished: seq<int>,
                                     waits: map<int, nat>, sweeps: nat)
    requires QueueOk(rings, epochs, bounds, finished, waits, sweeps) && finished != []
    ensures finished[0] in waits && waits[finished[0]] + 2 <= sweeps
    ensures QueueOk(rings, epochs, bounds, finished[1..], waits - {finished[0]}, sweeps)
  {
    var a, tail := finished[0], finished[1..];
    assert a in finished;
    forall i: nat, j: nat | i < j < |tail| ensures tail[i] != tail[j] {
      assert finished[i + 1] == tail[i] && finished[j + 1] == tail[j];
    }
    forall i: nat | i < |tail| ensures tail[i] != a && tail[i] in finished { assert finished[i + 1] == tail[i]; }
    forall b | b in finished && b != a ensures b in tail {
      var i :| 0 <= i < |finished| && finished[i] == b;
      assert tail[i - 1] == b;
    }
  }

  // ---------- The whole quarantine ----------

  /** The rings, their labels with and without wrapping, the cursors, the finished ring, and whether every
      push so far came less than 2^31 epochs after the oldest label then pending. */
  datatype Queue = Queue(rings: seq<seq<int>>, epochs: seq<nat>, bounds: seq<nat>,
                         head: nat, tail: nat, empty: bool, finished: seq<int>, timely: bool)

  predicate Shaped(q: Queue) { |q.rings| == |q.epochs| == |q.bounds| == 2 && q.head < 2 && q.tail < 2 }

  ghost predicate Good(q: Queue, waits: map<int, nat>, sweeps: nat)
  {
    Shaped(q) && QueueOk(q.rings, q.epochs, q.bounds, q.finished, waits, sweeps)
  }

  /** The pending rings from oldest to youngest, as the cursors give them. */
  function Order(q: Queue): (s: seq<nat>)
  {
    if q.empty then [] else if q.head == q.tail then [q.head] else [q.head, q.tail]
  }

  /** Every ring with chunks is on the cursors, and labels increase from the oldest to the youngest. */
  predicate InOrder(q: Queue)
  {
    && Shaped(q)
    && (forall ix: nat | ix < 2 && ix !in Order(q) :: q.rings[ix] == [])
    && (!q.empty && q.head != q.tail ==> q.bounds[q.head] < q.bounds[q.tail])
    && (q.empty ==> q.head != q.tail)
  }

  /** Fewer than 2^31 epochs have passed since the oldest pending label. */
  predicate Recent(q: Queue, sweeps: nat)
    requires Shaped(q)
  {
    !q.empty ==> sweeps + 1 < q.bounds[q.head] + WORD / 2
  }

  /** The oldest ring moves to the finished ring. */
  function Moved(q: Queue): (q': Queue)
    requires Shaped(q)
  {
    q.(rings := q.rings[q.head := []], finished := q.finished + q.rings[q.head],
       head := 1 - q.head, empty := q.head == q.tail)
  }

  /** Look at the oldest ring when the epoch reads as given. */
  function Checked(q: Queue, epoch: nat): (q': Queue)
    requires Shaped(q)
  {
    if !q.empty && Finished(epoch, q.epochs[q.head]) then Moved(q) else q
  }

  /** The ring that tail_next and tail_advance give for a new label. */
  function Opened(q: Queue): (ix: nat)
    requires Shaped(q)
    ensures ix < 2
  {
    if q.empty || q.head != 1 - q.tail then 1 - q.tail else q.tail
  }

  /** Chunk a joins ring ix, which now waits for epoch w. */
  function Joined(q: Queue, ix: nat, a: int, w: nat): (q': Queue)
    requires Shaped(q) && ix < 2
  {
    q.(rings := q.rings[ix := q.rings[ix] + [a]], epochs := q.epochs[ix := w % WORD], bounds := q.bounds[ix := w])
  }

  /** Chunk a opens a ring with a new label. */
  function PushedNew(q: Queue, a: int, w: nat): (q': Queue)
    requires Shaped(q)
  {
    Joined(q, Opened(q), a, w).(tail := 1 - q.tail, empty := false)
  }

  /** The chunks of a ring wait for exactly its label. */
  predicate Exact(ring: seq<int>, bound: nat, waits: map<int, nat>)
  {
    forall a | a in ring && a in waits :: waits[a] == bound
  }

  /** The rings are in order, none on the cursors is empty, and labels are exact. */
  predicate Tidy(q: Queue, waits: map<int, nat>)
  {
    && InOrder(q) && (q.empty || (q.rings[q.head] != [] && q.rings[q.tail] != []))
    && Exact(q.rings[0], q.bounds[0], waits) && Exact(q.rings[1], q.bounds[1], waits)
  }

  lemma {:induction false} FinishedTidy(q: Queue, waits: map<int, nat>, finished: seq<int>, a: int)
    ensures Tidy(q, waits) ==> Tidy(q.(finished := finished), waits - {a})
  {
  }

  lemma {:induction false} CheckedTidy(q: Queue, waits: map<int, nat>, epoch: nat)
    requires Tidy(q, waits)
    ensures Tidy(Checked(q, epoch), waits)
    ensures var q' := Checked(q, epoch); q'.finished == [] ==> q'.empty || !Finished(epoch, q'.epochs[q'.head])
  {
  }

  lemma {:induction false} GoodLater(q: Queue, waits: map<int, nat>, seen: nat, sweeps: nat)
    requires Good(q, waits, seen) && seen <= sweeps
    ensures Good(q, waits, sweeps)
  {
    LaterSweeps(q.rings, q.epochs, q.bounds, q.finished, waits, seen, sweeps);
  }

  lemma {:induction false} CheckedGood(q: Queue, waits: map<int, nat>, seen: nat, sweeps: nat)
    requires Good(q, waits, seen) && seen <= sweeps
    ensures Good(Checked(q, sweeps % WORD), waits, sweeps)
  {
    GoodLater(q, waits, seen, sweeps);
    if !q.empty && Finished(sweeps % WORD, q.epochs[q.head]) {
      FinishedIsFinished(sweeps, q.bounds[q.head]);
      MoveRing(q.rings, q.epochs, q.bounds, q.finished, waits, sweeps, q.head);
    }
  }

  lemma {:induction false} JoinedGood(q: Queue, waits: map<int, nat>, sweeps: nat, ix: nat, a: int, w: nat)
    requires Good(q, waits, sweeps) && ix < 2 && a !in waits && w % 2 == 0 && q.bounds[ix] <= w <= sweeps + 1
    ensures Good(Joined(q, ix, a, w), waits[a := w], sweeps)
  {
    JoinRing(q.rings, q.epochs, q.bounds, q.finished, waits, sweeps, ix, a, w);
  }

  lemma {:induction false} Labels(q: Queue, waits: map<int, nat>, sweeps: nat, ix: nat)
    requires Good(q, waits, sweeps) && ix < 2
    ensures q.epochs[ix] == q.bounds[ix] % WORD && q.bounds[ix] % 2 == 0 && q.bounds[ix] <= sweeps + 1
  {
  }

  /** No label is later than that of the current epoch. */
  lemma {:induction false} LabelBound(q: Queue, waits: map<int, nat>, sweeps: nat, ix: nat)
    requires Good(q, waits, sweeps) && ix < 2
    ensures q.bounds[ix] <= sweeps + sweeps % 2 && (sweeps + sweeps % 2) % 2 == 0 && sweeps + sweeps % 2 <= sweeps + 1
  {
    Labels(q, waits, sweeps, ix);
  }

  /** An even label other than that of the current epoch is a sweep earlier. */
  lemma {:induction false} EarlierLabel(bound: nat, seen: nat)
    requires bound % 2 == 0 && bound <= seen + 1 && bound != seen + seen % 2
    ensures bound + 2 <= seen + seen % 2
  {
  }

  /** The wrapping test sees that a sweep of two epochs or more ago is over. */
  predicate InWindow(sweeps: nat, bound: nat) { 2 <= (sweeps - bound) % WORD < WORD / 2 }

  /** With pending labels in order, a label the youngest ring does not have is later than all of them,
      and the sweep of the oldest of two rings is over.  The test reads it as over exactly if its distance,
      modulo 2^32, is in the window. */
  lemma {:induction false} OldestFinished(q: Queue, waits: map<int, nat>, seen: nat, sweeps: nat)
    requires Good(q, waits, seen) && InOrder(q) && !q.empty && seen <= sweeps <= seen + seen % 2
    requires q.epochs[q.tail] != (seen + seen % 2) % WORD
    ensures q.bounds[q.head] <= q.bounds[q.tail] < seen + seen % 2
    ensures q.head != q.tail ==> q.bounds[q.head] + 2 <= sweeps
    ensures q.head != q.tail ==> (Finished(sweeps % WORD, q.epochs[q.head]) <==> InWindow(sweeps, q.bounds[q.head]))
    ensures q.head != q.tail && Recent(q, seen) ==> InWindow(sweeps, q.bounds[q.head])
  {
    Labels(q, waits, seen, q.head);
    Labels(q, waits, seen, q.tail);
    EarlierLabel(q.bounds[q.tail], seen);
    if q.head != q.tail {
      EarlierLabel(q.bounds[q.head], q.bounds[q.tail]);
      FinishedIsFinished(sweeps, q.bounds[q.head]);
    }
  }

  /** There is an empty ring for a new label. */
  predicate HasRoom(q: Queue)
    requires Shaped(q)
  {
    Opened(q) == 1 - q.tail
  }

  /** Two rings suffice for a new label exactly if fewer than two are pending or the sweep of the oldest
      reads as over, which it does while fewer than 2^31 epochs have passed since its label.  Then the
      ring opened is empty and the pending labels stay in increasing order. */
  lemma {:induction false} TwoRingsSuffice(q: Queue, waits: map<int, nat>, seen: nat, sweeps: nat, a: int)
    requires Good(q, waits, seen) && InOrder(q) && seen <= sweeps <= seen + seen % 2
    requires q.empty || q.epochs[q.tail] != (seen + seen % 2) % WORD
    ensures HasRoom(Checked(q, sweeps % WORD)) <==> q.empty || q.head == q.tail || InWindow(sweeps, q.bounds[q.head])
    ensures Recent(q, seen) ==> HasRoom(Checked(q, sweeps % WORD))
    ensures var q' := Checked(q, sweeps % WORD);
            HasRoom(q') ==> q'.rings[Opened(q')] == [] && InOrder(PushedNew(q', a, seen + seen % 2))
  {
    hide InWindow, Finished;
    if !q.empty { OldestFinished(q, waits, seen, sweeps); }
  }

  /** 2^31 epochs after a label that nobody looked at since, two pending rings leave no room for a third. */
  lemma {:induction false} NoRoom()
    ensures var q, waits := Queue([[2], [4]], [0, 2], [0, 2], 0, 1, false, [], true), map[2 := 0, 4 := 2];
            var sweeps := WORD / 2 + 2;
            && Kept(q, waits, sweeps) && q.timely && q.epochs[q.tail] != (sweeps + sweeps % 2) % WORD
            && !HasRoom(Checked(q, sweeps % WORD))
  {
  }

  /** quarantine_pending_push of chunk a for epoch w, when the revoker has come to sweeps. */
  function Pushed(q: Queue, a: int, w: nat, sweeps: nat): (q': Queue)
    requires Shaped(q)
  {
    var q' := if !q.empty && q.epochs[q.tail] == w % WORD then Joined(q, q.tail, a, w)
              else PushedNew(Checked(q, sweeps % WORD), a, w);
    q'.(timely := q.timely && OnTime(q, w, sweeps))
  }

  /** A push for label w finds room, or the youngest ring has just this label, also without wrapping. */
  predicate OnTime(q: Queue, w: nat, sweeps: nat)
    requires Shaped(q)
  {
    if q.empty then true
    else if q.epochs[q.tail] == w % WORD then q.bounds[q.tail] == w
    else q.head == q.tail || InWindow(sweeps, q.bounds[q.head])
  }

  lemma {:induction false} PushedNewGood(q: Queue, waits: map<int, nat>, sweeps: nat, a: int, w: nat)
    requires Good(q, waits, sweeps) && a !in waits && w % 2 == 0 && w <= sweeps + 1
    requires (forall ix: nat | ix < 2 :: q.bounds[ix] <= w)
    ensures Good(PushedNew(q, a, w), waits[a := w], sweeps)
  {
    JoinedGood(q, waits, sweeps, Opened(q), a, w);
  }

  /** A chunk freed now is in quarantine, and stays in order with the rest if fewer than 2^31 epochs have
      passed since the oldest pending label. */
  lemma {:induction false} PushedGood(q: Queue, waits: map<int, nat>, seen: nat, sweeps: nat, a: int)
    requires Good(q, waits, seen) && a !in waits && seen <= sweeps <= seen + seen % 2
    ensures var w := seen + seen % 2; Good(Pushed(q, a, w, sweeps), waits[a := w], sweeps)
  {
    var w := seen + seen % 2;
    LabelBound(q, waits, seen, 0);
    LabelBound(q, waits, seen, 1);
    if !q.empty && q.epochs[q.tail] == w % WORD {
      PushedSame(q, waits, seen, sweeps, a, w);
    } else {
      PushedOther(q, waits, seen, sweeps, a, w);
    }
  }

  lemma {:induction false} PushedSame(q: Queue, waits: map<int, nat>, seen: nat, sweeps: nat, a: int, w: nat)
    requires Good(q, waits, seen) && a !in waits && seen <= sweeps && w % 2 == 0 && q.bounds[q.tail] <= w <= sweeps + 1
    ensures Good(Joined(q, q.tail, a, w), waits[a := w], sweeps)
  {
    GoodLater(q, waits, seen, sweeps);
    JoinedGood(q, waits, sweeps, q.tail, a, w);
  }

  lemma {:induction false} PushedOther(q: Queue, waits: map<int, nat>, seen: nat, sweeps: nat, a: int, w: nat)
    requires Good(q, waits, seen) && a !in waits && seen <= sweeps && w % 2 == 0 && q.bounds[0] <= w
    requires q.bounds[1] <= w <= sweeps + 1
    ensures Good(PushedNew(Checked(q, sweeps % WORD), a, w), waits[a := w], sweeps)
  {
    CheckedGood(q, waits, seen, sweeps);
    PushedNewGood(Checked(q, sweeps % WORD), waits, sweeps, a, w);
  }

  /** Equal labels in 32 bits are equal labels while they are less than 2^32 apart. */
  lemma {:induction false} SameLabel(bound: nat, w: nat)
    requires bound <= w < bound + WORD && bound % WORD == w % WORD
    ensures bound == w
  {
    var p, q := bound / WORD, w / WORD;
    assert bound == WORD * p + bound % WORD && w == WORD * q + w % WORD;
  }

  lemma {:induction false} JoinedTidy(q: Queue, waits: map<int, nat>, a: int, w: nat)
    requires Tidy(q, waits) && !q.empty && q.bounds[q.tail] == w && a !in q.rings[0] && a !in q.rings[1]
    ensures Tidy(Joined(q, q.tail, a, w), waits[a := w])
  {
  }

  /** A ring that takes a chunk for another label than its own is no longer labelled exactly. */
  lemma {:induction false} JoinedUntidy(q: Queue, waits: map<int, nat>, sweeps: nat, a: int, w: nat)
    requires Good(q, waits, sweeps) && Tidy(q, waits) && !q.empty && q.bounds[q.tail] != w && a !in waits
    ensures !Tidy(Joined(q, q.tail, a, w), waits[a := w])
  {
    var q', c := Joined(q, q.tail, a, w), q.rings[q.tail][0];
    assert c in q.rings[q.tail] && c in waits && waits[c] == q.bounds[q.tail];
    assert c in q'.rings[q.tail] && waits[a := w][c] != q'.bounds[q.tail];
  }

  lemma {:induction false} OpenedTidy(q: Queue, waits: map<int, nat>, a: int, w: nat)
    requires Tidy(q, waits) && q.rings[Opened(q)] == [] && InOrder(PushedNew(q, a, w)) && a !in q.rings[0]
    requires a !in q.rings[1]
    requires Opened(q) == 1 - q.tail
    ensures Tidy(PushedNew(q, a, w), waits[a := w])
  {
  }

  /** Without room, the youngest ring falls off the cursors. */
  lemma {:induction false} OpenedUntidy(q: Queue, waits: map<int, nat>, a: int, w: nat)
    requires Shaped(q) && !HasRoom(q)
    ensures !Tidy(PushedNew(q, a, w), waits[a := w])
  {
    var q' := PushedNew(q, a, w);
    assert q.tail !in Order(q') && q'.rings[q.tail] != [];
  }

  /** A chunk freed now leaves the rings tidy exactly if the push is on time, as it is while fewer than
      2^31 epochs have passed since the oldest pending label. */
  lemma {:induction false} PushedTidy(q: Queue, waits: map<int, nat>, seen: nat, sweeps: nat, a: int)
    requires Good(q, waits, seen) && Tidy(q, waits) && seen <= sweeps <= seen + seen % 2 && a !in waits
    ensures var w := seen + seen % 2;
            && (Tidy(Pushed(q, a, w, sweeps), waits[a := w]) <==> OnTime(q, w, sweeps))
            && (Recent(q, seen) ==> OnTime(q, w, sweeps))
  {
    if !q.empty && q.epochs[q.tail] == (seen + seen % 2) % WORD {
      PushedSameTidy(q, waits, seen, sweeps, a);
    } else {
      PushedNewTidy(q, waits, seen, sweeps, a);
    }
  }

  lemma {:induction false} PushedSameTidy(q: Queue, waits: map<int, nat>, seen: nat, sweeps: nat, a: int)
    requires Good(q, waits, seen) && Tidy(q, waits) && seen <= sweeps <= seen + seen % 2 && a !in waits
    requires !q.empty && q.epochs[q.tail] == (seen + seen % 2) % WORD
    ensures var w := seen + seen % 2;
            && (Tidy(Joined(q, q.tail, a, w), waits[a := w]) <==> q.bounds[q.tail] == w)
            && (Recent(q, seen) ==> q.bounds[q.tail] == w)
  {
    hide Good, Exact, Joined;
    var w := seen + seen % 2;
    PushedPlaces(q, waits, seen, a);
    Labels(q, waits, seen, q.tail);
    LabelBound(q, waits, seen, q.tail);
    if q.bounds[q.tail] == w { JoinedTidy(q, waits, a, w); } else { JoinedUntidy(q, waits, seen, a, w); }
    if Recent(q, seen) { SameLabel(q.bounds[q.tail], w); }
  }

  lemma {:induction false} PushedNewTidy(q: Queue, waits: map<int, nat>, seen: nat, sweeps: nat, a: int)
    requires Good(q, waits, seen) && Tidy(q, waits) && seen <= sweeps <= seen + seen % 2 && a !in waits
    requires q.empty || q.epochs[q.tail] != (seen + seen % 2) % WORD
    ensures var w, q' := seen + seen % 2, Checked(q, sweeps % WORD);
            && (Tidy(PushedNew(q', a, w), waits[a := w]) <==> HasRoom(q'))
            && (HasRoom(q') <==> q.empty || q.head == q.tail || InWindow(sweeps, q.bounds[q.head]))
            && (Recent(q, seen) ==> HasRoom(q'))
  {
    hide Good, Exact, InWindow, Finished, PushedNew;
    var w, q' := seen + seen % 2, Checked(q, sweeps % WORD);
    PushedPlaces(q, waits, seen, a);
    TwoRingsSuffice(q, waits, seen, sweeps, a);
    CheckedTidy(q, waits, sweeps % WORD);
    if HasRoom(q') { OpenedTidy(q', waits, a, w); } else { OpenedUntidy(q', waits, a, w); }
  }

  lemma {:induction false} PushedPlaces(q: Queue, waits: map<int, nat>, sweeps: nat, a: int)
    requires Good(q, waits, sweeps) && a !in waits
    ensures a !in q.rings[0] && a !in q.rings[1]
  {
  }

  /** The same, for rings of any shape. */
  predicate NotTooLate(q: Queue, sweeps: nat) { Shaped(q) && Recent(q, sweeps) }

  /** No pending ring's sweep is over. */
  predicate Unfinished(q: Queue, sweeps: nat)
  {
    Shaped(q) && (q.empty || !Finished(sweeps % WORD, q.epochs[q.head]))
  }

  // ---------- Draining ----------

  /** The labels pending, from the oldest to the youngest. */
  function PendingLabels(q: Queue): (s: seq<nat>)
    requires Shaped(q)
  {
    if q.empty then [] else if q.head == q.tail then [q.bounds[q.head]] else [q.bounds[q.head], q.bounds[q.tail]]
  }

  /** A label reads as over now, or when the sweep that is running, if any, has ended. */
  predicate SeenOver(sweeps: nat, bound: nat) { InWindow(sweeps, bound) || InWindow(sweeps + sweeps % 2, bound) }

  /** From q to q' the oldest labels have gone, each of which read as over at one of these times. */
  predicate Drained(q: Queue, q': Queue, sweeps: nat)
  {
    && Shaped(q) && Shaped(q')
    && var s, s' := PendingLabels(q), PendingLabels(q');
       && |s'| <= |s| && s' == s[|s| - |s'|..]
       && forall i: nat | i < |s| - |s'| :: SeenOver(sweeps, s[i])
  }

  lemma {:induction false} DrainedSame(q: Queue, finished: seq<int>, sweeps: nat)
    requires Shaped(q)
    ensures Drained(q, q.(finished := finished), sweeps)
  {
  }

  lemma {:induction false} DrainedTrans(q: Queue, q': Queue, q'': Queue, sweeps: nat, later: nat)
    requires Drained(q, q', sweeps) && Drained(q', q'', later) && sweeps <= later <= sweeps + sweeps % 2
    ensures Drained(q, q'', sweeps)
  {
    hide InWindow, PendingLabels;
    var s, s', s'' := PendingLabels(q), PendingLabels(q'), PendingLabels(q'');
    forall i: nat | i < |s| - |s''| ensures SeenOver(sweeps, s[i]) {
      assert i >= |s| - |s'| ==> s[i] == s'[i - (|s| - |s'|)];
    }
  }

  /** A look at the oldest ring, when the running sweep, if any, may have ended. */
  lemma {:induction false} DrainedChecked(q: Queue, waits: map<int, nat>, seen: nat, sweeps: nat)
    requires Good(q, waits, seen) && seen <= sweeps <= seen + seen % 2
    ensures Drained(q, Checked(q, sweeps % WORD), seen)
  {
    hide Finished, InWindow;
    if !q.empty {
      Labels(q, waits, seen, q.head);
      WindowIs(sweeps, q.bounds[q.head]);
    }
  }

  lemma {:induction false} WindowIs(sweeps: nat, bound: nat)
    requires bound <= sweeps + 1
    ensures Finished(sweeps % WORD, bound % WORD) ==> InWindow(sweeps, bound)
    ensures bound + 2 <= sweeps && InWindow(sweeps, bound) ==> Finished(sweeps % WORD, bound % WORD)
  {
    FinishedIsFinished(sweeps, bound);
  }

  /** Every pending label up to w reads as over, now and when the running sweep, if any, has ended. */
  predicate AllOver(q: Queue, w: nat, sweeps: nat)
  {
    Shaped(q) && forall b | b in PendingLabels(q) && b <= w :: InWindow(sweeps, b) && InWindow(sweeps + sweeps % 2, b)
  }

  /** Some pending label up to w reads as over neither now nor when the running sweep, if any, has ended. */
  predicate SomeStuck(q: Queue, w: nat, sweeps: nat)
  {
    Shaped(q) && exists b :: b in PendingLabels(q) && b <= w && !SeenOver(sweeps, b)
  }

  /** Nothing freed up to label w is in quarantine. */
  predicate AllLeft(waits: map<int, nat>, w: nat) { forall a | a in waits :: waits[a] > w }

  /** What a drained quarantine still holds: nothing up to a label exactly if the oldest pending one is later. */
  lemma {:induction false} LeftWhen(q: Queue, waits: map<int, nat>, sweeps: nat, w: nat)
    requires Kept(q, waits, sweeps) && q.timely && q.finished == []
    ensures AllLeft(waits, w) <==> q.empty || w < q.bounds[q.head]
  {
    if !q.empty {
      var a := q.rings[q.head][0];
      assert a in q.rings[q.head] && a in waits && waits[a] == q.bounds[q.head];
    }
    if q.empty || w < q.bounds[q.head] {
      forall a | a in waits ensures waits[a] > w { assert a in q.finished || a in q.rings[0] || a in q.rings[1]; }
    }
  }

  /** A flush: from q, when the wait for label w is over, to q', drained until nothing more reads as over.  If
      no sweep is running, all that was freed up to w has left exactly if every label up to w that was pending
      when the wait ended was in the window of the wrapping test, as they all are while fewer than 2^31 epochs
      have passed since the oldest.  If a sweep is running, some look may come before and some after its end. */
  lemma {:induction false} Flushed(q: Queue, waits: map<int, nat>, sweeps: nat, q': Queue, waits': map<int, nat>,
                                   later: nat, w: nat)
    requires Kept(q, waits, sweeps) && q.timely && Drained(q, q', sweeps) && sweeps <= later <= sweeps + sweeps % 2
    requires Kept(q', waits', later) && q'.timely && q'.finished == [] && Unfinished(q', later)
    requires w + 2 <= sweeps
    ensures AllOver(q, w, sweeps) ==> AllLeft(waits', w)
    ensures SomeStuck(q, w, sweeps) ==> !AllLeft(waits', w)
    ensures sweeps % 2 == 0 ==> (AllLeft(waits', w) <==> AllOver(q, w, sweeps))
    ensures NotTooLate(q, sweeps) ==> AllOver(q, w, sweeps)
  {
    LeftWhen(q', waits', later, w);
    hide Kept, Drained, Unfinished, InWindow, Recent;
    if AllOver(q, w, sweeps) { FlushedOver(q, waits, sweeps, q', waits', later, w); }
    if SomeStuck(q, w, sweeps) { FlushedStuck(q, waits, sweeps, q', w); }
    if NotTooLate(q, sweeps) { RecentOver(q, waits, sweeps, w); }
    if sweeps % 2 == 0 { OverOrStuck(q, waits, w, sweeps); }
  }

  lemma {:induction false} OverOrStuck(q: Queue, waits: map<int, nat>, w: nat, sweeps: nat)
    requires Kept(q, waits, sweeps) && sweeps % 2 == 0
    ensures AllOver(q, w, sweeps) <==> !SomeStuck(q, w, sweeps)
  {
    hide QueueOk, Tidy, InWindow, PendingLabels;
    if !AllOver(q, w, sweeps) {
      var b :| b in PendingLabels(q) && b <= w && !(InWindow(sweeps, b) && InWindow(sweeps + sweeps % 2, b));
      assert !SeenOver(sweeps, b);
    }
  }

  lemma {:induction false} FlushedOver(q: Queue, waits: map<int, nat>, sweeps: nat, q': Queue, waits': map<int, nat>,
                                       later: nat, w: nat)
    requires Kept(q, waits, sweeps) && Drained(q, q', sweeps) && sweeps <= later <= sweeps + sweeps % 2
    requires AllOver(q, w, sweeps)
    requires Kept(q', waits', later) && Unfinished(q', later) && w + 2 <= sweeps
    ensures q'.empty || w < q'.bounds[q'.head]
  {
    hide InWindow, Finished, SeenOver, QueueOk, Tidy;
    if !q'.empty && q'.bounds[q'.head] <= w {
      var b := q'.bounds[q'.head];
      assert b == PendingLabels(q')[0] && b in PendingLabels(q);
      Labels(q', waits', later, q'.head);
      WindowIs(later, b);
    }
  }

  lemma {:induction false} LabelsRise(q: Queue, waits: map<int, nat>, sweeps: nat, i: nat, j: nat)
    requires Kept(q, waits, sweeps) && q.timely && i <= j < |PendingLabels(q)|
    ensures PendingLabels(q)[i] <= PendingLabels(q)[j]
  {
    hide QueueOk, Exact;
  }

  lemma {:induction false} FlushedStuck(q: Queue, waits: map<int, nat>, sweeps: nat, q': Queue, w: nat)
    requires Kept(q, waits, sweeps) && q.timely && Drained(q, q', sweeps) && SomeStuck(q, w, sweeps)
    ensures Shaped(q') && !q'.empty && q'.bounds[q'.head] <= w
  {
    hide Kept, Shaped, SeenOver, PendingLabels;
    FirstLabel(q');
    var s, s' := PendingLabels(q), PendingLabels(q');
    var b :| b in s && b <= w && !SeenOver(sweeps, b);
    var i: nat :| i < |s| && s[i] == b;
    StuckStays(s, |s| - |s'|, sweeps, i);
    LabelsRise(q, waits, sweeps, |s| - |s'|, i);
    assert s'[0] == s[|s| - |s'|];
  }

  lemma {:induction false} StuckStays(s: seq<nat>, n: nat, sweeps: nat, i: nat)
    requires n <= |s| && (forall j: nat | j < n :: SeenOver(sweeps, s[j])) && i < |s| && !SeenOver(sweeps, s[i])
    ensures n <= i
  {
    hide SeenOver;
  }

  lemma {:induction false} FirstLabel(q: Queue)
    requires Shaped(q)
    ensures q.empty <==> PendingLabels(q) == []
    ensures !q.empty ==> PendingLabels(q)[0] == q.bounds[q.head]
  {
  }

  lemma {:induction false} RecentOver(q: Queue, waits: map<int, nat>, sweeps: nat, w: nat)
    requires Kept(q, waits, sweeps) && q.timely && NotTooLate(q, sweeps) && w + 2 <= sweeps
    ensures AllOver(q, w, sweeps)
  {
    hide QueueOk, Exact, InWindow;
    forall b | b in PendingLabels(q) && b <= w ensures InWindow(sweeps, b) && InWindow(sweeps + sweeps % 2, b) {
      RecentWindow(sweeps, b);
    }
  }

  lemma {:induction false} RecentWindow(sweeps: nat, b: nat)
    requires b + 2 <= sweeps && sweeps + 1 < b + WORD / 2
    ensures InWindow(sweeps, b) && InWindow(sweeps + sweeps % 2, b)
  {
  }

  /** What a flush for label w that began with q, and whose wait ended in an epoch, comes to. */
  ghost predicate FlushOutcome(q: Queue, ended: nat, waits: map<int, nat>, w: nat)
  {
    && (AllOver(q, w, ended) ==> AllLeft(waits, w)) && (SomeStuck(q, w, ended) ==> !AllLeft(waits, w))
    && (ended % 2 == 0 ==> (AllLeft(waits, w) <==> AllOver(q, w, ended)))
    && (NotTooLate(q, ended) ==> AllLeft(waits, w))
  }

  lemma {:induction false} FoldOutcome(q: Queue, ended: nat, waits: map<int, nat>, w: nat)
    requires (AllOver(q, w, ended) ==> AllLeft(waits, w)) && (SomeStuck(q, w, ended) ==> !AllLeft(waits, w))
    requires ended % 2 == 0 ==> (AllLeft(waits, w) <==> AllOver(q, w, ended))
    requires NotTooLate(q, ended) ==> AllOver(q, w, ended)
    ensures FlushOutcome(q, ended, waits, w)
  {
  }

  /** A flush that waits for label 4 leaves a chunk of label 0 behind, 2^31 + 2 epochs after that label. */
  lemma {:induction false} FlushTooLate()
    ensures var q, waits := Queue([[2], []], [0, 0], [0, 0], 0, 0, false, [], true), map[2 := 0];
            var sweeps := WORD / 2 + 2;
            && Kept(q, waits, sweeps) && q.timely && q.finished == [] && Finished(sweeps % WORD, 4)
            && Checked(q, sweeps % WORD) == q && Unfinished(q, sweeps) && SomeStuck(q, 4, sweeps) && !AllLeft(waits, 4)
  {
    var q, b, sweeps := Queue([[2], []], [0, 0], [0, 0], 0, 0, false, [], true), 0, WORD / 2 + 2;
    assert PendingLabels(q) == [b] && b in PendingLabels(q) && !SeenOver(sweeps, b);
    assert SomeStuck(q, 4, sweeps);
    assert 2 in map[2 := b] && !AllLeft(map[2 := b], 4);
  }

  // ---------- How far from too late ----------

  /** How many epochs the oldest pending label is from being too old. */
  function Slack(q: Queue, sweeps: nat): (n: int)
  {
    if !Shaped(q) || q.empty then WORD / 2 else q.bounds[q.head] + WORD / 2 - sweeps
  }

  /** An operation takes up at most d epochs of slack: with more than that, pushes stay timely. */
  predicate Paced(q: Queue, sweeps: nat, q': Queue, later: nat, d: nat)
  {
    && sweeps <= later && (q'.timely ==> q.timely) && (q.timely && Slack(q, sweeps) > d ==> q'.timely)
    && (q'.timely ==> Slack(q', later) + d >= Slack(q, sweeps))
  }

  lemma {:induction false} PacedSame(q: Queue, sweeps: nat, d: nat)
    ensures Paced(q, sweeps, q, sweeps, d)
  {
  }

  lemma {:induction false} PacedTrans(q: Queue, s: nat, q': Queue, s': nat, q'': Queue, s'': nat, d: nat, e: nat)
    requires Paced(q, s, q', s', d) && Paced(q', s', q'', s'', e)
    ensures Paced(q, s, q'', s'', d + e)
  {
  }

  lemma {:induction false} PacedMore(q: Queue, sweeps: nat, q': Queue, later: nat, d: nat, e: nat)
    requires Paced(q, sweeps, q', later, d) && d <= e
    ensures Paced(q, sweeps, q', later, e)
  {
  }

  lemma {:induction false} PacedEpoch(q: Queue, sweeps: nat, later: nat)
    requires sweeps <= later <= sweeps + 1
    ensures Paced(q, sweeps, q, later, 1)
  {
  }

  lemma {:induction false} PacedTick(q: Queue, sweeps: nat, later: nat)
    requires sweeps <= later <= sweeps + 2
    ensures Paced(q, sweeps, q, later, 2)
  {
  }

  lemma {:induction false} PacedDrained(q: Queue, waits: map<int, nat>, sweeps: nat, q': Queue, later: nat)
    requires Kept(q, waits, sweeps) && Drained(q, q', sweeps) && sweeps <= later <= sweeps + sweeps % 2
    requires q'.timely == q.timely
    ensures Paced(q, sweeps, q', later, 1)
  {
    hide SeenOver;
    if !q.empty { Labels(q, waits, sweeps, q.head); }
    if q.timely && !q'.empty { assert PendingLabels(q')[0] in PendingLabels(q); }
  }

  /** There is slack exactly if it is not too late. */
  lemma {:induction false} SlackIs(q: Queue, sweeps: nat)
    requires Shaped(q)
    ensures NotTooLate(q, sweeps) <==> Slack(q, sweeps) > 1
  {
  }

  // ---------- The epoch that a failed allocation waits for ----------

  /** Among the chunks whose sweep is not known to be over, one with this label has waited longest. */
  ghost predicate IsEldest(q: Queue, waits: map<int, nat>, epoch: nat)
  {
    exists a :: a in waits && a !in q.finished && waits[a] % WORD == epoch && OldestOf(q, waits, a)
  }

  predicate OldestOf(q: Queue, waits: map<int, nat>, a: int)
    requires a in waits
  {
    forall b | b in waits && b !in q.finished :: waits[a] <= waits[b]
  }

  /** The label at the head cursor. */
  function HeadLabel(q: Queue): (epoch: nat) { if Shaped(q) then q.epochs[q.head] else 0 }

  /** The label at the head cursor is that of the eldest exactly if some ring is pending, and none is
      exactly if every chunk in quarantine is on the finished ring. */
  lemma {:induction false} EldestWhen(q: Queue, waits: map<int, nat>, sweeps: nat)
    requires Kept(q, waits, sweeps) && q.timely
    ensures q.empty <==> forall a | a in waits :: a in q.finished
    ensures IsEldest(q, waits, HeadLabel(q)) <==> !q.empty
  {
    if q.empty {
      assert q.rings[0] == [] && q.rings[1] == [];
    } else {
      var a := q.rings[q.head][0];
      assert a in q.rings[q.head] && a in waits && waits[a] == q.bounds[q.head] && a !in q.finished;
      Labels(q, waits, sweeps, q.head);
      forall b | b in waits && b !in q.finished ensures waits[a] <= waits[b] {
        assert b in q.rings[0] || b in q.rings[1];
      }
      assert OldestOf(q, waits, a);
    }
  }

  /** A new quarantine, with chunks on its first ring or not yet. */
  function Start(ring: seq<int>): (q: Queue)
  {
    if ring == [] then Queue([[], []], [0, 0], [0, 0], 1, 0, true, [], true)
    else Queue([[], ring], [0, 0], [0, 0], 1, 1, false, [], true)
  }

  lemma {:induction false} StartPushed(ring: seq<int>, a: int)
    ensures Pushed(Start(ring), a, 0, 0) == Start(ring + [a])
  {
    assert Pushed(Start(ring), a, 0, 0).rings == [[], ring + [a]];
  }

  /** Five chunks freed in epoch 0 of a new quarantine, a look in epoch 2, and four of them dequeued. */
  function OneLeft(): (q: Queue)
  {
    var q := Pushed(Pushed(Pushed(Pushed(Pushed(Start([]), 2, 0, 0), 6, 0, 0), 10, 0, 0), 14, 0, 0), 18, 0, 0);
    var q' := Checked(q, 2);
    q'.(finished := if |q'.finished| >= 4 then q'.finished[4..] else [])
  }

  /** Then a chunk is in quarantine, none is pending, and the label at the head cursor is nobody's. */
  lemma {:induction false} NoEldest()
    ensures var q, waits := OneLeft(), map[18 := 0];
            && q.finished == [18] && q.empty && q.timely && Kept(q, waits, 2) && !IsEldest(q, waits, HeadLabel(q))
  {
    FiveFreed();
    EldestWhen(OneLeft(), map[18 := 0], 2);
  }

  lemma {:induction false} FiveFreed()
    ensures OneLeft() == Queue([[], []], [0, 0], [0, 0], 0, 1, true, [18], true)
  {
    hide Pushed;
    StartPushed([], 2);
    StartPushed([2], 6);
    StartPushed([2, 6], 10);
    StartPushed([2, 6, 10], 14);
    StartPushed([2, 6, 10, 14], 18);
    assert [2] + [6] == [2, 6] && [2, 6] + [10] == [2, 6, 10];
    assert [2, 6, 10] + [14] == [2, 6, 10, 14] && [2, 6, 10, 14] + [18] == [2, 6, 10, 14, 18];
    assert [] + [2] == [2];
    var q := Start([2, 6, 10, 14, 18]);
    assert Checked(q, 2).rings == [[], []] && Checked(q, 2).finished == [2, 6, 10, 14, 18];
  }

  // ---------- What every step keeps ----------

  /** The quarantine holds what it should, and is tidy unless a push came too late. */
  ghost predicate Kept(q: Queue, waits: map<int, nat>, sweeps: nat)
  {
    Good(q, waits, sweeps) && (q.timely ==> Tidy(q, waits))
  }

  lemma {:induction false} KeptLater(q: Queue, waits: map<int, nat>, seen: nat, sweeps: nat)
    requires Kept(q, waits, seen) && seen <= sweeps
    ensures Kept(q, waits, sweeps)
  {
    GoodLater(q, waits, seen, sweeps);
  }

  /** No chunk waits for a later sweep than one freed now. */
  lemma {:induction false} KeptLabels(q: Queue, waits: map<int, nat>, sweeps: nat)
    requires Kept(q, waits, sweeps)
    ensures forall a | a in waits :: waits[a] <= sweeps + sweeps % 2
  {
    forall a | a in waits ensures waits[a] <= sweeps + sweeps % 2 {
      assert a in q.finished || a in q.rings[0] || a in q.rings[1];
    }
  }

  lemma {:induction false} KeptFirst(q: Queue, waits: map<int, nat>, sweeps: nat)
    requires Kept(q, waits, sweeps) && q.finished != []
    ensures q.finished[0] in waits && waits[q.finished[0]] + 2 <= sweeps
    ensures Kept(q.(finished := q.finished[1..]), waits - {q.finished[0]}, sweeps)
  {
    TakeFirst(q.rings, q.epochs, q.bounds, q.finished, waits, sweeps);
    FinishedTidy(q, waits, q.finished[1..], q.finished[0]);
  }

  /** A look at the oldest ring: if nothing is finished then, no pending sweep is over. */
  lemma {:induction false} KeptChecked(q: Queue, waits: map<int, nat>, seen: nat, sweeps: nat)
    requires Kept(q, waits, seen) && seen <= sweeps
    ensures var q' := Checked(q, sweeps % WORD);
            && Kept(q', waits, sweeps) && q'.timely == q.timely
            && (q.timely && q'.finished == [] ==> Unfinished(q', sweeps))
  {
    hide Good, Tidy;
    CheckedGood(q, waits, seen, sweeps);
    if q.timely {
      CheckedTidy(q, waits, sweeps % WORD);
    }
  }

  lemma {:induction false} SameTidy(q: Queue, waits: map<int, nat>)
    ensures Tidy(q.(timely := true), waits) <==> Tidy(q.(timely := false), waits)
  {
  }

  /** A push for the current label leaves no older label than there was. */
  lemma {:induction false} PushedSlack(q: Queue, waits: map<int, nat>, seen: nat, sweeps: nat, a: int)
    requires Kept(q, waits, seen) && seen <= sweeps <= seen + seen % 2
    ensures var q' := Pushed(q, a, seen + seen % 2, sweeps); q'.timely ==> Slack(q', sweeps) + 1 >= Slack(q, seen)
  {
    hide Exact, Finished, InWindow;
    Labels(q, waits, seen, q.head);
    Labels(q, waits, seen, q.tail);
    LabelBound(q, waits, seen, q.tail);
  }

  lemma {:induction false} KeptPushed(q: Queue, waits: map<int, nat>, seen: nat, sweeps: nat, a: int)
    requires Kept(q, waits, seen) && a !in waits && seen <= sweeps <= seen + seen % 2
    ensures var w := seen + seen % 2; var q' := Pushed(q, a, w, sweeps);
            && Kept(q', waits[a := w], sweeps) && (q'.timely <==> q.timely && OnTime(q, w, sweeps))
            && (q.timely ==> (q'.timely <==> Tidy(q', waits[a := w])))
            && (q.timely && NotTooLate(q, seen) ==> q'.timely) && Paced(q, seen, q', sweeps, 1)
  {
    hide QueueOk, Tidy, PushedNew, Joined, OnTime, Recent, Slack;
    PushedGood(q, waits, seen, sweeps, a);
    SameTidy(Pushed(q, a, seen + seen % 2, sweeps), waits[a := seen + seen % 2]);
    SlackIs(q, seen);
    if q.timely {
      PushedTidy(q, waits, seen, sweeps, a);
    }
    PushedSlack(q, waits, seen, sweeps, a);
  }

  class Quarantine {
    var rings: seq<seq<int>>       // quarantinePendingChunks
    var epochs: seq<nat>           // quarantinePendingEpoch, 32 bits each
    var head: nat                  // the cursors over the two rings
    var tail: nat
    var empty: bool
    var finished: seq<int>         // quarantineFinishedSentinel
    ghost var bounds: seq<nat>     // the labels without wrapping
    ghost var timely: bool         // no push has come too late

    ghost function View(): (q: Queue)
      reads this
    {
      Queue(rings, epochs, bounds, head, tail, empty, finished, timely)
    }

    constructor ()
      ensures Kept(View(), map[], 0) && View().finished == [] && timely
    {
      rings, epochs, finished := [[], []], [0, 0], [];
      tail, head, empty := 0, 1, true;
      bounds, timely := [0, 0], true;
    }

    /** quarantine_pending_to_finished */
    method PendingToFinished(revoker: Revoker)
      requires Shaped(View()) && revoker.Valid() && (forall ix: nat | ix < 2 :: epochs[ix] < WORD)
      modifies this, revoker`epoch, revoker`scanning, revoker`offset, revoker`sweeps, revoker`slots
      ensures revoker.Valid()
      ensures ProddedAtMost(revoker.marks, old(revoker.Now()), old(revoker.slots), revoker.Now(), revoker.slots)
      ensures View() == Checked(old(View()), revoker.epoch)
    {
      if empty {
        return;
      }
      var oldest := head;
      var done := revoker.HasFinished(epochs[oldest]);
      if !done {
        return;
      }
      if rings[oldest] != [] {
        finished := finished + rings[oldest];
        rings := rings[oldest := []];
      }
      if head == tail {
        empty := true;
      }
      head := 1 - head;
    }

    /** quarantine_pending_push: a chunk freed in an epoch joins the youngest ring if that has the
        label of the epoch, else a new one.  Without room for a new one it joins the youngest. */
    method Push(epoch: nat, a: int, revoker: Revoker, ghost w: nat)
      requires Shaped(View()) && revoker.Valid() && (forall ix: nat | ix < 2 :: epochs[ix] < WORD)
      requires epoch == w % WORD
      modifies this, revoker`epoch, revoker`scanning, revoker`offset, revoker`sweeps, revoker`slots
      ensures revoker.Valid()
      ensures ProddedAtMost(revoker.marks, old(revoker.Now()), old(revoker.slots), revoker.Now(), revoker.slots)
      ensures View() == Pushed(old(View()), a, w, revoker.sweeps)
    {
      hide OnTime, Prodded;
      ghost var q := View();
      var youngest := tail;
      if empty || epochs[youngest] != epoch {
        youngest := OpenRing(epoch, revoker);
      }
      rings := rings[youngest := rings[youngest] + [a]];
      bounds := bounds[youngest := w];
      timely := timely && OnTime(q, w, revoker.sweeps);
      assert epochs == epochs[youngest := epoch];
    }

    /** Make room for a ring with a new label, and open it. */
    method OpenRing(epoch: nat, revoker: Revoker) returns (youngest: nat)
      requires Shaped(View()) && revoker.Valid() && (forall ix: nat | ix < 2 :: epochs[ix] < WORD)
      modifies this, revoker`epoch, revoker`scanning, revoker`offset, revoker`sweeps, revoker`slots
      ensures revoker.Valid()
      ensures ProddedAtMost(revoker.marks, old(revoker.Now()), old(revoker.slots), revoker.Now(), revoker.slots)
      ensures var q := Checked(old(View()), revoker.sweeps % WORD);
              && youngest == Opened(q)
              && View() == q.(epochs := q.epochs[youngest := epoch], tail := 1 - q.tail, empty := false)
    {
      PendingToFinished(revoker);
      youngest := tail;
      if empty || head != 1 - tail {
        youngest := 1 - tail;
      }
      tail := 1 - tail;
      empty := false;
      epochs := epochs[youngest := epoch];
    }
  }
}
