/** Runs: any sequence of steps of the allocator, the revoker and the clients, in any order.  The
    invariant holds throughout, and memory is never reused before a full sweep that began after it was
    last in use.  Every method of the allocator state and of the allocator leads from the state before it
    to the state after it by such a run. */
module Runs {
  import opened Chunks
  import opened HeapState
  import opened Revoker
  import opened World

  datatype Action =
    | Take(a: int, k: nat)                                            // put a free chunk to use
    | SplitUp(a: int, k: nat)                                         // split a chunk the allocator holds
    | Release(a: int)                                                 // give such a chunk back
    | GrantTo(a: int, extent: nat, owner: nat, isSealed: bool)        // hand it out
    | Rehold(a: int, owner: nat, claims: nat)                         // change its owner or claims
    | Free(a: int)                                                    // into quarantine
    | Dequeue(a: int)                                                 // out of quarantine
    | Tick                                                            // a step of the revoker
    | Copy(i: nat, j: nat, d: Cap)                                    // a client derives and stores a capability
    | Receive(j: nat, a: int)                                         // a client keeps the one it was given
    | Write(a: int)                                                   // the allocator writes its own record
    | StoreTo(i: nat, offset: nat)                                    // a client stores data

  /** When a step can be taken. */
  predicate Enabled(W: World, x: Action)
  {
    match x
    case Take(a, k) => a in W.H.h && !W.H.h[a].currInUse && Next(W.H.h, a) in W.H.h && 2 <= k <= W.H.h[a].currSize
    case SplitUp(a, k) => Held(W.H, a) && a in W.H.h && Next(W.H.h, a) in W.H.h && 2 <= k <= W.H.h[a].currSize - 2
    case Release(a) =>
      && Held(W.H, a) && a in W.H.h && Next(W.H.h, a) in W.H.h
      && MergeStart(W.H.h, a) in W.H.h && MergeEnd(W.H.h, a) in W.H.h
    case GrantTo(a, extent, _, _) => Held(W.H, a) && a in W.H.h && 1 <= extent < W.H.h[a].currSize
    case Rehold(a, _, _) => Live(W.H, a) && a in W.H.h
    case Free(a) => Live(W.H, a) && a in W.H.h && W.H.h[a].owner == 0 && W.H.h[a].claims == 0
    case Dequeue(a) => a in W.H.h && a in W.H.waits && W.H.waits[a] + 2 <= W.p.sweeps
    case Tick => Running(W.p) ==> W.p.offset <= |W.slots|
    case Copy(i, j, d) => i < |W.slots| && j < |W.slots| && Derives(Load(W.H.marks, W.slots[i]), d)
    case Receive(j, a) => j < |W.slots| && Live(W.H, a)
    case Write(a) => Live(W.H, a)
    case StoreTo(i, offset) =>
      i < |W.slots| && Load(W.H.marks, W.slots[i]).Cap? && W.slots[i].Cap? && offset < W.slots[i].len
  }

  function Apply(W: World, x: Action): (W': World)
    requires Enabled(W, x)
  {
    match x
    case Take(a, k) => DoTake(W, a, k)
    case SplitUp(a, k) => DoSplit(W, a, k)
    case Release(a) => DoRelease(W, a)
    case GrantTo(a, extent, owner, isSealed) => DoGrant(W, a, extent, owner, isSealed)
    case Rehold(a, owner, claims) => DoSetHolder(W, a, owner, claims)
    case Free(a) => DoQuarantine(W, a)
    case Dequeue(a) => DoUnquarantine(W, a)
    case Tick => DoTick(W)
    case Copy(i, j, d) => DoCopy(W, j, d)
    case Receive(j, a) => DoCopy(W, j, Cap(8 * (a + 1), 8 * W.H.use[a].extent, a, W.H.use[a].gen))
    case Write(a) => DoWrite(W, a)
    case StoreTo(i, offset) => DoStore(W, W.slots[i], offset)
  }

  lemma {:induction false} StepOk(W: World, x: Action)
    requires Ok(W) && Enabled(W, x)
    ensures Ok(Apply(W, x)) && W.p.sweeps <= Apply(W, x).p.sweeps
  {
    hide Ok, Inv, Derives, Load, Running;
    match x
    case Take(a, k) => TakeOk(W, a, k);
    case SplitUp(a, k) => SplitOk(W, a, k);
    case Release(a) => ReleaseOk(W, a);
    case GrantTo(a, extent, owner, isSealed) => GrantOk(W, a, extent, owner, isSealed);
    case Rehold(a, owner, claims) => SetHolderOk(W, a, owner, claims);
    case Free(a) => QuarantineOk(W, a);
    case Dequeue(a) => UnquarantineOk(W, a);
    case Tick => TickOk(W);
    case Copy(i, j, d) => CopyOk(W, i, j, d);
    case Receive(j, a) => ReceiveOk(W, j, a);
    case Write(a) => WriteOk(W, a);
    case StoreTo(i, offset) => StoreOk(W, i, offset);
  }

  /** Each state follows from the one before by an enabled step. */
  ghost predicate IsRun(ws: seq<World>, xs: seq<Action>)
  {
    && |ws| == |xs| + 1
    && forall i {:trigger xs[i]} | 0 <= i < |xs| :: Enabled(ws[i], xs[i]) && ws[i + 1] == Apply(ws[i], xs[i])
  }

  /** The invariant holds in every state of every run. */
  lemma {:induction false} RunOk(ws: seq<World>, xs: seq<Action>, i: nat, j: nat)
    requires IsRun(ws, xs) && Ok(ws[0]) && i <= j < |ws|
    ensures Ok(ws[j]) && ws[i].p.sweeps <= ws[j].p.sweeps
    decreases j
  {
    hide Ok, Enabled, Apply;
    if j > 0 {
      RunOk(ws, xs, if i < j then i else 0, j - 1);
      assert Enabled(ws[j - 1], xs[j - 1]);
      StepOk(ws[j - 1], xs[j - 1]);
    }
  }

  // ---------- From one state to another ----------

  /** Some run leads from W to W'. */
  ghost predicate Reaches(W: World, W': World)
  {
    exists ws: seq<World>, xs: seq<Action> {:trigger IsRun(ws, xs)} :: IsRun(ws, xs) && ws[0] == W && ws[|xs|] == W'
  }

  lemma {:induction false} ReachesSame(W: World)
    ensures Reaches(W, W)
  {
    assert IsRun([W], []);
  }

  lemma {:induction false} ReachesStep(W: World, x: Action)
    requires Enabled(W, x)
    ensures Reaches(W, Apply(W, x))
  {
    hide Enabled, Apply;
    var ws, xs := [W, Apply(W, x)], [x];
    assert IsRun(ws, xs);
  }

  lemma {:induction false} ReachesTrans(W: World, W': World, W'': World)
    requires Reaches(W, W') && Reaches(W', W'')
    ensures Reaches(W, W'')
  {
    hide Enabled, Apply;
    var ws: seq<World>, xs: seq<Action> :| IsRun(ws, xs) && ws[0] == W && ws[|xs|] == W';
    var vs: seq<World>, ys: seq<Action> :| IsRun(vs, ys) && vs[0] == W' && vs[|ys|] == W'';
    Joined(ws, xs, vs, ys);
  }

  /** Two runs one after the other are a run. */
  lemma {:induction false} Joined(ws: seq<World>, xs: seq<Action>, vs: seq<World>, ys: seq<Action>)
    requires IsRun(ws, xs) && IsRun(vs, ys) && ws[|xs|] == vs[0]
    ensures IsRun(ws + vs[1..], xs + ys) && (ws + vs[1..])[0] == ws[0] && (ws + vs[1..])[|xs + ys|] == vs[|ys|]
  {
    hide Enabled, Apply;
    var us, zs := ws + vs[1..], xs + ys;
    forall i | 0 <= i < |zs| ensures Enabled(us[i], zs[i]) && us[i + 1] == Apply(us[i], zs[i]) {
      if i < |xs| {
        assert zs[i] == xs[i];
      } else {
        assert zs[i] == ys[i - |xs|] && us[i] == vs[i - |xs|] && us[i + 1] == vs[i - |xs| + 1];
      }
    }
  }

  /** States between calls: each call leads to the next by some run. */
  ghost predicate IsHistory(ws: seq<World>)
  {
    forall i: nat {:trigger ws[i]} | i + 1 < |ws| :: Reaches(ws[i], ws[i + 1])
  }

  lemma {:induction false} HistoryReaches(ws: seq<World>, i: nat, j: nat)
    requires IsHistory(ws) && i <= j < |ws|
    ensures Reaches(ws[i], ws[j])
    decreases j
  {
    if i == j {
      ReachesSame(ws[i]);
    } else {
      HistoryReaches(ws, i, j - 1);
      ReachesTrans(ws[i], ws[j - 1], ws[j]);
    }
  }

  lemma {:induction false} ReachesOk(W: World, W': World)
    requires Reaches(W, W') && Ok(W)
    ensures Ok(W') && W.p.sweeps <= W'.p.sweeps
  {
    hide Ok, Enabled, Apply;
    var ws: seq<World>, xs: seq<Action> :| IsRun(ws, xs) && ws[0] == W && ws[|xs|] == W';
    RunOk(ws, xs, 0, |xs|);
  }

  /** Memory does not grow or shrink. */
  lemma {:induction false} ReachesSlots(W: World, W': World)
    requires Reaches(W, W')
    ensures |W'.slots| == |W.slots|
  {
    hide Enabled, Apply;
    var ws: seq<World>, xs: seq<Action> :| IsRun(ws, xs) && ws[0] == W && ws[|xs|] == W';
    RunSlots(ws, xs, |xs|);
  }

  lemma {:induction false} RunSlots(ws: seq<World>, xs: seq<Action>, j: nat)
    requires IsRun(ws, xs) && j < |ws|
    ensures |ws[j].slots| == |ws[0].slots|
    decreases j
  {
    hide Enabled, Apply;
    if j > 0 {
      RunSlots(ws, xs, j - 1);
      assert Enabled(ws[j - 1], xs[j - 1]);
      StepSlots(ws[j - 1], xs[j - 1]);
    }
  }

  lemma {:induction false} StepSlots(W: World, x: Action)
    requires Enabled(W, x)
    ensures |Apply(W, x).slots| == |W.slots|
  {
  }

  // ---------- Waiting for a sweep ends ----------

  lemma {:induction false} StepToGo(W: World, x: Action, w: nat)
    requires Enabled(W, x)
    ensures ToGo(Apply(W, x).p, |W.slots|, w) <= ToGo(W.p, |W.slots|, w)
  {
    hide ToGo;
    match x
    case Tick => TickToGo(W.p, |W.slots|, w);
    case _ =>
  }

  lemma {:induction false} RunToGo(ws: seq<World>, xs: seq<Action>, j: nat, w: nat)
    requires IsRun(ws, xs) && j < |ws|
    ensures ToGo(ws[j].p, |ws[0].slots|, w) <= ToGo(ws[0].p, |ws[0].slots|, w)
    decreases j
  {
    hide Enabled, Apply, ToGo;
    if j > 0 {
      RunToGo(ws, xs, j - 1, w);
      assert Enabled(ws[j - 1], xs[j - 1]);
      RunSlots(ws, xs, j - 1);
      StepToGo(ws[j - 1], xs[j - 1], w);
    }
  }

  /** No run makes the wait for a label longer. */
  lemma {:induction false} ReachesToGo(W: World, W': World, w: nat)
    requires Reaches(W, W')
    ensures ToGo(W'.p, |W'.slots|, w) <= ToGo(W.p, |W.slots|, w)
  {
    hide Enabled, Apply, ToGo;
    var ws: seq<World>, xs: seq<Action> :| IsRun(ws, xs) && ws[0] == W && ws[|xs|] == W';
    RunSlots(ws, xs, |xs|);
    RunToGo(ws, xs, |xs|, w);
  }

  /** A turn of waiting for label w in vain, from one state to another. */
  datatype Turn = Turn(before: World, after: World)

  ghost predicate InVain(x: Turn, w: nat)
  {
    ToGo(x.after.p, |x.after.slots|, w) < ToGo(x.before.p, |x.before.slots|, w)
  }

  /** However many calls run between its turns, a wait ends after a bounded number of them. */
  lemma {:induction false} WaitEnds(xs: seq<Turn>, w: nat)
    requires xs != [] && forall i: nat {:trigger xs[i]} | i < |xs| :: InVain(xs[i], w)
    requires forall i: nat {:trigger xs[i]} | i + 1 < |xs| :: Reaches(xs[i].after, xs[i + 1].before)
    ensures |xs| <= ToGo(xs[0].before.p, |xs[0].before.slots|, w)
    decreases |xs|
  {
    hide ToGo, Reaches;
    assert InVain(xs[0], w);
    if |xs| > 1 {
      var rest := xs[1..];
      forall i: nat | i < |rest| ensures InVain(rest[i], w) { assert rest[i] == xs[i + 1]; }
      forall i: nat | i + 1 < |rest| ensures Reaches(rest[i].after, rest[i + 1].before) { assert rest[i] == xs[i + 1]; }
      WaitEnds(rest, w);
      assert xs[0].after == xs[0].after && Reaches(xs[0].after, xs[1].before);
      ReachesToGo(xs[0].after, xs[1].before, w);
    }
  }

  // ---------- No early reuse ----------

  /** Granule g belongs to what allocation gen, at a, hands out. */
  predicate Covers(W: World, a: int, g: int, gen: nat)
  {
    Live(W.H, a) && W.H.use[a].gen == gen && a < g < a + 1 + W.H.use[a].extent
  }

  /** Granule g still belongs to allocation gen, or it was freed after epoch s. */
  ghost predicate Traced(W: World, g: int, gen: nat, s: nat)
  {
    (exists a :: Covers(W, a, g, gen)) || (g in W.last && W.last[g] >= s)
  }

  lemma {:induction false} CoversStays(W: World, x: Action, a: int, g: int, gen: nat)
    requires Ok(W) && Enabled(W, x) && Covers(W, a, g, gen) && x != Free(a)
    ensures Covers(Apply(W, x), a, g, gen)
  {
    hide Ok, Inv, Derives, Load, Running, Split, Chunks.Take, Chunks.Release, MergeStart, MergeEnd;
    hide Meta, ReleasedDirty, Granules, Swept, Ticked;
    if x.Take? { UnusedOk(W, x.a); }
    if x.SplitUp? { SplitOk(W, x.a, x.k); UnusedOk(W, x.a + x.k); }
  }

  lemma {:induction false} UnusedOk(W: World, a: int)
    requires Ok(W) && (a !in W.H.h || !W.H.h[a].currInUse)
    ensures a !in W.H.use
  {
    Unused(W.H, a);
  }

  lemma {:induction false} TracedStays(W: World, x: Action, g: int, gen: nat, s: nat)
    requires Ok(W) && Enabled(W, x) && Traced(W, g, gen, s) && s <= W.p.sweeps
    ensures Traced(Apply(W, x), g, gen, s)
  {
    if a :| Covers(W, a, g, gen) {
      if x == Free(a) {
        var last' := Relabel(W.last, a, W.H.use[a].extent, EvenEpoch(W.p));
        assert g in last' && last'[g] == EvenEpoch(W.p);
      } else {
        CoversStays(W, x, a, g, gen);
      }
    } else if x.Free? {
      assert g in Relabel(W.last, x.a, W.H.use[x.a].extent, EvenEpoch(W.p));
    }
  }

  lemma {:induction false} TracedRun(ws: seq<World>, xs: seq<Action>, i: nat, j: nat, g: int, gen: nat)
    requires IsRun(ws, xs) && Ok(ws[0]) && i <= j < |ws| && Traced(ws[i], g, gen, ws[i].p.sweeps)
    ensures Traced(ws[j], g, gen, ws[i].p.sweeps)
    decreases j
  {
    hide Ok, Enabled, Apply, Covers;
    if i < j {
      TracedRun(ws, xs, i, j - 1, g, gen);
      RunOk(ws, xs, i, j - 1);
      assert Enabled(ws[j - 1], xs[j - 1]);
      TracedStays(ws[j - 1], xs[j - 1], g, gen, ws[i].p.sweeps);
    }
  }

  /** In every run, if a granule belongs to one allocation at one time and to another one later, then a
      full sweep began after the first time and ended before the second. */
  lemma {:induction false} NoEarlyReuse(ws: seq<World>, xs: seq<Action>, i: nat, j: nat, g: int, a: int, b: int)
    requires IsRun(ws, xs) && Ok(ws[0]) && i <= j < |ws| && Live(ws[i].H, a) && Live(ws[j].H, b)
    requires ws[i].H.use[a].gen != ws[j].H.use[b].gen
    requires a < g < a + 1 + ws[i].H.use[a].extent && b < g < b + 1 + ws[j].H.use[b].extent
    ensures exists w: nat :: w % 2 == 0 && ws[i].p.sweeps <= w && w + 2 <= ws[j].p.sweeps
  {
    var gen, W := ws[i].H.use[a].gen, ws[j];
    assert Covers(ws[i], a, g, gen);
    TracedRun(ws, xs, i, j, g, gen);
    RunOk(ws, xs, i, j);
    forall c | Covers(W, c, g, gen) ensures false { BodiesApart(W.H, b, c, g); }
    forall x | InBody(W.H, x, g) ensures false { BodiesApart(W.H, b, x, g); }
    var w := W.last[g];
    assert w % 2 == 0 && ws[i].p.sweeps <= w && w + 2 <= W.p.sweeps;
  }

  /** The same for the states between the calls of any program: if a granule belongs to one allocation
      after one call and to another one after a later call, a full sweep lies in between. */
  lemma {:induction false} NoEarlyReuseOfCalls(ws: seq<World>, i: nat, j: nat, g: int, a: int, b: int)
    requires IsHistory(ws) && i <= j < |ws| && Ok(ws[i]) && Live(ws[i].H, a) && Live(ws[j].H, b)
    requires ws[i].H.use[a].gen != ws[j].H.use[b].gen
    requires a < g < a + 1 + ws[i].H.use[a].extent && b < g < b + 1 + ws[j].H.use[b].extent
    ensures exists w: nat :: w % 2 == 0 && ws[i].p.sweeps <= w && w + 2 <= ws[j].p.sweeps
  {
    hide Ok, Enabled, Apply;
    HistoryReaches(ws, i, j);
    var vs: seq<World>, xs: seq<Action> :| IsRun(vs, xs) && vs[0] == ws[i] && vs[|xs|] == ws[j];
    NoEarlyReuse(vs, xs, 0, |xs|, g, a, b);
  }

  // ---------- Data stays ----------

  /** What an allocation hands out lies in no other chunk. */
  lemma {:induction false} OutsideChunk(H: Heap, a: int, x: int, g: int)
    requires Inv(H) && a in H.use && a < g < a + 1 + H.use[a].extent && x in H.h && x != a
    ensures !(x <= g < Next(H.h, x))
  {
    assert a in InUse(H.h, H.hi) && UseAt(H, a) && Apart(H.h, a, x) && Apart(H.h, x, a);
  }

  lemma {:induction false} MetaInside(a: int, s: nat, g: int)
    requires s >= 2 && g in Meta(a, s)
    ensures a < g < a + s
  {
  }

  lemma {:induction false} TakeData(W: World, b: int, k: nat, a: int, g: int)
    requires Ok(W) && Enabled(W, Take(b, k)) && a in W.H.use && a < g < a + 1 + W.H.use[a].extent && g in W.H.dirty
    ensures g in TakeChunk(W.H, b, k).dirty
  {
    UnusedOk(W, b);
    OutsideChunk(W.H, a, b, g);
    if g in Meta(b, W.H.h[b].currSize) { MetaInside(b, W.H.h[b].currSize, g); }
  }

  lemma {:induction false} ReleaseData(W: World, b: int, a: int, g: int)
    requires Ok(W) && Enabled(W, Release(b)) && Live(W.H, a) && a < g < a + 1 + W.H.use[a].extent && g in W.H.dirty
    ensures g in ReleaseChunk(W.H, b).dirty
  {
    var h, s, n := W.H.h, MergeStart(W.H.h, b), Next(W.H.h, b);
    assert b in InUse(h, W.H.hi);
    ReleaseBounds(h, W.H.lo, W.H.hi, b);
    FormedAt(h, W.H.lo, W.H.hi, s);
    FormedAt(h, W.H.lo, W.H.hi, n);
    if !h[b].prevInUse {
      UnusedOk(W, s);
      OutsideChunk(W.H, a, s, g);
      if g in Meta(s, h[s].currSize) { MetaInside(s, h[s].currSize, g); }
    }
    if !h[n].currInUse {
      UnusedOk(W, n);
      OutsideChunk(W.H, a, n, g);
      if g in Meta(n, h[n].currSize) { MetaInside(n, h[n].currSize, g); }
    }
  }

  /** No step but freeing an allocation clears what is stored in it. */
  lemma {:induction false} StepData(W: World, x: Action, a: int, g: int, gen: nat)
    requires Ok(W) && Enabled(W, x) && Covers(W, a, g, gen) && g in W.H.dirty && x != Free(a)
    ensures g in Apply(W, x).H.dirty
  {
    hide Ok, Inv, Derives, Load, Running, Split, Chunks.Take, Chunks.Release, MergeStart, MergeEnd;
    hide Meta, ReleasedDirty, Swept, Ticked;
    match x
    case Take(b, k) => TakeData(W, b, k, a, g);
    case Release(b) => ReleaseData(W, b, a, g);
    case Free(b) => FreeData(W, b, a, g);
    case Dequeue(b) => DequeueData(W, b, a, g);
    case _ =>
  }

  lemma {:induction false} FreeData(W: World, b: int, a: int, g: int)
    requires Ok(W) && Live(W.H, b) && Live(W.H, a) && a != b && a < g < a + 1 + W.H.use[a].extent && g in W.H.dirty
    ensures g in DoQuarantine(W, b).H.dirty
  {
    BodiesApart(W.H, b, a, g);
  }

  lemma {:induction false} DequeueData(W: World, b: int, a: int, g: int)
    requires Ok(W) && Enabled(W, Dequeue(b)) && Live(W.H, a) && a < g < a + 1 + W.H.use[a].extent && g in W.H.dirty
    ensures g in Unquarantine(W.H, b).dirty
  {
    OutsideChunk(W.H, a, b, g);
    assert b in InUse(W.H.h, W.H.hi);
    FormedAt(W.H.h, W.H.lo, W.H.hi, b);
  }

  /** The allocation gen at a is no more, and will not be again. */
  predicate Gone(W: World, a: int, gen: nat) { gen < W.nextGen && !(Live(W.H, a) && W.H.use[a].gen == gen) }

  lemma {:induction false} GoneStays(W: World, x: Action, a: int, gen: nat)
    requires Ok(W) && Enabled(W, x) && Gone(W, a, gen)
    ensures Gone(Apply(W, x), a, gen)
  {
    hide Ok, Inv, Derives, Load, Running, Split, Chunks.Take, Chunks.Release, MergeStart, MergeEnd;
    hide Meta, ReleasedDirty, Granules, Swept, Ticked;
  }

  /** Granule g belongs to the allocation and is not zero, or the allocation is gone. */
  predicate Stored(W: World, a: int, g: int, gen: nat) { (Covers(W, a, g, gen) && g in W.H.dirty) || Gone(W, a, gen) }

  lemma {:induction false} RunStored(ws: seq<World>, xs: seq<Action>, i: nat, j: nat, a: int, g: int, gen: nat)
    requires IsRun(ws, xs) && Ok(ws[0]) && i <= j < |ws| && Stored(ws[i], a, g, gen)
    ensures Stored(ws[j], a, g, gen)
    decreases j
  {
    hide Ok, Enabled, Apply, Covers, Gone;
    if i < j {
      RunStored(ws, xs, i, j - 1, a, g, gen);
      RunOk(ws, xs, i, j - 1);
      assert Enabled(ws[j - 1], xs[j - 1]);
      StoredStays(ws[j - 1], xs[j - 1], a, g, gen);
    }
  }

  lemma {:induction false} StoredStays(W: World, x: Action, a: int, g: int, gen: nat)
    requires Ok(W) && Enabled(W, x) && Stored(W, a, g, gen)
    ensures Stored(Apply(W, x), a, g, gen)
  {
    if Gone(W, a, gen) {
      GoneStays(W, x, a, gen);
    } else if x == Free(a) {
      assert W.H.use[a].gen < W.nextGen;
    } else {
      hide Ok, Apply, Enabled;
      CoversStays(W, x, a, g, gen);
      StepData(W, x, a, g, gen);
    }
  }

  /** Whatever is called in between, an allocation that is still there holds what was stored in it. */
  lemma {:induction false} DataStays(ws: seq<World>, i: nat, j: nat, a: int, g: int)
    requires IsHistory(ws) && i <= j < |ws| && Ok(ws[i]) && Live(ws[i].H, a) && Live(ws[j].H, a)
    requires ws[i].H.use[a].gen == ws[j].H.use[a].gen
    requires a < g < a + 1 + ws[i].H.use[a].extent && g in ws[i].H.dirty
    ensures g in ws[j].H.dirty
  {
    hide Ok, Enabled, Apply;
    HistoryReaches(ws, i, j);
    var vs: seq<World>, xs: seq<Action> :| IsRun(vs, xs) && vs[0] == ws[i] && vs[|xs|] == ws[j];
    RunStored(vs, xs, 0, |xs|, a, g, ws[i].H.use[a].gen);
  }
}
