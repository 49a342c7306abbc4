/** The allocator's interface: quotas, shared ownership through claims, and freeing, over the allocator
    state.  A client names a quota by its index, and a pointer by the memory slot it loads it from. */
module Allocator {
  import opened SizeBits
  import opened Chunks
  import opened HeapState
  import opened Sums
  import opened Accounts
  import opened Revoker
  import opened Quarantine
  import opened World
  import Runs
  import opened Steps
  import opened Bounds
  import opened MState
  import opened Claims
  import opened Books
  import opened Charges
  import opened Ledger

  /** Clients hold no capability to a claim record. */
  ghost predicate ClientCaps(claims: map<int, Claim>, slots: seq<Cap>)
  {
    forall i {:trigger slots[i]} | 0 <= i < |slots| :: slots[i].Cap? ==> slots[i].chunk !in claims
  }

  lemma {:induction false} FewerClientCaps(claims: map<int, Claim>, live: map<int, Alloc>, slots: seq<Cap>,
                                           slots': seq<Cap>)
    requires ClientCaps(claims, slots) && Fewer(live, slots, slots')
    ensures ClientCaps(claims, slots')
  {
  }

  // ---------- What the steps of the heap mean for the books ----------

  lemma {:induction false} LiveBounds(W: World, a: int)
    requires Ok(W) && a in LiveMap(W.H)
    ensures W.H.lo <= a < W.H.hi && a in W.H.h && a in W.H.use && Live(W.H, a)
    ensures LiveMap(W.H)[a] == AllocAt(W.H, a) && W.H.h[a].currInUse
    ensures W.H.h[a].currSize == LiveMap(W.H)[a].size && W.H.h[a].owner == LiveMap(W.H)[a].owner
    ensures W.H.h[a].claims == LiveMap(W.H)[a].claims
    ensures W.H.use[a].extent == LiveMap(W.H)[a].extent && W.H.use[a].gen == LiveMap(W.H)[a].gen
    ensures W.H.h[a].isSealed == LiveMap(W.H)[a].isSealed
  {
    assert a in InUse(W.H.h, W.H.hi);
    assert Linked(W.H.h, W.H.lo, W.H.hi, a);
  }

  lemma {:induction false} QuietBooks(W: World, W': World)
    requires Quiet(W, W')
    ensures LiveMap(W'.H) == LiveMap(W.H) && Fewer(LiveMap(W.H), W.slots, W'.slots) && W.p.sweeps <= W'.p.sweeps
    ensures Runs.Reaches(W, W')
  {
  }

  lemma {:induction false} HandedBooks(W: World, W': World, a: int, x: Alloc)
    requires Handed(W, W', a, x)
    ensures a !in LiveMap(W.H) && LiveMap(W'.H) == LiveMap(W.H)[a := x] && a in LiveMap(W'.H)
    ensures x.gen == W.nextGen && x.claims == 0 && Fewer(LiveMap(W.H), W.slots, W'.slots) && W.p.sweeps <= W'.p.sweeps
    ensures Runs.Reaches(W, W')
  {
  }

  /** No capability anywhere is to a chunk that was just handed out. */
  lemma {:induction false} HandedNoCaps(W: World, W': World, a: int, x: Alloc)
    requires Handed(W, W', a, x) && Ok(W') && x.extent < x.size
    ensures forall i {:trigger W'.slots[i]} | 0 <= i < |W'.slots| :: W'.slots[i].Cap? ==> W'.slots[i].chunk != a
  {
    LiveBounds(W', a);
    forall i | 0 <= i < |W'.slots| && W'.slots[i].Cap? ensures W'.slots[i].chunk != a {
      assert CapOk(W'.H.use, W'.H.waits, W'.p, i, W'.slots[i]);
      var g := W'.slots[i].base / 8;
      assert W'.slots[i].chunk == a ==> a < g < a + x.size;
      assert a < g < a + x.size ==> FreshAt(W', g);
      assert FreshAt(W', g) ==> ClearOf(W'.slots[i], g);
    }
  }

  lemma {:induction false} RetiredBooks(W: World, W': World, a: int)
    requires Retired(W, W', a)
    ensures LiveMap(W'.H) == LiveMap(W.H) - {a} && Fewer(LiveMap(W'.H), W.slots, W'.slots)
    ensures Shrunk(LiveMap(W.H), W.slots, LiveMap(W'.H), W'.slots) && W.p.sweeps <= W'.p.sweeps
    ensures Runs.Reaches(W, W')
    ensures a in W.H.h && a in W'.H.h && W'.H.h[a].currSize == W.H.h[a].currSize
  {
  }

  // ---------- Searching a chain ----------

  /** claim_find: the record of a quota on a chain, and the one before it, whose next field leads to it. */
  method FindClaim(claims: map<int, Claim>, lo: int, head: int, owner: nat, ghost s: seq<int>)
    returns (c: int, prev: int, ghost i: nat)
    requires Links(claims, lo, head, s) && Recorded(claims, s) && 0 < lo && forall j: nat | j < |s| :: s[j] >= lo
    ensures i <= |s| && (c == 0 <==> i == |s|)
    ensures i < |s| ==> c == s[i] && c in claims && claims[c].owner == owner && prev == if i == 0 then 0 else s[i - 1]
    ensures c == 0 <==> forall j: nat | j < |s| :: claims[s[j]].owner != owner
    ensures c != 0 ==> c in s && c in claims && claims[c].owner == owner
  {
    var lead := head;
    prev, i := 0, 0;
    LinksAt(claims, lo, head, s, 0);
    while lead != 0
      invariant i <= |s| && lead == Lead(claims, head, s, i) == (if i < |s| then Encode(lo, s[i]) else 0)
      invariant prev == if i == 0 then 0 else s[i - 1]
      invariant forall j: nat | j < i :: claims[s[j]].owner != owner
      decreases |s| - i
    {
      c := Decode(lo, lead);
      if claims[c].owner == owner {
        return;
      }
      prev := c;
      lead := claims[c].next;
      i := i + 1;
      LinksAt(claims, lo, head, s, i);
    }
    c := 0;
  }

  /** What a search of the chain of a client allocation needs and finds. */
  lemma {:induction false} ChainFacts(B: Books, a: int)
    requires BooksOk(B) && a in B.chain
    ensures a in B.live && Links(B.claims, B.lo, B.live[a].claims, B.chain[a]) && Recorded(B.claims, B.chain[a])
    ensures 0 < B.lo && forall j: nat | j < |B.chain[a]| :: B.chain[a][j] >= B.lo
    ensures a !in B.claims
  {
    assert PlaceAt(B, a) && UserAt(B, a);
    forall j: nat | j < |B.chain[a]| ensures B.chain[a][j] >= B.lo { assert PlaceAt(B, B.chain[a][j]); }
  }

  lemma {:induction false} FoundHolds(B: Books, a: int, i: nat)
    requires BooksOk(B) && a in B.chain && Recorded(B.claims, B.chain[a]) && i < |B.chain[a]|
    ensures var c := B.chain[a][i];
            c in B.claims && c in B.home && B.home[c] == a && 1 <= B.claims[c].count <= MAX_COUNT
    ensures var c := B.chain[a][i]; Holds(B, B.claims[c].owner, a) == B.claims[c].count
    ensures var c := B.chain[a][i]; a in B.live ==> B.live[a].owner != B.claims[c].owner
    ensures var c := B.chain[a][i]; ClaimCount(B, B.claims[c].owner, a) == B.claims[c].count && a in B.live
  {
    assert PlaceAt(B, a) && UserAt(B, a) && RecordFor(B, a, B.chain[a][i]);
    RecordHolds(B, B.chain[a][i]);
    CountAt(B.claims, B.chain[a], i);
  }

  lemma {:induction false} NotFoundHolds(B: Books, a: int, id: nat)
    requires BooksOk(B) && a in B.chain && NoRecord(B, a, id) && a in B.live
    ensures Holds(B, id, a) == if B.live[a].owner == id then 1 else 0
  {
    CountNone(B.claims, B.chain[a], id);
  }

  lemma {:induction false} FoldNoRecord(B: Books, a: int, id: nat)
    requires a in B.chain && Recorded(B.claims, B.chain[a])
    requires forall i: nat | i < |B.chain[a]| :: B.claims[B.chain[a][i]].owner != id
    ensures NoRecord(B, a, id)
  {
  }

  lemma {:induction false} ReferIs(B: Books, c: int, n: nat)
    requires c in B.claims
    ensures Refer(B, c, n) == Books(B.lo, B.hi, B.live, B.claims[c := B.claims[c].(count := n)], B.chain, B.home)
  {
  }

  lemma {:induction false} SameKeysCaps(claims: map<int, Claim>, claims': map<int, Claim>, slots: seq<Cap>)
    requires ClientCaps(claims, slots) && claims'.Keys <= claims.Keys
    ensures ClientCaps(claims', slots)
  {
  }

  /** Clients hold no capability to any of these chunks. */
  ghost predicate NoCapsTo(s: set<int>, slots: seq<Cap>)
  {
    forall i {:trigger slots[i]} | 0 <= i < |slots| :: slots[i].Cap? ==> slots[i].chunk !in s
  }

  lemma {:induction false} JoinedKeys(claims: map<int, Claim>, c: int, slots: seq<Cap>)
    requires ClientCaps(claims, slots)
    requires forall i {:trigger slots[i]} | 0 <= i < |slots| :: slots[i].Cap? ==> slots[i].chunk != c
    ensures NoCapsTo(claims.Keys + {c}, slots)
  {
  }

  lemma {:induction false} KeysCaps(claims: map<int, Claim>, slots: seq<Cap>)
    requires NoCapsTo(claims.Keys, slots)
    ensures ClientCaps(claims, slots)
  {
  }

  lemma {:induction false} IncrementedIs(n: nat)
    requires n <= MAX_COUNT
    ensures Incremented(n) == (if n == 0xFFFF_FFFF then n else n + 1) && (n >= 1 ==> 1 <= Incremented(n) <= MAX_COUNT)
  {
  }

  lemma {:induction false} IncrementOne(n: nat)
    requires n <= 1
    ensures Incremented(n) == n + 1
  {
  }

  /** Quota id has one more allocation, which it holds once, which covers the request, and which is sealed or not,
      as asked. */
  ghost predicate Entered(B: Books, B': Books, id: nat, r: AllocationResult, bytes: nat, isSealed: bool, before: nat,
                          after: nat)
  {
    && r.Allocated? && r.chunk > 0 && r.chunk !in B.live && r.chunk in B'.live
    && B' == Enter(B, r.chunk, B'.live[r.chunk]) && HoldChange(B, B', id, r.chunk, 1)
    && after + 8 * B'.live[r.chunk].size == before && B'.live[r.chunk].isSealed == isSealed
    && 8 * B'.live[r.chunk].extent == r.length >= bytes && IsPreciseRange(8 * (r.chunk + 1), r.length)
  }

  lemma {:induction false} FoldEntered(B: Books, B': Books, id: nat, r: AllocationResult, bytes: nat, isSealed: bool,
                                       before: nat, after: nat, x: Alloc)
    requires r.Allocated? && r.chunk > 0 && r.chunk !in B.live && r.chunk in B'.live && B'.live[r.chunk] == x
    requires B' == Enter(B, r.chunk, x) && HoldChange(B, B', id, r.chunk, 1) && after + 8 * x.size == before
    requires 8 * x.extent == r.length >= bytes && IsPreciseRange(8 * (r.chunk + 1), r.length) && x.isSealed == isSealed
    ensures Entered(B, B', id, r, bytes, isSealed, before, after)
  {
  }

  /** What a quota that has no record of a pays for its first claim, besides the record. */
  function Cost(B: Books, id: nat, a: int): (bytes: nat)
  {
    if a in B.live && B.live[a].owner != id then 8 * B.live[a].size else 0
  }

  lemma {:induction false} CostIs(B: Books, id: nat, a: int)
    requires a in B.live
    ensures Cost(B, id, a) == if B.live[a].owner == id then 0 else 8 * B.live[a].size
  {
  }

  /** The client has the capability to all of its new allocation in slot j, where it loads; no other slot has
      gained one, or lost one to what was live; and the body is fresh, but for that capability. */
  ghost predicate Given(W: World, W': World, j: nat, r: AllocationResult, x: Alloc)
  {
    && r.Allocated? && j < |W.slots| == |W'.slots|
    && W'.slots[j] == Cap(8 * (r.chunk + 1), r.length, r.chunk, x.gen)
    && Load(W'.H.marks, W'.slots[j]) == W'.slots[j]
    && Fewer(LiveMap(W.H), W.slots[j := W'.slots[j]], W'.slots)
    && FreshBody(W'.(slots := W'.slots[j := NoCap]), r.chunk, x.size)
  }

  lemma {:induction false} GivenFrom(W: World, V: World, W': World, j: nat, r: AllocationResult, x: Alloc)
    requires r.Allocated? && Handed(W, V, r.chunk, x) && j < |V.slots| && x.size >= 2
    requires W' == V.(slots := V.slots[j := Cap(8 * (r.chunk + 1), r.length, r.chunk, x.gen)])
    ensures Given(W, W', j, r, x)
  {
    hide LiveMap, KeptAt, Runs.Reaches;
    var a, U := r.chunk, W'.(slots := W'.slots[j := NoCap]);
    assert FreshAt(V, a + 1);
    forall g | a < g < a + x.size ensures FreshAt(U, g) {
      assert FreshAt(V, g);
      forall i | 0 <= i < |U.slots| ensures ClearOf(U.slots[i], g) { assert i != j ==> ClearOf(V.slots[i], g); }
    }
  }

  lemma {:induction false} FewerLength(live: map<int, Alloc>, slots: seq<Cap>, slots': seq<Cap>)
    requires Fewer(live, slots, slots')
    ensures |slots'| == |slots|
  {
  }

  lemma {:induction false} MayFreeNew(B: Books, id: nat, a: int, x: Alloc)
    requires a in B.chain && a in B.live && B.live[a] == x && x.owner == id
    ensures MayFree(B, id, Cap(8 * (a + 1), 8 * x.extent, a, x.gen))
  {
  }

  class Allocator {
    const ms: MState
    var claims: map<int, Claim>    // the contents of the claim records, by chunk
    var quotas: seq<Quota>
    var nextIdentifier: nat
    ghost var chain: map<int, seq<int>>
    ghost var home: map<int, int>
    ghost const initial: seq<nat>  // what each quota started with

    ghost function Account(): (B: Books)
      reads this`claims, this`chain, this`home, ms, ms.revoker
    {
      Books(ms.lo, ms.hi, LiveMap(ms.View().H), claims, chain, home)
    }

    /** The heap and the books are in order, every quota is conserved, and every client allocation is held,
        but possibly for those of s. */
    ghost predicate ValidBut(s: set<int>)
      reads this, ms, ms.lists, ms.lists.small, ms.lists.tree, ms.quarantine, ms.revoker
    {
      && ms.Sound() && NoneHeld(ms.View().H) && BooksOk(Account()) && AllHeld(Account(), s)
      && LedgerOk(Account(), quotas, initial, nextIdentifier) && ClientCaps(claims, ms.revoker.slots)
    }

    ghost predicate Valid()
      reads this, ms, ms.lists, ms.lists.small, ms.lists.tree, ms.quarantine, ms.revoker
    {
      ValidBut({})
    }

    constructor (state: MState, limits: seq<nat>)
      requires state.Sound() && NoneHeld(state.View().H) && LiveMap(state.View().H) == map[]
      requires forall i | 0 <= i < |state.revoker.slots| :: state.revoker.slots[i] == NoCap
      ensures Valid() && ms == state && initial == limits
      ensures |quotas| == |limits| && forall k: nat | k < |limits| :: quotas[k] == Quota(limits[k], 0)
    {
      ms := state;
      claims := map[];
      quotas := seq(|limits|, i requires 0 <= i < |limits| => Quota(limits[i], 0));
      nextIdentifier := 1;
      chain, home, initial := map[], map[], limits;
      new;
      FirstBooks(ms.lo, ms.hi, quotas, initial);
      HeapBounds();
    }

    lemma {:induction false} HeapBounds()
      requires ms.Sound()
      ensures 1 < ms.lo < ms.hi < ms.lo + HEAD
    {
    }

    /** The parts of Valid, for methods that hide definitions. */
    lemma {:induction false} Open()
      requires Valid()
      ensures ms.Sound() && NoneHeld(ms.View().H) && BooksOk(Account()) && AllHeld(Account(), {})
      ensures LedgerOk(Account(), quotas, initial, nextIdentifier) && ClientCaps(claims, ms.revoker.slots)
      ensures Known(Account(), nextIdentifier) && Ok(ms.View()) && |quotas| == |initial|
    {
    }

    lemma {:induction false} OpenBut(s: set<int>)
      requires ValidBut(s)
      ensures ms.Sound() && NoneHeld(ms.View().H) && BooksOk(Account()) && AllHeld(Account(), s)
      ensures LedgerOk(Account(), quotas, initial, nextIdentifier) && ClientCaps(claims, ms.revoker.slots)
      ensures Known(Account(), nextIdentifier) && Ok(ms.View())
    {
    }

    lemma {:induction false} CloseBut(s: set<int>)
      requires ms.Sound() && NoneHeld(ms.View().H) && BooksOk(Account()) && AllHeld(Account(), s)
      requires LedgerOk(Account(), quotas, initial, nextIdentifier) && ClientCaps(claims, ms.revoker.slots)
      ensures ValidBut(s)
    {
    }

    lemma {:induction false} Close()
      requires ms.Sound() && NoneHeld(ms.View().H) && BooksOk(Account()) && AllHeld(Account(), {})
      requires LedgerOk(Account(), quotas, initial, nextIdentifier) && ClientCaps(claims, ms.revoker.slots)
      ensures Valid()
    {
    }

    lemma {:induction false} Peek()
      ensures Account() == Books(ms.lo, ms.hi, LiveMap(ms.View().H), claims, chain, home)
      ensures ms.View().slots == ms.revoker.slots && ms.View().H.h == ms.h && ms.View().nextGen == ms.nextGen
      ensures ms.View().H.lo == ms.lo && ms.View().H.hi == ms.hi && ms.View().H.use == ms.use
      ensures ms.View().p.sweeps == ms.revoker.sweeps
    {
    }

    lemma {:induction false} PeekMarks()
      ensures ms.View().H.marks == ms.revoker.marks
    {
    }

    /** malloc_capability_unseal, for a quota that may be invalid: it gets its identifier on first use, while
        there are identifiers left. */
    method Unseal(k: nat) returns (ok: bool)
      requires Valid()
      modifies this`quotas, this`nextIdentifier
      ensures Valid() && |quotas| == old(|quotas|)
      ensures ok <==> Usable(old(quotas), old(nextIdentifier), k)
      ensures Enrolled(old(quotas), old(nextIdentifier), quotas, nextIdentifier, k)
      ensures ok ==> k < |quotas| && 0 < quotas[k].identifier < nextIdentifier
      ensures ok ==> quotas[k].identifier == IdentifierOf(old(quotas), old(nextIdentifier), k)
      ensures k < |quotas| ==> quotas[k].quota == old(quotas[k].quota)
      ensures !ok ==> quotas == old(quotas)
    {
      hide *;
      Open();
      EnrolledIs(quotas, nextIdentifier, k);
      if k >= |quotas| {
        return false;
      }
      Identifiers(Account(), quotas, initial, nextIdentifier, k);
      if quotas[k].identifier == 0 {
        if nextIdentifier >= MAX_IDENTIFIERS {
          return false;
        }
        LedgerNew(Account(), quotas, initial, nextIdentifier, k);
        quotas := quotas[k := quotas[k].(identifier := nextIdentifier)];
        nextIdentifier := nextIdentifier + 1;
        Close();
      }
      return true;
    }

    /** heap_allocate, without waiting: on success the new allocation is held once, by this quota, and its
        capability is stored to slot j; on failure nothing changes. */
    method HeapAllocate(k: nat, bytes: nat, isSealed: bool, j: nat)
      returns (permitted: bool, r: AllocationResult, ghost try: Attempt)
      requires Valid() && bytes < WORD && j < |ms.revoker.slots|
      modifies this, ms, ms.lists, ms.lists.small, ms.lists.tree, ms.quarantine, ms.revoker
      ensures Valid() && Enrolled(old(quotas), old(nextIdentifier), quotas, nextIdentifier, k)
      ensures permitted <==> Usable(old(quotas), old(nextIdentifier), k)
      ensures !permitted ==> Account() == old(Account()) && quotas == old(quotas)
      ensures permitted ==> k < |quotas| == old(|quotas|) && 0 < quotas[k].identifier
      ensures permitted && !r.Allocated? ==> Account() == old(Account()) && quotas[k].quota == old(quotas[k].quota)
      ensures permitted && r.Allocated? ==>
                Entered(old(Account()), Account(), quotas[k].identifier, r, bytes, isSealed, old(quotas)[k].quota,
                        quotas[k].quota)
      ensures permitted ==> try.r == r && Quiet(old(ms.View()), try.mid)
      ensures permitted ==> Verdict(bytes, old(quotas)[k].quota, old(ms.View()), try)
      ensures |ms.revoker.slots| == old(|ms.revoker.slots|)
      ensures !permitted || !r.Allocated? ==> Fewer(old(Account()).live, old(ms.revoker.slots), ms.revoker.slots)
      ensures permitted && r.Allocated? ==>
                && r.chunk in Account().live && Given(old(ms.View()), ms.View(), j, r, Account().live[r.chunk])
                && MayFree(Account(), quotas[k].identifier, ms.revoker.slots[j])
      ensures Runs.Reaches(old(ms.View()), ms.View()) && old(ms.revoker.sweeps) <= ms.revoker.sweeps
      ensures ms.quarantine.timely == old(ms.quarantine.timely)
      ensures Paced(old(ms.quarantine.View()), old(ms.revoker.sweeps), ms.quarantine.View(), ms.revoker.sweeps, 3)
    {
      hide *;
      ghost var B := Account();
      permitted := Unseal(k);
      ghost var unsealed := quotas;
      r, try := FailurePermanent, Attempt(FailurePermanent, ms.View(), 0, 0);
      FewerSame(B.live, ms.revoker.slots);
      PacedSame(ms.quarantine.View(), ms.revoker.sweeps, 3);
      Runs.ReachesSame(ms.View());
      if !permitted {
        return;
      }
      Open();
      Peek();
      ghost var W := ms.View();
      var left: nat;
      ghost var x: Alloc;
      var gen := ms.nextGen;
      r, left, x, try := ms.Dispatch(bytes, quotas[k].quota, quotas[k].identifier, isSealed, false);
      Peek();
      ghost var V := ms.View();
      FoldVerdict(bytes, quotas[k].quota, W, try);
      if !r.Allocated? {
        QuietBooks(W, ms.View());
        FewerLength(LiveMap(W.H), W.slots, ms.View().slots);
        FewerClientCaps(claims, LiveMap(W.H), W.slots, ms.revoker.slots);
        Close();
      } else {
        HandedBooks(W, ms.View(), r.chunk, x);
        FewerLength(LiveMap(W.H), W.slots, ms.View().slots);
        Receive(k, bytes, j, r, left, gen, x, W, B);
        SameOthersStep(unsealed, k, left);
        EnrolledThen(old(quotas), old(nextIdentifier), unsealed, quotas, nextIdentifier, k);
        DecidedStill(bytes, unsealed[k].quota, W, V, ms.View(), ms.quarantine.View(), try);
        FoldVerdict(bytes, unsealed[k].quota, W, try);
      }
    }

    /** Book a new allocation and store its capability to slot j. */
    method Receive(k: nat, bytes: nat, j: nat, r: AllocationResult, left: nat, gen: nat, ghost x: Alloc, ghost W: World,
                   ghost B: Books)
      requires ms.Sound() && NoneHeld(ms.View().H) && r.Allocated? && Handed(W, ms.View(), r.chunk, x) && k < |quotas|
      requires B == Books(ms.lo, ms.hi, LiveMap(W.H), claims, chain, home) && BooksOk(B) && AllHeld(B, {})
      requires LedgerOk(B, quotas, initial, nextIdentifier) && ClientCaps(claims, W.slots)
      requires x.owner == quotas[k].identifier && 0 < x.owner < nextIdentifier && left + 8 * x.size == quotas[k].quota
      requires Delivered(bytes, r, x, false) && gen == x.gen && j < |ms.revoker.slots|
      modifies this`quotas, this`chain, ms.revoker`slots
      ensures Valid() && quotas == old(quotas)[k := old(quotas[k]).(quota := left)]
      ensures Entered(B, Account(), x.owner, r, bytes, x.isSealed, old(quotas[k].quota), left)
      ensures r.chunk in Account().live && Account().live[r.chunk] == x && |ms.revoker.slots| == old(|ms.revoker.slots|)
      ensures Given(W, ms.View(), j, r, x) && MayFree(Account(), x.owner, ms.revoker.slots[j])
      ensures Runs.Reaches(W, ms.View())
    {
      hide *;
      Peek();
      DeliveredIs(bytes, r, x);
      HandedBooks(W, ms.View(), r.chunk, x);
      ghost var V := ms.View();
      Book(k, r.chunk, left, x, W, B);
      Open();
      Peek();
      GotIt(ms.View(), r.chunk);
      NotRecord(Account(), r.chunk);
      ghost var slots := ms.revoker.slots;
      ms.ClientReceive(j, r.chunk, r.length, gen);
      Peek();
      ReceivedCaps(claims, slots, j, ms.revoker.slots[j]);
      Runs.ReachesTrans(W, V, ms.View());
      GivenFrom(W, V, ms.View(), j, r, x);
      Close();
      MayFreeNew(Account(), x.owner, r.chunk, x);
      FoldEntered(B, Account(), x.owner, r, bytes, x.isSealed, old(quotas[k].quota), left, x);
    }

    /** What a request of a quota in state W comes to. */
    ghost predicate Verdict(bytes: nat, quota: nat, W: World, try: Attempt)
      reads ms, ms.quarantine, ms.revoker
    {
      && Decided(bytes, quota, W, ms.View(), ms.quarantine.View(), try)
      && (try.r.FailureRevocationNeeded? && ms.quarantine.timely ==>
            Reported(ms.quarantine.View(), ms.waits, try.r.waitingEpoch))
    }

    lemma {:induction false} FoldVerdict(bytes: nat, quota: nat, W: World, try: Attempt)
      ensures Verdict(bytes, quota, W, try) <==>
              && Decided(bytes, quota, W, ms.View(), ms.quarantine.View(), try)
              && (try.r.FailureRevocationNeeded? && ms.quarantine.timely ==>
                    Reported(ms.quarantine.View(), ms.waits, try.r.waitingEpoch))
    {
    }

    /** Enter a new allocation in the books and charge its quota. */
    method Book(k: nat, a: int, left: nat, ghost x: Alloc, ghost W: World, ghost B: Books)
      requires ms.Sound() && NoneHeld(ms.View().H) && Handed(W, ms.View(), a, x) && k < |quotas|
      requires B == Books(ms.lo, ms.hi, LiveMap(W.H), claims, chain, home) && BooksOk(B) && AllHeld(B, {})
      requires LedgerOk(B, quotas, initial, nextIdentifier) && ClientCaps(claims, W.slots)
      requires x.owner == quotas[k].identifier && 0 < x.owner < nextIdentifier && left + 8 * x.size == quotas[k].quota
      requires a >= 0 && x.size >= 2 && 8 * x.extent == BodyLength(8 * (a + 1), 8 * x.size - 8)
      modifies this`quotas, this`chain
      ensures Valid() && Account() == Enter(B, a, x) && HoldChange(B, Account(), x.owner, a, 1) && a !in B.live
      ensures quotas == old(quotas)[k := old(quotas[k]).(quota := left)]
      ensures a in Account().chain && a in Account().live && Account().live[a] == x
    {
      hide *;
      HandedBooks(W, ms.View(), a, x);
      Peek();
      SoundOk();
      LiveBounds(ms.View(), a);
      KnownBooks(B, quotas, initial, nextIdentifier);
      EnterStep(B, a, x, nextIdentifier);
      EnterIs(B, a, x);
      FewerClientCaps(claims, LiveMap(W.H), W.slots, ms.revoker.slots);
      LedgerStep(B, Enter(B, a, x), quotas, initial, nextIdentifier, k, x.size, left);
      quotas := quotas[k := quotas[k].(quota := left)];
      chain := chain[a := []];
      Peek();
      Close();
    }

    lemma {:induction false} SoundOk()
      requires ms.Sound()
      ensures Ok(ms.View())
    {
    }

    /** claim_add, for a client allocation: one more hold for this quota, saturating; or nothing changes. */
    method ClaimAdd(k: nat, a: int) returns (ok: bool, ghost try: Attempt)
      requires Valid() && k < |quotas| && 0 < quotas[k].identifier < nextIdentifier && a in chain
      modifies this, ms, ms.lists, ms.lists.small, ms.lists.tree, ms.quarantine, ms.revoker
      ensures Valid() && SameOthers(old(quotas), quotas, k) && nextIdentifier == old(nextIdentifier)
      ensures k < |quotas| && quotas[k].identifier == old(quotas[k].identifier)
      ensures !ok ==> Account() == old(Account()) && quotas == old(quotas)
      ensures ok ==> HoldChange(old(Account()), Account(), quotas[k].identifier, a,
                                Incremented(Holds(old(Account()), quotas[k].identifier, a)))
      ensures ok ==> SameClients(old(Account()), Account(), a) && a in chain
      ensures ok ==> ClaimCount(Account(), quotas[k].identifier, a) > 0
      ensures ClaimVerdict(ClaimCount(old(Account()), quotas[k].identifier, a) > 0,
                           Cost(old(Account()), quotas[k].identifier, a), old(quotas)[k].quota, old(ms.View()), ok, try)
      ensures Fewer(old(Account()).live, old(ms.revoker.slots), ms.revoker.slots)
      ensures Quiet(old(ms.View()), try.mid)
      ensures Runs.Reaches(old(ms.View()), ms.View()) && old(ms.revoker.sweeps) <= ms.revoker.sweeps
      ensures ms.quarantine.timely == old(ms.quarantine.timely)
      ensures Paced(old(ms.quarantine.View()), old(ms.revoker.sweeps), ms.quarantine.View(), ms.revoker.sweeps, 3)
    {
      hide *;
      Open();
      Peek();
      try := Attempt(FailurePermanent, ms.View(), 0, 0);
      PacedSame(ms.quarantine.View(), ms.revoker.sweeps, 3);
      QuietSame(ms.View());
      Runs.ReachesSame(ms.View());
      FewerSame(Account().live, ms.revoker.slots);
      ghost var B, id := Account(), quotas[k].identifier;
      ChainFacts(B, a);
      LiveBounds(ms.View(), a);
      SameOthersSelf(quotas, k);
      var c, prev, i := FindClaim(claims, ms.lo, ms.h[a].claims, quotas[k].identifier, chain[a]);
      if c != 0 {
        FoundHolds(B, a, i);
        AddReference(k, c);
        Open();
        ChainFacts(Account(), a);
        FoundHolds(Account(), a, i);
        FoldClaimVerdict(true, Cost(B, id, a), old(quotas)[k].quota, ms.View(), true, try);
        return true, try;
      }
      FoldNoRecord(B, a, quotas[k].identifier);
      NotFoundHolds(B, a, quotas[k].identifier);
      IncrementOne(Holds(B, id, a));
      NoClaims(B, a, id, chain[a]);
      ok, try := NewClaim(k, a);
    }

    /** When a claim succeeds: always with a record; else if the quota covers what it now pays for, and the
        record can be allocated from the rest. */
    ghost predicate ClaimVerdict(recorded: bool, cost: nat, quota: nat, W: World, ok: bool, try: Attempt)
      reads ms, ms.quarantine, ms.revoker
    {
      if recorded then ok
      else if quota < cost then !ok
      else Verdict(8, quota - cost, W, try) && (ok <==> try.r.Allocated?)
    }

    lemma {:induction false} FoldClaimVerdict(recorded: bool, cost: nat, quota: nat, W: World, ok: bool, try: Attempt)
      requires recorded ==> ok
      requires !recorded && quota < cost ==> !ok
      requires !recorded && quota >= cost ==>
                 Verdict(8, quota - cost, W, try) && (ok <==> try.r.Allocated?)
      ensures ClaimVerdict(recorded, cost, quota, W, ok, try)
    {
    }

    /** reference_add */
    method AddReference(k: nat, c: int)
      requires Valid() && c in claims && 1 <= claims[c].count <= MAX_COUNT
      modifies this`claims
      ensures Valid() && c in old(Account()).home && old(Account()).claims == old(claims)
      ensures Account().chain == chain && Account().claims == claims
      ensures c in claims && claims[c].owner == old(claims[c].owner)
      ensures HoldChange(old(Account()), Account(), old(claims[c].owner), old(Account()).home[c],
                         Incremented(old(claims[c].count)))
      ensures SameClients(old(Account()), Account(), old(Account()).home[c])
    {
      hide *;
      Open();
      Peek();
      var n := claims[c].count;
      IncrementedIs(n);
      if n != 0xFFFF_FFFF {
        n := n + 1;
      }
      ReferStep(Account(), c, n, nextIdentifier);
      ReferIs(Account(), c, n);
      ReferLedger(Account(), c, n, quotas, initial, nextIdentifier);
      ghost var before := claims;
      claims := claims[c := claims[c].(count := n)];
      SameKeysCaps(before, claims, ms.revoker.slots);
      Peek();
      Close();
    }

    /** The part of claim_add that makes a new record. */
    method NewClaim(k: nat, a: int) returns (ok: bool, ghost try: Attempt)
      requires Valid() && k < |quotas| && 0 < quotas[k].identifier < nextIdentifier && a in chain
      requires a in Account().chain
      requires NoRecord(Account(), a, quotas[k].identifier)
      modifies this, ms, ms.lists, ms.lists.small, ms.lists.tree, ms.quarantine, ms.revoker
      ensures Valid() && SameOthers(old(quotas), quotas, k) && nextIdentifier == old(nextIdentifier)
      ensures k < |quotas| && quotas[k].identifier == old(quotas[k].identifier)
      ensures !ok ==> Account() == old(Account()) && quotas == old(quotas)
      ensures ok ==> HoldChange(old(Account()), Account(), quotas[k].identifier, a,
                                Holds(old(Account()), quotas[k].identifier, a) + 1)
      ensures ok ==> SameClients(old(Account()), Account(), a) && a in chain
      ensures ok ==> ClaimCount(Account(), quotas[k].identifier, a) > 0
      ensures ClaimVerdict(false, Cost(old(Account()), quotas[k].identifier, a), old(quotas)[k].quota, old(ms.View()),
                           ok, try)
      ensures Fewer(old(Account()).live, old(ms.revoker.slots), ms.revoker.slots)
      ensures Quiet(old(ms.View()), try.mid)
      ensures Runs.Reaches(old(ms.View()), ms.View()) && old(ms.revoker.sweeps) <= ms.revoker.sweeps
      ensures ms.quarantine.timely == old(ms.quarantine.timely)
      ensures Paced(old(ms.quarantine.View()), old(ms.revoker.sweeps), ms.quarantine.View(), ms.revoker.sweeps, 3)
    {
      hide *;
      Open();
      Peek();
      ghost var B, W := Account(), ms.View();
      ChainFacts(B, a);
      LiveBounds(W, a);
      CostIs(B, quotas[k].identifier, a);
      var isOwner := ms.h[a].owner == quotas[k].identifier;
      var size := 8 * ms.h[a].currSize;
      var quota := quotas[k].quota;
      if !isOwner {
        if quota < size {
          SameOthersSelf(quotas, k);
          QuietSame(W);
          PacedSame(ms.quarantine.View(), ms.revoker.sweeps, 3);
          Runs.ReachesSame(W);
          FewerSame(B.live, ms.revoker.slots);
          FoldClaimVerdict(false, size, quota, W, false, Attempt(FailurePermanent, W, 0, 0));
          return false, Attempt(FailurePermanent, W, 0, 0);
        }
        quota := quota - size;
      }
      ok, try := MakeRecord(k, a, isOwner, quota);
      FoldClaimVerdict(false, if isOwner then 0 else size, old(quotas)[k].quota, W, ok, try);
    }

    /** Claim::create, and linking the record to the chain of a; quota is what is left after the chunk. */
    method MakeRecord(k: nat, a: int, isOwner: bool, quota: nat) returns (ok: bool, ghost try: Attempt)
      requires Valid() && k < |quotas| && 0 < quotas[k].identifier < nextIdentifier && a in chain
      requires a in Account().chain && a in Account().live && NoRecord(Account(), a, quotas[k].identifier)
      requires isOwner <==> Account().live[a].owner == quotas[k].identifier
      requires quota + (if isOwner then 0 else 8 * Account().live[a].size) == quotas[k].quota
      modifies this, ms, ms.lists, ms.lists.small, ms.lists.tree, ms.quarantine, ms.revoker
      ensures Valid() && SameOthers(old(quotas), quotas, k) && nextIdentifier == old(nextIdentifier)
      ensures k < |quotas| && quotas[k].identifier == old(quotas[k].identifier)
      ensures !ok ==> Account() == old(Account()) && quotas == old(quotas)
      ensures ok ==> HoldChange(old(Account()), Account(), quotas[k].identifier, a,
                                Holds(old(Account()), quotas[k].identifier, a) + 1)
      ensures ok ==> SameClients(old(Account()), Account(), a) && a in chain
      ensures ok ==> ClaimCount(Account(), quotas[k].identifier, a) > 0
      ensures Verdict(8, quota, old(ms.View()), try) && (ok <==> try.r.Allocated?)
      ensures Fewer(old(Account()).live, old(ms.revoker.slots), ms.revoker.slots)
      ensures Quiet(old(ms.View()), try.mid)
      ensures Runs.Reaches(old(ms.View()), ms.View()) && old(ms.revoker.sweeps) <= ms.revoker.sweeps
      ensures ms.quarantine.timely == old(ms.quarantine.timely)
      ensures Paced(old(ms.quarantine.View()), old(ms.revoker.sweeps), ms.quarantine.View(), ms.revoker.sweeps, 3)
    {
      hide *;
      Open();
      Peek();
      ghost var B, W := Account(), ms.View();
      SameOthersSelf(quotas, k);
      RecordRequest();
      var r, left, x, attempt := ms.Dispatch(8, quota, 0, false, true);
      Peek();
      try := attempt;
      ok := r.Allocated?;
      FoldVerdict(8, quota, W, try);
      if !ok {
        QuietBooks(W, ms.View());
        FewerClientCaps(claims, LiveMap(W.H), W.slots, ms.revoker.slots);
        Close();
      } else {
        RecordIs(r, x);
        HandedBooks(W, ms.View(), r.chunk, x);
        ghost var V := ms.View();
        AddRecord(k, a, r.chunk, isOwner, left, x, W, B);
        Runs.ReachesTrans(W, V, ms.View());
        DecidedStill(8, quota, W, V, ms.View(), ms.quarantine.View(), try);
        FoldVerdict(8, quota, W, try);
      }
    }

    /** Link a new record in front of the chain of a. */
    method AddRecord(k: nat, a: int, c: int, isOwner: bool, left: nat, ghost x: Alloc, ghost W: World, ghost B: Books)
      requires ms.Sound() && NoneHeld(ms.View().H) && Handed(W, ms.View(), c, x) && k < |quotas|
      requires B == Books(ms.lo, ms.hi, LiveMap(W.H), claims, chain, home) && BooksOk(B) && AllHeld(B, {})
      requires LedgerOk(B, quotas, initial, nextIdentifier) && ClientCaps(claims, W.slots)
      requires a in B.live && a in B.chain && NoRecord(B, a, quotas[k].identifier)
      requires 0 < quotas[k].identifier < nextIdentifier
      requires isOwner <==> B.live[a].owner == quotas[k].identifier
      requires left + 8 * (x.size + if isOwner then 0 else B.live[a].size) == quotas[k].quota
      requires x.size >= 2 && x.owner == 0 && !x.isSealed && x.extent == 1
      modifies this`quotas, this`chain, this`home, this`claims, ms`h, ms`dirty
      ensures Valid() && SameOthers(old(quotas), quotas, k) && a in chain
      ensures k < |quotas| && quotas[k].identifier == old(quotas[k].identifier)
      ensures HoldChange(B, Account(), quotas[k].identifier, a, Holds(B, quotas[k].identifier, a) + 1)
      ensures SameClients(B, Account(), a) && ClaimCount(Account(), quotas[k].identifier, a) > 0
      ensures Runs.Reaches(old(ms.View()), ms.View())
    {
      hide *;
      HandedBooks(W, ms.View(), c, x);
      Peek();
      SoundOk();
      KnownBooks(B, quotas, initial, nextIdentifier);
      LiveBounds(ms.View(), c);
      HandedNoCaps(W, ms.View(), c, x);
      FewerClientCaps(claims, LiveMap(W.H), W.slots, ms.revoker.slots);
      JoinStep(B, a, c, x, quotas[k].identifier, nextIdentifier);
      LedgerStep(B, Join(B, a, c, x, quotas[k].identifier), quotas, initial, nextIdentifier, k,
                 x.size + if B.live[a].owner == quotas[k].identifier then 0 else B.live[a].size, left);
      JoinedKeys(claims, c, ms.revoker.slots);
      JoinClaims(B, a, c, x, quotas[k].identifier);
      LinkRecord(quotas[k].identifier, a, c, isOwner, x, W, B);
      KeysCaps(claims, ms.revoker.slots);
      quotas := quotas[k := quotas[k].(quota := left)];
      SameOthersStep(old(quotas), k, left);
      Close();
    }

    /** The new record takes over the chain, and the header leads to it. */
    method LinkRecord(id: nat, a: int, c: int, isOwner: bool, ghost x: Alloc, ghost W: World, ghost B: Books)
      requires ms.Sound() && NoneHeld(ms.View().H) && Handed(W, ms.View(), c, x)
      requires B == Books(ms.lo, ms.hi, LiveMap(W.H), claims, chain, home)
      requires a in B.live && a in B.chain && (isOwner <==> B.live[a].owner == id)
      modifies this`chain, this`home, this`claims, ms`h, ms`dirty
      ensures ms.Sound() && NoneHeld(ms.View().H) && Account() == Join(B, a, c, x, id)
      ensures claims.Keys == old(claims.Keys) + {c} && a in chain
      ensures Runs.Reaches(old(ms.View()), ms.View())
    {
      hide *;
      HandedBooks(W, ms.View(), c, x);
      Peek();
      SoundOk();
      LiveBounds(ms.View(), c);
      OtherLive(W, ms.View(), a, c, x);
      LiveBounds(ms.View(), a);
      JoinIs(B, a, c, x, id);
      claims := claims[c := Claim(id, ms.h[a].claims, if isOwner then 2 else 1)];
      ghost var V := ms.View();
      ms.WriteRecord(c);
      ghost var V' := ms.View();
      SetHead(a, if isOwner then 0 else ms.h[a].owner, c + 1 - ms.lo);
      chain := chain[a := [c] + chain[a]];
      home := home[c := a];
      Runs.ReachesTrans(V, V', ms.View());
      PeekAccount();
    }

    method SetHead(a: int, owner: nat, head: nat)
      requires ms.Sound() && NoneHeld(ms.View().H) && a in LiveMap(ms.View().H)
      modifies ms`h
      ensures ms.Sound() && NoneHeld(ms.View().H)
      ensures LiveMap(ms.View().H) ==
              old(LiveMap(ms.View().H))[a := old(LiveMap(ms.View().H))[a].(owner := owner, claims := head)]
      ensures Runs.Reaches(old(ms.View()), ms.View())
    {
      hide *;
      SoundOk();
      LiveBounds(ms.View(), a);
      ms.SetHolder(a, owner, head);
    }

    lemma {:induction false} PeekAccount()
      ensures Account() == Books(ms.lo, ms.hi, LiveMap(ms.View().H), claims, chain, home)
    {
    }

    // ---------- Letting go ----------

    /** Free the client allocation at a if nobody holds it any more. */
    method RetireIfUnheld(a: int, bodySize: int)
      requires ValidBut({a}) && a in chain && a in ms.h && a >= 0 && ms.h[a].currSize >= 1
      requires bodySize == BodyLength(8 * (a + 1), 8 * ms.h[a].currSize - 8)
      modifies this`chain, ms, ms.lists, ms.lists.small, ms.lists.tree, ms.quarantine, ms.revoker
      ensures Valid() && Account() == Released(old(Account()), a) && a in ms.h
      ensures forall i: nat, b: int {:trigger Holds(Account(), i, b)} | i != 0 ::
                Holds(Account(), i, b) == Holds(old(Account()), i, b)
      ensures SameClients(old(Account()), Account(), a)
      ensures a in chain <==> exists i: nat :: i != 0 && Holds(Account(), i, a) > 0
      ensures Shrunk(old(Account()).live, old(ms.revoker.slots), Account().live, ms.revoker.slots)
      ensures Runs.Reaches(old(ms.View()), ms.View()) && old(ms.revoker.sweeps) <= ms.revoker.sweeps
      ensures Paced(old(ms.quarantine.View()), old(ms.revoker.sweeps), ms.quarantine.View(), ms.revoker.sweeps, 4)
    {
      hide *;
      OpenBut({a});
      Peek();
      ghost var B, W := Account(), ms.View();
      ChainFacts(B, a);
      ChainEmpty(B, a);
      LiveBounds(W, a);
      BodyIsExtent(B, a);
      ReleasedIs(B, a);
      ReleaseStep(B, a, nextIdentifier);
      ReleaseLedger(B, a, quotas, initial, nextIdentifier);
      Runs.ReachesSame(W);
      FewerSame(B.live, ms.revoker.slots);
      PacedSame(ms.quarantine.View(), ms.revoker.sweeps, 4);
      if ms.h[a].claims == 0 && ms.h[a].owner == 0 {
        ghost var _ := ms.Free(a, bodySize);
        RetiredBooks(W, ms.View(), a);
        chain := chain - {a};
        Peek();
        FewerClientCaps(claims, LiveMap(ms.View().H), W.slots, ms.revoker.slots);
      }
      Close();
      StillHeld(Account(), a);
    }

    /** The owner lets go, and gets the charge back. */
    method DropOwner(k: nat, a: int)
      requires Valid() && k < |quotas| && 0 < quotas[k].identifier < nextIdentifier
      requires a in chain && a in Account().live && Account().live[a].owner == quotas[k].identifier
      modifies this`quotas, ms`h
      ensures ValidBut({a}) && SameOthers(old(quotas), quotas, k) && k < |quotas|
      ensures quotas[k].identifier == old(quotas[k].identifier)
      ensures Holds(old(Account()), quotas[k].identifier, a) == 1
      ensures HoldChange(old(Account()), Account(), quotas[k].identifier, a, 0)
      ensures SameClients(old(Account()), Account(), a)
      ensures a in ms.h && a in old(ms.h) && ms.h[a].currSize == old(ms.h)[a].currSize
      ensures Shrunk(old(Account()).live, old(ms.revoker.slots), Account().live, ms.revoker.slots)
      ensures Runs.Reaches(old(ms.View()), ms.View())
    {
      hide *;
      Open();
      Peek();
      ghost var B, W := Account(), ms.View();
      ChainFacts(B, a);
      LiveBounds(W, a);
      DisownStep(B, a, nextIdentifier);
      DisownIs(B, a);
      var left := quotas[k].quota + 8 * ms.h[a].currSize;
      LedgerStep(B, Disown(B, a), quotas, initial, nextIdentifier, k, 0 - B.live[a].size, left);
      ShrunkHolder(B.live, a, 0, ms.h[a].claims, ms.revoker.slots);
      ms.SetHolder(a, 0, ms.h[a].claims);
      quotas := quotas[k := quotas[k].(quota := left)];
      SameOthersStep(old(quotas), k, left);
      Peek();
      SoundOk();
      LiveBounds(ms.View(), a);
      CloseBut({a});
    }

    /** claim_drop, for any chunk in use: one reference less, or all of them; the record goes with the last. */
    method ClaimDrop(k: nat, a: int, reallyDrop: bool, freeAll: bool) returns (dropped: bool)
      requires Valid() && k < |quotas| && 0 < quotas[k].identifier < nextIdentifier && a in ms.h && ms.h[a].currInUse
      modifies this, ms, ms.lists, ms.lists.small, ms.lists.tree, ms.quarantine, ms.revoker
      ensures ValidBut({a}) && SameOthers(old(quotas), quotas, k) && nextIdentifier == old(nextIdentifier)
      ensures k < |quotas| && quotas[k].identifier == old(quotas[k].identifier)
      ensures dropped <==> ClaimCount(old(Account()), quotas[k].identifier, a) > 0
      ensures !dropped || !reallyDrop ==> Valid() && Account() == old(Account()) && quotas == old(quotas)
      ensures dropped && reallyDrop ==>
                HoldChange(old(Account()), Account(), quotas[k].identifier, a,
                           Lowered(Holds(old(Account()), quotas[k].identifier, a), freeAll))
      ensures dropped ==> a in chain
      ensures SameClients(old(Account()), Account(), a)
      ensures Shrunk(old(Account()).live, old(ms.revoker.slots), Account().live, ms.revoker.slots)
      ensures a in ms.h && ms.h[a].currSize == old(ms.h[a].currSize)
      ensures Runs.Reaches(old(ms.View()), ms.View()) && old(ms.revoker.sweeps) <= ms.revoker.sweeps
      ensures Paced(old(ms.quarantine.View()), old(ms.revoker.sweeps), ms.quarantine.View(), ms.revoker.sweeps, 4)
    {
      hide *;
      Open();
      Peek();
      ghost var B, id := Account(), quotas[k].identifier;
      ghost var s := if a in chain then chain[a] else [];
      Kinds(ms.View(), B, a);
      KindChain(B, a, ms.h[a].claims);
      SameOthersSelf(quotas, k);
      SameClientsSelf(B, a);
      WeakenBut(a);
      Runs.ReachesSame(ms.View());
      FewerSame(B.live, ms.revoker.slots);
      PacedSame(ms.quarantine.View(), ms.revoker.sweeps, 4);
      var c, prev, i := FindClaim(claims, ms.lo, ms.h[a].claims, quotas[k].identifier, s);
      if c == 0 {
        NoClaims(B, a, id, s);
        return false;
      }
      FoundHolds(B, a, i);
      if !reallyDrop {
        return true;
      }
      var n := claims[c].count;
      LoweredIs(n, freeAll);
      if n != 0xFFFF_FFFF {
        n := n - 1;
      }
      if freeAll || n == 0 {
        RemoveRecord(k, a, c, prev, i);
      } else {
        SetCount(a, c, n);
      }
      return true;
    }

    method SetCount(ghost a: int, c: int, n: nat)
      requires Valid() && c in claims && 1 <= n <= MAX_COUNT && c in Account().home && Account().home[c] == a
      modifies this`claims
      ensures Valid() && ValidBut({a}) && old(Account()).claims == old(claims) && Account().live == old(Account()).live
      ensures HoldChange(old(Account()), Account(), old(claims[c].owner), a, n)
      ensures SameClients(old(Account()), Account(), a)
    {
      hide *;
      Open();
      Peek();
      ReferStep(Account(), c, n, nextIdentifier);
      ReferIs(Account(), c, n);
      ReferLedger(Account(), c, n, quotas, initial, nextIdentifier);
      ghost var before := claims;
      claims := claims[c := claims[c].(count := n)];
      SameKeysCaps(before, claims, ms.revoker.slots);
      Peek();
      Close();
      WeakenBut(a);
    }

    lemma {:induction false} WeakenBut(a: int)
      requires Valid()
      ensures ValidBut({a})
    {
      forall b | b in Account().live && b in Account().chain ensures HeldAt(Account(), b) {}
    }

    /** Bypass and free a record, and refund the charges for it and for the allocation it claimed. */
    method RemoveRecord(k: nat, a: int, c: int, prev: int, ghost i: nat)
      requires Valid() && k < |quotas| && 0 < quotas[k].identifier < nextIdentifier && a in chain && a in Account().live
      requires a in Account().chain
      requires i < |chain[a]| && c == chain[a][i] && c in claims && claims[c].owner == quotas[k].identifier
      requires prev == if i == 0 then 0 else chain[a][i - 1]
      modifies this, ms, ms.lists, ms.lists.small, ms.lists.tree, ms.quarantine, ms.revoker
      ensures ValidBut({a}) && SameOthers(old(quotas), quotas, k) && nextIdentifier == old(nextIdentifier)
      ensures k < |quotas| && quotas[k].identifier == old(quotas[k].identifier)
      ensures HoldChange(old(Account()), Account(), quotas[k].identifier, a, 0)
      ensures SameClients(old(Account()), Account(), a) && a in chain
      ensures Shrunk(old(Account()).live, old(ms.revoker.slots), Account().live, ms.revoker.slots)
      ensures a in ms.h && a in old(ms.h) && ms.h[a].currSize == old(ms.h)[a].currSize
      ensures Runs.Reaches(old(ms.View()), ms.View()) && old(ms.revoker.sweeps) <= ms.revoker.sweeps
      ensures Paced(old(ms.quarantine.View()), old(ms.revoker.sweeps), ms.quarantine.View(), ms.revoker.sweeps, 4)
    {
      hide *;
      Open();
      Peek();
      ghost var B, slots := Account(), ms.revoker.slots;
      FewerSame(B.live, slots);
      ChainFacts(B, a);
      LeaveStep(B, a, i, nextIdentifier);
      LeaveIs(B, a, i);
      RecordAlloc(B, a, i);
      LiveBounds(ms.View(), a);
      LiveBounds(ms.View(), c);
      var left := quotas[k].quota + 8 * ms.h[a].currSize + 8 * ms.h[c].currSize;
      LedgerStep(B, Leave(B, a, i), quotas, initial, nextIdentifier, k, 0 - (B.live[c].size + B.live[a].size), left);
      ghost var W := ms.View();
      Bypass(a, c, prev, i, B);
      ghost var V := ms.View();
      DestroyRecord(a, c, B, i);
      Peek();
      Runs.ReachesTrans(W, V, ms.View());
      ShrunkTrans(B.live, slots, LiveMap(V.H), slots, LiveMap(ms.View().H), ms.revoker.slots);
      quotas := quotas[k := quotas[k].(quota := left)];
      SameOthersStep(old(quotas), k, left);
      CloseBut({a});
    }

    /** The pointer that leads to record c now leads to what comes after it. */
    method Bypass(a: int, c: int, prev: int, ghost i: nat, ghost B: Books)
      requires ms.Sound() && NoneHeld(ms.View().H) && B == Account() && BooksOk(B)
      requires a in B.live && a in B.chain && i < |B.chain[a]| && c == B.chain[a][i] && Recorded(B.claims, B.chain[a])
      requires prev == (if i == 0 then 0 else B.chain[a][i - 1]) && c in claims && B.lo > 0
      requires (forall j: nat | j < |B.chain[a]| :: B.chain[a][j] >= B.lo)
      modifies this`claims, ms`h
      ensures ms.Sound() && NoneHeld(ms.View().H) && claims == Bypassed(B.claims, B.chain[a], i)
      ensures LiveMap(ms.View().H) == if i == 0 then B.live[a := B.live[a].(claims := B.claims[c].next)] else B.live
      ensures Shrunk(B.live, ms.revoker.slots, LiveMap(ms.View().H), ms.revoker.slots)
      ensures Runs.Reaches(old(ms.View()), ms.View())
    {
      hide *;
      Peek();
      SoundOk();
      Runs.ReachesSame(ms.View());
      LiveBounds(ms.View(), a);
      BypassedIs(B.claims, B.chain[a], i);
      FewerSame(B.live, ms.revoker.slots);
      if prev == 0 {
        ShrunkHolder(B.live, a, ms.h[a].owner, claims[c].next, ms.revoker.slots);
        ms.SetHolder(a, ms.h[a].owner, claims[c].next);
        Peek();
      } else {
        claims := claims[prev := claims[prev].(next := claims[c].next)];
      }
    }

    /** Claim::destroy */
    method DestroyRecord(a: int, c: int, ghost B: Books, ghost i: nat)
      requires ms.Sound() && NoneHeld(ms.View().H) && BooksOk(B) && B.lo == ms.lo && B.hi == ms.hi && chain == B.chain
      requires home == B.home
      requires a in B.live && a in B.chain && i < |B.chain[a]| && c == B.chain[a][i] && Recorded(B.claims, B.chain[a])
      requires claims == Bypassed(B.claims, B.chain[a], i)
      requires LiveMap(ms.View().H) == if i == 0 then B.live[a := B.live[a].(claims := B.claims[c].next)] else B.live
      requires ClientCaps(B.claims, ms.revoker.slots)
      modifies this`claims, this`chain, this`home
      modifies ms, ms.lists, ms.lists.small, ms.lists.tree, ms.quarantine, ms.revoker
      ensures ms.Sound() && NoneHeld(ms.View().H) && Account() == Leave(B, a, i) && ClientCaps(claims, ms.revoker.slots)
      ensures a in ms.h && ms.h[a].currSize == B.live[a].size && a in chain
      ensures Shrunk(old(LiveMap(ms.View().H)), old(ms.revoker.slots), LiveMap(ms.View().H), ms.revoker.slots)
      ensures Runs.Reaches(old(ms.View()), ms.View()) && old(ms.revoker.sweeps) <= ms.revoker.sweeps
      ensures Paced(old(ms.quarantine.View()), old(ms.revoker.sweeps), ms.quarantine.View(), ms.revoker.sweeps, 4)
    {
      hide *;
      Peek();
      SoundOk();
      ghost var W := ms.View();
      RecordAlloc(B, a, i);
      LiveBounds(W, c);
      LeaveIs(B, a, i);
      BypassedKeys(B.claims, B.chain[a], i);
      ghost var _ := ms.Free(c, 8);
      RetiredBooks(W, ms.View(), c);
      Peek();
      SoundOk();
      claims := claims - {c};
      chain := chain[a := Drop(chain[a], i)];
      home := home - {c};
      Peek();
      FewerClientCaps(B.claims, LiveMap(ms.View().H), W.slots, ms.revoker.slots);
      SameKeysCaps(B.claims, claims, ms.revoker.slots);
      LiveBounds(ms.View(), a);
    }

    /** heap_free_chunk, for any chunk in use.  It succeeds iff the quota holds the allocation, as the owner
        with a capability to all of it or as a claimant; then the quota lets go of one hold, or of all,
        and the allocation goes exactly if that was the last hold of any quota. */
    method FreeChunk(k: nat, a: int, bodySize: int, isPrecise: bool, reallyFree: bool, freeAll: bool) returns (ok: bool)
      requires Valid() && k < |quotas| && 0 < quotas[k].identifier < nextIdentifier
      requires a in ms.h && ms.h[a].currInUse && a >= 0 && ms.h[a].currSize >= 1
      requires bodySize == BodyLength(8 * (a + 1), 8 * ms.h[a].currSize - 8)
      modifies this, ms, ms.lists, ms.lists.small, ms.lists.tree, ms.quarantine, ms.revoker
      ensures Valid() && SameOthers(old(quotas), quotas, k) && nextIdentifier == old(nextIdentifier)
      ensures k < |quotas| && quotas[k].identifier == old(quotas[k].identifier)
      ensures ok <==> CanFree(old(Account()), quotas[k].identifier, a, isPrecise)
      ensures !ok || !reallyFree ==> Account() == old(Account()) && quotas == old(quotas)
      ensures ok && reallyFree ==>
                HoldChange(old(Account()), Account(), quotas[k].identifier, a,
                           Lowered(Holds(old(Account()), quotas[k].identifier, a), freeAll))
      ensures SameClients(old(Account()), Account(), a) && a in ms.h
      ensures Shrunk(old(Account()).live, old(ms.revoker.slots), Account().live, ms.revoker.slots)
      ensures a in chain <==> exists i: nat :: i != 0 && Holds(Account(), i, a) > 0
      ensures Runs.Reaches(old(ms.View()), ms.View()) && old(ms.revoker.sweeps) <= ms.revoker.sweeps
      ensures Paced(old(ms.quarantine.View()), old(ms.revoker.sweeps), ms.quarantine.View(), ms.revoker.sweeps, 8)
    {
      hide *;
      Open();
      Peek();
      ghost var B, id := Account(), quotas[k].identifier;
      SameOthersSelf(quotas, k);
      SameClientsSelf(B, a);
      StillHeld(B, a);
      ghost var W, q0, s0 := ms.View(), ms.quarantine.View(), ms.revoker.sweeps;
      Runs.ReachesSame(W);
      ghost var slots := ms.revoker.slots;
      FewerSame(B.live, slots);
      PacedSame(q0, s0, 8);
      Kinds(ms.View(), B, a);
      CanFreeIs(B, id, a, isPrecise);
      if isPrecise && ms.h[a].owner == quotas[k].identifier {
        if reallyFree {
          LoweredOne(freeAll);
          DropOwner(k, a);
          OpenBut({a});
          Peek();
          ghost var B', V := Account(), ms.View();
          ghost var slots' := ms.revoker.slots;
          RetireIfUnheld(a, bodySize);
          ShrunkTrans(B.live, slots, B'.live, slots', Account().live, ms.revoker.slots);
          Runs.ReachesTrans(W, V, ms.View());
          PacedMore(q0, s0, ms.quarantine.View(), ms.revoker.sweeps, 4, 8);
          HoldThen(B, B', Account(), id, a, 0);
        }
        return true;
      }
      ok := ClaimDrop(k, a, reallyFree, freeAll);
      Peek();
      PacedMore(q0, s0, ms.quarantine.View(), ms.revoker.sweeps, 4, 8);
      if ok && reallyFree {
        OpenBut({a});
        ghost var B', V, q, s := Account(), ms.View(), ms.quarantine.View(), ms.revoker.sweeps;
        ghost var slots' := ms.revoker.slots;
        RetireIfUnheld(a, bodySize);
        ShrunkTrans(B.live, slots, B'.live, slots', Account().live, ms.revoker.slots);
        Runs.ReachesTrans(W, V, ms.View());
        PacedTrans(q0, s0, q, s, ms.quarantine.View(), ms.revoker.sweeps, 4, 4);
        HoldThen(B, B', Account(), id, a, Lowered(Holds(B, id, a), freeAll));
      }
    }

    // ---------- The interface ----------

    /** The pointer that a client loads from slot i, and the chunk that it is into, if it is valid. */
    method Pointer(i: nat) returns (mem: Cap, chunk: int)
      requires Valid() && i < |ms.revoker.slots|
      ensures mem == Load(ms.revoker.marks, ms.revoker.slots[i]) && (!mem.Cap? ==> mem == NoCap)
      ensures mem.Cap? ==> mem == ms.revoker.slots[i] && chunk == mem.chunk && chunk in chain && chunk in Account().live
      ensures mem.Cap? ==> chunk in ms.h && ms.h[chunk].currInUse && chunk >= 0
      ensures mem.Cap? ==> ms.h[chunk].currSize == Account().live[chunk].size >= 1 && Lives(Account().live, mem)
    {
      hide *;
      Open();
      Peek();
      chunk := 0;
      mem := Load(ms.revoker.marks, ms.revoker.slots[i]);
      if !mem.Cap? {
        NoCapIs(mem);
        return;
      }
      LoadIs(ms.revoker.marks, ms.revoker.slots[i]);
      PeekMarks();
      PointsInto(ms.View(), Account(), i);
      LiveBounds(ms.View(), mem.chunk);
      HeapBounds();
      chunk := ms.AllocationStart(mem.base);
      FindsChunk(ms.View(), i, chunk);
      PointerLives(ms.View(), i);
    }

    /** heap_free and, if reallyFree is false, heap_can_free, for the pointer in slot i.  A stale pointer does
        not pass the load barrier and is invalid. */
    method HeapFree(k: nat, i: nat, reallyFree: bool) returns (r: Outcome)
      requires Valid() && i < |ms.revoker.slots|
      modifies this, ms, ms.lists, ms.lists.small, ms.lists.tree, ms.quarantine, ms.revoker
      ensures Valid() && Enrolled(old(quotas), old(nextIdentifier), quotas, nextIdentifier, k)
      ensures r == Invalid <==>
              && Usable(old(quotas), old(nextIdentifier), k)
              && Load(old(ms.revoker.marks), old(ms.revoker.slots[i])) == NoCap
      ensures r == Done <==>
              && Usable(old(quotas), old(nextIdentifier), k)
              && Load(old(ms.revoker.marks), old(ms.revoker.slots[i])).Cap?
              && MayFree(old(Account()), IdentifierOf(old(quotas), old(nextIdentifier), k), old(ms.revoker.slots[i]))
      ensures r != OutOfMemory && (r == Done ==> k < |quotas| && 0 < quotas[k].identifier)
      ensures r != Done || !reallyFree ==>
                Account() == old(Account()) && (k < |quotas| ==> quotas[k].quota == old(quotas)[k].quota)
      ensures r == Done && reallyFree ==>
                LetGo(old(Account()), Account(), quotas[k].identifier, old(ms.revoker.slots[i]).chunk)
      ensures Shrunk(old(Account()).live, old(ms.revoker.slots), Account().live, ms.revoker.slots)
      ensures Runs.Reaches(old(ms.View()), ms.View()) && old(ms.revoker.sweeps) <= ms.revoker.sweeps
      ensures Paced(old(ms.quarantine.View()), old(ms.revoker.sweeps), ms.quarantine.View(), ms.revoker.sweeps, 8)
      ensures |ms.revoker.slots| == old(|ms.revoker.slots|)
    {
      hide *;
      Runs.ReachesSame(ms.View());
      FewerSame(Account().live, ms.revoker.slots);
      PacedSame(ms.quarantine.View(), ms.revoker.sweeps, 8);
      var permitted := Unseal(k);
      if !permitted {
        return NotPermitted;
      }
      Open();
      Peek();
      ghost var unsealed := quotas;
      EnrolledLength(old(quotas), old(nextIdentifier), unsealed, nextIdentifier, k);
      var mem, chunk := Pointer(i);
      if !mem.Cap? {
        return Invalid;
      }
      var bodySize := ms.ChunkBodySize(chunk);
      var isPrecise := 8 * (chunk + 1) == mem.base && bodySize == mem.len;
      MayFreeIs(Account(), quotas[k].identifier, mem, isPrecise);
      var ok := FreeChunk(k, chunk, bodySize, isPrecise, reallyFree, false);
      Peek();
      Runs.ReachesSlots(old(ms.View()), ms.View());
      if ok && reallyFree { FoldLetGo(old(Account()), Account(), quotas[k].identifier, chunk); }
      EnrolledThen(old(quotas), old(nextIdentifier), unsealed, quotas, nextIdentifier, k);
      return if ok then Done else NotPermitted;
    }

    method LengthOf(chunk: int) returns (size: int)
      requires Valid() && chunk in chain
      ensures LengthIs(Account(), chunk, size)
    {
      hide *;
      Open();
      Peek();
      ChainFacts(Account(), chunk);
      LiveBounds(ms.View(), chunk);
      BodyIsExtent(Account(), chunk);
      size := ms.ChunkBodySize(chunk);
      FoldLength(Account(), chunk, size);
    }

    /** heap_claim, for the pointer in slot i: the quota holds the allocation once more. */
    method HeapClaim(k: nat, i: nat) returns (r: Outcome, size: int, ghost try: Attempt)
      requires Valid() && i < |ms.revoker.slots|
      modifies this, ms, ms.lists, ms.lists.small, ms.lists.tree, ms.quarantine, ms.revoker
      ensures Valid() && Enrolled(old(quotas), old(nextIdentifier), quotas, nextIdentifier, k)
      ensures r == NotPermitted <==> !Usable(old(quotas), old(nextIdentifier), k)
      ensures r == Invalid <==>
              && Usable(old(quotas), old(nextIdentifier), k)
              && Load(old(ms.revoker.marks), old(ms.revoker.slots[i])) == NoCap
      ensures r != Done ==>
                Account() == old(Account()) && size == 0 && (k < |quotas| ==> quotas[k].quota == old(quotas)[k].quota)
      ensures r == Done || r == OutOfMemory ==>
                k < |quotas| && 0 < quotas[k].identifier && Load(old(ms.revoker.marks), old(ms.revoker.slots[i])).Cap?
      ensures r == Done ==> Claimed(old(Account()), Account(), quotas[k].identifier, old(ms.revoker.slots[i]).chunk)
      ensures r == Done ==> LengthIs(Account(), old(ms.revoker.slots[i]).chunk, size)
      ensures r == Done ==> MayFree(Account(), quotas[k].identifier, old(ms.revoker.slots[i]))
      ensures r == Done || r == OutOfMemory ==>
                var a := old(ms.revoker.slots[i]).chunk;
                ClaimVerdict(ClaimCount(old(Account()), quotas[k].identifier, a) > 0,
                             Cost(old(Account()), quotas[k].identifier, a), old(quotas)[k].quota, old(ms.View()),
                             r == Done, try)
      ensures Fewer(old(Account()).live, old(ms.revoker.slots), ms.revoker.slots)
      ensures Quiet(old(ms.View()), try.mid)
      ensures Runs.Reaches(old(ms.View()), ms.View()) && old(ms.revoker.sweeps) <= ms.revoker.sweeps
      ensures ms.quarantine.timely == old(ms.quarantine.timely)
      ensures Paced(old(ms.quarantine.View()), old(ms.revoker.sweeps), ms.quarantine.View(), ms.revoker.sweeps, 3)
      ensures |ms.revoker.slots| == old(|ms.revoker.slots|)
    {
      hide *;
      size, try := 0, Attempt(FailurePermanent, ms.View(), 0, 0);
      PacedSame(ms.quarantine.View(), ms.revoker.sweeps, 3);
      QuietSame(ms.View());
      Runs.ReachesSame(ms.View());
      FewerSame(Account().live, ms.revoker.slots);
      var permitted := Unseal(k);
      if !permitted {
        return NotPermitted, 0, try;
      }
      Open();
      Peek();
      ghost var unsealed := quotas;
      EnrolledLength(old(quotas), old(nextIdentifier), unsealed, nextIdentifier, k);
      var mem, chunk := Pointer(i);
      if !mem.Cap? {
        return Invalid, 0, try;
      }
      var ok;
      ok, try := ClaimAdd(k, chunk);
      EnrolledThen(old(quotas), old(nextIdentifier), unsealed, quotas, nextIdentifier, k);
      Peek();
      Runs.ReachesSlots(old(ms.View()), ms.View());
      if !ok {
        return OutOfMemory, 0, try;
      }
      FoldClaimed(old(Account()), Account(), quotas[k].identifier, chunk);
      size := LengthOf(chunk);
      ClaimantMayFree(Account(), quotas[k].identifier, mem);
      return Done, size, try;
    }

    /** heap_free_all: walk over the heap and let go of everything that this quota holds and that is not
        sealed.  Each free may dequeue and merge other chunks, but the chunk at hand stays where it is. */
    method HeapFreeAll(k: nat) returns (permitted: bool, freed: nat)
      requires Valid()
      modifies this, ms, ms.lists, ms.lists.small, ms.lists.tree, ms.quarantine, ms.revoker
      ensures Valid() && Enrolled(old(quotas), old(nextIdentifier), quotas, nextIdentifier, k)
      ensures permitted <==> Usable(old(quotas), old(nextIdentifier), k)
      ensures !permitted ==> Account() == old(Account()) && quotas == old(quotas) && freed == 0
      ensures permitted ==> k < |quotas| && 0 < quotas[k].identifier
      ensures permitted ==> Cleared(Account(), quotas[k].identifier, ms.hi)
      ensures permitted ==> freed == 8 * Sum(Unsealed(old(Account()), quotas[k].identifier))
      ensures permitted ==> OthersHold(old(Account()), Account(), quotas[k].identifier)
      ensures Shrunk(old(Account()).live, old(ms.revoker.slots), Account().live, ms.revoker.slots)
      ensures Runs.Reaches(old(ms.View()), ms.View()) && old(ms.revoker.sweeps) <= ms.revoker.sweeps
      ensures Paced(old(ms.quarantine.View()), old(ms.revoker.sweeps), ms.quarantine.View(), ms.revoker.sweeps,
                    ms.heapTotalSize)
      ensures |ms.revoker.slots| == old(|ms.revoker.slots|)
    {
      hide *;
      Runs.ReachesSame(ms.View());
      ghost var q0, s0 := ms.quarantine.View(), ms.revoker.sweeps;
      PacedSame(q0, s0, ms.heapTotalSize);
      PacedSame(q0, s0, 0);
      FewerSame(Account().live, ms.revoker.slots);
      freed := 0;
      permitted := Unseal(k);
      if !permitted {
        return;
      }
      ghost var id, next, unsealed := quotas[k].identifier, nextIdentifier, quotas;
      SameOthersSelf(quotas, k);
      OthersHoldSelf(Account(), id);
      Open();
      Peek();
      StartWalk(ms.View(), Account(), id);
      var chunk := ms.lo;
      while chunk < ms.hi + 1
        invariant Valid() && ms.lo <= chunk <= ms.hi + 1 && (chunk <= ms.hi ==> chunk in ms.h)
        invariant SameOthers(unsealed, quotas, k) && k < |quotas| && quotas[k].identifier == id
        invariant 0 < id < nextIdentifier == next
        invariant Shrunk(old(Account()).live, old(ms.revoker.slots), Account().live, ms.revoker.slots)
        invariant Cleared(Account(), id, chunk) && OthersHold(old(Account()), Account(), id)
        invariant old(ms.revoker.sweeps) <= ms.revoker.sweeps && Runs.Reaches(old(ms.View()), ms.View())
        invariant Paced(q0, s0, ms.quarantine.View(), ms.revoker.sweeps, 8 * (chunk - ms.lo))
        invariant freed + 8 * Sum(Unsealed(Account(), id)) == 8 * Sum(Unsealed(old(Account()), id))
        decreases ms.hi + 1 - chunk
      {
        ghost var V, q, s, at := ms.View(), ms.quarantine.View(), ms.revoker.sweeps, chunk;
        ghost var live, slots := Account().live, ms.revoker.slots;
        var size := FreeHere(k, chunk, old(Account()), unsealed);
        ShrunkTrans(old(Account()).live, old(ms.revoker.slots), live, slots, Account().live, ms.revoker.slots);
        Runs.ReachesTrans(old(ms.View()), V, ms.View());
        freed := freed + size;
        Open();
        Peek();
        WalkOn(ms.View(), Account(), id, chunk);
        chunk := Next(ms.h, chunk);
        PacedMore(q, s, ms.quarantine.View(), ms.revoker.sweeps, 8, 8 * (chunk - at));
        PacedTrans(q0, s0, q, s, ms.quarantine.View(), ms.revoker.sweeps, 8 * (at - ms.lo), 8 * (chunk - at));
      }
      EnrolledThen(old(quotas), old(nextIdentifier), unsealed, quotas, next, k);
      Open();
      Peek();
      ms.TotalIs();
      Runs.ReachesSlots(old(ms.View()), ms.View());
      NothingUnsealed(Account(), id, chunk);
      ClearedLess(Account(), id, chunk, ms.hi);
    }

    /** One turn of heap_free_all. */
    method FreeHere(k: nat, chunk: int, ghost B0: Books, ghost unsealed: seq<Quota>) returns (size: nat)
      requires Valid() && k < |quotas| && 0 < quotas[k].identifier < nextIdentifier && chunk in ms.h
      requires SameOthers(unsealed, quotas, k) && Cleared(Account(), quotas[k].identifier, chunk)
      requires OthersHold(B0, Account(), quotas[k].identifier)
      modifies this, ms, ms.lists, ms.lists.small, ms.lists.tree, ms.quarantine, ms.revoker
      ensures Valid() && SameOthers(unsealed, quotas, k) && nextIdentifier == old(nextIdentifier) && chunk in ms.h
      ensures k < |quotas| && quotas[k].identifier == old(quotas[k].identifier)
      ensures Cleared(Account(), quotas[k].identifier, chunk + 1) && OthersHold(B0, Account(), quotas[k].identifier)
      ensures size + 8 * Sum(Unsealed(Account(), quotas[k].identifier)) ==
              8 * Sum(Unsealed(old(Account()), quotas[k].identifier))
      ensures Shrunk(old(Account()).live, old(ms.revoker.slots), Account().live, ms.revoker.slots)
      ensures Runs.Reaches(old(ms.View()), ms.View()) && old(ms.revoker.sweeps) <= ms.revoker.sweeps
      ensures Paced(old(ms.quarantine.View()), old(ms.revoker.sweeps), ms.quarantine.View(), ms.revoker.sweeps, 8)
    {
      hide *;
      Runs.ReachesSame(ms.View());
      PacedSame(ms.quarantine.View(), ms.revoker.sweeps, 8);
      FewerSame(Account().live, ms.revoker.slots);
      size := 0;
      Open();
      Peek();
      HeapBounds();
      ghost var B, id, qs := Account(), quotas[k].identifier, quotas;
      ChunkFacts(ms.View(), chunk);
      SkippedClear(ms.View(), B, id, chunk);
      if ms.h[chunk].currInUse && !ms.h[chunk].isSealed {
        size := 8 * ms.h[chunk].currSize;
        var bodySize := ms.ChunkBodySize(chunk);
        var ok := FreeChunk(k, chunk, bodySize, true, true, true);
        AfterFree(B0, B, Account(), id, chunk, ok);
        Open();
        UnsealedAfter(B, Account(), id, chunk, ok);
        SameOthersThen(unsealed, qs, quotas, k);
        if !ok {
          size := 0;
        }
      }
    }

    /** A client derives a capability from one it loads, and stores it. */
    method Copy(i: nat, j: nat, d: Cap)
      requires Valid() && i < |ms.revoker.slots| && j < |ms.revoker.slots|
      requires Derives(Load(ms.revoker.marks, ms.revoker.slots[i]), d)
      modifies ms.revoker`slots
      ensures Valid() && Account() == old(Account()) && ms.revoker.slots == old(ms.revoker.slots)[j := d]
      ensures Runs.Reaches(old(ms.View()), ms.View())
    {
      hide *;
      Open();
      Peek();
      ghost var slots := ms.revoker.slots;
      DerivesChunk(claims, ms.revoker.marks, slots, i, d);
      ms.ClientCopy(i, j, d);
      ReceivedCaps(claims, slots, j, d);
      Peek();
      Close();
    }

    /** A client stores data through a capability that it loads. */
    method StoreData(i: nat, offset: nat)
      requires Valid() && i < |ms.revoker.slots| && Load(ms.revoker.marks, ms.revoker.slots[i]).Cap?
      requires offset < ms.revoker.slots[i].len
      modifies ms`dirty
      ensures Valid() && Account() == old(Account())
      ensures ms.dirty == old(ms.dirty) + {(ms.revoker.slots[i].base + offset) / 8}
      ensures Runs.Reaches(old(ms.View()), ms.View())
    {
      hide *;
      Open();
      Peek();
      ms.ClientStore(i, offset);
      StillNoneHeld(old(ms.View()), ms.View());
      Peek();
      Close();
    }

    /** The first half of heap_quarantine_flush. */
    method FlushStart() returns (done: bool, epoch: nat, ghost w: nat)
      requires Valid()
      modifies ms, ms.lists, ms.lists.small, ms.lists.tree, ms.quarantine, ms.revoker
      ensures Valid() && Account() == old(Account())
      ensures w == EvenEpoch(old(ms.View().p)) && epoch == w % WORD && w <= ms.revoker.sweeps + 1
      ensures (forall a | a in old(ms.waits) :: old(ms.waits)[a] <= w) && (done <==> ms.waits == map[])
      ensures ms.quarantine.finished == []
      ensures ms.quarantine.timely ==> Unfinished(ms.quarantine.View(), ms.revoker.sweeps)
      ensures Drained(old(ms.quarantine.View()), ms.quarantine.View(), old(ms.revoker.sweeps))
      ensures Fewer(Account().live, old(ms.revoker.slots), ms.revoker.slots)
      ensures Runs.Reaches(old(ms.View()), ms.View()) && old(ms.revoker.sweeps) <= ms.revoker.sweeps
      ensures ms.quarantine.timely == old(ms.quarantine.timely)
      ensures Paced(old(ms.quarantine.View()), old(ms.revoker.sweeps), ms.quarantine.View(), ms.revoker.sweeps, 3)
      ensures |ms.revoker.slots| == old(|ms.revoker.slots|)
    {
      hide *;
      Open();
      Peek();
      ghost var W := ms.View();
      done, epoch, w := ms.FlushStart();
      StaysQuiet(W);
    }

    /** The waiting and the second half of heap_quarantine_flush: see the method of the allocator state. */
    method FlushRetry(epoch: nat, ghost w: nat) returns (done: bool, ghost ended: nat)
      requires Valid() && epoch == w % WORD && w <= ms.revoker.sweeps + 1
      modifies ms, ms.lists, ms.lists.small, ms.lists.tree, ms.quarantine, ms.revoker
      ensures Valid() && Account() == old(Account()) && w <= ms.revoker.sweeps + 1
      ensures old(ms.revoker.sweeps) <= ended <= old(ms.revoker.sweeps + ms.revoker.sweeps % 2)
      ensures ended == Looked(old(ms.revoker.Now()), old(|ms.revoker.slots|)).sweeps
      ensures done <==> Finished(ended % WORD, epoch)
      ensures done && ms.quarantine.timely ==> FlushOutcome(old(ms.quarantine.View()), ended, ms.waits, w)
      ensures !done ==>
                ms.revoker.Now() == Waited(old(ms.revoker.Now()), old(|ms.revoker.slots|)) && ms.waits == old(ms.waits)
      ensures !done && ended < w + WORD / 2 ==> Runs.InVain(Runs.Turn(old(ms.View()), ms.View()), w)
      ensures Fewer(Account().live, old(ms.revoker.slots), ms.revoker.slots)
      ensures Runs.Reaches(old(ms.View()), ms.View()) && old(ms.revoker.sweeps) <= ms.revoker.sweeps
      ensures ms.quarantine.timely == old(ms.quarantine.timely)
      ensures Paced(old(ms.quarantine.View()), old(ms.revoker.sweeps), ms.quarantine.View(), ms.revoker.sweeps, 3)
      ensures |ms.revoker.slots| == old(|ms.revoker.slots|)
    {
      hide *;
      Open();
      Peek();
      ghost var W := ms.View();
      done, ended := ms.FlushRetry(epoch, w);
      StaysQuiet(W);
    }

    lemma {:induction false} StaysQuiet(W: World)
      requires ms.Sound() && NoneHeld(W.H) && Quiet(W, ms.View())
      requires var B := Books(ms.lo, ms.hi, LiveMap(W.H), claims, chain, home);
               BooksOk(B) && AllHeld(B, {}) && LedgerOk(B, quotas, initial, nextIdentifier)
      requires ClientCaps(claims, W.slots)
      ensures Valid() && Account() == Books(ms.lo, ms.hi, LiveMap(W.H), claims, chain, home)
      ensures W.p.sweeps <= ms.revoker.sweeps && Runs.Reaches(W, ms.View()) && |ms.revoker.slots| == |W.slots|
      ensures Fewer(Account().live, W.slots, ms.revoker.slots)
    {
      hide *;
      QuietHeld(W, ms.View());
      QuietBooks(W, ms.View());
      Peek();
      FewerLength(LiveMap(W.H), W.slots, ms.View().slots);
      FewerClientCaps(claims, LiveMap(W.H), W.slots, ms.revoker.slots);
      Close();
    }
  }

  /** Quota k exists, and has an identifier or can get one. */
  predicate Usable(quotas: seq<Quota>, next: nat, k: nat)
  {
    k < |quotas| && (quotas[k].identifier != 0 || next < MAX_IDENTIFIERS)
  }

  /** The identifier of quota k from its first use on, where next is the next one to give out. */
  function IdentifierOf(quotas: seq<Quota>, next: nat, k: nat): (id: nat)
  {
    if k < |quotas| && quotas[k].identifier != 0 then quotas[k].identifier else next
  }

  /** Only quota k changes, and it has its identifier if it may be used. */
  ghost predicate Enrolled(quotas: seq<Quota>, next: nat, quotas': seq<Quota>, next': nat, k: nat)
  {
    && |quotas'| == |quotas| && (forall i: nat | i < |quotas| && i != k :: quotas'[i] == quotas[i])
    && if Usable(quotas, next, k) then
         && quotas'[k].identifier == IdentifierOf(quotas, next, k)
         && next' == if quotas[k].identifier != 0 then next else next + 1
       else
         next' == next && quotas' == quotas
  }

  lemma {:induction false} EnrolledIs(quotas: seq<Quota>, next: nat, k: nat)
    ensures Usable(quotas, next, k) <==> k < |quotas| && (quotas[k].identifier != 0 || next < MAX_IDENTIFIERS)
    ensures k < |quotas| ==>
              IdentifierOf(quotas, next, k) == if quotas[k].identifier != 0 then quotas[k].identifier else next
    ensures !Usable(quotas, next, k) || quotas[k].identifier != 0 ==> Enrolled(quotas, next, quotas, next, k)
    ensures Usable(quotas, next, k) && quotas[k].identifier == 0 ==>
              Enrolled(quotas, next, quotas[k := quotas[k].(identifier := next)], next + 1, k)
  {
  }

  lemma {:induction false} EnrolledThen(quotas: seq<Quota>, next: nat, unsealed: seq<Quota>, quotas': seq<Quota>,
                                        next': nat, k: nat)
    requires Enrolled(quotas, next, unsealed, next', k) && Usable(quotas, next, k) && SameOthers(unsealed, quotas', k)
    ensures Enrolled(quotas, next, quotas', next', k) && |quotas'| == |quotas|
  {
  }

  lemma {:induction false} EnrolledLength(quotas: seq<Quota>, next: nat, quotas': seq<Quota>, next': nat, k: nat)
    requires Enrolled(quotas, next, quotas', next', k)
    ensures |quotas'| == |quotas|
  {
  }

  /** A new owner or new claims are no new allocation. */
  lemma {:induction false} ShrunkHolder(live: map<int, Alloc>, a: int, owner: nat, claims: nat, slots: seq<Cap>)
    requires a in live
    ensures Shrunk(live, slots, live[a := live[a].(owner := owner, claims := claims)], slots)
  {
  }

  /** What the interface reports. */
  datatype Outcome = Done | NotPermitted | Invalid | OutOfMemory

  /** A pointer covers the whole of an allocation. */
  predicate Covers(B: Books, mem: Cap)
    requires mem.Cap?
  {
    mem.chunk in B.live && mem.base == 8 * (mem.chunk + 1) && mem.len == 8 * B.live[mem.chunk].extent
  }

  /** Quota id may free through pointer mem: it owns the allocation and mem covers it, or it has a claim. */
  predicate MayFree(B: Books, id: nat, mem: Cap)
  {
    mem.Cap? && CanFree(B, id, mem.chunk, Covers(B, mem))
  }

  /** Quota id has let go of one hold on a, unless its count is saturated; everybody else's holds stay; and
      a stays allocated exactly if somebody still holds it. */
  ghost predicate LetGo(B: Books, B': Books, id: nat, a: int)
  {
    && HoldChange(B, B', id, a, Lowered(Holds(B, id, a), false)) && SameClients(B, B', a)
    && (a in B'.chain <==> exists i: nat :: i != 0 && Holds(B', i, a) > 0)
  }

  lemma {:induction false} FoldLetGo(B: Books, B': Books, id: nat, a: int)
    requires HoldChange(B, B', id, a, Lowered(Holds(B, id, a), false)) && SameClients(B, B', a)
    requires a in B'.chain <==> exists i: nat :: i != 0 && Holds(B', i, a) > 0
    ensures LetGo(B, B', id, a)
  {
  }

  /** Quota id holds a once more, unless its count is saturated, and nothing else changes. */
  ghost predicate Claimed(B: Books, B': Books, id: nat, a: int)
  {
    HoldChange(B, B', id, a, Incremented(Holds(B, id, a))) && SameClients(B, B', a) && a in B'.chain
  }

  /** The length in bytes of what was handed out of a. */
  predicate LengthIs(B: Books, a: int, size: int) { a in B.live && size == 8 * B.live[a].extent }

  lemma {:induction false} FoldLength(B: Books, a: int, size: int)
    requires a in B.live && size == 8 * B.live[a].extent
    ensures LengthIs(B, a, size)
  {
  }

  lemma {:induction false} FoldClaimed(B: Books, B': Books, id: nat, a: int)
    requires HoldChange(B, B', id, a, Incremented(Holds(B, id, a))) && SameClients(B, B', a) && a in B'.chain
    ensures Claimed(B, B', id, a)
  {
  }

  // ---------- Freeing everything ----------

  /** Quota id holds no unsealed allocation below an address. */
  ghost predicate Cleared(B: Books, id: nat, below: int)
  {
    forall a {:trigger ClearedAt(B, id, a)} | a < below :: ClearedAt(B, id, a)
  }

  predicate ClearedAt(B: Books, id: nat, a: int)
  {
    a in B.chain && a in B.live && !B.live[a].isSealed ==> Holds(B, id, a) == 0
  }

  /** Every other quota holds what it did, and quota id holds the sealed allocations as it did. */
  ghost predicate OthersHold(B: Books, B': Books, id: nat)
  {
    && (forall i: nat, b: int {:trigger Holds(B', i, b)} | i != 0 && i != id :: Holds(B', i, b) == Holds(B, i, b))
    && (forall b {:trigger SealedAt(B, B', id, b)} :: SealedAt(B, B', id, b))
  }

  predicate SealedAt(B: Books, B': Books, id: nat, b: int)
  {
    b in B.chain && b in B.live && B.live[b].isSealed ==>
      Holds(B', id, b) == Holds(B, id, b) && (b in B'.chain && b in B'.live ==> B'.live[b].isSealed)
  }

  lemma {:induction false} OthersHoldSelf(B: Books, id: nat)
    ensures OthersHold(B, B, id)
  {
  }

  lemma {:induction false} SameOthersThen(q: seq<Quota>, q': seq<Quota>, q'': seq<Quota>, k: nat)
    requires SameOthers(q, q', k) && SameOthers(q', q'', k)
    ensures SameOthers(q, q'', k)
  {
  }

  lemma {:induction false} StartWalk(W: World, B: Books, id: nat)
    requires Ok(W) && BooksOk(B) && B.lo == W.H.lo
    ensures W.H.lo in W.H.h && W.H.lo <= W.H.hi && Cleared(B, id, W.H.lo)
  {
    forall a | a < B.lo ensures ClearedAt(B, id, a) { assert PlaceAt(B, a); }
  }

  lemma {:induction false} ClearedLess(B: Books, id: nat, below: int, least: int)
    requires Cleared(B, id, below) && least <= below
    ensures Cleared(B, id, least)
  {
  }

  /** From one chunk to the next: there is no allocation in between. */
  lemma {:induction false} WalkOn(W: World, B: Books, id: nat, chunk: int)
    requires Ok(W) && BooksOk(B) && B.live == LiveMap(W.H) && chunk in W.H.h && Cleared(B, id, chunk + 1)
    ensures chunk < Next(W.H.h, chunk) <= W.H.hi + 1 && (Next(W.H.h, chunk) <= W.H.hi ==> Next(W.H.h, chunk) in W.H.h)
    ensures Cleared(B, id, Next(W.H.h, chunk))
  {
    FormedAt(W.H.h, W.H.lo, W.H.hi, chunk);
    forall a | a < Next(W.H.h, chunk) ensures ClearedAt(B, id, a) {
      if a in B.live {
        LiveBounds(W, a);
        assert Apart(W.H.h, chunk, a);
        assert a < chunk + 1;
      }
    }
  }

  lemma {:induction false} ChunkFacts(W: World, a: int)
    requires Ok(W) && 0 < W.H.lo && a in W.H.h
    ensures a >= 0 && W.H.h[a].currSize >= 1
  {
    assert Linked(W.H.h, W.H.lo, W.H.hi, a);
  }

  /** A chunk that is free or sealed needs no freeing. */
  lemma {:induction false} SkippedClear(W: World, B: Books, id: nat, chunk: int)
    requires Ok(W) && B.live == LiveMap(W.H) && chunk in W.H.h && Cleared(B, id, chunk)
    ensures !(W.H.h[chunk].currInUse && !W.H.h[chunk].isSealed) ==> Cleared(B, id, chunk + 1)
    ensures chunk in B.live ==>
              W.H.h[chunk].isSealed == B.live[chunk].isSealed && W.H.h[chunk].currSize == B.live[chunk].size
  {
    if chunk in B.live { LiveBounds(W, chunk); }
    if !(W.H.h[chunk].currInUse && !W.H.h[chunk].isSealed) {
      var next := chunk + 1;
      forall a | a < next ensures ClearedAt(B, id, a) { if a < chunk { assert ClearedAt(B, id, a); } }
    }
  }

  /** After letting go of everything on one unsealed chunk. */
  lemma {:induction false} AfterFree(B0: Books, B: Books, B': Books, id: nat, chunk: int, ok: bool)
    requires BooksOk(B) && id != 0 && Cleared(B, id, chunk) && OthersHold(B0, B, id) && SameClients(B, B', chunk)
    requires chunk in B.live ==> !B.live[chunk].isSealed
    requires ok <==> CanFree(B, id, chunk, true)
    requires !ok ==> B' == B
    requires ok ==> HoldChange(B, B', id, chunk, Lowered(Holds(B, id, chunk), true))
    ensures Cleared(B', id, chunk + 1) && OthersHold(B0, B', id)
  {
    var next := chunk + 1;
    forall a | a < next ensures ClearedAt(B', id, a) {
      assert PlaceAt(B, a) && SealAt(B, B', a);
      if a < chunk { assert ClearedAt(B, id, a); }
    }
    forall b ensures SealedAt(B0, B', id, b) {
      assert SealedAt(B0, B, id, b) && SealAt(B, B', b) && PlaceAt(B, b);
    }
  }

  /** The sizes of the unsealed allocations that quota id holds. */
  function Unsealed(B: Books, id: nat): (m: map<int, nat>)
  {
    map a | a in B.live && a in B.chain && !B.live[a].isSealed && Holds(B, id, a) > 0 :: B.live[a].size
  }

  lemma {:induction false} UnsealedAfter(B: Books, B': Books, id: nat, chunk: int, ok: bool)
    requires BooksOk(B) && BooksOk(B') && id != 0 && SameClients(B, B', chunk)
    requires chunk in B.live ==> !B.live[chunk].isSealed
    requires (ok <==> CanFree(B, id, chunk, true)) && (!ok ==> B' == B)
    requires ok ==> HoldChange(B, B', id, chunk, Lowered(Holds(B, id, chunk), true))
    ensures ok ==> chunk in B.live && Sum(Unsealed(B, id)) == B.live[chunk].size + Sum(Unsealed(B', id))
    ensures !ok ==> Sum(Unsealed(B', id)) == Sum(Unsealed(B, id))
  {
    if ok {
      var m, m' := Unsealed(B, id), Unsealed(B', id);
      assert PlaceAt(B, chunk);
      forall a | a != chunk ensures (a in m' <==> a in m) && (a in m ==> m'[a] == m[a]) {
        assert PlaceAt(B, a) && PlaceAt(B', a) && SealAt(B, B', a);
        assert a in B'.chain <==> a in B.chain;
        assert Holds(B', id, a) == Holds(B, id, a);
      }
      assert Holds(B', id, chunk) == 0;
      assert m' == m - {chunk};
      SumRemove(m, chunk);
    }
  }

  lemma {:induction false} NothingUnsealed(B: Books, id: nat, below: int)
    requires BooksOk(B) && Cleared(B, id, below) && B.hi <= below
    ensures Sum(Unsealed(B, id)) == 0
  {
    forall a | a in Unsealed(B, id) ensures Unsealed(B, id)[a] == 0 { assert PlaceAt(B, a) && ClearedAt(B, id, a); }
    SumZero(Unsealed(B, id));
  }

  lemma {:induction false} DerivesChunk(claims: map<int, Claim>, marks: set<int>, slots: seq<Cap>, i: nat, d: Cap)
    requires ClientCaps(claims, slots) && i < |slots| && Derives(Load(marks, slots[i]), d)
    ensures d.Cap? ==> d.chunk !in claims
  {
  }

  lemma {:induction false} StillNoneHeld(W: World, W': World)
    requires NoneHeld(W.H) && W'.H.use == W.H.use && W'.H.waits == W.H.waits
    ensures NoneHeld(W'.H)
  {
    forall a ensures !Held(W'.H, a) { assert !Held(W.H, a); }
  }

  lemma {:induction false} NoCapIs(c: Cap)
    requires !c.Cap?
    ensures c == NoCap
  {
  }

  lemma {:induction false} LoadIs(marks: set<int>, c: Cap)
    requires Load(marks, c).Cap?
    ensures Load(marks, c) == c
  {
  }

  /** A pointer that loads is into a client allocation. */
  lemma {:induction false} PointsInto(W: World, B: Books, i: nat)
    requires Ok(W) && BooksOk(B) && ClientCaps(B.claims, W.slots) && B.live == LiveMap(W.H) && i < |W.slots|
    requires Load(W.H.marks, W.slots[i]).Cap?
    ensures W.slots[i].Cap? && W.slots[i].base >= 0 && W.slots[i].chunk in B.chain && W.slots[i].chunk in B.live
  {
    LoadsLive(W, i);
    assert PlaceAt(B, W.slots[i].chunk);
  }

  /** allocation_start finds the allocation of a pointer that loads. */
  lemma {:induction false} FindsChunk(W: World, i: nat, r: int)
    requires Ok(W) && 0 < W.H.lo && i < |W.slots| && Load(W.H.marks, W.slots[i]).Cap? && W.slots[i].Cap?
    requires Located(W.H, W.slots[i].base / 8, r)
    ensures r == W.slots[i].chunk && r in W.H.h && W.H.h[r].currInUse && r >= 0 && W.H.h[r].currSize >= 1
  {
    LoadsLive(W, i);
    var c := W.slots[i];
    LiveBounds(W, c.chunk);
    assert UseAt(W.H, c.chunk);
    var g := c.base / 8;
    assert c.chunk < g < Next(W.H.h, c.chunk);
    assert c.chunk in W.H.use;
    assert Linked(W.H.h, W.H.lo, W.H.hi, c.chunk);
  }

  lemma {:induction false} PointerLives(W: World, i: nat)
    requires Ok(W) && i < |W.slots| && Load(W.H.marks, W.slots[i]).Cap?
    ensures Lives(LiveMap(W.H), W.slots[i])
  {
    LoadsLive(W, i);
  }

  lemma {:induction false} MayFreeIs(B: Books, id: nat, mem: Cap, isPrecise: bool)
    requires BooksOk(B) && mem.Cap? && mem.chunk in B.live && mem.chunk in B.chain && mem.chunk >= 0
    requires B.live[mem.chunk].size >= 1
    requires var base := 8 * (mem.chunk + 1);
             isPrecise <==> base == mem.base && BodyLength(base, 8 * B.live[mem.chunk].size - 8) == mem.len
    ensures MayFree(B, id, mem) <==> CanFree(B, id, mem.chunk, isPrecise)
  {
    hide BooksOk, ClaimCount, BodyLength;
    BodyIsExtent(B, mem.chunk);
  }

  /** A chunk in use is a client's, or carries neither owner nor claims: a record, a quarantined chunk or the
      sentinel. */
  lemma {:induction false} Kinds(W: World, B: Books, a: int)
    requires Ok(W) && NoneHeld(W.H) && BooksOk(B) && B.live == LiveMap(W.H) && a in W.H.h && W.H.h[a].currInUse
    ensures a in B.chain ==> a in B.live && W.H.h[a].owner == B.live[a].owner && W.H.h[a].claims == B.live[a].claims
    ensures a !in B.chain ==> W.H.h[a].owner == 0 && W.H.h[a].claims == 0
  {
    assert PlaceAt(B, a) && Linked(W.H.h, W.H.lo, W.H.hi, a);
    if a in B.live {
      LiveBounds(W, a);
      assert a in B.claims ==> RecordAt(B, a);
    } else if a == W.H.hi {
      assert FlagsAt(W.H.h, W.H.lo, W.H.hi, a);
    } else {
      assert a in InUse(W.H.h, W.H.hi) && UseAt(W.H, a) && !Held(W.H, a);
      assert !Live(W.H, a);
    }
  }

  /** How many references quota id has through a claim. */
  function ClaimCount(B: Books, id: nat, a: int): (n: nat)
  {
    if a in B.chain && Recorded(B.claims, B.chain[a]) then CountIn(B.claims, B.chain[a], id) else 0
  }

  /** Quota id may free a: as its owner with a capability to all of it, or as a claimant. */
  predicate CanFree(B: Books, id: nat, a: int, isPrecise: bool)
  {
    (isPrecise && a in B.chain && a in B.live && B.live[a].owner == id) || ClaimCount(B, id, a) > 0
  }

  lemma {:induction false} CanFreeIs(B: Books, id: nat, a: int, isPrecise: bool)
    requires BooksOk(B) && id != 0
    ensures CanFree(B, id, a, isPrecise) <==>
            (isPrecise && a in B.chain && a in B.live && B.live[a].owner == id) || ClaimCount(B, id, a) > 0
  {
  }

  /** Who may free: a quota that holds the allocation, and if that is as its owner, with a capability to all of it. */
  lemma {:induction false} CanFreeWhen(B: Books, id: nat, a: int, isPrecise: bool)
    requires BooksOk(B) && id != 0
    ensures CanFree(B, id, a, isPrecise) <==>
            Holds(B, id, a) > 0 && (isPrecise || (a in B.live ==> B.live[a].owner != id))
  {
    assert PlaceAt(B, a);
    if a in B.chain && a in B.live && B.live[a].owner == id {
      ChainFacts(B, a);
      forall i: nat | i < |B.chain[a]| ensures B.claims[B.chain[a][i]].owner != id { FoundHolds(B, a, i); }
      CountNone(B.claims, B.chain[a], id);
    }
  }

  lemma {:induction false} NotChained(B: Books, a: int)
    requires BooksOk(B) && a !in B.live
    ensures a !in B.chain
  {
    assert PlaceAt(B, a);
  }

  lemma {:induction false} JoinClaims(B: Books, a: int, c: int, x: Alloc, id: nat)
    requires a in B.live && a in B.chain && BooksOk(Join(B, a, c, x, id))
    ensures ClaimCount(Join(B, a, c, x, id), id, a) > 0
  {
    var B' := Join(B, a, c, x, id);
    ChainFacts(B', a);
    assert B'.chain[a][0] == c && B'.claims[c].owner == id;
    FoundHolds(B', a, 0);
  }

  lemma {:induction false} ClaimantMayFree(B: Books, id: nat, mem: Cap)
    requires mem.Cap? && ClaimCount(B, id, mem.chunk) > 0
    ensures MayFree(B, id, mem)
  {
  }

  /** Allocating and then freeing leaves everybody with what they held before. */
  lemma {:induction false} AllocateThenFree(B: Books, B': Books, B'': Books, id: nat, r: AllocationResult, bytes: nat,
                                            isSealed: bool, before: nat, after: nat)
    requires BooksOk(B) && id != 0 && Entered(B, B', id, r, bytes, isSealed, before, after)
    requires LetGo(B', B'', id, r.chunk)
    ensures forall i: nat, b: int | i != 0 :: Holds(B'', i, b) == Holds(B, i, b)
    ensures r.chunk !in B''.chain
  {
    hide BooksOk, Enter, CountIn;
    NotChained(B, r.chunk);
    forall i: nat, b: int | i != 0 ensures Holds(B'', i, b) == Holds(B, i, b) {
      assert Holds(B', i, b) == if i == id && b == r.chunk then 1 else Holds(B, i, b);
    }
  }

  /** Claiming and then freeing does so exactly if the claim did not saturate the count. */
  lemma {:induction false} ClaimThenFree(B: Books, B': Books, B'': Books, id: nat, a: int)
    requires id != 0 && Claimed(B, B', id, a) && LetGo(B', B'', id, a)
    ensures (forall i: nat, b: int | i != 0 :: Holds(B'', i, b) == Holds(B, i, b)) <==> Holds(B, id, a) != MAX_COUNT - 1
  {
    hide Holds;
    assert Holds(B', id, a) == Incremented(Holds(B, id, a));
    assert Holds(B'', id, a) == Lowered(Holds(B', id, a), false);
    forall i: nat, b: int | i != 0 && !(i == id && b == a) ensures Holds(B'', i, b) == Holds(B, i, b) {
      assert Holds(B', i, b) == Holds(B, i, b);
    }
  }

  lemma {:induction false} LoweredOne(freeAll: bool)
    ensures Lowered(1, freeAll) == 0
  {
  }

  lemma {:induction false} KindChain(B: Books, a: int, head: int)
    requires BooksOk(B) && (a in B.chain ==> a in B.live && head == B.live[a].claims) && (a !in B.chain ==> head == 0)
    ensures var s := if a in B.chain then B.chain[a] else [];
            && Links(B.claims, B.lo, head, s) && Recorded(B.claims, s) && 0 < B.lo
            && forall j: nat | j < |s| :: s[j] >= B.lo
  {
    if a in B.chain { ChainFacts(B, a); }
  }

  lemma {:induction false} NoClaims(B: Books, a: int, id: nat, s: seq<int>)
    requires s == (if a in B.chain then B.chain[a] else []) && Recorded(B.claims, s)
    requires forall j: nat | j < |s| :: B.claims[s[j]].owner != id
    ensures ClaimCount(B, id, a) == 0
  {
    if a in B.chain { CountNone(B.claims, s, id); }
  }

  lemma {:induction false} BypassedIs(claims: map<int, Claim>, s: seq<int>, i: nat)
    requires i < |s| && Recorded(claims, s)
    ensures i == 0 ==> Bypassed(claims, s, i) == claims
    ensures i > 0 ==> s[i - 1] in claims && s[i] in claims
    ensures i > 0 ==> Bypassed(claims, s, i) == claims[s[i - 1] := claims[s[i - 1]].(next := claims[s[i]].next)]
  {
  }

  lemma {:induction false} BypassedKeys(claims: map<int, Claim>, s: seq<int>, i: nat)
    requires i < |s| && Recorded(claims, s)
    ensures (Bypassed(claims, s, i) - {s[i]}).Keys <= claims.Keys
  {
  }

  lemma {:induction false} LeaveIs(B: Books, a: int, i: nat)
    requires a in B.live && a in B.chain && i < |B.chain[a]| && Recorded(B.claims, B.chain[a])
    ensures var c := B.chain[a][i];
            Leave(B, a, i) == Books(B.lo, B.hi,
              (if i == 0 then B.live[a := B.live[a].(claims := B.claims[c].next)] else B.live) - {c},
              Bypassed(B.claims, B.chain[a], i) - {c}, B.chain[a := Drop(B.chain[a], i)], B.home - {c})
  {
  }

  /** A claim record is a live chunk of the allocator's own, with one granule of content. */
  lemma {:induction false} RecordAlloc(B: Books, a: int, i: nat)
    requires BooksOk(B) && a in B.live && a in B.chain && i < |B.chain[a]| && Recorded(B.claims, B.chain[a])
    ensures var c := B.chain[a][i]; c in B.live && c != a && c in B.claims
    ensures var c := B.chain[a][i]; B.live[c].owner == 0 && B.live[c].claims == 0 && B.live[c].extent == 1
  {
    LeaveFacts(B, a, i);
    assert RecordAt(B, B.chain[a][i]);
  }

  /** What is left of n references after one is removed, or all. */
  function Lowered(n: nat, freeAll: bool): (r: nat)
  {
    if freeAll then 0 else if n == MAX_COUNT then n else if n == 0 then 0 else n - 1
  }

  /** A count of n references after some more are added (true) or dropped (false) one by one. */
  function Tally(n: nat, ops: seq<bool>): (r: nat)
    decreases ops
  {
    if ops == [] then n else Tally(if ops[0] then Incremented(n) else Lowered(n, false), ops[1..])
  }

  /** The same without saturation. */
  function Owed(n: int, ops: seq<bool>): (r: int)
    decreases ops
  {
    if ops == [] then n else Owed(if ops[0] then n + 1 else n - 1, ops[1..])
  }

  /** The references do not run out before the last of these operations. */
  predicate NotYetOut(n: nat, ops: seq<bool>)
    decreases ops
  {
    ops == [] || (n > 0 && NotYetOut(if ops[0] then Incremented(n) else Lowered(n, false), ops[1..]))
  }

  /** A count is right, or it is saturated for good: no record goes while references are owed. */
  lemma {:induction false} NeverEarly(n: nat, ops: seq<bool>)
    requires n <= MAX_COUNT && NotYetOut(n, ops)
    ensures Tally(n, ops) == Owed(n, ops) || Tally(n, ops) == MAX_COUNT
    ensures n == MAX_COUNT ==> Tally(n, ops) == MAX_COUNT
    decreases ops
  {
    if ops != [] { NeverEarly(if ops[0] then Incremented(n) else Lowered(n, false), ops[1..]); }
  }

  lemma {:induction false} LoweredIs(n: nat, freeAll: bool)
    requires 1 <= n <= MAX_COUNT
    ensures Lowered(n, freeAll) == if freeAll then 0 else if n == 0xFFFF_FFFF then n else n - 1
  {
  }

  lemma {:induction false} SameClientsSelf(B: Books, a: int)
    ensures SameClients(B, B, a)
  {
  }

  /** Only quota k changes, and it keeps its identifier. */
  predicate SameOthers(quotas: seq<Quota>, quotas': seq<Quota>, k: nat)
  {
    && |quotas'| == |quotas| && (forall i: nat | i < |quotas| && i != k :: quotas'[i] == quotas[i])
    && (k < |quotas| ==> quotas'[k].identifier == quotas[k].identifier)
  }

  lemma {:induction false} SameOthersSelf(quotas: seq<Quota>, k: nat)
    ensures SameOthers(quotas, quotas, k)
  {
  }

  lemma {:induction false} SameOthersStep(quotas: seq<Quota>, k: nat, left: nat)
    requires k < |quotas|
    ensures SameOthers(quotas, quotas[k := quotas[k].(quota := left)], k)
  {
  }

  lemma {:induction false} ChainEmpty(B: Books, a: int)
    requires BooksOk(B) && a in B.chain && a in B.live
    ensures B.live[a].claims == 0 <==> B.chain[a] == []
  {
    assert PlaceAt(B, a) && UserAt(B, a);
    if B.chain[a] != [] { assert PlaceAt(B, B.chain[a][0]); }
  }

  lemma {:induction false} BodyIsExtent(B: Books, a: int)
    requires BooksOk(B) && a in B.chain && a in B.live
    ensures a >= 0 && B.live[a].size >= 1 && 8 * B.live[a].extent == BodyLength(8 * (a + 1), 8 * B.live[a].size - 8)
  {
    assert LengthAt(B, a);
  }

  lemma {:induction false} ReleasedIs(B: Books, a: int)
    requires a in B.live && a in B.chain
    ensures B.live[a].owner == 0 && B.chain[a] == [] ==>
              Released(B, a) == Books(B.lo, B.hi, B.live - {a}, B.claims, B.chain - {a}, B.home)
    ensures !(B.live[a].owner == 0 && B.chain[a] == []) ==> Released(B, a) == B
  {
  }

  lemma {:induction false} ReleaseLedger(B: Books, a: int, quotas: seq<Quota>, initial: seq<nat>, next: nat)
    requires BooksOk(B) && AllHeld(B, {a}) && LedgerOk(B, quotas, initial, next) && a in B.live && a in B.chain
    ensures LedgerOk(Released(B, a), quotas, initial, next)
  {
    hide BooksOk;
    ReleaseStep(B, a, next);
    var B' := Released(B, a);
    forall k: nat | k < |quotas| ensures Conserved(B', quotas[k], initial[k]) {
      assert Conserved(B, quotas[k], initial[k]);
      var m := Charge(B', quotas[k].identifier);
    }
  }

  /** A client allocation stays exactly as long as somebody holds it. */
  lemma {:induction false} StillHeld(B: Books, a: int)
    requires BooksOk(B) && AllHeld(B, {})
    ensures a in B.chain <==> exists i: nat :: i != 0 && Holds(B, i, a) > 0
  {
    assert PlaceAt(B, a);
    if a in B.chain {
      assert HeldAt(B, a);
      HeldIffSomeone(B, a);
    }
  }

  lemma {:induction false} DisownIs(B: Books, a: int)
    requires a in B.live
    ensures Disown(B, a) ==
            Books(B.lo, B.hi, B.live[a := B.live[a].(owner := 0, claims := B.live[a].claims)], B.claims, B.chain,
                  B.home)
  {
  }

  lemma {:induction false} ReferLedger(B: Books, c: int, n: nat, quotas: seq<Quota>, initial: seq<nat>, next: nat)
    requires BooksOk(B) && LedgerOk(B, quotas, initial, next) && c in B.claims && 1 <= n <= MAX_COUNT
    requires Known(Refer(B, c, n), next)
    ensures LedgerOk(Refer(B, c, n), quotas, initial, next)
  {
    forall k: nat | k < |quotas| ensures Conserved(Refer(B, c, n), quotas[k], initial[k]) {
      ReferCharge(B, c, n, quotas[k].identifier);
      assert Conserved(B, quotas[k], initial[k]);
    }
  }

  /** A claim record is asked for as it is, without alignment. */
  lemma {:induction false} RecordRequest()
    ensures 8 < WORD && AlignSize(8) == 8 && Unit(8) == 1
  {
    assert Exponent(8) == 0;
  }

  lemma {:induction false} RecordIs(r: AllocationResult, x: Alloc)
    requires r.Allocated? && Delivered(8, r, x, true)
    ensures x.size >= 2 && x.extent == 1
  {
  }

  lemma {:induction false} OtherLive(W: World, W': World, a: int, c: int, x: Alloc)
    requires Handed(W, W', c, x) && a in LiveMap(W.H)
    ensures a != c && a in LiveMap(W'.H) && LiveMap(W'.H)[a] == LiveMap(W.H)[a]
  {
  }

  lemma {:induction false} JoinIs(B: Books, a: int, c: int, x: Alloc, id: nat)
    requires a in B.live && a in B.chain && B.lo <= c
    ensures var y := B.live[a];
            Join(B, a, c, x, id) == Books(B.lo, B.hi,
              B.live[c := x][a := y.(owner := if y.owner == id then 0 else y.owner, claims := c + 1 - B.lo)],
              B.claims[c := Claim(id, y.claims, if y.owner == id then 2 else 1)],
              B.chain[a := [c] + B.chain[a]], B.home[c := a])
  {
  }

  lemma {:induction false} KnownBooks(B: Books, quotas: seq<Quota>, initial: seq<nat>, next: nat)
    requires LedgerOk(B, quotas, initial, next)
    ensures Known(B, next)
  {
  }

  lemma {:induction false} EnterIs(B: Books, a: int, x: Alloc)
    ensures Enter(B, a, x) == Books(B.lo, B.hi, B.live[a := x], B.claims, B.chain[a := []], B.home)
  {
  }

  lemma {:induction false} DeliveredIs(bytes: nat, r: AllocationResult, x: Alloc)
    requires r.Allocated? && Delivered(bytes, r, x, false)
    ensures r.chunk > 0 && x.size >= 2 && 8 * x.extent == r.length == BodyLength(8 * (r.chunk + 1), 8 * x.size - 8)
    ensures bytes <= r.length && IsPreciseRange(8 * (r.chunk + 1), r.length)
  {
  }

  /** What a client needs to keep its new capability. */
  lemma {:induction false} GotIt(W: World, a: int)
    requires Ok(W) && a in LiveMap(W.H)
    ensures Live(W.H, a) && a in W.H.use && W.H.use[a].extent == LiveMap(W.H)[a].extent
    ensures W.H.use[a].gen == LiveMap(W.H)[a].gen
  {
    LiveBounds(W, a);
  }

  lemma {:induction false} NotRecord(B: Books, a: int)
    requires BooksOk(B) && a in B.chain
    ensures a !in B.claims && a in B.live
  {
    assert PlaceAt(B, a);
  }

  lemma {:induction false} ReceivedCaps(claims: map<int, Claim>, slots: seq<Cap>, j: nat, d: Cap)
    requires ClientCaps(claims, slots) && j < |slots| && (d.Cap? ==> d.chunk !in claims)
    ensures ClientCaps(claims, slots[j := d])
  {
  }

  lemma {:induction false} Identifiers(B: Books, quotas: seq<Quota>, initial: seq<nat>, next: nat, k: nat)
    requires LedgerOk(B, quotas, initial, next) && k < |quotas|
    ensures quotas[k].identifier < next && 1 <= next
  {
  }

  lemma {:induction false} FirstBooks(lo: int, hi: int, quotas: seq<Quota>, initial: seq<nat>)
    requires 1 < lo < hi < lo + HEAD && |quotas| == |initial|
    requires forall k: nat | k < |quotas| :: quotas[k] == Quota(initial[k], 0)
    ensures var B := Books(lo, hi, map[], map[], map[], map[]);
            BooksOk(B) && AllHeld(B, {}) && LedgerOk(B, quotas, initial, 1)
  {
    var B := Books(lo, hi, map[], map[], map[], map[]);
    forall a ensures PlaceAt(B, a) && KnownAt(B, 1, a) {}
  }
}
