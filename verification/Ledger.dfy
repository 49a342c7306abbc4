/** Quotas: what each started with, what is left, and what it is charged for.  Each public operation is a
    step of the books that conserves every quota and moves one hold. */
module Ledger {
  import opened Sums
  import opened Accounts
  import opened Bounds
  import opened Claims
  import opened Books
  import opened Charges

  const MAX_IDENTIFIERS := 0x2000  // identifiers fit 13 bits

  /** PrivateAllocatorCapabilityState: what is left, and the identifier, 0 until first used. */
  datatype Quota = Quota(quota: nat, identifier: nat)

  /** What is left and what is charged add up to what there was at first. */
  ghost predicate Conserved(B: Books, q: Quota, start: nat)
  {
    if q.identifier == 0 then q.quota == start else q.quota + 8 * Sum(Charge(B, q.identifier)) == start
  }

  ghost predicate LedgerOk(B: Books, quotas: seq<Quota>, initial: seq<nat>, next: nat)
  {
    && |quotas| == |initial| && 1 <= next <= MAX_IDENTIFIERS && Known(B, next)
    && (forall k: nat | k < |quotas| :: quotas[k].identifier < next && Conserved(B, quotas[k], initial[k]))
    && (forall j: nat, k: nat | j < k < |quotas| && quotas[j].identifier != 0 ::
          quotas[j].identifier != quotas[k].identifier)
  }

  /** What quota id is charged changes by d granules, and nothing else. */
  ghost predicate ChargedBy(B: Books, B': Books, id: nat, d: int)
  {
    forall i: nat {:trigger Charge(B', i)} | i != 0 ::
      Sum(Charge(B', i)) == Sum(Charge(B, i)) + if i == id then d else 0
  }

  /** Quota id now holds allocation a n times; every other hold is as before. */
  ghost predicate HoldChange(B: Books, B': Books, id: nat, a: int, n: nat)
  {
    forall i: nat, b: int {:trigger Holds(B', i, b)} | i != 0 ::
      Holds(B', i, b) == if i == id && b == a then n else Holds(B, i, b)
  }

  /** Other client allocations neither come nor go, and none changes but for its owner and claims. */
  ghost predicate SameClients(B: Books, B': Books, a: int)
  {
    && (forall b {:trigger b in B'.chain} | b != a :: b in B'.chain <==> b in B.chain)
    && (forall b {:trigger SealAt(B, B', b)} :: SealAt(B, B', b))
  }

  predicate SealAt(B: Books, B': Books, b: int)
  {
    b in B'.chain && b in B'.live && b in B.live ==>
      && B'.live[b].isSealed == B.live[b].isSealed && B'.live[b].size == B.live[b].size
      && B'.live[b].gen == B.live[b].gen && B'.live[b].extent == B.live[b].extent
  }

  lemma {:induction false} LedgerStep(B: Books, B': Books, quotas: seq<Quota>, initial: seq<nat>, next: nat, k: nat,
                                      d: int, left: nat)
    requires LedgerOk(B, quotas, initial, next) && k < |quotas| && quotas[k].identifier != 0
    requires ChargedBy(B, B', quotas[k].identifier, d) && left == quotas[k].quota - 8 * d && Known(B', next)
    ensures LedgerOk(B', quotas[k := quotas[k].(quota := left)], initial, next)
  {
    var quotas' := quotas[k := quotas[k].(quota := left)];
    forall j: nat | j < |quotas'| ensures quotas'[j].identifier < next && Conserved(B', quotas'[j], initial[j]) {
      assert Conserved(B, quotas[j], initial[j]);
      var m := Charge(B', quotas[j].identifier);
    }
  }

  /** A quota gets its identifier when it is first used. */
  lemma {:induction false} LedgerNew(B: Books, quotas: seq<Quota>, initial: seq<nat>, next: nat, k: nat)
    requires BooksOk(B) && LedgerOk(B, quotas, initial, next) && k < |quotas| && quotas[k].identifier == 0
    requires next < MAX_IDENTIFIERS
    ensures LedgerOk(B, quotas[k := quotas[k].(identifier := next)], initial, next + 1)
  {
    UnknownCharge(B, next);
    var quotas' := quotas[k := quotas[k].(identifier := next)];
    var n := next + 1;
    forall a ensures KnownAt(B, n, a) { assert KnownAt(B, next, a); }
    forall j: nat | j < |quotas'| ensures quotas'[j].identifier < next + 1 && Conserved(B, quotas'[j], initial[j]) {
      assert Conserved(B, quotas[j], initial[j]);
    }
  }

  // ---------- Allocating ----------

  lemma {:induction false} EnterStep(B: Books, a: int, x: Alloc, next: nat)
    requires BooksOk(B) && AllHeld(B, {}) && Known(B, next) && a !in B.live && 0 < x.owner < next
    requires B.lo <= a < B.hi && x.size >= 2 && x.claims == 0 && 8 * x.extent == BodyLength(8 * (a + 1), 8 * x.size - 8)
    ensures var B' := Enter(B, a, x);
            && BooksOk(B') && AllHeld(B', {}) && Known(B', next)
            && ChargedBy(B, B', x.owner, x.size) && HoldChange(B, B', x.owner, a, 1) && SameClients(B, B', a)
  {
    hide BooksOk, BodyLength, Holds, Charge;
    var B' := Enter(B, a, x);
    EnterOk(B, a, x);
    forall b | b in B'.live && b in B'.chain ensures HeldAt(B', b) {
      EnterPlace(B, a, b);
      if b != a { assert HeldAt(B, b); }
    }
    forall b ensures KnownAt(B', next, b) { assert KnownAt(B, next, b); EnterPlace(B, a, b); }
    forall i: nat | i != 0 ensures Sum(Charge(B', i)) == Sum(Charge(B, i)) + if i == x.owner then x.size else 0 {
      EnterCharge(B, a, x, i);
    }
    forall i: nat, b: int | i != 0 ensures Holds(B', i, b) == if i == x.owner && b == a then 1 else Holds(B, i, b) {
      EnterHolds(B, a, x, i, b);
      EnterPlace(B, a, a);
    }
  }

  lemma {:induction false} EnterPlace(B: Books, a: int, b: int)
    requires BooksOk(B) && a !in B.live
    ensures (b in B.chain ==> b in B.live) && a !in B.chain && a !in B.claims && forall i: nat :: Holds(B, i, a) == 0
  {
    assert PlaceAt(B, a) && PlaceAt(B, b);
  }

  // ---------- Claiming ----------

  /** One more reference, saturating. */
  function Incremented(n: nat): (r: nat) { if n == MAX_COUNT then n else n + 1 }

  lemma {:induction false} ReferStep(B: Books, c: int, n: nat, next: nat)
    requires BooksOk(B) && AllHeld(B, {}) && Known(B, next) && c in B.claims && 1 <= n <= MAX_COUNT
    ensures c in B.home
    ensures var B' := Refer(B, c, n);
            && BooksOk(B') && AllHeld(B', {}) && Known(B', next) && ChargedBy(B, B', B.claims[c].owner, 0)
            && HoldChange(B, B', B.claims[c].owner, B.home[c], n) && SameClients(B, B', B.home[c])
  {
    hide BooksOk, Holds, Charge;
    var B' := Refer(B, c, n);
    ReferOk(B, c, n);
    RecordHolds(B, c);
    forall b | b in B'.live && b in B'.chain ensures HeldAt(B', b) { assert HeldAt(B, b); }
    forall b ensures KnownAt(B', next, b) { assert KnownAt(B, next, b); }
    forall i: nat | i != 0 ensures Sum(Charge(B', i)) == Sum(Charge(B, i)) { ReferCharge(B, c, n, i); }
    forall i: nat, b: int | i != 0
      ensures Holds(B', i, b) == if i == B.claims[c].owner && b == B.home[c] then n else Holds(B, i, b)
    {
      ReferHolds(B, c, n, i, b);
    }
  }

  /** Quota id has no record on the chain of a. */
  predicate NoRecord(B: Books, a: int, id: nat)
    requires a in B.chain
  {
    Recorded(B.claims, B.chain[a]) && forall i: nat | i < |B.chain[a]| :: B.claims[B.chain[a][i]].owner != id
  }

  lemma {:induction false} JoinStep(B: Books, a: int, c: int, x: Alloc, id: nat, next: nat)
    requires BooksOk(B) && AllHeld(B, {}) && Known(B, next) && a in B.live && a in B.chain && c !in B.live
    requires 0 < id < next
    requires B.lo <= c < B.hi && x.size >= 2 && x.owner == 0 && x.claims == 0 && !x.isSealed && x.extent == 1
    requires NoRecord(B, a, id)
    ensures var B' := Join(B, a, c, x, id);
            && BooksOk(B') && AllHeld(B', {}) && Known(B', next)
            && ChargedBy(B, B', id, x.size + if B.live[a].owner == id then 0 else B.live[a].size)
            && HoldChange(B, B', id, a, Holds(B, id, a) + 1) && SameClients(B, B', a)
  {
    hide BooksOk, Holds, Charge;
    var B' := Join(B, a, c, x, id);
    JoinOk(B, a, c, x, id);
    JoinPlace(B, c);
    forall b | b in B'.live && b in B'.chain ensures HeldAt(B', b) { if b != a { assert HeldAt(B, b); } }
    forall b ensures KnownAt(B', next, b) { assert KnownAt(B, next, b); }
    var d := x.size + if B.live[a].owner == id then 0 else B.live[a].size;
    forall i: nat | i != 0 ensures Sum(Charge(B', i)) == Sum(Charge(B, i)) + if i == id then d else 0 {
      JoinCharge(B, a, c, x, id, i);
    }
    forall i: nat, b: int | i != 0
      ensures Holds(B', i, b) == if i == id && b == a then Holds(B, id, a) + 1 else Holds(B, i, b) {
      JoinHolds(B, a, c, x, id, i, b);
    }
  }

  lemma {:induction false} JoinPlace(B: Books, c: int)
    requires BooksOk(B) && c !in B.live
    ensures c !in B.chain
  {
    assert PlaceAt(B, c);
  }

  // ---------- Letting go ----------

  /** An allocation that nobody holds any more goes. */
  function Released(B: Books, a: int): (B': Books)
  {
    if a in B.live && a in B.chain && B.live[a].owner == 0 && B.chain[a] == [] then Retire(B, a) else B
  }

  lemma {:induction false} ReleaseStep(B: Books, a: int, next: nat)
    requires BooksOk(B) && AllHeld(B, {a}) && Known(B, next) && a in B.live && a in B.chain
    ensures var B' := Released(B, a);
            && BooksOk(B') && AllHeld(B', {}) && Known(B', next) && ChargedBy(B, B', 0, 0)
            && (forall i: nat, b: int {:trigger Holds(B', i, b)} | i != 0 :: Holds(B', i, b) == Holds(B, i, b))
            && SameClients(B, B', a) && (a in B'.chain <==> HeldAt(B, a))
  {
    hide BooksOk, Holds, Charge;
    var B' := Released(B, a);
    if B.live[a].owner == 0 && B.chain[a] == [] {
      RetireOk(B, a);
      forall i: nat | i != 0 ensures Sum(Charge(B', i)) == Sum(Charge(B, i)) { RetireCharge(B, a, i); }
      forall i: nat, b: int | i != 0 ensures Holds(B', i, b) == Holds(B, i, b) { RetireHolds(B, a, i, b); }
    }
    forall b | b in B'.live && b in B'.chain ensures HeldAt(B', b) { if b != a { assert HeldAt(B, b); } }
    forall b ensures KnownAt(B', next, b) { assert KnownAt(B, next, b); }
  }

  /** The owner lets go. */
  lemma {:induction false} DisownStep(B: Books, a: int, next: nat)
    requires BooksOk(B) && AllHeld(B, {}) && Known(B, next) && a in B.live && a in B.chain && B.live[a].owner != 0
    ensures var B' := Disown(B, a); var id := B.live[a].owner;
            && BooksOk(B') && AllHeld(B', {a}) && Known(B', next) && ChargedBy(B, B', id, 0 - B.live[a].size)
            && Holds(B, id, a) == 1 && HoldChange(B, B', id, a, 0) && SameClients(B, B', a)
  {
    hide BooksOk, Holds, Charge;
    var B', id := Disown(B, a), B.live[a].owner;
    DisownOk(B, a);
    DisownHolds(B, a, id, a);
    forall b | b in B'.live && b in B'.chain && b !in {a} ensures HeldAt(B', b) { assert HeldAt(B, b); }
    forall b ensures KnownAt(B', next, b) { assert KnownAt(B, next, b) && KnownAt(B, next, a); }
    forall i: nat | i != 0 ensures Sum(Charge(B', i)) == Sum(Charge(B, i)) + if i == id then 0 - B.live[a].size else 0 {
      DisownCharge(B, a, i);
    }
    forall i: nat, b: int | i != 0 ensures Holds(B', i, b) == if i == id && b == a then 0 else Holds(B, i, b) {
      DisownHolds(B, a, i, b);
    }
  }

  /** The last reference of a claimant goes. */
  lemma {:induction false} LeaveStep(B: Books, a: int, i: nat, next: nat)
    requires BooksOk(B) && AllHeld(B, {}) && Known(B, next)
    requires a in B.live && a in B.chain && i < |B.chain[a]| && Recorded(B.claims, B.chain[a])
    ensures var B' := Leave(B, a, i); var c := B.chain[a][i]; var id := B.claims[c].owner;
            && BooksOk(B') && AllHeld(B', {a}) && Known(B', next) && c in B.live
            && ChargedBy(B, B', id, -(B.live[c].size + B.live[a].size))
            && HoldChange(B, B', id, a, 0) && SameClients(B, B', a) && a in B'.live && a in B'.chain
  {
    hide BooksOk, Drop, Holds, Charge;
    var B', c := Leave(B, a, i), B.chain[a][i];
    var id := B.claims[c].owner;
    LeaveOk(B, a, i);
    LeaveFacts(B, a, i);
    forall b | b in B'.live && b in B'.chain && b !in {a} ensures HeldAt(B', b) { assert HeldAt(B, b); }
    forall b ensures KnownAt(B', next, b) { assert KnownAt(B, next, b); }
    var d := -(B.live[c].size + B.live[a].size);
    forall j: nat | j != 0 ensures Sum(Charge(B', j)) == Sum(Charge(B, j)) + if j == id then d else 0 {
      LeaveCharge(B, a, i, j);
    }
    forall j: nat, b: int | j != 0 ensures Holds(B', j, b) == if j == id && b == a then 0 else Holds(B, j, b) {
      LeaveHolds(B, a, i, j, b);
    }
  }

  lemma {:induction false} HoldThen(B: Books, B': Books, B'': Books, id: nat, a: int, n: nat)
    requires HoldChange(B, B', id, a, n) && SameClients(B, B', a) && SameClients(B', B'', a) && BooksOk(B')
    requires a in B'.chain
    requires forall i: nat, b: int {:trigger Holds(B'', i, b)} | i != 0 :: Holds(B'', i, b) == Holds(B', i, b)
    ensures HoldChange(B, B'', id, a, n) && SameClients(B, B'', a)
  {
    forall i: nat, b: int | i != 0 ensures Holds(B'', i, b) == if i == id && b == a then n else Holds(B, i, b) {
      assert Holds(B'', i, b) == Holds(B', i, b);
    }
    forall b | b != a ensures b in B''.chain <==> b in B.chain { assert b in B'.chain <==> b in B.chain; }
    forall b ensures SealAt(B, B'', b) { assert SealAt(B, B', b) && SealAt(B', B'', b) && PlaceAt(B', b); }
  }
}
