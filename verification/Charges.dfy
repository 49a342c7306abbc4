/** What each operation on the books does to the holds of every quota on every allocation, and to what
    every quota is charged. */
module Charges {
  import opened Trie
  import opened Sums
  import opened Accounts
  import opened Claims
  import opened Books

  // ---------- Holds ----------

  /** Record d keeps its quota and its count if it claims allocation b. */
  predicate KeptCount(B: Books, B': Books, b: int, d: int)
  {
    d in B.claims && d in B.home && B.home[d] == b ==>
      d in B'.claims && B'.claims[d].owner == B.claims[d].owner && B'.claims[d].count == B.claims[d].count
  }

  lemma {:induction false} HoldsSame(B: Books, B': Books, id: nat, b: int)
    requires BooksOk(B) && (b in B'.chain <==> b in B.chain)
    requires (b in B.chain ==> b in B'.live && B'.chain[b] == B.chain[b])
    requires b in B.chain && b in B.live ==> B'.live[b].owner == B.live[b].owner
    requires forall d {:trigger KeptCount(B, B', b, d)} :: KeptCount(B, B', b, d)
    ensures Holds(B', id, b) == Holds(B, id, b)
  {
    if b in B.chain {
      assert PlaceAt(B, b) && UserAt(B, b);
      var s := B.chain[b];
      forall i: nat | i < |s| ensures KeptCount(B, B', b, s[i]) && RecordFor(B, b, s[i]) {}
      CountSame(B.claims, B'.claims, s, id);
    }
  }

  /** A new allocation is held once, by its owner. */
  lemma {:induction false} EnterHolds(B: Books, a: int, x: Alloc, id: nat, b: int)
    requires BooksOk(B) && a !in B.live
    ensures Holds(Enter(B, a, x), id, b) == if b == a then (if x.owner == id then 1 else 0) else Holds(B, id, b)
  {
    var B' := Enter(B, a, x);
    assert PlaceAt(B, a);
    if b != a {
      assert PlaceAt(B, b);
      forall d ensures KeptCount(B, B', b, d) {}
      HoldsSame(B, B', id, b);
    }
  }

  /** Where a claim record stands. */
  lemma {:induction false} RecordIndex(B: Books, c: int) returns (a: int, i: nat)
    requires BooksOk(B) && c in B.claims
    ensures c in B.home && a == B.home[c] && a in B.live && a in B.chain && i < |B.chain[a]| && B.chain[a][i] == c
    ensures Recorded(B.claims, B.chain[a]) && OneEach(B.claims, B.chain[a]) && Distinct(B.chain[a])
    ensures B.claims[c].owner != B.live[a].owner
    ensures CountIn(B.claims, B.chain[a], B.claims[c].owner) == B.claims[c].count
  {
    assert PlaceAt(B, c) && RecordAt(B, c);
    a := B.home[c];
    assert PlaceAt(B, a) && UserAt(B, a);
    var j :| 0 <= j < |B.chain[a]| && B.chain[a][j] == c;
    i := j;
    assert RecordFor(B, a, B.chain[a][i]);
    CountAt(B.claims, B.chain[a], i);
  }

  /** The quota of a record holds its allocation as often as the record counts. */
  lemma {:induction false} RecordHolds(B: Books, c: int)
    requires BooksOk(B) && c in B.claims
    ensures c in B.home && Holds(B, B.claims[c].owner, B.home[c]) == B.claims[c].count >= 1
  {
    var a, i := RecordIndex(B, c);
    assert UserAt(B, a) && RecordFor(B, a, B.chain[a][i]);
  }

  /** Setting a count sets what its quota holds. */
  lemma {:induction false} ReferHolds(B: Books, c: int, n: nat, id: nat, b: int)
    requires BooksOk(B) && c in B.claims && 1 <= n <= MAX_COUNT
    ensures c in B.home
    ensures Holds(Refer(B, c, n), id, b) == if b == B.home[c] && id == B.claims[c].owner then n else Holds(B, id, b)
  {
    var B' := Refer(B, c, n);
    var a, i := RecordIndex(B, c);
    if b == a {
      var s := B.chain[a];
      if id == B.claims[c].owner {
        ReferOk(B, c, n);
        RecordHolds(B', c);
      } else {
        CountSame(B.claims, B'.claims, s, id);
      }
    } else {
      assert PlaceAt(B, b);
      forall d ensures KeptCount(B, B', b, d) {}
      HoldsSame(B, B', id, b);
    }
  }

  /** A new claim is one more hold for its quota, also for an owner who turns claimant. */
  lemma {:induction false} JoinHolds(B: Books, a: int, c: int, x: Alloc, owner: nat, id: nat, b: int)
    requires BooksOk(B) && a in B.live && a in B.chain && c !in B.live && owner != 0 && id != 0
    requires Recorded(B.claims, B.chain[a])
    requires forall i: nat | i < |B.chain[a]| :: B.claims[B.chain[a][i]].owner != owner
    ensures Holds(Join(B, a, c, x, owner), id, b) == Holds(B, id, b) + if b == a && id == owner then 1 else 0
  {
    var B', s := Join(B, a, c, x, owner), B.chain[a];
    assert PlaceAt(B, c) && UserAt(B, a);
    if b == a {
      assert ([c] + s)[1..] == s;
      forall i: nat | i < |s| ensures s[i] != c && s[i] in B'.claims && B'.claims[s[i]] == B.claims[s[i]] {}
      CountSame(B.claims, B'.claims, s, id);
      CountNone(B.claims, s, owner);
    } else {
      assert PlaceAt(B, b);
      forall d ensures KeptCount(B, B', b, d) {}
      HoldsSame(B, B', id, b);
    }
  }

  /** When a record leaves, its quota no longer holds the allocation. */
  lemma {:induction false} LeaveHolds(B: Books, a: int, i: nat, id: nat, b: int)
    requires BooksOk(B) && a in B.live && a in B.chain && i < |B.chain[a]| && Recorded(B.claims, B.chain[a])
    ensures Holds(Leave(B, a, i), id, b) == if b == a && id == B.claims[B.chain[a][i]].owner then 0 else Holds(B, id, b)
  {
    var B', s := Leave(B, a, i), B.chain[a];
    LeaveFacts(B, a, i);
    assert UserAt(B, a) && RecordFor(B, a, s[i]);
    if b == a {
      LeaveOk(B, a, i);
      assert UserAt(B', a);
      CountDrop(B.claims, s, i, id);
      DropElems(s, i);
      var r := Drop(s, i);
      forall j: nat | j < |r| ensures r[j] in B.claims && r[j] in B'.claims && r[j] != s[i] { assert r[j] in r; }
      CountSame(B.claims, B'.claims, r, id);
    } else {
      assert PlaceAt(B, b);
      forall d ensures KeptCount(B, B', b, d) {}
      HoldsSame(B, B', id, b);
    }
  }

  /** An owner who lets go no longer holds the allocation. */
  lemma {:induction false} DisownHolds(B: Books, a: int, id: nat, b: int)
    requires BooksOk(B) && a in B.live && a in B.chain && B.live[a].owner != 0 && id != 0
    ensures Holds(B, B.live[a].owner, a) == 1
    ensures Holds(Disown(B, a), id, b) == if b == a && id == B.live[a].owner then 0 else Holds(B, id, b)
  {
    var B', s := Disown(B, a), B.chain[a];
    assert UserAt(B, a);
    forall i: nat | i < |s| ensures RecordFor(B, a, s[i]) {}
    CountNone(B.claims, s, B.live[a].owner);
    if b != a {
      assert PlaceAt(B, b);
      forall d ensures KeptCount(B, B', b, d) {}
      HoldsSame(B, B', id, b);
    }
  }

  /** An allocation goes only when no quota holds it, and only its own holds go with it. */
  lemma {:induction false} RetireHolds(B: Books, a: int, id: nat, b: int)
    requires BooksOk(B) && a in B.live && a in B.chain && B.live[a].owner == 0 && B.chain[a] == [] && id != 0
    ensures Holds(B, id, a) == 0 && Holds(Retire(B, a), id, b) == Holds(B, id, b)
  {
    var B' := Retire(B, a);
    if b != a {
      assert PlaceAt(B, b);
      forall d ensures KeptCount(B, B', b, d) {}
      HoldsSame(B, B', id, b);
    }
  }

  /** Somebody holds an allocation iff it has an owner or a record. */
  lemma {:induction false} HeldIffSomeone(B: Books, a: int)
    requires BooksOk(B) && a in B.live && a in B.chain
    ensures HeldAt(B, a) <==> exists id: nat :: id != 0 && Holds(B, id, a) > 0
  {
    assert UserAt(B, a);
    var s := B.chain[a];
    if B.live[a].owner != 0 {
      assert Holds(B, B.live[a].owner, a) > 0;
    } else if s != [] {
      assert RecordFor(B, a, s[0]);
      assert Holds(B, B.claims[s[0]].owner, a) > 0;
    }
  }

  // ---------- Charges ----------

  /** Everything outside s costs quota id what it did. */
  predicate SameDue(B: Books, B': Books, id: nat, b: int)
  {
    (b in B'.live <==> b in B.live) && Due(B', id, b) == Due(B, id, b)
  }

  lemma {:induction false} ChargeBut(B: Books, B': Books, id: nat, s: set<int>)
    requires forall b {:trigger SameDue(B, B', id, b)} | b !in s :: SameDue(B, B', id, b)
    ensures Charge(B', id) - s == Charge(B, id) - s
  {
    var m, m' := Charge(B, id) - s, Charge(B', id) - s;
    forall b ensures (b in m' <==> b in m) && (b in m ==> m'[b] == m[b]) { assert b !in s ==> SameDue(B, B', id, b); }
  }

  lemma {:induction false} ChargeOne(B: Books, B': Books, id: nat, a: int)
    requires forall b {:trigger SameDue(B, B', id, b)} | b != a :: SameDue(B, B', id, b)
    ensures Sum(Charge(B', id)) - Due(B', id, a) == Sum(Charge(B, id)) - Due(B, id, a)
  {
    ChargeBut(B, B', id, {a});
    SumBut(Charge(B, id), {}, a);
    SumBut(Charge(B', id), {}, a);
    assert Charge(B, id) - {} == Charge(B, id) && Charge(B', id) - {} == Charge(B', id) && {} + {a} == {a};
  }

  lemma {:induction false} ChargeTwo(B: Books, B': Books, id: nat, a: int, c: int)
    requires a != c && forall b {:trigger SameDue(B, B', id, b)} | b != a && b != c :: SameDue(B, B', id, b)
    ensures Sum(Charge(B', id)) - Due(B', id, a) - Due(B', id, c) == Sum(Charge(B, id)) - Due(B, id, a) - Due(B, id, c)
  {
    ChargeBut(B, B', id, {a, c});
    SumButTwo(Charge(B, id), a, c);
    SumButTwo(Charge(B', id), a, c);
  }

  lemma {:induction false} EnterCharge(B: Books, a: int, x: Alloc, id: nat)
    requires BooksOk(B) && a !in B.live
    ensures Sum(Charge(Enter(B, a, x), id)) == Sum(Charge(B, id)) + if x.owner == id then x.size else 0
  {
    var B' := Enter(B, a, x);
    assert PlaceAt(B, a);
    forall b | b != a ensures SameDue(B, B', id, b) { EnterHolds(B, a, x, id, b); }
    EnterHolds(B, a, x, id, a);
    ChargeOne(B, B', id, a);
  }

  lemma {:induction false} ReferCharge(B: Books, c: int, n: nat, id: nat)
    requires BooksOk(B) && c in B.claims && 1 <= n <= MAX_COUNT
    ensures Sum(Charge(Refer(B, c, n), id)) == Sum(Charge(B, id))
  {
    var B' := Refer(B, c, n);
    RecordHolds(B, c);
    forall b ensures SameDue(B, B', id, b) { ReferHolds(B, c, n, id, b); }
    ChargeOne(B, B', id, c);
    assert SameDue(B, B', id, c);
  }

  lemma {:induction false} JoinCharge(B: Books, a: int, c: int, x: Alloc, owner: nat, id: nat)
    requires BooksOk(B) && a in B.live && a in B.chain && c !in B.live && owner != 0 && x.owner == 0 && id != 0
    requires Recorded(B.claims, B.chain[a])
    requires forall i: nat | i < |B.chain[a]| :: B.claims[B.chain[a][i]].owner != owner
    ensures Sum(Charge(Join(B, a, c, x, owner), id)) == Sum(Charge(B, id)) +
            if id != owner then 0 else x.size + if B.live[a].owner == owner then 0 else B.live[a].size
  {
    var B' := Join(B, a, c, x, owner);
    assert PlaceAt(B, a) && PlaceAt(B, c);
    forall b | b != a && b != c ensures SameDue(B, B', id, b) { JoinHolds(B, a, c, x, owner, id, b); }
    JoinHolds(B, a, c, x, owner, id, a);
    JoinHolds(B, a, c, x, owner, id, c);
    CountNone(B.claims, B.chain[a], owner);
    ChargeTwo(B, B', id, a, c);
  }

  lemma {:induction false} LeaveCharge(B: Books, a: int, i: nat, id: nat)
    requires BooksOk(B) && a in B.live && a in B.chain && i < |B.chain[a]| && Recorded(B.claims, B.chain[a]) && id != 0
    ensures B.chain[a][i] in B.live
    ensures Sum(Charge(Leave(B, a, i), id)) == Sum(Charge(B, id)) -
            if id != B.claims[B.chain[a][i]].owner then 0 else B.live[B.chain[a][i]].size + B.live[a].size
  {
    var B', c := Leave(B, a, i), B.chain[a][i];
    LeaveFacts(B, a, i);
    RecordHolds(B, c);
    forall b | b != a && b != c ensures SameDue(B, B', id, b) { LeaveHolds(B, a, i, id, b); }
    LeaveHolds(B, a, i, id, a);
    assert PlaceAt(B, a);
    ChargeTwo(B, B', id, a, c);
  }

  lemma {:induction false} DisownCharge(B: Books, a: int, id: nat)
    requires BooksOk(B) && a in B.live && a in B.chain && B.live[a].owner != 0 && id != 0
    ensures Sum(Charge(Disown(B, a), id)) == Sum(Charge(B, id)) - if id == B.live[a].owner then B.live[a].size else 0
  {
    var B' := Disown(B, a);
    assert PlaceAt(B, a);
    forall b | b != a ensures SameDue(B, B', id, b) { DisownHolds(B, a, id, b); }
    DisownHolds(B, a, id, a);
    ChargeOne(B, B', id, a);
  }

  lemma {:induction false} RetireCharge(B: Books, a: int, id: nat)
    requires BooksOk(B) && a in B.live && a in B.chain && B.live[a].owner == 0 && B.chain[a] == [] && id != 0
    ensures Sum(Charge(Retire(B, a), id)) == Sum(Charge(B, id))
  {
    var B' := Retire(B, a);
    assert PlaceAt(B, a);
    forall b | b != a ensures SameDue(B, B', id, b) { RetireHolds(B, a, id, b); }
    RetireHolds(B, a, id, a);
    ChargeOne(B, B', id, a);
  }

  /** A quota that no allocation or record knows is charged nothing. */
  lemma {:induction false} UnknownCharge(B: Books, n: nat)
    requires BooksOk(B) && Known(B, n)
    ensures Sum(Charge(B, n)) == 0
  {
    forall a | a in B.live ensures Due(B, n, a) == 0 {
      assert PlaceAt(B, a) && KnownAt(B, n, a);
      if a in B.chain {
        assert UserAt(B, a);
        forall i: nat | i < |B.chain[a]| ensures B.claims[B.chain[a][i]].owner != n {
          assert KnownAt(B, n, B.chain[a][i]);
        }
        CountNone(B.claims, B.chain[a], n);
      }
    }
    SumZero(Charge(B, n));
  }

  lemma {:induction false} SumZero(m: map<int, nat>)
    requires forall a | a in m :: m[a] == 0
    ensures Sum(m) == 0
    decreases |m|
  {
    if a :| a in m {
      SumRemove(m, a);
      SumZero(m - {a});
    }
  }
}
