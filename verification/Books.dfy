/** The books of the allocator: which allocations are live, who holds each of them how often, and what
    each quota is charged for.  The operations of main.cc are functions of the books. */
module Books {
  import opened Trie
  import opened Chunks
  import opened Accounts
  import opened Bounds
  import opened Claims

  /** The live allocations and the claim records among them; per client allocation the chain of its
      records; per record the allocation it claims. */
  datatype Books = Books(lo: int, hi: int, live: map<int, Alloc>, claims: map<int, Claim>,
                         chain: map<int, seq<int>>, home: map<int, int>)

  /** Every live allocation is a client's or a claim record. */
  predicate PlaceAt(B: Books, a: int)
  {
    && (a in B.live <==> a in B.chain || a in B.claims) && !(a in B.chain && a in B.claims)
    && (a in B.live ==> B.lo <= a < B.hi && B.live[a].size >= 2)
  }

  /** Record c claims allocation a for a quota other than its owner. */
  predicate RecordFor(B: Books, a: int, c: int)
    requires a in B.live && c in B.claims
  {
    c in B.home && B.home[c] == a && B.claims[c].owner != 0 && B.claims[c].owner != B.live[a].owner &&
    1 <= B.claims[c].count <= MAX_COUNT
  }

  /** The header of a client's allocation leads through its records, one for each claiming quota. */
  predicate UserAt(B: Books, a: int)
    requires a in B.live && a in B.chain
  {
    var s := B.chain[a];
    && Links(B.claims, B.lo, B.live[a].claims, s) && Recorded(B.claims, s) && Distinct(s) && OneEach(B.claims, s)
    && (forall i: nat | i < |s| :: RecordFor(B, a, s[i]))
  }

  /** What was handed out is what chunk_body_size recomputes. */
  predicate LengthAt(B: Books, a: int)
    requires a in B.live
  {
    a in B.chain ==>
      a >= 0 && B.live[a].size >= 1 && 8 * B.live[a].extent == BodyLength(8 * (a + 1), 8 * B.live[a].size - 8)
  }

  /** A record is the allocator's own, and on the chain of the allocation it claims. */
  predicate RecordAt(B: Books, c: int)
    requires c in B.live && c in B.claims
  {
    var x := B.live[c];
    && x.owner == 0 && x.claims == 0 && !x.isSealed && x.extent == 1
    && c in B.home && B.home[c] in B.chain && c in B.chain[B.home[c]]
  }

  ghost predicate BooksOk(B: Books)
  {
    && 1 < B.lo < B.hi < B.lo + HEAD
    && (forall a {:trigger PlaceAt(B, a)} :: PlaceAt(B, a))
    && (forall a {:trigger UserAt(B, a)} | a in B.chain && a in B.live :: UserAt(B, a))
    && (forall c {:trigger RecordAt(B, c)} | c in B.claims && c in B.live :: RecordAt(B, c))
    && (forall a {:trigger LengthAt(B, a)} | a in B.live :: LengthAt(B, a))
  }

  /** How often quota id holds allocation a. */
  function Holds(B: Books, id: nat, a: int): (n: nat)
  {
    (if a in B.live && a in B.chain && B.live[a].owner == id then 1 else 0) +
    (if a in B.chain && Recorded(B.claims, B.chain[a]) then CountIn(B.claims, B.chain[a], id) else 0)
  }

  /** Some quota holds the allocation. */
  predicate HeldAt(B: Books, a: int)
    requires a in B.live && a in B.chain
  {
    B.live[a].owner != 0 || B.chain[a] != []
  }

  /** Every client allocation, but for those of s, is held by some quota. */
  ghost predicate AllHeld(B: Books, s: set<int>)
  {
    forall a {:trigger HeldAt(B, a)} | a in B.live && a in B.chain && a !in s :: HeldAt(B, a)
  }

  /** What quota id is charged for chunk a, in granules: the size of each allocation it holds, once, and of
      each record it paid for. */
  function Due(B: Books, id: nat, a: int): (n: nat)
  {
    if a !in B.live then 0
    else if Holds(B, id, a) > 0 || (a in B.claims && B.claims[a].owner == id) then B.live[a].size
    else 0
  }

  function Charge(B: Books, id: nat): (m: map<int, nat>)
  {
    map a | a in B.live :: Due(B, id, a)
  }

  /** Every owner of an allocation or a record is a quota identifier below n. */
  predicate KnownAt(B: Books, n: nat, a: int)
  {
    (a in B.live ==> B.live[a].owner < n) && (a in B.claims ==> B.claims[a].owner < n)
  }

  ghost predicate Known(B: Books, n: nat) { forall a {:trigger KnownAt(B, n, a)} :: KnownAt(B, n, a) }

  // ---------- Operations ----------

  /** A new allocation. */
  function Enter(B: Books, a: int, x: Alloc): (B': Books)
  {
    B.(live := B.live[a := x], chain := B.chain[a := []])
  }

  /** Record c now counts n references. */
  function Refer(B: Books, c: int, n: nat): (B': Books)
    requires c in B.claims
  {
    B.(claims := B.claims[c := B.claims[c].(count := n)])
  }

  /** A new record c, an allocation x of its own, claims a for quota id; an owner becomes a claimant with
      two references. */
  function Join(B: Books, a: int, c: int, x: Alloc, id: nat): (B': Books)
    requires a in B.live && a in B.chain
  {
    var y := B.live[a];
    var head := if c + 1 - B.lo >= 0 then c + 1 - B.lo else 0;
    B.(live := B.live[c := x][a := y.(claims := head, owner := if y.owner == id then 0 else y.owner)],
       claims := B.claims[c := Claim(id, y.claims, if y.owner == id then 2 else 1)],
       chain := B.chain[a := [c] + B.chain[a]], home := B.home[c := a])
  }

  /** The i-th record of a's chain is taken out and freed. */
  function Leave(B: Books, a: int, i: nat): (B': Books)
    requires a in B.live && a in B.chain && i < |B.chain[a]| && Recorded(B.claims, B.chain[a])
  {
    var c := B.chain[a][i];
    B.(live := (if i == 0 then B.live[a := B.live[a].(claims := B.claims[c].next)] else B.live) - {c},
       claims := Bypassed(B.claims, B.chain[a], i) - {c}, chain := B.chain[a := Drop(B.chain[a], i)],
       home := B.home - {c})
  }

  function Disown(B: Books, a: int): (B': Books)
    requires a in B.live
  {
    B.(live := B.live[a := B.live[a].(owner := 0)])
  }

  /** An allocation that nobody holds goes. */
  function Retire(B: Books, a: int): (B': Books)
  {
    B.(live := B.live - {a}, chain := B.chain - {a})
  }

  // ---------- The books stay in order ----------

  /** A record of allocation a stays, but for its reference count. */
  predicate KeptRecord(B: Books, B': Books, a: int, c: int)
  {
    c in B.claims && c in B.home && B.home[c] == a ==>
      && c in B'.claims && c in B'.home && B'.home[c] == a
      && B'.claims[c].next == B.claims[c].next && B'.claims[c].owner == B.claims[c].owner
      && (1 <= B.claims[c].count <= MAX_COUNT ==> 1 <= B'.claims[c].count <= MAX_COUNT)
  }

  /** An allocation whose chain does not change stays in order. */
  lemma {:induction false} SameUser(B: Books, B': Books, a: int)
    requires a in B.live && a in B.chain && UserAt(B, a) && a in B'.live && a in B'.chain && B'.lo == B.lo
    requires B'.chain[a] == B.chain[a] && B'.live[a].claims == B.live[a].claims
    requires (B'.live[a].owner == B.live[a].owner || B'.live[a].owner == 0)
    requires forall c {:trigger KeptRecord(B, B', a, c)} :: KeptRecord(B, B', a, c)
    ensures UserAt(B', a)
  {
    var s := B.chain[a];
    forall i: nat | i < |s| ensures KeptRecord(B, B', a, s[i]) && RecordFor(B, a, s[i]) {}
    LinksSame(B.claims, B'.claims, B.lo, B.live[a].claims, s);
    forall i: nat | i < |s| ensures RecordFor(B', a, s[i]) { assert RecordFor(B, a, s[i]); }
  }

  lemma {:induction false} EnterOk(B: Books, a: int, x: Alloc)
    requires BooksOk(B) && a !in B.live && B.lo <= a < B.hi && x.size >= 2 && x.claims == 0
    requires 8 * x.extent == BodyLength(8 * (a + 1), 8 * x.size - 8)
    ensures BooksOk(Enter(B, a, x))
  {
    hide BodyLength, Links, OneEach;
    var B' := Enter(B, a, x);
    assert PlaceAt(B, a);
    forall b ensures PlaceAt(B', b) { assert PlaceAt(B, b); }
    forall b | b in B'.chain && b in B'.live ensures UserAt(B', b) {
      if b == a {
        EmptyChain(B', a);
      } else {
        assert UserAt(B, b);
        forall c ensures KeptRecord(B, B', b, c) {}
        SameUser(B, B', b);
      }
    }
    forall c | c in B'.claims && c in B'.live ensures RecordAt(B', c) { assert RecordAt(B, c); }
    forall b | b in B'.live ensures LengthAt(B', b) { if b != a { assert LengthAt(B, b); } }
  }

  lemma {:induction false} EmptyChain(B: Books, a: int)
    requires a in B.live && a in B.chain && B.chain[a] == [] && B.live[a].claims == 0
    ensures UserAt(B, a)
  {
  }

  lemma {:induction false} ReferOk(B: Books, c: int, n: nat)
    requires BooksOk(B) && c in B.claims && 1 <= n <= MAX_COUNT
    ensures BooksOk(Refer(B, c, n))
  {
    hide UserAt, BodyLength;
    var B' := Refer(B, c, n);
    forall b ensures PlaceAt(B', b) { assert PlaceAt(B, b); }
    forall b | b in B'.chain && b in B'.live ensures UserAt(B', b) {
      assert UserAt(B, b);
      forall d ensures KeptRecord(B, B', b, d) {}
      SameUser(B, B', b);
    }
    forall d | d in B'.claims && d in B'.live ensures RecordAt(B', d) { assert RecordAt(B, d); }
    forall b | b in B'.live ensures LengthAt(B', b) { assert LengthAt(B, b); }
  }

  lemma {:induction false} DisownOk(B: Books, a: int)
    requires BooksOk(B) && a in B.live && a in B.chain
    ensures BooksOk(Disown(B, a))
  {
    hide UserAt, BodyLength;
    var B' := Disown(B, a);
    assert PlaceAt(B, a);
    forall b ensures PlaceAt(B', b) { assert PlaceAt(B, b); }
    forall b | b in B'.chain && b in B'.live ensures UserAt(B', b) {
      assert UserAt(B, b);
      forall d ensures KeptRecord(B, B', b, d) {}
      SameUser(B, B', b);
    }
    forall d | d in B'.claims && d in B'.live ensures RecordAt(B', d) { assert RecordAt(B, d); }
    forall b | b in B'.live ensures LengthAt(B', b) { assert LengthAt(B, b); }
  }

  lemma {:induction false} RetireOk(B: Books, a: int)
    requires BooksOk(B) && a in B.live && a in B.chain && B.chain[a] == []
    ensures BooksOk(Retire(B, a))
  {
    hide UserAt, BodyLength;
    var B' := Retire(B, a);
    assert PlaceAt(B, a);
    forall b ensures PlaceAt(B', b) { assert PlaceAt(B, b); }
    forall b | b in B'.chain && b in B'.live ensures UserAt(B', b) {
      assert UserAt(B, b);
      forall d ensures KeptRecord(B, B', b, d) {}
      SameUser(B, B', b);
    }
    forall d | d in B'.claims && d in B'.live ensures RecordAt(B', d) { assert RecordAt(B, d); }
    forall b | b in B'.live ensures LengthAt(B', b) { assert LengthAt(B, b); }
  }

  lemma {:induction false} JoinedUser(B: Books, a: int, c: int, x: Alloc, id: nat)
    requires BooksOk(B) && a in B.live && a in B.chain && c !in B.live && B.lo <= c < B.hi && id != 0
    requires forall i: nat | i < |B.chain[a]| && B.chain[a][i] in B.claims :: B.claims[B.chain[a][i]].owner != id
    ensures c !in B.claims && c !in B.chain[a] && UserAt(Join(B, a, c, x, id), a)
  {
    var B' := Join(B, a, c, x, id);
    var s := B.chain[a];
    assert UserAt(B, a) && PlaceAt(B, c) && PlaceAt(B, a);
    assert ([c] + s)[1..] == s;
    forall i: nat | i < |s| ensures RecordFor(B, a, s[i]) && s[i] != c {}
    LinksSame(B.claims, B'.claims, B.lo, B.live[a].claims, s);
    forall i: nat | i < |[c] + s| ensures RecordFor(B', a, ([c] + s)[i]) {
      if i > 0 { assert RecordFor(B, a, s[i - 1]); }
    }
  }

  lemma {:induction false} JoinOk(B: Books, a: int, c: int, x: Alloc, id: nat)
    requires BooksOk(B) && a in B.live && a in B.chain && c !in B.live && B.lo <= c < B.hi && id != 0
    requires x.size >= 2 && x.owner == 0 && x.claims == 0 && !x.isSealed && x.extent == 1
    requires forall i: nat | i < |B.chain[a]| && B.chain[a][i] in B.claims :: B.claims[B.chain[a][i]].owner != id
    ensures BooksOk(Join(B, a, c, x, id))
  {
    hide UserAt, BodyLength;
    var B' := Join(B, a, c, x, id);
    assert PlaceAt(B, a) && PlaceAt(B, c);
    JoinedUser(B, a, c, x, id);
    forall b ensures PlaceAt(B', b) { assert PlaceAt(B, b); }
    forall b | b in B'.chain && b in B'.live ensures UserAt(B', b) {
      if b != a {
        assert UserAt(B, b) && PlaceAt(B, b);
        forall d ensures KeptRecord(B, B', b, d) {}
        SameUser(B, B', b);
      }
    }
    forall d | d in B'.claims && d in B'.live ensures RecordAt(B', d) {
      if d != c {
        assert RecordAt(B, d) && PlaceAt(B, d);
        if B.home[d] == a { InPrepended(B.chain[a], c, d); }
      }
    }
    forall b | b in B'.live ensures LengthAt(B', b) { if b != c { assert LengthAt(B, b); } }
  }

  lemma {:induction false} InPrepended(s: seq<int>, c: int, d: int)
    requires d in s
    ensures d in [c] + s
  {
    var i :| 0 <= i < |s| && s[i] == d;
    assert ([c] + s)[i + 1] == d;
  }

  /** The records that stay on a chain when one leaves it. */
  lemma {:induction false} LeftUser(B: Books, a: int, i: nat)
    requires BooksOk(B) && a in B.live && a in B.chain && i < |B.chain[a]| && Recorded(B.claims, B.chain[a])
    requires a in Leave(B, a, i).live
    ensures UserAt(Leave(B, a, i), a)
  {
    var B', s := Leave(B, a, i), B.chain[a];
    var c, r := s[i], Drop(s, i);
    assert UserAt(B, a);
    LinksDrop(B.claims, B.lo, B.live[a].claims, s, i);
    DropElems(s, i);
    forall j: nat | j < |r| ensures r[j] == s[if j < i then j else j + 1] && r[j] != c && RecordFor(B, a, r[j]) {}
    LinksSame(Bypassed(B.claims, s, i), B'.claims, B.lo, B'.live[a].claims, r);
    forall j: nat | j < |r| ensures RecordFor(B', a, r[j]) { assert RecordFor(B, a, r[j]); }
    LeftOneEach(B.claims, B'.claims, s, i);
  }

  lemma {:induction false} LeftOneEach(claims: map<int, Claim>, claims': map<int, Claim>, s: seq<int>, i: nat)
    requires Recorded(claims, s) && OneEach(claims, s) && i < |s| && Recorded(claims', Drop(s, i))
    requires forall c | c in claims && c in claims' :: claims'[c].owner == claims[c].owner
    ensures OneEach(claims', Drop(s, i))
  {
    var r := Drop(s, i);
    forall j: nat, k: nat | j < k < |r| ensures claims'[r[j]].owner != claims'[r[k]].owner {
      assert r[j] == s[if j < i then j else j + 1] && r[k] == s[if k < i then k else k + 1];
    }
  }

  lemma {:induction false} LeaveOk(B: Books, a: int, i: nat)
    requires BooksOk(B) && a in B.live && a in B.chain && i < |B.chain[a]| && Recorded(B.claims, B.chain[a])
    ensures var c := B.chain[a][i]; c != a && c in B.live && c in B.claims && a in Leave(B, a, i).live
    ensures BooksOk(Leave(B, a, i))
  {
    var B', s := Leave(B, a, i), B.chain[a];
    var c := s[i];
    LeaveFacts(B, a, i);
    LeftUser(B, a, i);
    LeaveOthers(B, a, i);
  }

  lemma {:induction false} LeaveFacts(B: Books, a: int, i: nat)
    requires BooksOk(B) && a in B.live && a in B.chain && i < |B.chain[a]| && Recorded(B.claims, B.chain[a])
    ensures var c := B.chain[a][i]; c != a && c in B.live && c in B.claims && c !in B.chain && a in Leave(B, a, i).live
    ensures var c := B.chain[a][i]; c in B.home && B.home[c] == a
    ensures i > 0 ==> var d := B.chain[a][i - 1]; d in B.claims && d in B.home && B.home[d] == a
    ensures Distinct(B.chain[a])
  {
    assert UserAt(B, a) && PlaceAt(B, a) && PlaceAt(B, B.chain[a][i]);
    assert RecordFor(B, a, B.chain[a][i]);
    if i > 0 { assert RecordFor(B, a, B.chain[a][i - 1]); }
  }

  lemma {:induction false} LeaveOthers(B: Books, a: int, i: nat)
    requires BooksOk(B) && a in B.live && a in B.chain && i < |B.chain[a]| && Recorded(B.claims, B.chain[a])
    requires a in Leave(B, a, i).live && UserAt(Leave(B, a, i), a)
    ensures BooksOk(Leave(B, a, i))
  {
    hide UserAt, BodyLength, Drop;
    var B', s := Leave(B, a, i), B.chain[a];
    var c := s[i];
    LeaveFacts(B, a, i);
    assert PlaceAt(B, a) && PlaceAt(B, c);
    forall b ensures PlaceAt(B', b) { assert PlaceAt(B, b); }
    forall b | b in B'.chain && b in B'.live ensures UserAt(B', b) {
      if b != a {
        assert UserAt(B, b);
        forall d ensures KeptRecord(B, B', b, d) {}
        SameUser(B, B', b);
      }
    }
    DropElems(s, i);
    forall d | d in B'.claims && d in B'.live ensures RecordAt(B', d) { assert RecordAt(B, d) && PlaceAt(B, d); }
    forall b | b in B'.live ensures LengthAt(B', b) { assert LengthAt(B, b); }
  }
}
