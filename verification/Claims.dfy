/** Shared ownership: claim records chained from the headers of the chunks they claim, as values, and the
    holds and charges they stand for. */
module Claims {
  import opened Trie
  import opened Chunks

  const MAX_COUNT := 0xFFFF_FFFF   // where reference counts saturate

  /** A claim record: the claiming quota, the encoded address of the next record, the reference count. */
  datatype Claim = Claim(owner: nat, next: nat, count: nat)

  // ---------- Encoded addresses ----------

  /** encode_address, for the record in the chunk at c: the distance of its body from the heap start. */
  function Encode(lo: int, c: int): (offset: int) { c + 1 - lo }

  /** from_encoded_offset, for an offset other than 0 */
  function Decode(lo: int, offset: int): (c: int) { lo + offset - 1 }

  /** Encoded addresses fit 16 bits, are never 0, which ends a chain, and decode to what was encoded. */
  lemma {:induction false} EncodeRoundTrip(lo: int, hi: int, c: int)
    requires lo <= c < hi < lo + HEAD
    ensures 0 < Encode(lo, c) < HEAD && Decode(lo, Encode(lo, c)) == c
    ensures forall d :: Encode(lo, d) == Encode(lo, c) ==> d == c
  {
  }

  // ---------- Chains ----------

  /** The members of a chain are claim records. */
  predicate Recorded(claims: map<int, Claim>, s: seq<int>) { forall i: nat | i < |s| :: s[i] in claims }

  /** From an encoded address, the next fields lead through the records of s and end. */
  predicate Links(claims: map<int, Claim>, lo: int, head: int, s: seq<int>)
    decreases s
  {
    if s == [] then head == 0
    else s[0] in claims && head == Encode(lo, s[0]) && Links(claims, lo, claims[s[0]].next, s[1..])
  }

  lemma {:induction false} LinksSame(claims: map<int, Claim>, claims': map<int, Claim>, lo: int, head: int, s: seq<int>)
    requires Links(claims, lo, head, s) && Recorded(claims', s)
    requires forall i: nat | i < |s| && s[i] in claims :: claims'[s[i]].next == claims[s[i]].next
    ensures Links(claims', lo, head, s)
    decreases s
  {
    if s != [] { LinksSame(claims, claims', lo, claims[s[0]].next, s[1..]); }
  }

  /** The encoded address that leads to the i-th record. */
  function Lead(claims: map<int, Claim>, head: int, s: seq<int>, i: nat): (offset: int)
    requires i <= |s| && Recorded(claims, s)
  {
    if i == 0 then head else claims[s[i - 1]].next
  }

  /** Following a chain for i records. */
  lemma {:induction false} LinksAt(claims: map<int, Claim>, lo: int, head: int, s: seq<int>, i: nat)
    requires Links(claims, lo, head, s) && i <= |s| && Recorded(claims, s)
    ensures Lead(claims, head, s, i) == if i < |s| then Encode(lo, s[i]) else 0
    decreases s
  {
    if i > 0 {
      LinksAt(claims, lo, claims[s[0]].next, s[1..], i - 1);
      assert i > 1 ==> s[1..][i - 2] == s[i - 1];
      assert i < |s| ==> s[1..][i - 1] == s[i];
    }
  }

  /** A chain without its i-th record. */
  function Drop(s: seq<int>, i: nat): (r: seq<int>)
    requires i < |s|
  {
    s[..i] + s[i + 1..]
  }

  lemma {:induction false} DropElems(s: seq<int>, i: nat)
    requires i < |s| && Distinct(s)
    ensures Distinct(Drop(s, i)) && forall x :: x in Drop(s, i) <==> x in s && x != s[i]
  {
    var r := Drop(s, i);
    forall j: nat, k: nat | j < k < |r| ensures r[j] != r[k] {
      assert r[j] == s[if j < i then j else j + 1] && r[k] == s[if k < i then k else k + 1];
    }
    forall x ensures x in r <==> x in s && x != s[i] {
      if x in s && x != s[i] {
        var j :| 0 <= j < |s| && s[j] == x;
        assert r[if j < i then j else j - 1] == x;
      }
      if x in r {
        var j :| 0 <= j < |r| && r[j] == x;
        assert s[if j < i then j else j + 1] == x;
      }
    }
  }

  /** Bypass the i-th record: what claim_drop writes to the pointer that leads to it. */
  function Bypassed(claims: map<int, Claim>, s: seq<int>, i: nat): (r: map<int, Claim>)
    requires i < |s| && Recorded(claims, s)
  {
    if i == 0 then claims else claims[s[i - 1] := claims[s[i - 1]].(next := claims[s[i]].next)]
  }

  lemma {:induction false} LinksDrop(claims: map<int, Claim>, lo: int, head: int, s: seq<int>, i: nat)
    requires Links(claims, lo, head, s) && i < |s| && Distinct(s) && Recorded(claims, s)
    ensures Links(Bypassed(claims, s, i), lo, if i == 0 then claims[s[0]].next else head, Drop(s, i))
    decreases s
  {
    var r, tail := Drop(s, i), s[1..];
    if i == 0 {
      assert r == tail;
    } else {
      assert Drop(tail, i - 1) == r[1..] && r[0] == s[0];
      LinksDrop(claims, lo, claims[s[0]].next, tail, i - 1);
      LinksDropStep(claims, lo, head, s, i);
    }
  }

  /** One record before the bypass. */
  lemma {:induction false} LinksDropStep(claims: map<int, Claim>, lo: int, head: int, s: seq<int>, i: nat)
    requires Links(claims, lo, head, s) && 0 < i < |s| && Distinct(s) && Recorded(claims, s)
    requires Links(Bypassed(claims, s[1..], i - 1), lo, if i == 1 then claims[s[1]].next else claims[s[0]].next,
                   Drop(s[1..], i - 1))
    ensures Links(Bypassed(claims, s, i), lo, head, Drop(s, i))
  {
    var r, tail, claims' := Drop(s, i), s[1..], Bypassed(claims, s, i);
    assert r[1..] == Drop(tail, i - 1) && r[0] == s[0];
    if i == 1 {
      forall j: nat | j < |r[1..]| ensures r[1..][j] in claims && r[1..][j] != s[0] {
        assert r[1..][j] == s[j + 2];
      }
      LinksSame(claims, claims', lo, claims[s[1]].next, r[1..]);
    } else {
      assert tail[i - 2] == s[i - 1] && tail[i - 1] == s[i];
    }
  }

  /** The reference count that quota id has in a chain, or 0. */
  function CountIn(claims: map<int, Claim>, s: seq<int>, id: nat): (n: nat)
    requires Recorded(claims, s)
  {
    if s == [] then 0
    else if claims[s[0]].owner == id then claims[s[0]].count
    else CountIn(claims, s[1..], id)
  }

  /** No two records of a chain are of the same quota. */
  predicate OneEach(claims: map<int, Claim>, s: seq<int>)
    requires Recorded(claims, s)
  {
    forall i: nat, j: nat | i < j < |s| :: claims[s[i]].owner != claims[s[j]].owner
  }

  lemma {:induction false} CountSame(claims: map<int, Claim>, claims': map<int, Claim>, s: seq<int>, id: nat)
    requires Recorded(claims, s) && Recorded(claims', s)
    requires forall i: nat | i < |s| :: claims'[s[i]].owner == claims[s[i]].owner
    requires forall i: nat | i < |s| && claims[s[i]].owner == id :: claims'[s[i]].count == claims[s[i]].count
    ensures CountIn(claims', s, id) == CountIn(claims, s, id)
    decreases s
  {
    if s != [] { CountSame(claims, claims', s[1..], id); }
  }

  lemma {:induction false} CountAt(claims: map<int, Claim>, s: seq<int>, i: nat)
    requires Recorded(claims, s) && OneEach(claims, s) && i < |s|
    ensures CountIn(claims, s, claims[s[i]].owner) == claims[s[i]].count
    decreases s
  {
    if i > 0 {
      assert s[1..][i - 1] == s[i];
      CountAt(claims, s[1..], i - 1);
    }
  }

  lemma {:induction false} CountNone(claims: map<int, Claim>, s: seq<int>, id: nat)
    requires Recorded(claims, s) && forall i: nat | i < |s| :: claims[s[i]].owner != id
    ensures CountIn(claims, s, id) == 0
    decreases s
  {
    if s != [] { CountNone(claims, s[1..], id); }
  }

  /** Dropping the record of another quota does not change the count. */
  lemma {:induction false} CountDrop(claims: map<int, Claim>, s: seq<int>, i: nat, id: nat)
    requires Recorded(claims, s) && OneEach(claims, s) && i < |s|
    ensures Recorded(claims, Drop(s, i))
    ensures CountIn(claims, Drop(s, i), id) == if claims[s[i]].owner == id then 0 else CountIn(claims, s, id)
    decreases s
  {
    var r, tail := Drop(s, i), s[1..];
    forall j: nat | j < |r| ensures r[j] in claims { assert r[j] == s[if j < i then j else j + 1]; }
    if i == 0 {
      assert r == tail;
      if claims[s[0]].owner == id { CountNone(claims, tail, id); }
    } else {
      assert r[1..] == Drop(tail, i - 1) && r[0] == s[0] && tail[i - 1] == s[i];
      CountDrop(claims, tail, i - 1, id);
    }
  }
}
