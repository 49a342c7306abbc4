/** The small bins: eight rings of free chunks of one size each, with a bitmap of the non-empty ones.
    A ring is given by the sequence of its chunks in list order. */
module SmallBins {
  import opened SizeBits
  import opened Bitmaps
  import opened Trie

  predicate RingOk(ring: seq<int>, mark: bool, i: nat, contents: map<int, nat>)
  {
    && Distinct(ring) && (mark <==> ring != [])
    && forall a | a in ring :: a in contents && contents[a] == SmallIndex2Size(i)
  }

  /** The rings hold exactly the chunks of contents, each in the bin of its size. */
  ghost predicate SmallOk(rings: seq<seq<int>>, marks: Word, contents: map<int, nat>)
  {
    && |rings| == N_SMALL_BINS
    && (forall i: nat {:trigger rings[i]} | i < N_SMALL_BINS :: RingOk(rings[i], marks[i], i, contents))
    && (forall i | N_SMALL_BINS <= i < 32 :: !marks[i])
    && forall a | a in contents :: FiledOk(rings, contents[a], a)
  }

  predicate FiledOk(rings: seq<seq<int>>, s: nat, a: int)
    requires |rings| == N_SMALL_BINS
  {
    MIN_CHUNK_SIZE <= s <= MAX_SMALL_SIZE && s % 8 == 0 && a in rings[SmallIndex(s)]
  }

  /** A ring without one of its chunks. */
  function Without(ring: seq<int>, a: int): (r: seq<int>)
    requires a in ring
    ensures |r| == |ring| - 1
  {
    if ring[0] == a then ring[1..] else [ring[0]] + Without(ring[1..], a)
  }

  lemma {:induction false} WithoutElems(ring: seq<int>, a: int)
    requires a in ring && Distinct(ring)
    ensures Distinct(Without(ring, a)) && forall x :: x in Without(ring, a) <==> x in ring && x != a
    decreases ring
  {
    var tail := ring[1..];
    assert ring == [ring[0]] + tail;
    assert forall x :: x in ring <==> x == ring[0] || x in tail;
    forall x | x in tail ensures x != ring[0] {
      var i :| 0 <= i < |tail| && tail[i] == x;
      assert ring[i + 1] == x;
    }
    forall i: nat, j: nat | i < j < |tail| ensures tail[i] != tail[j] { assert ring[i + 1] != ring[j + 1]; }
    if ring[0] != a {
      WithoutElems(tail, a);
      forall i: nat | i < |Without(tail, a)| ensures Without(tail, a)[i] != ring[0] {
        assert Without(tail, a)[i] in tail;
      }
      assert forall x :: x in Without(ring, a) <==> x == ring[0] || x in Without(tail, a);
    }
  }

  lemma {:induction false} InsertSmallOk(rings: seq<seq<int>>, marks: Word, contents: map<int, nat>, a: int, s: nat)
    requires SmallOk(rings, marks, contents) && a !in contents
    requires MIN_CHUNK_SIZE <= s <= MAX_SMALL_SIZE && s % 8 == 0
    ensures var i := SmallIndex(s);
            SmallOk(rings[i := rings[i] + [a]], Or(marks, Idx2Bit(i)), contents[a := s])
  {
    var i := SmallIndex(s);
    var rings' := rings[i := rings[i] + [a]];
    var marks' := Or(marks, Idx2Bit(i));
    var contents' := contents[a := s];
    forall j: nat | j < N_SMALL_BINS ensures RingOk(rings'[j], marks'[j], j, contents') {
      assert RingOk(rings[j], marks[j], j, contents);
    }
    forall x | x in contents' ensures FiledOk(rings', contents'[x], x) {
      if x != a { assert FiledOk(rings, contents[x], x); }
    }
  }

  lemma {:induction false} UnlinkSmallOk(rings: seq<seq<int>>, marks: Word, contents: map<int, nat>, a: int)
    requires SmallOk(rings, marks, contents) && a in contents
    ensures contents[a] > 0 && SmallIndex(contents[a]) < N_SMALL_BINS && a in rings[SmallIndex(contents[a])]
    ensures var i := SmallIndex(contents[a]); var r := Without(rings[i], a);
            SmallOk(rings[i := r], if r == [] then And(marks, Not(Idx2Bit(i))) else marks, contents - {a})
  {
    assert FiledOk(rings, contents[a], a);
    var i := SmallIndex(contents[a]);
    assert RingOk(rings[i], marks[i], i, contents);
    WithoutElems(rings[i], a);
    var r := Without(rings[i], a);
    var rings' := rings[i := r];
    var marks' := if r == [] then And(marks, Not(Idx2Bit(i))) else marks;
    var contents' := contents - {a};
    forall j: nat | j < N_SMALL_BINS ensures RingOk(rings'[j], marks'[j], j, contents') {
      assert RingOk(rings[j], marks[j], j, contents);
    }
    forall x | x in contents' ensures FiledOk(rings', contents'[x], x) { assert FiledOk(rings, contents[x], x); }
  }

  class SmallBins {
    var rings: seq<seq<int>>
    var smallmap: Word
    ghost var contents: map<int, nat>

    ghost predicate Valid()
      reads this
    {
      SmallOk(rings, smallmap, contents)
    }

    constructor ()
      ensures Valid() && contents == map[]
    {
      rings := seq(N_SMALL_BINS, _ => []);
      smallmap := ZERO;
      contents := map[];
    }

    /** insert_small_chunk */
    method InsertSmall(a: int, s: nat)
      requires Valid() && a !in contents && MIN_CHUNK_SIZE <= s <= MAX_SMALL_SIZE && s % 8 == 0
      modifies this
      ensures Valid() && contents == old(contents)[a := s]
    {
      var i := SmallIndex(s);
      InsertSmallOk(rings, smallmap, contents, a, s);
      OrAgain(smallmap, i);
      if !smallmap[i] {
        smallmap := Or(smallmap, Idx2Bit(i));
      }
      rings := rings[i := rings[i] + [a]];
      contents := contents[a := s];
    }

    /** unlink_small_chunk */
    method UnlinkSmall(a: int, s: nat)
      requires Valid() && a in contents && contents[a] == s
      modifies this
      ensures Valid() && contents == old(contents) - {a}
    {
      UnlinkSmallOk(rings, smallmap, contents, a);
      var i := SmallIndex(s);
      if |rings[i]| == 1 {
        smallmap := And(smallmap, Not(Idx2Bit(i)));
      }
      rings := rings[i := Without(rings[i], a)];
      contents := contents - {a};
    }

    /** unlink_first_small_chunk */
    method UnlinkFirst(i: nat) returns (a: int)
      requires Valid() && i < N_SMALL_BINS && smallmap[i]
      modifies this
      ensures Valid() && a in old(contents) && contents == old(contents) - {a}
      ensures old(contents)[a] == SmallIndex2Size(i)
    {
      assert RingOk(rings[i], smallmap[i], i, contents);
      a := rings[i][0];
      UnlinkSmallOk(rings, smallmap, contents, a);
      assert Without(rings[i], a) == rings[i][1..];
      rings := rings[i := rings[i][1..]];
      if rings[i] == [] {
        smallmap := And(smallmap, Not(Idx2Bit(i)));
      }
      contents := contents - {a};
    }
  }

  lemma {:induction false} OrAgain(v: Word, i: nat)
    requires i < 32
    ensures v[i] ==> Or(v, Idx2Bit(i)) == v
  {
    forall j: nat | j < 32 ensures v[i] ==> Or(v, Idx2Bit(i))[j] == v[j] { Idx2BitBits(i, j); }
  }
}
