/** Which address ranges a capability can cover exactly.  Bounds are encoded with a nine-bit mantissa
    and an exponent of 0 to 14, or 24; lengths and addresses are 32 bits wide. */
module Bounds {
  import opened SizeBits

  const MANTISSA := 511            // the largest nine-bit mantissa
  const MAX_EXPONENT := 14
  const WIDE_EXPONENT := 24

  // ---------- Multiples of powers of two ----------

  predicate Multiple(k: nat, x: nat)
  {
    k == 0 || (x % 2 == 0 && Multiple(k - 1, x / 2))
  }

  function RoundDown(x: nat, k: nat): (r: nat)
  {
    if k == 0 then x else 2 * RoundDown(x / 2, k - 1)
  }

  function RoundUp(x: nat, k: nat): (r: nat)
  {
    if k == 0 then x else 2 * RoundUp((x + 1) / 2, k - 1)
  }

  /** __builtin_ctz */
  function TrailingZeros(x: nat): (c: nat)
    requires x > 0
  {
    if x % 2 == 1 then 0 else 1 + TrailingZeros(x / 2)
  }

  lemma {:induction false} RoundDownIs(x: nat, k: nat)
    ensures Multiple(k, RoundDown(x, k)) && RoundDown(x, k) <= x < RoundDown(x, k) + Pow2(k)
    ensures Multiple(k, x) <==> RoundDown(x, k) == x
  {
    if k > 0 { RoundDownIs(x / 2, k - 1); }
  }

  lemma {:induction false} RoundDownAtLeast(x: nat, k: nat)
    ensures x >= Pow2(k) <==> RoundDown(x, k) >= Pow2(k)
    ensures x < Pow2(k) ==> RoundDown(x, k) == 0
  {
    if k > 0 { RoundDownAtLeast(x / 2, k - 1); }
  }

  lemma {:induction false} RoundUpIs(x: nat, k: nat)
    ensures Multiple(k, RoundUp(x, k)) && x <= RoundUp(x, k) < x + Pow2(k)
  {
    if k > 0 { RoundUpIs((x + 1) / 2, k - 1); }
  }

  lemma {:induction false} RoundUpExact(x: nat, k: nat)
    requires Multiple(k, x)
    ensures RoundUp(x, k) == x
  {
    if k > 0 {
      assert (x + 1) / 2 == x / 2;
      RoundUpExact(x / 2, k - 1);
    }
  }

  /** Rounding up does not pass a multiple. */
  lemma {:induction false} RoundUpBelow(x: nat, k: nat, n: nat)
    requires x <= n * Pow2(k)
    ensures RoundUp(x, k) <= n * Pow2(k)
  {
    if k > 0 {
      assert n * Pow2(k) == 2 * (n * Pow2(k - 1));
      RoundUpBelow((x + 1) / 2, k - 1, n);
    }
  }

  lemma {:induction false} MultipleOf(n: nat, k: nat)
    ensures Multiple(k, n * Pow2(k))
  {
    if k > 0 {
      assert n * Pow2(k) == 2 * (n * Pow2(k - 1));
      MultipleOf(n, k - 1);
    }
  }

  lemma {:induction false} MultipleLess(j: nat, k: nat, x: nat)
    requires Multiple(k, x) && j <= k
    ensures Multiple(j, x)
  {
    if j > 0 { MultipleLess(j - 1, k - 1, x / 2); }
  }

  lemma {:induction false} ZerosAre(x: nat, k: nat)
    requires x > 0
    ensures Multiple(k, x) <==> k <= TrailingZeros(x)
    decreases k
  {
    if k > 0 && x % 2 == 0 { ZerosAre(x / 2, k - 1); }
  }

  lemma {:induction false} MultipleAdd(k: nat, x: nat, y: nat)
    requires Multiple(k, x)
    ensures Multiple(k, x + y) <==> Multiple(k, y)
  {
    if k > 0 && y % 2 == 0 {
      assert (x + y) / 2 == x / 2 + y / 2;
      MultipleAdd(k - 1, x / 2, y / 2);
    }
  }

  lemma {:induction false} HalfDiv(x: nat, p: nat)
    requires p > 0
    ensures 2 * p > 0 && x / (2 * p) == x / 2 / p && x % (2 * p) == 2 * (x / 2 % p) + x % 2
  {
    var q, r := x / 2 / p, x / 2 % p;
    assert x / 2 == p * q + r;
    Doubled(p, q);
    DivUnique(x, 2 * p, q, 2 * r + x % 2);
  }

  lemma {:induction false} Doubled(p: nat, q: nat)
    ensures 2 * (p * q) == (2 * p) * q
  {
  }

  /** The recursive forms are the usual ones. */
  lemma {:induction false} MultipleIsMod(k: nat, x: nat)
    ensures Multiple(k, x) <==> x % Pow2(k) == 0
    ensures RoundDown(x, k) == x / Pow2(k) * Pow2(k)
  {
    if k > 0 {
      MultipleIsMod(k - 1, x / 2);
      HalfDiv(x, Pow2(k - 1));
      Doubled(Pow2(k - 1), x / 2 / Pow2(k - 1));
    }
  }

  // ---------- Representable lengths ----------

  /** The least exponent from e on whose mantissa can hold the length, rounded up. */
  function ExponentFrom(length: nat, e: nat): (r: nat)
    requires e <= MAX_EXPONENT + 1
    ensures (e <= r <= MAX_EXPONENT && length <= MANTISSA * Pow2(r)) ||
            (r == WIDE_EXPONENT && (e > MAX_EXPONENT || length > MANTISSA * Pow2(MAX_EXPONENT)))
    decreases MAX_EXPONENT + 1 - e
  {
    if e > MAX_EXPONENT then WIDE_EXPONENT
    else if length <= MANTISSA * Pow2(e) then e
    else ExponentFrom(length, e + 1)
  }

  function Exponent(length: nat): (e: nat) { ExponentFrom(length, 0) }

  lemma {:induction false} ExponentLeast(length: nat, e: nat, j: nat)
    requires e <= j <= MAX_EXPONENT && length <= MANTISSA * Pow2(j)
    ensures ExponentFrom(length, e) <= j
    decreases j - e
  {
    if length > MANTISSA * Pow2(e) { ExponentLeast(length, e + 1, j); }
  }

  /** -representable_alignment_mask(length) */
  function Unit(length: nat): (u: nat) { Pow2(Exponent(length)) }

  /** representable_length, which wraps */
  function RepresentableLength(length: nat): (r: nat) { RoundUp(length, Exponent(length)) % WORD }

  /** is_precise_range */
  predicate IsPreciseRange(base: nat, size: nat)
  {
    Multiple(Exponent(size), base) && RepresentableLength(size) == size
  }

  lemma {:induction false} Powers()
    ensures Pow2(3) == 8 && Pow2(4) == 16 && Pow2(14) == 0x4000 && Pow2(15) == 0x8000 && Pow2(24) == 0x100_0000
    ensures Pow2(32) == WORD
  {
    assert Pow2(3) == 8 && Pow2(4) == 16 && Pow2(5) == 32;
    Pow2Add(5, 5);
    Pow2Add(10, 4);
    Pow2Add(10, 10);
    Pow2Add(20, 4);
    WordPowers();
  }

  lemma {:induction false} SmallMod(x: nat)
    requires x < WORD
    ensures x % WORD == x
  {
  }

  /** Only lengths with the wide exponent can wrap. */
  lemma {:induction false} NoWrap(length: nat)
    requires Exponent(length) != WIDE_EXPONENT
    ensures RepresentableLength(length) == RoundUp(length, Exponent(length)) <= MANTISSA * Pow2(Exponent(length))
    ensures MANTISSA * Pow2(Exponent(length)) <= MANTISSA * 0x4000
  {
    var e := Exponent(length);
    assert Pow2(e) <= 0x4000 by {
      Powers();
      Pow2Monotone(e, MAX_EXPONENT);
    }
    RoundUpBelow(length, e, MANTISSA);
    SmallMod(RoundUp(length, e));
  }

  /** A length is exactly representable iff it is a multiple of its unit. */
  lemma {:induction false} Representable(length: nat)
    requires length < WORD
    ensures RepresentableLength(length) == length <==> Multiple(Exponent(length), length)
  {
    var e := Exponent(length);
    RoundUpIs(length, e);
    if Multiple(e, length) { RoundUpExact(length, e); }
    if e == WIDE_EXPONENT {
      Powers();
      RoundUpBelow(length, e, 256);
    } else {
      NoWrap(length);
    }
  }

  /** A multiple of 2^k that fits the mantissa at k has an exponent of at most k, so it is representable
      at every base aligned to 2^k. */
  lemma {:induction false} Precise(base: nat, length: nat, k: nat)
    requires length < WORD && Multiple(k, length) && Multiple(k, base)
    requires (k <= MAX_EXPONENT && length <= MANTISSA * Pow2(k)) || k >= WIDE_EXPONENT
    ensures IsPreciseRange(base, length) && Exponent(length) <= k
  {
    var e := Exponent(length);
    if k <= MAX_EXPONENT { ExponentLeast(length, 0, k); }
    MultipleLess(e, k, length);
    MultipleLess(e, k, base);
    Representable(length);
  }

  // ---------- set_inexact_at_most ----------

  /** The longest length that the alignment of the base allows, as computed in 32 bits. */
  function LongestAt(base: nat): (r: nat)
    requires base > 0
  {
    MANTISSA * Pow2(TrailingZeros(base)) % WORD
  }

  /** The length that set_inexact_at_most_slow asks for. */
  function AtMostSlow(base: nat, bounds: nat): (r: nat)
    requires base > 0
  {
    var aligned := RoundDown(bounds, Exponent(bounds));
    if aligned < LongestAt(base) then aligned else LongestAt(base)
  }

  /** The length that set_inexact_at_most asks for: the request if it can be set exactly. */
  function AtMost(base: nat, bounds: nat): (r: nat)
    requires base > 0
  {
    if IsPreciseRange(base, bounds) then bounds else AtMostSlow(base, bounds)
  }

  lemma {:induction false} AtMostSlowLess(base: nat, bounds: nat)
    requires base > 0
    ensures AtMostSlow(base, bounds) <= bounds
  {
    hide Exponent, LongestAt;
    RoundDownIs(bounds, Exponent(bounds));
  }

  lemma {:induction false} ZerosBelow32(base: nat)
    requires 0 < base < WORD
    ensures TrailingZeros(base) < 32
  {
    ZerosAre(base, 32);
    Powers();
    if Multiple(32, base) {
      RoundDownIs(base, 32);
      MultipleIsMod(32, base);
      assert false;
    }
  }

  lemma {:induction false} LongestIs(base: nat)
    requires 0 < base < WORD
    ensures var c := TrailingZeros(base);
            && Multiple(c, LongestAt(base)) && LongestAt(base) < WORD
            && (c <= 23 ==> LongestAt(base) == MANTISSA * Pow2(c))
            && (c >= 14 ==> LongestAt(base) >= MANTISSA * Pow2(MAX_EXPONENT))
            && (c >= 15 ==> LongestAt(base) > MANTISSA * Pow2(MAX_EXPONENT))
  {
    var c := TrailingZeros(base);
    ZerosBelow32(base);
    Powers();
    MultipleOf(MANTISSA, c);
    if c <= 23 {
      Pow2Monotone(c, 23);
      assert Pow2(24) == 2 * Pow2(23);
      if c >= 14 { Pow2Monotone(14, c); }
      if c >= 15 { Pow2Monotone(15, c); }
    } else {
      WideLongest(c);
    }
  }

  /** 511 shifted by 24 or more wraps to 2^32 - 2^c. */
  lemma {:induction false} WideLongest(c: nat)
    requires 24 <= c < 32
    ensures MANTISSA * Pow2(c) % WORD == WORD - Pow2(c)
    ensures Multiple(c, WORD - Pow2(c)) && Pow2(c) <= WORD / 2
  {
    hide Pow2, Multiple;
    WordPowers();
    Pow2Monotone(c, 31);
    WideWraps(c);
    MultipleOf(1, 32);
    MultipleLess(c, 32, WORD);
    MultipleOf(1, c);
    MultipleAdd(c, Pow2(c), WORD - Pow2(c));
  }

  lemma {:induction false} WideWraps(c: nat)
    requires 24 <= c && Pow2(c) <= WORD / 2
    ensures MANTISSA * Pow2(c) % WORD == WORD - Pow2(c)
  {
    hide Pow2;
    var p := Pow2(c - 24);
    Pow2Add(24, c - 24);
    Powers();
    DivUnique(MANTISSA * Pow2(c), WORD, 2 * p - 1, WORD - Pow2(c));
  }

  /** set_inexact_at_most keeps the base, never exceeds the request, and gives a valid capability,
      that is, an exactly representable range, iff the request is below 2^24 bytes or the base is
      aligned to at most 2^14 or at least 2^24. */
  lemma {:induction false} AtMostIsPrecise(base: nat, bounds: nat)
    requires 0 < base < WORD && bounds < WORD
    ensures AtMost(base, bounds) <= bounds
    ensures IsPreciseRange(base, AtMost(base, bounds)) <==>
            bounds < 0x100_0000 || TrailingZeros(base) <= MAX_EXPONENT || TrailingZeros(base) >= WIDE_EXPONENT
  {
    hide Pow2, Exponent, TrailingZeros, IsPreciseRange, AtMostSlow;
    AtMostSlowLess(base, bounds);
    if IsPreciseRange(base, bounds) {
      PreciseWhen(base, bounds);
    } else if bounds < 0x100_0000 || TrailingZeros(base) <= MAX_EXPONENT || TrailingZeros(base) >= WIDE_EXPONENT {
      AtMostFits(base, bounds);
    } else {
      AtMostWide(base, bounds);
    }
  }

  lemma {:induction false} PreciseWhen(base: nat, bounds: nat)
    requires 0 < base < WORD && bounds < WORD && IsPreciseRange(base, bounds)
    ensures bounds < 0x100_0000 || TrailingZeros(base) <= MAX_EXPONENT || TrailingZeros(base) >= WIDE_EXPONENT
  {
    hide Pow2, TrailingZeros, Exponent;
    Powers();
    if bounds >= 0x100_0000 {
      WideExponent(bounds);
      ZerosAre(base, WIDE_EXPONENT);
    }
  }

  /** For a base of this alignment the length is beyond what a mantissa holds. */
  lemma {:induction false} AtMostWide(base: nat, bounds: nat)
    requires 0 < base < WORD && 0x100_0000 <= bounds < WORD && MAX_EXPONENT < TrailingZeros(base) < WIDE_EXPONENT
    ensures !IsPreciseRange(base, AtMostSlow(base, bounds))
  {
    hide Pow2, TrailingZeros, IsPreciseRange, LongestAt;
    Powers();
    LongestIs(base);
    WideAligned(bounds);
    TooWide(base, AtMostSlow(base, bounds));
  }

  lemma {:induction false} WideAligned(bounds: nat)
    requires 0x100_0000 <= bounds
    ensures RoundDown(bounds, Exponent(bounds)) > MANTISSA * Pow2(MAX_EXPONENT)
  {
    hide Pow2, RoundDown, Exponent;
    Powers();
    WideExponent(bounds);
    RoundDownAtLeast(bounds, WIDE_EXPONENT);
  }

  lemma {:induction false} WideExponent(length: nat)
    requires length > MANTISSA * Pow2(MAX_EXPONENT)
    ensures Exponent(length) == WIDE_EXPONENT
  {
    hide Pow2;
    var r := Exponent(length);
    if r <= MAX_EXPONENT {
      Pow2Monotone(r, MAX_EXPONENT);
    }
  }

  lemma {:induction false} TooWide(base: nat, r: nat)
    requires 0 < base && TrailingZeros(base) < WIDE_EXPONENT && r > MANTISSA * Pow2(MAX_EXPONENT)
    ensures !IsPreciseRange(base, r)
  {
    hide Pow2, TrailingZeros, Exponent;
    WideExponent(r);
    ZerosAre(base, WIDE_EXPONENT);
  }

  lemma {:induction false} AtMostFits(base: nat, bounds: nat)
    requires 0 < base < WORD && bounds < WORD && !IsPreciseRange(base, bounds)
    requires bounds < 0x100_0000 || TrailingZeros(base) <= MAX_EXPONENT || TrailingZeros(base) >= WIDE_EXPONENT
    ensures IsPreciseRange(base, AtMost(base, bounds))
  {
    hide Pow2, TrailingZeros, Exponent, RoundDown, LongestAt, IsPreciseRange;
    var c, e := TrailingZeros(base), Exponent(bounds);
    var aligned, longest, r := RoundDown(bounds, e), LongestAt(base), AtMost(base, bounds);
    RoundDownIs(bounds, e);
    LongestIs(base);
    ZerosAre(base, c);
    Powers();
    RoundDownAtLeast(bounds, WIDE_EXPONENT);
    ExponentIs(bounds);
    if e <= MAX_EXPONENT { Pow2Monotone(e, MAX_EXPONENT); }
    if r == longest {
      Precise(base, r, c);
    } else if e <= c {
      ZerosAre(base, e);
      Precise(base, r, e);
    } else if c <= MAX_EXPONENT {
      MultipleLess(c, e, r);
      Precise(base, r, c);
    } else {
      Precise(base, r, 0);
    }
  }

  /** For a request of at most 511 * 2^14 bytes, less than one alignment unit is lost against what the
      request and the base allow. */
  lemma {:induction false} AtMostLoss(base: nat, bounds: nat)
    requires 0 < base < WORD && bounds <= MANTISSA * Pow2(MAX_EXPONENT)
    ensures IsPreciseRange(base, AtMost(base, bounds)) && AtMost(base, bounds) <= bounds
    ensures var most := MANTISSA * Pow2(TrailingZeros(base));
            (if bounds < most then bounds else most) < AtMost(base, bounds) + Unit(bounds)
  {
    Powers();
    AtMostIsPrecise(base, bounds);
    RoundDownIs(bounds, Exponent(bounds));
    LongestIs(base);
  }

  /** The bound is needed: at an address aligned to 2^15 only, a request for 2^24 bytes gives no valid
      capability at all. */
  lemma {:induction false} AtMostCanFail()
    ensures TrailingZeros(0x8000) == 15 && !IsPreciseRange(0x8000, AtMost(0x8000, 0x100_0000))
  {
    ZerosOfPower(15);
    Powers();
    AtMostIsPrecise(0x8000, 0x100_0000);
  }

  lemma {:induction false} ZerosOfPower(k: nat)
    ensures TrailingZeros(Pow2(k)) == k
  {
    if k > 0 { ZerosOfPower(k - 1); }
  }

  /** The loader rounds the size of the heap down and its base up to the same end: if the end is
      aligned as the size needs, the range is exactly representable, and less than one unit is lost. */
  lemma {:induction false} LoaderHeap(base: nat, size: nat)
    requires base + size <= WORD && size < WORD && Multiple(Exponent(size), base + size)
    ensures var rounded := RoundDown(size, Exponent(size));
            && rounded <= size < rounded + Unit(size)
            && IsPreciseRange(base + size - rounded, rounded)
  {
    hide Exponent, RoundDown, Multiple, IsPreciseRange;
    var e := Exponent(size);
    var rounded := RoundDown(size, e);
    ExponentIs(size);
    RoundDownIs(size, e);
    MultipleAdd(e, rounded, base + size - rounded);
    Precise(base + size - rounded, rounded, e);
  }

  lemma {:induction false} ExponentIs(length: nat)
    ensures var e := Exponent(length); (e <= MAX_EXPONENT && length <= MANTISSA * Pow2(e)) || e == WIDE_EXPONENT
  {
  }

  /** A capability, as far as its bounds go. */
  class Capability {
    var address: nat
    var base: nat
    var length: nat
    var isValid: bool

    /** Whether a range lies within the bounds, which setting bounds never widens. */
    predicate Covers(from: nat, size: nat)
      reads this
    {
      base <= from && from + size <= base + length
    }

    /** bounds() = bounds: the tag is lost if the range cannot be represented exactly. */
    method SetExact(bounds: nat)
      modifies this
      ensures address == old(address)
      ensures isValid <==> old(isValid && Covers(address, bounds)) && IsPreciseRange(address, bounds)
      ensures isValid ==> base == address && length == bounds
      ensures !isValid ==> base == old(base) && length == old(length)
    {
      if isValid && Covers(address, bounds) && IsPreciseRange(address, bounds) {
        base, length := address, bounds;
      } else {
        isValid := false;
      }
    }

    /** bounds().set_inexact_at_most.  A request beyond the bounds may lose the tag, as setting bounds never
        widens them. */
    method SetInexactAtMost(bounds: nat)
      requires 0 < address < WORD && bounds < WORD
      modifies this
      ensures address == old(address)
      ensures old(isValid && Covers(address, bounds)) ==>
                (isValid <==>
                 || bounds < 0x100_0000 || TrailingZeros(address) <= MAX_EXPONENT
                 || TrailingZeros(address) >= WIDE_EXPONENT)
      ensures isValid ==> old(isValid) && base == address && old(base) <= base && base + length <= old(base + length)
      ensures isValid ==> length <= bounds && IsPreciseRange(base, length)
      ensures isValid && old(Covers(address, bounds)) ==> length == AtMost(address, bounds)
    {
      hide IsPreciseRange, TrailingZeros, AtMostSlow;
      AtMostIsPrecise(address, bounds);
      AtMostSlowLess(address, bounds);
      var was := isValid;
      SetExact(bounds);
      if !isValid {
        isValid := was;
        SetInexactAtMostSlow(bounds);
      }
    }

    method SetInexactAtMostSlow(bounds: nat)
      requires address > 0
      modifies this
      ensures address == old(address)
      ensures isValid <==>
              && old(isValid && Covers(address, AtMostSlow(address, bounds)))
              && IsPreciseRange(address, AtMostSlow(address, bounds))
      ensures isValid ==> base == address && length == AtMostSlow(address, bounds)
    {
      var maximumLength := MANTISSA * Pow2(TrailingZeros(address)) % WORD;
      var alignedLength := RoundDown(bounds, Exponent(bounds));
      SetExact(if maximumLength < alignedLength then maximumLength else alignedLength);
    }
  }

  // ---------- The length of an allocation ----------

  /** The size in bytes that mspace_dispatch asks for, in 32 bits. */
  function AlignSize(bytes: nat): (s: nat)
  {
    UpToEight(RepresentableLength(bytes))
  }

  /** chunk_body_size: how much of a body of a given size was handed out. */
  function BodyLength(base: nat, body: nat): (r: int)
  {
    if IsPreciseRange(base, body) then body else body - 8
  }

  lemma {:induction false} Eights(x: nat)
    ensures Multiple(3, x) <==> x % 8 == 0
    ensures Multiple(4, x) <==> x % 16 == 0
  {
    MultipleIsMod(3, x);
    MultipleIsMod(4, x);
    Powers();
  }

  function UpToEight(r: nat): (s: nat) { (r + 7) / 8 * 8 % WORD }

  lemma {:induction false} UpToEightIs(r: nat, most: nat)
    requires r <= most < WORD && most % 8 == 0
    ensures r <= UpToEight(r) <= most && UpToEight(r) % 8 == 0
    ensures r % 8 == 0 ==> UpToEight(r) == r
  {
    var q := (r + 7) / 8;
    assert q * 8 <= most;
  }

  /** A request with the wide exponent wraps to nothing or asks for 16 megabytes at least. */
  lemma {:induction false} WideRequest(bytes: nat)
    requires bytes < WORD && Exponent(bytes) == WIDE_EXPONENT
    ensures AlignSize(bytes) == 0 || AlignSize(bytes) >= 0x100_0000
  {
    var e := Exponent(bytes);
    var r := RoundUp(bytes, e);
    assert Pow2(e) == 0x100_0000 by { Powers(); }
    RoundUpIs(bytes, e);
    RoundUpBelow(bytes, e, 256);
    RoundDownIs(r, e);
    RoundDownAtLeast(r, e);
    if r < WORD {
      assert RepresentableLength(bytes) == r;
      MultipleLess(3, e, r);
      Eights(r);
      UpToEightIs(r, r);
    } else {
      assert RepresentableLength(bytes) == 0;
      UpToEightIs(0, 0);
    }
  }

  /** The rounded request is the request rounded up to its own unit and to eight bytes. */
  lemma {:induction false} AlignSizeIs(bytes: nat)
    requires bytes < WORD && 0 < AlignSize(bytes) <= 8 * 0x1_0000
    ensures Exponent(bytes) <= MAX_EXPONENT && bytes <= AlignSize(bytes) && AlignSize(bytes) % 8 == 0
    ensures Exponent(bytes) <= 3 ==> AlignSize(bytes) <= MANTISSA * 8
    ensures Exponent(bytes) > 3 ==> Multiple(Exponent(bytes), AlignSize(bytes))
    ensures Exponent(bytes) > 3 ==> AlignSize(bytes) <= MANTISSA * Pow2(Exponent(bytes))
  {
    var e := Exponent(bytes);
    if e == WIDE_EXPONENT {
      WideRequest(bytes);
      assert false;
    }
    var r := RoundUp(bytes, e);
    RoundUpIs(bytes, e);
    assert e <= 3 ==> Pow2(e) <= 8 by {
      if e <= 3 { Pow2Monotone(e, 3); }
    }
    NoWrap(bytes);
    if e <= 3 {
      UpToEightIs(r, MANTISSA * 8);
    } else {
      MultipleLess(3, e, r);
      Eights(r);
      UpToEightIs(r, r);
    }
  }

  /** What mspace_dispatch hands out of the chunk it got covers the request and is exactly representable,
      and the size recomputed when it is freed is the size handed out.  That is less than the whole
      body iff the chunk is eight bytes longer than asked for, its body 4096 bytes, and the body not
      aligned to 16 bytes. */
  lemma {:induction false} HandedOut(bytes: nat, base: nat, body: nat)
    requires bytes < WORD && 0 < AlignSize(bytes) <= 8 * 0x1_0000 && Multiple(3, base)
    requires Exponent(bytes) <= 3 ==> body == AlignSize(bytes) || body == AlignSize(bytes) + 8
    requires Exponent(bytes) > 3 ==> body == AlignSize(bytes) && Multiple(Exponent(bytes), base)
    ensures BodyLength(base, body) == if IsPreciseRange(base, body) then body else AlignSize(bytes)
    ensures IsPreciseRange(base, BodyLength(base, body))
    ensures bytes <= BodyLength(base, body) <= body && BodyLength(base, body) % 8 == 0 && BodyLength(base, body) > 0
    ensures BodyLength(base, body) != body <==> body == AlignSize(bytes) + 8 && body == 4096 && !Multiple(4, base)
  {
    hide AlignSize, Exponent, IsPreciseRange, Multiple;
    var s, e := AlignSize(bytes), Exponent(bytes);
    AlignSizeIs(bytes);
    Eights(s);
    if e > 3 {
      Precise(base, s, e);
    } else {
      Precise(base, s, 3);
      EightMore(base, s);
    }
  }

  /** Eight bytes more than a length with eight-byte units are exact but for 4096 bytes at an odd granule. */
  lemma {:induction false} EightMore(base: nat, s: nat)
    requires Multiple(3, base) && s % 8 == 0 && s <= MANTISSA * 8
    ensures IsPreciseRange(base, s + 8) <==> s + 8 != 4096 || Multiple(4, base)
  {
    Powers();
    Eights(s + 8);
    if s + 8 <= MANTISSA * 8 {
      Precise(base, s + 8, 3);
    } else {
      PreciseAt4096(base);
    }
  }

  lemma {:induction false} PreciseAt4096(base: nat)
    ensures IsPreciseRange(base, 4096) <==> Multiple(4, base)
  {
    Powers();
    Pow2Monotone(0, 3);
    Eights(4096);
    assert Exponent(4096) == 4;
    Representable(4096);
  }
}
