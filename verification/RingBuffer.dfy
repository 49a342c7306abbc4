/** The single-producer, single-consumer ring buffer: two threads that share a ring and two free-running
    32-bit counters, interleaved at every single load and store. */
module RingBuffer {
  import opened SizeBits

  /** A slot of the ring: a whole message, or one that is being moved in or out. */
  datatype Slot<T> = Torn | Whole(message: T)

  /** Where the producer is in push: about to look for room, about to test what it read of the consumer's
      counter, about to wait on that counter, asleep, about to write, writing, about to test for emptiness,
      about to bump its counter, about to notify. */
  datatype Pushing = PIdle | PLook | PTest(seen: nat) | PWait | PAsleep | PWrite | PWriting | PEmpty | PBump | PNotify

  datatype Popping = CIdle | CLook | CTest(seen: nat) | CWait | CAsleep | CRead | CReading | CFull | CBump | CNotify

  datatype State<T> = State(
    n: nat,                        // BufferSize
    ring: seq<Slot<T>>,
    producer: nat, consumer: nat,  // the counters
    pp: Pushing, cp: Popping,
    item: Slot<T>,                 // the message the producer is pushing
    result: Slot<T>,               // the message the consumer is popping
    wasEmpty: bool, wasFull: bool,
    pushed: seq<T>,                // messages pushed so far, and popped so far
    popped: seq<Slot<T>>)

  predicate Size(n: nat) { 0 < n < WORD / 2 && WORD % n == 0 }

  /** The next load, store or call of push.  A message is needed only to start a new push. */
  function Produce<T>(s: State<T>, m: T): (s': State<T>)
    requires Size(s.n) && |s.ring| == s.n
  {
    match s.pp
    case PIdle => s.(pp := PLook, item := Whole(m))
    case PLook => s.(pp := PTest(s.consumer))                                          // is_full loads consumer
    case PTest(seen) => s.(pp := if (s.producer - seen) % WORD == s.n then PWait else PWrite)
    case PWait => s.(pp := if s.consumer == (s.producer - s.n) % WORD then PAsleep else PLook)   // consumer.wait
    case PAsleep => s
    case PWrite => s.(pp := PWriting, ring := s.ring[s.producer % s.n := Torn])        // the store begins
    case PWriting => s.(pp := PEmpty, ring := s.ring[s.producer % s.n := s.item])      // and ends
    case PEmpty => s.(pp := PBump, wasEmpty := s.producer == s.consumer)
    case PBump =>
      var pushed := if s.item.Whole? then s.pushed + [s.item.message] else s.pushed;
      s.(pp := if s.wasEmpty then PNotify else PIdle, producer := (s.producer + 1) % WORD, pushed := pushed)
    case PNotify => s.(pp := PIdle, cp := if s.cp.CAsleep? then CLook else s.cp)       // producer.notify_all
  }

  /** The next load, store or call of pop. */
  function Consume<T>(s: State<T>): (s': State<T>)
    requires Size(s.n) && |s.ring| == s.n
  {
    match s.cp
    case CIdle => s.(cp := CLook)
    case CLook => s.(cp := CTest(s.producer))                                          // is_empty loads producer
    case CTest(seen) => s.(cp := if seen == s.consumer then CWait else CRead)
    case CWait => s.(cp := if s.producer == s.consumer then CAsleep else CLook)        // producer.wait
    case CAsleep => s
    case CRead => s.(cp := CReading, result := s.ring[s.consumer % s.n])
    case CReading => s.(cp := CFull, ring := s.ring[s.consumer % s.n := Torn])         // moved out
    case CFull => s.(cp := CBump, wasFull := (s.producer - s.consumer) % WORD == s.n)
    case CBump =>
      s.(cp := if s.wasFull then CNotify else CIdle, consumer := (s.consumer + 1) % WORD,
         popped := s.popped + [s.result])
    case CNotify => s.(cp := CIdle, pp := if s.pp.PAsleep? then PLook else s.pp)       // consumer.notify_all
  }

  // ---------- The invariant ----------

  /** Where message k lies. */
  function At(n: nat, k: nat): (i: nat)
    requires n > 0
    ensures i < n
  {
    k % n
  }

  /** Whether the consumer has already moved its message out. */
  predicate Moved(cp: Popping) { cp.CFull? || cp.CBump? }

  predicate Holding(cp: Popping) { cp.CReading? || cp.CFull? || cp.CBump? }

  /** Message k is whole in its slot if it is pushed and not yet moved out. */
  predicate SlotAt<T(==)>(s: State<T>, k: nat)
    requires s.n > 0 && |s.ring| == s.n && k < |s.pushed|
  {
    |s.popped| <= k && (k == |s.popped| ==> !Moved(s.cp)) ==> s.ring[At(s.n, k)] == Whole(s.pushed[k])
  }

  ghost predicate Inv<T(!new)>(s: State<T>)
  {
    var P, C := |s.pushed|, |s.popped|;
    && Size(s.n) && |s.ring| == s.n
    && s.producer == P % WORD && s.consumer == C % WORD && C <= P <= C + s.n
    && (forall k: nat {:trigger s.popped[k]} | k < C :: s.popped[k] == Whole(s.pushed[k]))
    && (forall k: nat {:trigger SlotAt(s, k)} | k < P :: SlotAt(s, k))
    && ProducerOk(s) && ConsumerOk(s)
  }

  /** A counter value that was read earlier counts no more than there is now, and not too little. */
  predicate Seen(seen: nat, now: nat, other: nat, n: nat)
  {
    exists c: nat {:trigger c % WORD} :: c <= now && other <= c + n && seen == c % WORD
  }

  ghost predicate ProducerOk<T(!new)>(s: State<T>)
  {
    var P, C := |s.pushed|, |s.popped|;
    && (!s.pp.PIdle? ==> s.item.Whole?)
    && (s.pp.PTest? ==> Seen(s.pp.seen, C, P, s.n))
    && (s.pp.PWrite? || s.pp.PWriting? || s.pp.PEmpty? || s.pp.PBump? ==> P < C + s.n)
    && (s.pp.PBump? && s.wasEmpty ==> P == C)
    && (s.pp.PEmpty? || s.pp.PBump? ==> s.n > 0 && |s.ring| == s.n && s.ring[At(s.n, P)] == s.item)
  }

  ghost predicate ConsumerOk<T(!new)>(s: State<T>)
  {
    var P, C := |s.pushed|, |s.popped|;
    && (s.cp.CTest? ==> exists p: nat {:trigger p % WORD} :: C <= p <= P && s.cp.seen == p % WORD)
    && (s.cp.CRead? || Holding(s.cp) ==> C < P) && (s.cp.CBump? && s.wasFull ==> P == C + s.n)
    && (Holding(s.cp) ==> C < P && s.result == Whole(s.pushed[C]))
  }

  // ---------- Counters that wrap ----------

  lemma {:induction false} WrapIndex(n: nat, k: nat)
    requires Size(n)
    ensures k % WORD % n == At(n, k)
  {
    var m, q, r := WORD / n, k / WORD, k % WORD;
    assert WORD == n * m && k == WORD * q + r;
    assert k == n * (m * q) + r by { assert WORD * q == n * (m * q); }
    var d := r / n;
    assert r == n * d + r % n;
    assert k == n * (m * q + d) + r % n by { assert n * (m * q + d) == n * (m * q) + n * d; }
    DivUnique(k, n, m * q + d, r % n);
  }

  lemma {:induction false} WrapDistance(p: nat, c: nat)
    requires c <= p < c + WORD
    ensures (p % WORD - c % WORD) % WORD == p - c
    ensures p % WORD == c % WORD <==> p == c
  {
    var a, b := p / WORD, c / WORD;
    assert p == WORD * a + p % WORD && c == WORD * b + c % WORD;
    assert p % WORD - c % WORD == WORD * (b - a) + (p - c);
    DivUnique(p % WORD - c % WORD, WORD, b - a, p - c);
  }

  lemma {:induction false} WrapNext(k: nat)
    ensures (k % WORD + 1) % WORD == (k + 1) % WORD
  {
    var q := k / WORD;
    assert k + 1 == WORD * q + (k % WORD + 1);
    if k % WORD + 1 < WORD {
      DivUnique(k + 1, WORD, q, k % WORD + 1);
    } else {
      DivUnique(k + 1, WORD, q + 1, 0);
    }
  }

  /** Messages fewer than the size of the ring apart lie in different slots. */
  lemma {:induction false} SlotsApart(n: nat, j: nat, k: nat)
    requires 0 < n && j < k < j + n
    ensures At(n, j) != At(n, k)
  {
    var q, p := j / n, k / n;
    assert j == n * q + j % n && k == n * p + k % n;
    if j % n == k % n {
      assert k - j == n * (p - q) by { assert n * (p - q) == n * p - n * q; }
      if p - q >= 1 { MulMono(n, 1, p - q); } else { MulMono(n, p - q, 0); }
      assert false;
    }
  }

  // ---------- Every step keeps the invariant ----------

  lemma {:induction false} KeepSlots<T(!new)>(s: State<T>, s': State<T>, i: nat)
    requires Size(s.n) && |s.ring| == s.n && s'.n == s.n && |s'.ring| == s.n && s'.pushed == s.pushed
    requires s'.popped == s.popped
    requires (forall k: nat {:trigger SlotAt(s, k)} | k < |s.pushed| :: SlotAt(s, k)) && (Moved(s.cp) ==> Moved(s'.cp))
    requires forall j: nat | j < s.n && j != i :: s'.ring[j] == s.ring[j]
    requires forall k: nat | |s.popped| <= k < |s.pushed| && At(s.n, k) == i :: k == |s.popped| && Moved(s'.cp)
    ensures forall k: nat {:trigger SlotAt(s', k)} | k < |s'.pushed| :: SlotAt(s', k)
  {
    forall k: nat | k < |s'.pushed| ensures SlotAt(s', k) { assert SlotAt(s, k); }
  }

  /** A step that touches neither the ring nor the counters. */
  lemma {:induction false} Untouched<T(!new)>(s: State<T>, s': State<T>)
    requires Inv(s) && s'.n == s.n && s'.ring == s.ring && s'.producer == s.producer && s'.consumer == s.consumer
    requires s'.pushed == s.pushed && s'.popped == s.popped && Moved(s'.cp) == Moved(s.cp)
    requires ProducerOk(s') && ConsumerOk(s')
    ensures Inv(s')
  {
    hide ProducerOk, ConsumerOk;
    forall k: nat | k < |s.pushed| ensures SlotAt(s', k) { assert SlotAt(s, k); }
  }

  lemma {:induction false} ProduceTest<T(!new)>(s: State<T>, m: T)
    requires Inv(s) && (s.pp.PLook? || s.pp.PTest?)
    ensures Inv(Produce(s, m))
  {
    var s', P, C := Produce(s, m), |s.pushed|, |s.popped|;
    if s.pp.PTest? {
      var c: nat :| c <= C && P <= c + s.n && s.pp.seen == c % WORD;
      WrapDistance(P, c);
    } else {
      assert Seen(s'.pp.seen, C, P, s.n) by { assert s'.pp.seen == C % WORD; }
    }
    hide SlotAt;
    Untouched(s, s');
  }

  lemma {:induction false} ProduceOther<T(!new)>(s: State<T>, m: T)
    requires Inv(s) && !s.pp.PLook? && !s.pp.PTest? && !s.pp.PWrite? && !s.pp.PWriting? && !s.pp.PBump?
    ensures Inv(Produce(s, m))
  {
    hide SlotAt, Seen;
    var s', P, C := Produce(s, m), |s.pushed|, |s.popped|;
    WrapDistance(P, C);
    Untouched(s, s');
  }

  /** A store to the ring never touches the slot of a message that is not yet popped. */
  lemma {:induction false} NoOverwrite<T(!new)>(s: State<T>, k: nat)
    requires Inv(s) && (s.pp.PWrite? || s.pp.PWriting?) && |s.popped| <= k < |s.pushed|
    ensures s.producer % s.n != At(s.n, k)
  {
    WrapIndex(s.n, |s.pushed|);
    SlotsApart(s.n, k, |s.pushed|);
  }

  lemma {:induction false} ProduceWrite<T(!new)>(s: State<T>, m: T)
    requires Inv(s) && (s.pp.PWrite? || s.pp.PWriting?)
    ensures Inv(Produce(s, m))
  {
    var s', P, C := Produce(s, m), |s.pushed|, |s.popped|;
    WrapIndex(s.n, P);
    forall k: nat | C <= k < P ensures At(s.n, k) != At(s.n, P) { NoOverwrite(s, k); }
    KeepSlots(s, s', At(s.n, P));
  }

  lemma {:induction false} ProduceBump<T(!new)>(s: State<T>, m: T)
    requires Inv(s) && s.pp.PBump?
    ensures Inv(Produce(s, m))
  {
    var s', P, C := Produce(s, m), |s.pushed|, |s.popped|;
    WrapNext(P);
    forall k: nat | k < P + 1 ensures SlotAt(s', k) { if k < P { assert SlotAt(s, k); } }
    if s.cp.CTest? {
      var p: nat :| C <= p <= P && s.cp.seen == p % WORD;
    }
  }

  lemma {:induction false} ProduceInv<T(!new)>(s: State<T>, m: T)
    requires Inv(s)
    ensures Inv(Produce(s, m))
  {
    match s.pp
    case PWrite => ProduceWrite(s, m);
    case PWriting => ProduceWrite(s, m);
    case PBump => ProduceBump(s, m);
    case PLook => ProduceTest(s, m);
    case PTest(_) => ProduceTest(s, m);
    case _ => ProduceOther(s, m);
  }

  lemma {:induction false} ConsumeTest<T(!new)>(s: State<T>)
    requires Inv(s) && (s.cp.CLook? || s.cp.CTest?)
    ensures Inv(Consume(s))
  {
    var s', P, C := Consume(s), |s.pushed|, |s.popped|;
    if s.cp.CTest? {
      var p: nat :| C <= p <= P && s.cp.seen == p % WORD;
      WrapDistance(p, C);
    } else {
      assert s'.cp.seen == P % WORD;
    }
    hide SlotAt, Seen;
    Untouched(s, s');
  }

  lemma {:induction false} ConsumeOther<T(!new)>(s: State<T>)
    requires Inv(s) && !s.cp.CLook? && !s.cp.CTest? && !s.cp.CRead? && !s.cp.CReading? && !s.cp.CBump?
    ensures Inv(Consume(s))
  {
    hide SlotAt, Seen;
    var s', P, C := Consume(s), |s.pushed|, |s.popped|;
    WrapDistance(P, C);
    Untouched(s, s');
  }

  lemma {:induction false} ConsumeRead<T(!new)>(s: State<T>)
    requires Inv(s) && (s.cp.CRead? || s.cp.CReading?)
    ensures Inv(Consume(s))
  {
    var s', P, C := Consume(s), |s.pushed|, |s.popped|;
    WrapIndex(s.n, C);
    assert SlotAt(s, C);
    if s.cp.CRead? {
      forall k: nat | k < P ensures SlotAt(s', k) { assert SlotAt(s, k); }
    } else {
      forall k: nat | C < k < P ensures At(s.n, k) != At(s.n, C) { SlotsApart(s.n, C, k); }
      KeepSlots(s, s', At(s.n, C));
      if P < C + s.n { SlotsApart(s.n, C, P); }
    }
  }

  lemma {:induction false} ConsumeBump<T(!new)>(s: State<T>)
    requires Inv(s) && s.cp.CBump?
    ensures Inv(Consume(s))
  {
    var s', P, C := Consume(s), |s.pushed|, |s.popped|;
    WrapNext(C);
    forall k: nat | k < P ensures SlotAt(s', k) { assert SlotAt(s, k); }
    if s.pp.PTest? {
      var c: nat :| c <= C && P <= c + s.n && s.pp.seen == c % WORD;
      assert Seen(s'.pp.seen, C + 1, P, s.n);
    }
  }

  lemma {:induction false} ConsumeInv<T(!new)>(s: State<T>)
    requires Inv(s)
    ensures Inv(Consume(s))
  {
    match s.cp
    case CRead => ConsumeRead(s);
    case CReading => ConsumeRead(s);
    case CBump => ConsumeBump(s);
    case CLook => ConsumeTest(s);
    case CTest(_) => ConsumeTest(s);
    case _ => ConsumeOther(s);
  }

  // ---------- Every interleaving ----------

  /** A step of either thread. */
  datatype Step<T> = ProducerStep(message: T) | ConsumerStep

  function Taken<T>(s: State<T>, x: Step<T>): (s': State<T>)
    requires Size(s.n) && |s.ring| == s.n
    ensures s'.n == s.n && |s'.ring| == |s.ring|
  {
    match x
    case ProducerStep(m) => Produce(s, m)
    case ConsumerStep => Consume(s)
  }

  function Run<T>(s: State<T>, xs: seq<Step<T>>): (s': State<T>)
    requires Size(s.n) && |s.ring| == s.n
    ensures s'.n == s.n && |s'.ring| == |s.ring|
    decreases xs
  {
    if xs == [] then s else Run(Taken(s, xs[0]), xs[1..])
  }

  /** The messages that pushes were started with. */
  function Offered<T>(s: State<T>, xs: seq<Step<T>>): (ms: seq<T>)
    requires Size(s.n) && |s.ring| == s.n
    decreases xs
  {
    if xs == [] then []
    else (if xs[0].ProducerStep? && s.pp.PIdle? then [xs[0].message] else []) + Offered(Taken(s, xs[0]), xs[1..])
  }

  /** What pops have returned. */
  function Returned<T>(s: State<T>, xs: seq<Step<T>>): (ms: seq<Slot<T>>)
    requires Size(s.n) && |s.ring| == s.n
    decreases xs
  {
    if xs == [] then []
    else (if xs[0].ConsumerStep? && s.cp.CBump? then [s.result] else []) + Returned(Taken(s, xs[0]), xs[1..])
  }

  /** The message of the push that is under way, if any. */
  function InFlight<T>(s: State<T>): (ms: seq<T>)
  {
    if s.item.Whole? && !s.pp.PIdle? && !s.pp.PNotify? then [s.item.message] else []
  }

  function Start<T>(ring: seq<Slot<T>>): (s: State<T>)
  {
    State(|ring|, ring, 0, 0, PIdle, CIdle, Torn, Torn, false, false, [], [])
  }

  lemma {:induction false} RunInv<T(!new)>(s: State<T>, xs: seq<Step<T>>)
    requires Inv(s)
    ensures Inv(Run(s, xs))
    decreases xs
  {
    if xs != [] {
      match xs[0] {
        case ProducerStep(m) => ProduceInv(s, m);
        case ConsumerStep => ConsumeInv(s);
      }
      RunInv(Taken(s, xs[0]), xs[1..]);
    }
  }

  /** Nothing but the messages of pushes is pushed, each once and in order, and only the last may be missing. */
  lemma {:induction false} RunOffers<T(!new)>(s: State<T>, xs: seq<Step<T>>)
    requires Inv(s)
    ensures var s' := Run(s, xs);
            && s'.pushed + InFlight(s') == s.pushed + InFlight(s) + Offered(s, xs)
            && s'.popped == s.popped + Returned(s, xs)
    decreases xs
  {
    hide Taken, Inv, InFlight;
    Shape(s);
    if xs != [] {
      StepInv(s, xs[0]);
      var s1, s' := Taken(s, xs[0]), Run(s, xs);
      RunOffers(s1, xs[1..]);
      StepOffers(s, xs[0]);
      var m := if xs[0].ProducerStep? && s.pp.PIdle? then [xs[0].message] else [];
      var r := if xs[0].ConsumerStep? && s.cp.CBump? then [s.result] else [];
      Append(s1.pushed + InFlight(s1), s.pushed + InFlight(s), m, Offered(s1, xs[1..]));
      Append(s1.popped, s.popped, r, Returned(s1, xs[1..]));
    }
  }

  lemma {:induction false} Append<A>(u: seq<A>, v: seq<A>, m: seq<A>, o: seq<A>)
    requires u == v + m
    ensures u + o == v + (m + o)
  {
  }

  lemma {:induction false} Shape<T(!new)>(s: State<T>)
    requires Inv(s)
    ensures Size(s.n) && |s.ring| == s.n
  {
  }

  lemma {:induction false} StepOffers<T(!new)>(s: State<T>, x: Step<T>)
    requires Inv(s)
    ensures var s' := Taken(s, x);
            && s'.pushed + InFlight(s') ==
               s.pushed + InFlight(s) + (if x.ProducerStep? && s.pp.PIdle? then [x.message] else [])
            && s'.popped == s.popped + if x.ConsumerStep? && s.cp.CBump? then [s.result] else []
  {
    hide SlotAt, Seen, At;
    if x.ConsumerStep? { assert Taken(s, x).pushed == s.pushed && InFlight(Taken(s, x)) == InFlight(s); }
  }

  lemma {:induction false} StepInv<T(!new)>(s: State<T>, x: Step<T>)
    requires Inv(s)
    ensures Inv(Taken(s, x))
  {
    match x
    case ProducerStep(m) => ProduceInv(s, m);
    case ConsumerStep => ConsumeInv(s);
  }

  /** Under every interleaving, what pops have returned is a prefix of what pushes were given, in order and whole,
      and the ring never holds more messages than it has slots, across any number of counter wraps. */
  lemma {:induction false} Prefix<T(!new)>(ring: seq<Slot<T>>, xs: seq<Step<T>>)
    requires Size(|ring|)
    ensures var s, given, got := Run(Start(ring), xs), Offered(Start(ring), xs), Returned(Start(ring), xs);
            && |got| == |s.popped| <= |s.pushed| <= |s.popped| + |ring| && |s.pushed| <= |given| <= |s.pushed| + 1
            && (forall k: nat | k < |got| :: got[k] == Whole(given[k]))
            && (s.pp.PIdle? ==> given == s.pushed)
  {
    var s0 := Start(ring);
    RunInv(s0, xs);
    RunOffers(s0, xs);
    var s, given, got := Run(s0, xs), Offered(s0, xs), Returned(s0, xs);
    assert s.pushed + InFlight(s) == given && s.popped == got;
    forall k: nat | k < |got| ensures got[k] == Whole(given[k]) { assert s.popped[k] == Whole(s.pushed[k]); }
  }

  // ---------- Progress ----------

  /** The producer sleeps exactly if the ring is full, and the consumer exactly if it is empty. */
  lemma {:induction false} SleepsWhen<T(!new)>(s: State<T>, m: T)
    requires Inv(s)
    ensures s.pp.PWait? ==> (Produce(s, m).pp.PAsleep? <==> |s.pushed| == |s.popped| + s.n)
    ensures s.cp.CWait? ==> (Consume(s).cp.CAsleep? <==> |s.pushed| == |s.popped|)
  {
    var P, C := |s.pushed|, |s.popped|;
    WrapDistance(P, C);
    WrapBack(P, C, s.n);
  }

  lemma {:induction false} WrapBack(p: nat, c: nat, n: nat)
    requires c <= p <= c + n && n < WORD / 2
    ensures c % WORD == (p % WORD - n) % WORD <==> p == c + n
  {
    var a, b := p / WORD, c / WORD;
    assert p == WORD * a + p % WORD && c == WORD * b + c % WORD;
    var d := c + n - p;
    assert p % WORD - n == WORD * (b - a) + (c % WORD - d);
    if c % WORD - d >= 0 {
      DivUnique(p % WORD - n, WORD, b - a, c % WORD - d);
    } else {
      assert p % WORD - n == WORD * (b - a - 1) + (WORD + c % WORD - d) by {
        assert WORD * (b - a) == WORD * (b - a - 1) + WORD;
      }
      DivUnique(p % WORD - n, WORD, b - a - 1, WORD + c % WORD - d);
    }
  }

  /** The same step seven times. */
  function Seven<T>(x: Step<T>): (xs: seq<Step<T>>) { [x, x, x, x, x, x, x] }

  lemma {:induction false} RunSeven<T>(s: State<T>, x: Step<T>)
    requires Size(s.n) && |s.ring| == s.n
    ensures Run(s, Seven(x)) == Taken(Taken(Taken(Taken(Taken(Taken(Taken(s, x), x), x), x), x), x), x)
  {
    hide Taken;
    assert [x, x, x, x, x, x, x][1..] == [x, x, x, x, x, x] && [x, x, x, x, x, x][1..] == [x, x, x, x, x];
    assert [x, x, x, x, x][1..] == [x, x, x, x] && [x, x, x, x][1..] == [x, x, x] && [x, x, x][1..] == [x, x];
    assert [x, x][1..] == [x] && [x][1..] == [];
    var s2 := Taken(Taken(s, x), x);
    var s4 := Taken(Taken(s2, x), x);
    var s6 := Taken(Taken(s4, x), x);
    assert Run(s6, [x]) == Taken(s6, x);
    assert Run(s4, [x, x, x]) == Run(s6, [x]);
    assert Run(s2, [x, x, x, x, x]) == Run(s4, [x, x, x]);
  }

  /** A producer with room gets its message into the ring without the help of the consumer. */
  lemma {:induction false} PushCompletes<T(!new)>(s: State<T>, m: T)
    requires Inv(s) && s.pp.PIdle? && |s.pushed| < |s.popped| + s.n
    ensures var s' := Run(s, Seven(ProducerStep(m)));
            s'.pushed == s.pushed + [m] && s'.popped == s.popped && (s'.pp.PIdle? || s'.pp.PNotify?)
  {
    hide Inv;
    Counters(s);
    var s3 := Produce(Produce(Produce(s, m), m), m);
    assert s3 == s.(pp := PWrite, item := Whole(m));
    RunSeven(s, ProducerStep(m));
  }

  /** A consumer gets the next message out of a ring that is not empty without the help of the producer. */
  lemma {:induction false} PopCompletes<T(!new)>(s: State<T>)
    requires Inv(s) && s.cp.CIdle? && |s.popped| < |s.pushed|
    ensures var s' := Run(s, Seven(ConsumerStep));
            && s'.popped == s.popped + [Whole(s.pushed[|s.popped|])] && s'.pushed == s.pushed
            && (s'.cp.CIdle? || s'.cp.CNotify?)
  {
    assert SlotAt(s, |s.popped|);
    hide Inv, Seen;
    Counters(s);
    var s4 := Consume(Consume(Consume(Consume(s))));
    assert s4 == s.(cp := CReading, result := Whole(s.pushed[|s.popped|]));
    RunSeven(s, ConsumerStep);
  }

  lemma {:induction false} Counters<T(!new)>(s: State<T>)
    requires Inv(s)
    ensures Size(s.n) && |s.ring| == s.n && s.consumer % s.n == At(s.n, |s.popped|)
    ensures s.producer == s.consumer <==> |s.pushed| == |s.popped|
    ensures (s.producer - s.consumer) % WORD == |s.pushed| - |s.popped| && |s.popped| <= |s.pushed| <= |s.popped| + s.n
  {
    WrapDistance(|s.pushed|, |s.popped|);
    WrapIndex(s.n, |s.popped|);
  }

  // ---------- Wake-ups ----------

  /** The consumer is asleep though there is a message for it, and the producer is not about to wake it. */
  predicate LostPop<T>(s: State<T>) { s.cp.CAsleep? && |s.popped| < |s.pushed| && !s.pp.PNotify? }

  /** The producer is asleep though there is room, and the consumer is not about to wake it. */
  predicate LostPush<T>(s: State<T>) { s.pp.PAsleep? && |s.pushed| < |s.popped| + s.n && !s.cp.CNotify? }

  /** A wake-up of the consumer is lost exactly when the producer bumps its counter while the consumer is asleep
      and its own test for emptiness, made before, has said that the ring is not empty. */
  lemma {:induction false} LosesPop<T(!new)>(s: State<T>, x: Step<T>)
    requires Inv(s) && !LostPop(s)
    ensures LostPop(Taken(s, x)) <==> x.ProducerStep? && s.pp.PBump? && s.cp.CAsleep? && !s.wasEmpty
  {
    match x
    case ProducerStep(m) => SleepsWhen(s, m);
    case ConsumerStep => if s.cp.CWait? { WrapDistance(|s.pushed|, |s.popped|); }
  }

  lemma {:induction false} LosesPush<T(!new)>(s: State<T>, x: Step<T>)
    requires Inv(s) && !LostPush(s)
    ensures LostPush(Taken(s, x)) <==> x.ConsumerStep? && s.cp.CBump? && s.pp.PAsleep? && !s.wasFull
  {
    hide SlotAt, Seen, At;
    match x
    case ProducerStep(m) => SleepsWhen(s, m);
    case ConsumerStep =>
  }

  /** Both sides are between their test and the bump of their counter, so that one test will be out of date. */
  predicate Racing<T>(s: State<T>) { s.pp.PBump? && s.cp.CBump? }

  /** That happens nowhere in a run. */
  predicate Undisturbed<T>(s: State<T>, xs: seq<Step<T>>)
    requires Size(s.n) && |s.ring| == s.n
    decreases xs
  {
    xs == [] || (!Racing(s) && Undisturbed(Taken(s, xs[0]), xs[1..]))
  }

  /** The tests are up to date, and nobody sleeps in vain. */
  predicate Awake<T>(s: State<T>)
  {
    && (s.pp.PBump? ==> (s.wasEmpty <==> |s.pushed| == |s.popped|))
    && (s.cp.CBump? ==> (s.wasFull <==> |s.pushed| == |s.popped| + s.n))
    && !LostPop(s) && !LostPush(s)
  }

  lemma {:induction false} StepAwake<T(!new)>(s: State<T>, x: Step<T>)
    requires Inv(s) && Awake(s) && !Racing(s)
    ensures Awake(Taken(s, x))
  {
    hide Inv;
    Counters(s);
    match x
    case ProducerStep(m) => SleepsWhen(s, m);
    case ConsumerStep => ConsumerSleeps(s);
  }

  lemma {:induction false} ConsumerSleeps<T(!new)>(s: State<T>)
    requires Inv(s)
    ensures s.cp.CWait? ==> (Consume(s).cp.CAsleep? <==> |s.pushed| == |s.popped|)
  {
    Counters(s);
  }

  /** In a run without such a race no wake-up is lost. */
  lemma {:induction false} NoneLost<T(!new)>(s: State<T>, xs: seq<Step<T>>)
    requires Inv(s) && Awake(s) && Undisturbed(s, xs)
    ensures Awake(Run(s, xs))
    decreases xs
  {
    hide Inv, Awake, Taken, Racing;
    Shape(s);
    if xs != [] {
      StepInv(s, xs[0]);
      StepAwake(s, xs[0]);
      NoneLost(Taken(s, xs[0]), xs[1..]);
    }
  }

  /** A lost wake-up stays lost, whatever is pushed or popped later. */
  lemma {:induction false} LostForever<T(!new)>(s: State<T>, xs: seq<Step<T>>)
    requires Inv(s)
    ensures LostPop(s) ==> LostPop(Run(s, xs))
    ensures LostPush(s) ==> LostPush(Run(s, xs))
    decreases xs
  {
    if xs != [] {
      StepInv(s, xs[0]);
      StaysLost(s, xs[0]);
      LostForever(Taken(s, xs[0]), xs[1..]);
    }
  }

  lemma {:induction false} StaysLost<T(!new)>(s: State<T>, x: Step<T>)
    requires Inv(s)
    ensures LostPop(s) ==> LostPop(Taken(s, x))
    ensures LostPush(s) ==> LostPush(Taken(s, x))
  {
    WrapDistance(|s.pushed|, |s.popped|);
  }

  /** Some bump of the producer's counter in a run misses the consumer. */
  predicate MissesPop<T>(s: State<T>, xs: seq<Step<T>>)
    requires Size(s.n) && |s.ring| == s.n
    decreases xs
  {
    xs != [] && ((xs[0].ProducerStep? && s.pp.PBump? && s.cp.CAsleep? && !s.wasEmpty) ||
                 MissesPop(Taken(s, xs[0]), xs[1..]))
  }

  predicate MissesPush<T>(s: State<T>, xs: seq<Step<T>>)
    requires Size(s.n) && |s.ring| == s.n
    decreases xs
  {
    xs != [] && ((xs[0].ConsumerStep? && s.cp.CBump? && s.pp.PAsleep? && !s.wasFull) ||
                 MissesPush(Taken(s, xs[0]), xs[1..]))
  }

  /** A run ends with somebody asleep in vain exactly if some bump in it missed them. */
  lemma {:induction false} LostWhen<T(!new)>(s: State<T>, xs: seq<Step<T>>)
    requires Inv(s)
    ensures !LostPop(s) ==> (LostPop(Run(s, xs)) <==> MissesPop(s, xs))
    ensures !LostPush(s) ==> (LostPush(Run(s, xs)) <==> MissesPush(s, xs))
    decreases xs
  {
    hide Inv, Taken, LostPop, LostPush;
    Shape(s);
    if xs != [] {
      var s1 := Taken(s, xs[0]);
      StepInv(s, xs[0]);
      if !LostPop(s) { LosesPop(s, xs[0]); }
      if !LostPush(s) { LosesPush(s, xs[0]); }
      LostForever(s1, xs[1..]);
      LostWhen(s1, xs[1..]);
    }
  }

  /** It does happen: after the test of the second push, which finds the first message still there, the consumer
      pops that and goes to sleep; the second message is then pushed without a notification. */
  lemma {:induction false} LostWakeUp()
    ensures var p: Step<int>, c: Step<int> := ProducerStep(7), ConsumerStep;
            LostPop(Run(Start([Torn, Torn]), Seven(p) + Seven(p) + Seven(c) + Seven(c) + [p]))
  {
    hide Run, Seven, Taken, OneIn, TwoIn, OneOut;
    var p: Step<int>, c: Step<int> := ProducerStep(7), ConsumerStep;
    var s0: State<int> := Start([Torn, Torn]);
    FirstPush();
    SecondPush();
    FirstPop();
    FallAsleep();
    Unnoticed();
    RunOn(s0, Seven(p), Seven(p));
    RunOn(s0, Seven(p) + Seven(p), Seven(c));
    RunOn(s0, Seven(p) + Seven(p) + Seven(c), Seven(c));
    RunOn(s0, Seven(p) + Seven(p) + Seven(c) + Seven(c), [p]);
  }

  /** One message is in the ring, and its notification under way. */
  function OneIn(): (s: State<int>)
  {
    State(2, [Whole(7), Torn], 1, 0, PNotify, CIdle, Whole(7), Torn, true, false, [7], [])
  }

  /** The second is about to be counted. */
  function TwoIn(): (s: State<int>) { OneIn().(ring := [Whole(7), Whole(7)], pp := PBump, wasEmpty := false) }

  /** And the first is out. */
  function OneOut(): (s: State<int>)
  {
    TwoIn().(ring := [Torn, Whole(7)], consumer := 1, popped := [Whole(7)], result := Whole(7))
  }

  lemma {:induction false} FirstPush()
    ensures Run(Start([Torn, Torn]), Seven(ProducerStep(7))) == OneIn()
  {
    var s, x: Step<int> := Start([Torn, Torn]), ProducerStep(7);
    var s3 := s.(pp := PWrite, item := Whole(7));
    assert Taken(Taken(Taken(s, x), x), x) == s3;
    var s5 := s3.(pp := PEmpty, ring := [Whole(7), Torn]);
    assert Taken(Taken(s3, x), x) == s5;
    assert Taken(Taken(s5, x), x) == OneIn();
    RunSeven(s, x);
  }

  lemma {:induction false} SecondPush()
    ensures Run(OneIn(), Seven(ProducerStep(7))) == TwoIn()
  {
    var s, x: Step<int> := OneIn(), ProducerStep(7);
    var s4 := s.(pp := PWrite);
    assert Taken(Taken(Taken(Taken(s, x), x), x), x) == s4;
    var s6 := s4.(pp := PEmpty, ring := [Whole(7), Whole(7)]);
    assert Taken(Taken(s4, x), x) == s6;
    assert Taken(s6, x) == TwoIn();
    RunSeven(s, x);
  }

  lemma {:induction false} FirstPop()
    ensures Run(TwoIn(), Seven(ConsumerStep)) == OneOut()
  {
    var s, x: Step<int> := TwoIn(), ConsumerStep;
    var s3 := s.(cp := CRead);
    assert Taken(Taken(Taken(s, x), x), x) == s3;
    var s5 := s3.(cp := CFull, result := Whole(7), ring := [Torn, Whole(7)]);
    assert Taken(Taken(s3, x), x) == s5;
    assert Taken(Taken(s5, x), x) == OneOut();
    RunSeven(s, x);
  }

  lemma {:induction false} FallAsleep()
    ensures Run(OneOut(), Seven(ConsumerStep)) == OneOut().(cp := CAsleep)
  {
    var s, x: Step<int> := OneOut(), ConsumerStep;
    var s4 := s.(cp := CAsleep);
    assert Taken(Taken(Taken(Taken(s, x), x), x), x) == s4;
    assert Taken(s4, x) == s4;
    RunSeven(s, x);
  }

  lemma {:induction false} Unnoticed()
    ensures LostPop(Run(OneOut().(cp := CAsleep), [ProducerStep(7)]))
  {
    assert [ProducerStep(7)][1..] == [];
  }

  lemma {:induction false} RunOn<T>(s: State<T>, xs: seq<Step<T>>, ys: seq<Step<T>>)
    requires Size(s.n) && |s.ring| == s.n
    ensures Run(s, xs + ys) == Run(Run(s, xs), ys)
    decreases xs
  {
    if xs == [] {
      assert xs + ys == ys;
    } else {
      assert (xs + ys)[1..] == xs[1..] + ys;
      RunOn(Taken(s, xs[0]), xs[1..], ys);
    }
  }

  /** A power of two below 2^31 is a size: it divides the range of the counters. */
  lemma {:induction false} PowerOfTwoSize(e: nat)
    requires e < 31
    ensures Size(Pow2(e))
  {
    WordPowers();
    Pow2Add(e, 32 - e);
    Pow2Monotone(e, 30);
    var n, m := Pow2(e), Pow2(32 - e);
    assert Pow2(31) == 2 * Pow2(30);
    DivUnique(WORD, n, m, 0);
  }
}
