/**
 * The single-producer single-consumer ring. Every atomic load, atomic store and slot access of
 * TryPublish and TryConsume is one step of a machine whose two sides interleave freely; the
 * machine is shown to be a bounded first-in first-out queue. The class at the end runs the same
 * steps without interleaving.
 */
module Ring {
  import opened Arith
  import opened Bits
  import opened Words

  datatype Producer<T> =
    | Ready
    | LoadedWrite(event: T, wp: uint64)
    | LoadedBoth(event: T, wp: uint64, rp: uint64)
    | Written(wp: uint64, event: T)

  datatype Consumer<T> =
    | Waiting
    | LoadedRead(rp: uint64)
    | LoadedPair(rp: uint64, wp: uint64)
    | Taken(rp: uint64, event: T)

  // The shared words and slots, the two program counters, and the history of both sides.
  datatype State<T> = State(
    mask: uint64, buf: seq<T>, writePos: uint64, readPos: uint64,
    producer: Producer<T>, consumer: Consumer<T>,
    published: seq<T>, consumed: seq<T>)

  datatype Action<T> = Produce(event: T) | Consume

  predicate PowerOfTwo(size: nat) {
    size > 0 && And(size, size - 1) == 0
  }

  // Every power of two passes the test.
  lemma {:induction false} PowersPass(n: nat)
    ensures PowerOfTwo(Pow2(n))
    decreases n
  {
    if n == 0 {
    } else {
      PowersPass(n - 1);
      EvenWord(Pow2(n - 1));
    }
  }

  // What every ring is built with: one slot per value of the masked position.
  predicate Shape<T>(s: State<T>) {
    |s.buf| == s.mask + 1 <= TWO_63 && PowerOfTwo(s.mask + 1)
  }

  function Index(pos: nat, size: nat): (i: nat)
    requires size > 0
    ensures i < size
  {
    pos % size
  }

  // The slot a position is masked to.
  function Slot<T>(s: State<T>, pos: uint64): (i: nat)
    requires Shape(s)
    ensures i == Index(pos, |s.buf|) < |s.buf|
  {
    MaskIsRemainder(pos, s.mask + 1);
    And(pos, s.mask)
  }

  // Distance between two positions in 64-bit arithmetic.
  function Distance(wp: uint64, rp: uint64): uint64 {
    if wp >= rp then wp - rp else wp - rp + TWO_64
  }

  // A count as a 64-bit word.
  function Word(n: nat): uint64 {
    n % TWO_64
  }

  function Next(pos: uint64): uint64 {
    if pos + 1 == TWO_64 then 0 else pos + 1
  }

  function ProducerStep<T>(s: State<T>, e: T): (t: State<T>)
    requires Shape(s)
    ensures Shape(t) && |t.buf| == |s.buf|
  {
    match s.producer
    case Ready => s.(producer := LoadedWrite(e, s.writePos))
    case LoadedWrite(ev, wp) => s.(producer := LoadedBoth(ev, wp, s.readPos))
    case LoadedBoth(ev, wp, rp) =>
      if Distance(wp, rp) > s.mask then s.(producer := Ready)
      else s.(buf := s.buf[Slot(s, wp) := ev], producer := Written(wp, ev))
    case Written(wp, ev) =>
      s.(writePos := Next(wp), producer := Ready, published := s.published + [ev])
  }

  function ConsumerStep<T>(s: State<T>): (t: State<T>)
    requires Shape(s)
    ensures Shape(t) && |t.buf| == |s.buf|
  {
    match s.consumer
    case Waiting => s.(consumer := LoadedRead(s.readPos))
    case LoadedRead(rp) => s.(consumer := LoadedPair(rp, s.writePos))
    case LoadedPair(rp, wp) =>
      if rp >= wp then s.(consumer := Waiting)
      else s.(consumer := Taken(rp, s.buf[Slot(s, rp)]))
    case Taken(rp, ev) =>
      s.(readPos := Next(rp), consumer := Waiting, consumed := s.consumed + [ev])
  }

  function Step<T>(s: State<T>, a: Action<T>): (t: State<T>)
    requires Shape(s)
    ensures Shape(t) && |t.buf| == |s.buf|
  {
    match a
    case Produce(e) => ProducerStep(s, e)
    case Consume => ConsumerStep(s)
  }

  // Any interleaving of the two sides.
  function Run<T>(s: State<T>, acts: seq<Action<T>>): (t: State<T>)
    requires Shape(s)
    ensures Shape(t) && |t.buf| == |s.buf|
    decreases |acts|
  {
    if acts == [] then s else Step(Run(s, acts[..|acts| - 1]), acts[|acts| - 1])
  }

  predicate Initial<T>(s: State<T>) {
    && Shape(s) && s.writePos == 0 && s.readPos == 0
    && s.producer == Ready && s.consumer == Waiting && s.published == [] && s.consumed == []
  }

  // ----- The invariant -----

  predicate Positions<T>(s: State<T>) {
    && Shape(s)
    && |s.consumed| <= |s.published| <= |s.consumed| + |s.buf|
    && s.writePos == Word(|s.published|) && s.readPos == |s.consumed|
  }

  // Every published and unread event sits in its slot, and what was read is what was published.
  predicate Contents<T(==)>(s: State<T>)
    requires Positions(s)
  {
    && s.consumed == s.published[..|s.consumed|]
    && forall k :: |s.consumed| <= k < |s.published| ==> s.buf[Index(k, |s.buf|)] == s.published[k]
  }

  predicate ProducerOk<T(==)>(s: State<T>)
    requires Positions(s)
  {
    match s.producer
    case Ready => true
    case LoadedWrite(_, wp) => wp == Word(|s.published|)
    case LoadedBoth(_, wp, rp) =>
      wp == Word(|s.published|) && |s.published| - |s.consumed| <= Distance(wp, rp)
    case Written(wp, ev) =>
      && wp == Word(|s.published|) && |s.published| < |s.consumed| + |s.buf|
      && s.buf[Index(|s.published|, |s.buf|)] == ev
  }

  predicate ConsumerOk<T(==)>(s: State<T>)
    requires Positions(s)
  {
    match s.consumer
    case Waiting => true
    case LoadedRead(rp) => rp == |s.consumed|
    case LoadedPair(rp, wp) => rp == |s.consumed| && (rp < wp ==> rp < |s.published| && rp + 1 < TWO_64)
    case Taken(rp, ev) => rp == |s.consumed| < |s.published| && rp + 1 < TWO_64 && ev == s.published[rp]
  }

  predicate Inv<T(==)>(s: State<T>) {
    Positions(s) && Contents(s) && ProducerOk(s) && ConsumerOk(s)
  }

  // Positions less than one lap apart use different slots.
  lemma SlotsDiffer(a: nat, b: nat, size: nat)
    requires size > 0 && 0 < a - b < size
    ensures Index(a, size) != Index(b, size)
  {
    if Index(a, size) == Index(b, size) {
      Euclid(a, size);
      Euclid(b, size);
      Distribute(size, a / size, b / size);
      DivisionIs(a - b, size, a / size - b / size, 0);
      DivisionIs(a - b, size, 0, a - b);
    }
  }

  lemma WordOfNext(n: nat)
    ensures Word(n + 1) == Next(Word(n))
  {
    var q, r: int := n / TWO_64, n % TWO_64;
    if r + 1 == TWO_64 {
      DivisionIs(n + 1, TWO_64, q + 1, 0);
    } else {
      DivisionIs(n + 1, TWO_64, q, r + 1);
    }
  }

  // While fewer than 2^64 events are consumed, the full test measures the unread events whatever
  // the write position, and the empty test sees them exactly while fewer than 2^64 are published.
  lemma DistanceOfWords(p: nat, c: nat)
    requires c < TWO_64 && c <= p <= c + TWO_63
    ensures Distance(Word(p), c) == p - c
    ensures c < Word(p) <==> c < p < TWO_64
  {
    if p < TWO_64 { DivisionIs(p, TWO_64, 0, p); } else { DivisionIs(p, TWO_64, 1, p - TWO_64); }
  }

  // A word is masked to the slot of the count it stands for.
  lemma SlotOfWord(n: nat, size: nat)
    requires PowerOfTwo(size) && size <= TWO_63
    ensures Index(Word(n), size) == Index(n, size)
  {
    hide And, Pow2;
    Pow2OfWord(64);
    PassingDividesPower(size, 64);
    RemainderOfRemainder(n, TWO_64, size);
  }

  // The slot written is not one that holds an unread event.
  lemma WriteKeepsContents<T>(s: State<T>, ev: T)
    requires Positions(s) && Contents(s) && |s.published| < |s.consumed| + |s.buf|
    ensures var b := s.buf[Slot(s, Word(|s.published|)) := ev];
      && b[Index(|s.published|, |b|)] == ev
      && forall k :: |s.consumed| <= k < |s.published| ==> b[Index(k, |b|)] == s.published[k]
  {
    hide Index, Word;
    SlotOfWord(|s.published|, |s.buf|);
    forall k | |s.consumed| <= k < |s.published|
      ensures Index(k, |s.buf|) != Index(|s.published|, |s.buf|)
    {
      SlotsDiffer(|s.published|, k, |s.buf|);
    }
  }

  lemma PublishKeepsInv<T>(s: State<T>, e: T)
    requires Inv(s) && s.producer.Written?
    ensures Inv(ProducerStep(s, e))
  {
    WordOfNext(|s.published|);
    hide Index, Word, Slot, PowerOfTwo;
  }

  lemma ProducerKeepsInv<T>(s: State<T>, e: T)
    requires Inv(s)
    ensures Inv(ProducerStep(s, e))
  {
    hide Index, Word, Distance, Slot, PowerOfTwo;
    DistanceOfWords(|s.published|, |s.consumed|);
    match s.producer
    case Written(_, _) => PublishKeepsInv(s, e);
    case LoadedBoth(ev, wp, rp) =>
      if Distance(wp, rp) <= s.mask { WriteKeepsContents(s, ev); }
    case _ =>
  }

  lemma ConsumerKeepsInv<T>(s: State<T>)
    requires Inv(s)
    ensures Inv(ConsumerStep(s))
  {
    hide Index, Word, Distance;
    DistanceOfWords(|s.published|, |s.consumed|);
  }

  lemma {:induction false} RunKeepsInv<T>(s: State<T>, acts: seq<Action<T>>)
    requires Initial(s)
    ensures Inv(Run(s, acts))
    decreases |acts|
  {
    hide Index;
    if acts != [] {
      var a := acts[|acts| - 1];
      var before := Run(s, acts[..|acts| - 1]);
      RunKeepsInv(s, acts[..|acts| - 1]);
      match a
      case Produce(e) => ProducerKeepsInv(before, e);
      case Consume => ConsumerKeepsInv(before);
    }
  }

  // Under every interleaving, however long, the events consumed are a prefix of those published,
  // in order and without loss or duplication, the unread ones never exceed the capacity, and
  // the positions are as far apart as there are unread events.
  lemma ConsumedIsPrefixOfPublished<T>(s: State<T>, acts: seq<Action<T>>)
    requires Initial(s)
    ensures var t := Run(s, acts);
      && t.consumed <= t.published
      && |t.published| - |t.consumed| <= t.mask + 1 == |s.buf|
      && Distance(t.writePos, t.readPos) == |t.published| - |t.consumed|
  {
    RunKeepsInv(s, acts);
    hide Index, Word, Distance;
    var t := Run(s, acts);
    DistanceOfWords(|t.published|, |t.consumed|);
  }

  // The publish that brings the write position round to zero is never read: no run consumes
  // 2^64 events.
  lemma NoRunConsumesAWord<T>(s: State<T>, acts: seq<Action<T>>)
    requires Initial(s)
    ensures |Run(s, acts).consumed| < TWO_64
  {
    hide Index;
    RunKeepsInv(s, acts);
  }

  // The unread events.
  function Queue<T>(s: State<T>): seq<T>
    requires |s.consumed| <= |s.published|
  {
    s.published[|s.consumed|..]
  }

  // Each step leaves the queue alone, adds one event at the back of a queue that is not full,
  // or removes the front one.
  lemma StepRefinesFifo<T>(s: State<T>, a: Action<T>)
    requires Inv(s)
    ensures Inv(Step(s, a))
    ensures Stutters(s, Step(s, a)) || Enqueues(s, Step(s, a)) || Dequeues(s, Step(s, a))
  {
    match a
    case Produce(e) => ProducerRefinesFifo(s, e);
    case Consume => ConsumerRefinesFifo(s);
  }

  lemma ProducerRefinesFifo<T>(s: State<T>, e: T)
    requires Inv(s)
    ensures var t := ProducerStep(s, e); Inv(t) && (Stutters(s, t) || Enqueues(s, t))
  {
    hide Index, Contents;
    ProducerKeepsInv(s, e);
    if s.producer.Written? {
      assert Queue(ProducerStep(s, e)) == Queue(s) + [s.producer.event];
    }
  }

  lemma ConsumerRefinesFifo<T>(s: State<T>)
    requires Inv(s)
    ensures var t := ConsumerStep(s); Inv(t) && (Stutters(s, t) || Dequeues(s, t))
  {
    hide Index, Contents;
    ConsumerKeepsInv(s);
    if s.consumer.Taken? {
      assert Queue(s) == [s.consumer.event] + Queue(ConsumerStep(s));
    }
  }

  ghost predicate Stutters<T>(s: State<T>, t: State<T>) {
    t.published == s.published && t.consumed == s.consumed
  }

  // The event is the one its TryPublish call was given.
  ghost predicate Enqueues<T>(s: State<T>, t: State<T>)
    requires Inv(s) && Inv(t)
  {
    && s.producer.Written? && |Queue(s)| < |s.buf|
    && Queue(t) == Queue(s) + [s.producer.event] && t.consumed == s.consumed
  }

  // The event removed is the one TryConsume returns.
  ghost predicate Dequeues<T>(s: State<T>, t: State<T>)
    requires Inv(s) && Inv(t)
  {
    && s.consumer.Taken? && Queue(s) == [s.consumer.event] + Queue(t)
    && t.consumed == s.consumed + [s.consumer.event] && t.published == s.published
  }

  // A publish is refused exactly when the queue was full at the load of the read position. A
  // consume comes back empty exactly when the queue was empty at the load of the write position
  // or 2^64 events had been published by then.
  lemma AnswersAreExact<T>(s: State<T>, e: T)
    requires Inv(s)
    ensures s.producer.LoadedWrite? ==>
      (ProducerStep(ProducerStep(s, e), e).producer == Ready <==> |Queue(s)| == |s.buf|)
    ensures s.consumer.LoadedRead? ==>
      (ConsumerStep(ConsumerStep(s)).consumer == Waiting <==> Queue(s) == [] || |s.published| >= TWO_64)
  {
    DistanceOfWords(|s.published|, |s.consumed|);
    hide Index, Word, Distance;
  }

  // The two sides never touch the same slot at the same time.
  lemma NoSlotIsShared<T>(s: State<T>)
    requires Inv(s) && s.producer.LoadedBoth? && s.consumer.LoadedPair?
    requires Distance(s.producer.wp, s.producer.rp) <= s.mask
    requires s.consumer.rp < s.consumer.wp
    ensures Slot(s, s.producer.wp) != Slot(s, s.consumer.rp)
  {
    hide Index, Word, Distance;
    SlotOfWord(|s.published|, |s.buf|);
    SlotsDiffer(|s.published|, s.consumer.rp, |s.buf|);
  }

  // One event through an empty ring, step by step.
  lemma FirstPublish<T>(s: State<T>, e: T)
    requires Initial(s)
    ensures var s1 := ProducerStep(s, e); var s2 := ProducerStep(s1, e); var s3 := ProducerStep(s2, e);
      var s4 := ProducerStep(s3, e);
      && s1.producer.LoadedWrite? && s2.producer.LoadedBoth? && s3.producer.Written?
      && s4.producer == Ready && s4.consumer == Waiting && Inv(s4) && Queue(s4) == [e] && s4.published == [e]
  {
    RunKeepsInv(s, []);
    ProducerKeepsInv(s, e);
    ProducerKeepsInv(ProducerStep(s, e), e);
    ProducerKeepsInv(ProducerStep(ProducerStep(s, e), e), e);
    ProducerKeepsInv(ProducerStep(ProducerStep(ProducerStep(s, e), e), e), e);
    hide Inv, Slot, PowerOfTwo;
  }

  lemma FirstConsume<T>(s: State<T>, e: T)
    requires Inv(s) && s.consumer == Waiting && s.published == [e] && Queue(s) == [e]
    ensures var s1 := ConsumerStep(s); var s2 := ConsumerStep(s1); var s3 := ConsumerStep(s2);
      && s1.consumer.LoadedRead? && s2.consumer.LoadedPair? && s3.consumer.Taken? && s3.consumer.event == e
      && s3.consumed == [] && s3.published == s.published
  {
    var s1 := ConsumerStep(s);
    var s3 := ConsumerStep(ConsumerStep(s1));
    ConsumerKeepsInv(s);
    ConsumerKeepsInv(s1);
    ConsumerKeepsInv(ConsumerStep(s1));
    AnswersAreExact(s1, e);
    if s3.consumer.Taken? { TakenEvent(s3); }
    hide Inv, Slot, PowerOfTwo;
  }

  lemma TakenEvent<T>(s: State<T>)
    requires Inv(s) && s.consumer.Taken?
    ensures |s.consumed| < |s.published| && s.consumer.event == s.published[|s.consumed|]
  {
    hide Index, Word, PowerOfTwo;
  }

  // ----- The object, run without interleaving -----

  class RingBuffer<T(0,==)> {
    var writePos: uint64
    var readPos: uint64
    const mask: uint64
    const buf: array<T>
    ghost var published: seq<T>
    ghost var consumed: seq<T>

    ghost function Snapshot(): State<T>
      reads this, buf
    {
      State(mask, buf[..], writePos, readPos, Ready, Waiting, published, consumed)
    }

    ghost predicate Valid()
      reads this, buf
    {
      Inv(Snapshot())
    }

    constructor (size: nat)
      requires PowerOfTwo(size) && size <= TWO_63
      ensures Valid() && Initial(Snapshot()) && fresh(buf) && buf.Length == size
    {
      mask := size - 1;
      buf := new T[size];
      writePos, readPos := 0, 0;
      published, consumed := [], [];
    }

    // Four producer steps, or three when the buffer is full.
    method TryPublish(e: T) returns (ok: bool)
      requires Valid()
      modifies this, buf
      ensures Valid()
      ensures ok <==> |old(Queue(Snapshot()))| < buf.Length
      ensures Queue(Snapshot()) == old(Queue(Snapshot())) + (if ok then [e] else [])
      ensures consumed == old(consumed)
      ensures var s1 := ProducerStep(old(Snapshot()), e);
        var s3 := ProducerStep(ProducerStep(s1, e), e);
        Snapshot() == if ok then ProducerStep(s3, e) else s3
    {
      hide Index, And, Word, Distance;
      DistanceOfWords(|published|, |consumed|);
      ghost var s0 := Snapshot();
      ghost var s2 := ProducerStep(ProducerStep(s0, e), e);
      ProducerKeepsInv(s0, e);
      ProducerKeepsInv(ProducerStep(s0, e), e);
      ProducerKeepsInv(s2, e);
      var wp := writePos;
      var rp := readPos;
      if Distance(wp, rp) > mask {
        return false;
      }
      MaskIsRemainder(wp, mask + 1);
      buf[And(wp, mask)] := e;
      assert buf[..] == ProducerStep(s2, e).buf;
      ProducerKeepsInv(ProducerStep(s2, e), e);
      writePos := Next(wp);
      published := published + [e];
      return true;
    }

    // Four consumer steps, or three when the buffer is empty.
    method TryConsume() returns (ok: bool, e: T)
      requires Valid()
      modifies this
      ensures Valid()
      ensures ok <==> old(Queue(Snapshot())) != [] && |published| < TWO_64
      ensures old(Queue(Snapshot())) == (if ok then [e] else []) + Queue(Snapshot())
      ensures published == old(published)
      ensures var s3 := ConsumerStep(ConsumerStep(ConsumerStep(old(Snapshot()))));
        Snapshot() == if ok then ConsumerStep(s3) else s3
    {
      hide Index, And, Word, Distance;
      DistanceOfWords(|published|, |consumed|);
      ghost var s0 := Snapshot();
      ConsumerKeepsInv(s0);
      ConsumerKeepsInv(ConsumerStep(s0));
      ConsumerKeepsInv(ConsumerStep(ConsumerStep(s0)));
      var rp := readPos;
      var wp := writePos;
      if rp >= wp {
        e := *;
        return false, e;
      }
      MaskIsRemainder(rp, mask + 1);
      e := buf[And(rp, mask)];
      ConsumerKeepsInv(ConsumerStep(ConsumerStep(ConsumerStep(s0))));
      readPos := Next(rp);
      consumed := consumed + [e];
      return true, e;
    }

    method Len() returns (n: nat)
      requires Valid()
      ensures n == |Queue(Snapshot())|
    {
      DistanceOfWords(|published|, |consumed|);
      hide Word, Distance;
      n := Distance(writePos, readPos);
    }
  }
}
