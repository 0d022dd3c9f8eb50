/**
 * One producer and one consumer on a shared ring, interleaved at the level of single counter loads, single
 * frame copies (in any order, as memcpy promises none) and counter stores.
 *
 * The machine itself only uses the memory, the two 64-bit counters and each side's registers. The fields
 * `accepted`, `offers`, `taken`, `outcomes`, the producer's `room` and the consumer's `seen` and `drop` record
 * history for the statements below.
 */
module RingProtocol {
  import opened Words
  import opened RingPlan

  type Frame = seq<real>

  datatype Producer =
    | Ready
    | LoadedOwn(src: seq<Frame>, w: Word64)
    | Filling(src: seq<Frame>, w: Word64, n: nat, done: set<nat>, room: nat)

  datatype Consumer =
    | Waiting
    | LoadedOther(frames: Word32, w: Word64, seen: nat)
    | Draining(frames: Word32, rd: Word64, n: nat, dst: map<nat, Frame>, seen: nat, drop: nat)

  /** What one read call did: the frames it passed over, the frames it returned, and the backlog it left. */
  datatype Outcome = Outcome(skipped: seq<Frame>, delivered: seq<Frame>, asked: Word32, left: int)

  /** What one write call was given, and the free frames it found when it loaded the read counter. */
  datatype Offer = Offer(src: seq<Frame>, room: nat)

  datatype State = State(
    mem: seq<Frame>, inWrite: Word64, inRead: Word64, producer: Producer, consumer: Consumer,
    accepted: seq<Frame>, offers: seq<Offer>, taken: nat, outcomes: seq<Outcome>)

  datatype Step =
    | BeginWrite(src: seq<Frame>)   // load the producer's own counter
    | PlanWrite                     // load the consumer's counter and fix the amount
    | CopyIn(i: nat)
    | Publish                       // store the write counter
    | BeginRead(frames: Word32)     // load the producer's counter
    | PlanRead                      // load the consumer's own counter, skip and fix the amount
    | CopyOut(i: nat)
    | Release                       // store the read counter

  ghost predicate Init(s: State) {
    && |s.mem| == RING_FRAMES
    && s.inWrite == 0 && s.inRead == 0
    && s.producer == Ready && s.consumer == Waiting
    && s.accepted == [] && s.offers == [] && s.taken == 0 && s.outcomes == []
  }

  ghost predicate Enabled(s: State, step: Step) {
    match step
    case BeginWrite(src) => s.producer.Ready? && |src| < U32
    case PlanWrite => s.producer.LoadedOwn?
    case CopyIn(i) => s.producer.Filling? && i < s.producer.n && i !in s.producer.done
    case Publish => s.producer.Filling? && forall i: nat :: i < s.producer.n ==> i in s.producer.done
    case BeginRead(frames) => s.consumer.Waiting?
    case PlanRead => s.consumer.LoadedOther?
    case CopyOut(i) => s.consumer.Draining? && i < s.consumer.n && i !in s.consumer.dst
    case Release => s.consumer.Draining? && forall i: nat :: i < s.consumer.n ==> i in s.consumer.dst
  }

  /** Registers stay usable as indices; this much is needed to write the steps down. */
  ghost predicate Typed(s: State) {
    && |s.mem| == RING_FRAMES
    && s.taken <= |s.accepted| <= s.taken + RING_FRAMES
    && (s.producer.LoadedOwn? ==> |s.producer.src| < U32)
    && (s.producer.Filling? ==> s.producer.n <= |s.producer.src| && s.producer.n <= RING_FRAMES)
    && (s.consumer.Draining? ==>
          && s.consumer.n <= RING_FRAMES
          && s.taken + s.consumer.drop <= s.consumer.seen <= |s.accepted|)
  }

  ghost function Apply(s: State, step: Step): State
    requires Typed(s) && Enabled(s, step)
  {
    match step
    case BeginWrite(src) => s.(producer := LoadedOwn(src, s.inWrite))
    case PlanWrite =>
      var n := Accepts(s.producer.w, s.inRead, |s.producer.src|);
      s.(producer := Filling(s.producer.src, s.producer.w, n, {}, RING_FRAMES + s.taken - |s.accepted|))
    case CopyIn(i) =>
      s.(mem := s.mem[SplitSlot(s.producer.w, i) := s.producer.src[i]],
         producer := s.producer.(done := s.producer.done + {i}))
    case Publish =>
      s.(inWrite := Low64(s.producer.w + s.producer.n), producer := Ready,
         accepted := s.accepted + s.producer.src[..s.producer.n],
         offers := s.offers + [Offer(s.producer.src, s.producer.room)])
    case BeginRead(frames) => s.(consumer := LoadedOther(frames, s.inWrite, |s.accepted|))
    case PlanRead =>
      var avail := Avail(s.consumer.w, s.inRead);
      var drop, n := Drops(avail, s.consumer.frames), Takes(avail, s.consumer.frames);
      s.(consumer := Draining(s.consumer.frames, Low64(s.inRead + drop), n, map[], s.consumer.seen, drop))
    case CopyOut(i) =>
      s.(consumer := s.consumer.(dst := s.consumer.dst[i := s.mem[SplitSlot(s.consumer.rd, i)]]))
    case Release =>
      var c := s.consumer;
      var passed := s.accepted[s.taken..s.taken + c.drop];
      var returned := seq(c.n, i requires 0 <= i < c.n => c.dst[i]);
      s.(inRead := Low64(c.rd + c.n), consumer := Waiting, taken := s.taken + c.drop + c.n,
         outcomes := s.outcomes + [Outcome(passed, returned, c.frames, c.seen - s.taken - c.drop - c.n)])
  }

  /** Every frame the reads passed over or returned, in order. */
  ghost function Consumed(outcomes: seq<Outcome>): seq<Frame> {
    if outcomes == [] then []
    else Consumed(outcomes[..|outcomes| - 1]) + outcomes[|outcomes| - 1].skipped + outcomes[|outcomes| - 1].delivered
  }

  /** Every frame the writes took: from each offer, the longest prefix that fitted the room found. */
  ghost function Taken(offers: seq<Offer>): seq<Frame> {
    if offers == [] then []
    else
      var o := offers[|offers| - 1];
      Taken(offers[..|offers| - 1]) + (if |o.src| > o.room then o.src[..o.room] else o.src)
  }

  /** The amounts of one read, relative to the write counter it loaded. */
  ghost predicate BoundedRead(skipped: nat, delivered: nat, asked: Word32, left: int) {
    && 0 <= left <= TARGET_FILL
    && delivered <= asked
    && (skipped > 0 && asked + TARGET_FILL < U32 ==> delivered == asked && left == TARGET_FILL)
    && (skipped == 0 && delivered < asked ==> left == 0)
  }

  ghost predicate Bounded(o: Outcome) {
    BoundedRead(|o.skipped|, |o.delivered|, o.asked, o.left)
  }

  /** The memory slot that belongs to an unbounded position. */
  ghost function At(mem: seq<Frame>, p: nat): Frame
    requires |mem| == RING_FRAMES
  {
    mem[p % RING_FRAMES]
  }

  /** Storing at one position leaves every other position less than a capacity away alone. */
  lemma StoreFramesOthers(mem: seq<Frame>, q: nat, f: Frame, p: nat)
    requires |mem| == RING_FRAMES
    requires p < q < p + RING_FRAMES || q < p < q + RING_FRAMES
    ensures At(mem[q % RING_FRAMES := f], p) == At(mem, p)
  {
    if p < q {
      DistinctSlots(p, q);
    } else {
      DistinctSlots(q, p);
    }
  }

  ghost predicate CountersInv(s: State) {
    && Typed(s)
    && s.inWrite == Low64(|s.accepted|)
    && s.inRead == Low64(s.taken)
  }

  ghost predicate ProducerInv(producer: Producer, mem: seq<Frame>, written: nat, taken: nat)
    requires |mem| == RING_FRAMES
  {
    match producer
    case Ready => true
    case LoadedOwn(src, w) => w == Low64(written)
    case Filling(src, w, n, done, room) =>
      && w == Low64(written)
      && n == (if |src| > room then room else |src|) && written + n <= taken + RING_FRAMES
      && forall i: nat :: i in done ==> i < n && At(mem, written + i) == src[i]
  }

  ghost predicate ConsumerInv(consumer: Consumer, accepted: seq<Frame>, taken: nat) {
    match consumer
    case Waiting => true
    case LoadedOther(frames, w, seen) => taken <= seen <= |accepted| && w == Low64(seen)
    case Draining(frames, rd, n, dst, seen, drop) =>
      && taken + drop + n <= seen <= |accepted|
      && rd == Low64(taken + drop)
      && BoundedRead(drop, n, frames, seen - taken - drop - n)
      && forall i: nat :: i in dst ==> i < n && dst[i] == accepted[taken + drop + i]
  }

  /** The queued frames sit in memory at their unbounded positions. */
  ghost predicate MemoryInv(mem: seq<Frame>, accepted: seq<Frame>, taken: nat)
    requires |mem| == RING_FRAMES
  {
    forall p: nat :: taken <= p < |accepted| ==> At(mem, p) == accepted[p]
  }

  ghost predicate HistoryInv(offers: seq<Offer>, accepted: seq<Frame>, outcomes: seq<Outcome>, taken: nat) {
    && taken <= |accepted|
    && Consumed(outcomes) == accepted[..taken]
    && Taken(offers) == accepted
    && forall k :: 0 <= k < |outcomes| ==> Bounded(outcomes[k])
  }

  ghost predicate Inv(s: State) {
    && CountersInv(s)
    && ProducerInv(s.producer, s.mem, |s.accepted|, s.taken)
    && ConsumerInv(s.consumer, s.accepted, s.taken)
    && MemoryInv(s.mem, s.accepted, s.taken)
    && HistoryInv(s.offers, s.accepted, s.outcomes, s.taken)
  }

  lemma InitEstablishesInv(s: State)
    requires Init(s)
    ensures Inv(s)
  {
  }

  lemma PlanWriteKeepsInv(s: State)
    requires Inv(s) && Enabled(s, PlanWrite)
    ensures Inv(Apply(s, PlanWrite))
  {
    hide MemoryInv, HistoryInv, ConsumerInv;
    PlanIsExact(|s.accepted|, s.taken);
  }

  lemma CopyInKeepsQueue(mem: seq<Frame>, accepted: seq<Frame>, taken: nat, q: nat, f: Frame)
    requires |mem| == RING_FRAMES && MemoryInv(mem, accepted, taken)
    requires |accepted| <= q < taken + RING_FRAMES
    ensures MemoryInv(mem[q % RING_FRAMES := f], accepted, taken)
  {
    forall p: nat | taken <= p < |accepted|
      ensures At(mem[q % RING_FRAMES := f], p) == accepted[p]
    {
      StoreFramesOthers(mem, q, f, p);
    }
  }

  lemma CopyInKeepsFilled(producer: Producer, mem: seq<Frame>, written: nat, taken: nat, i: nat)
    requires |mem| == RING_FRAMES && producer.Filling? && producer.n <= RING_FRAMES
    requires ProducerInv(producer, mem, written, taken) && i < producer.n && i !in producer.done
    ensures ProducerInv(producer.(done := producer.done + {i}),
                        mem[(written + i) % RING_FRAMES := producer.src[i]], written, taken)
  {
    var mem' := mem[(written + i) % RING_FRAMES := producer.src[i]];
    forall j: nat | j in producer.done
      ensures At(mem', written + j) == producer.src[j]
    {
      StoreFramesOthers(mem, written + i, producer.src[i], written + j);
    }
    assert At(mem', written + i) == producer.src[i];
  }

  lemma CopyInKeepsInv(s: State, i: nat)
    requires Inv(s) && Enabled(s, CopyIn(i))
    ensures Inv(Apply(s, CopyIn(i)))
  {
    hide MemoryInv, HistoryInv, ConsumerInv, SplitSlot;
    SplitSlotIsConsecutive(|s.accepted|, i);
    CopyInKeepsQueue(s.mem, s.accepted, s.taken, |s.accepted| + i, s.producer.src[i]);
    CopyInKeepsFilled(s.producer, s.mem, |s.accepted|, s.taken, i);
  }

  lemma PublishKeepsQueue(producer: Producer, mem: seq<Frame>, accepted: seq<Frame>, taken: nat)
    requires |mem| == RING_FRAMES && MemoryInv(mem, accepted, taken)
    requires producer.Filling? && ProducerInv(producer, mem, |accepted|, taken)
    requires producer.n <= |producer.src| && forall i: nat :: i < producer.n ==> i in producer.done
    ensures MemoryInv(mem, accepted + producer.src[..producer.n], taken)
  {
    var accepted' := accepted + producer.src[..producer.n];
    forall p: nat | taken <= p < |accepted'|
      ensures At(mem, p) == accepted'[p]
    {
      if p >= |accepted| {
        var i := p - |accepted|;
        assert i in producer.done && At(mem, |accepted| + i) == producer.src[i];
      }
    }
  }

  lemma PublishKeepsInv(s: State)
    requires Inv(s) && Enabled(s, Publish)
    ensures Inv(Apply(s, Publish))
  {
    hide MemoryInv, At;
    var s' := Apply(s, Publish);
    AdvanceWraps(|s.accepted|, s.producer.n);
    PublishKeepsQueue(s.producer, s.mem, s.accepted, s.taken);
    assert s'.accepted[..s'.taken] == s.accepted[..s.taken];
    assert s'.offers[..|s.offers|] == s.offers;
  }

  lemma PlanReadAmounts(seen: nat, taken: nat, frames: Word32)
    requires taken <= seen <= taken + RING_FRAMES
    ensures var avail := Avail(Low64(seen), Low64(taken));
      var drop, n := Drops(avail, frames), Takes(avail, frames);
      && taken + drop + n <= seen
      && BoundedRead(drop, n, frames, seen - taken - drop - n)
      && Low64(Low64(taken) + drop) == Low64(taken + drop)
  {
    var avail := Avail(Low64(seen), Low64(taken));
    PlanIsExact(seen, taken);
    ReadBoundsBacklog(avail, frames);
    AdvanceWraps(taken, Drops(avail, frames));
  }

  lemma PlanReadKeepsInv(s: State)
    requires Inv(s) && Enabled(s, PlanRead)
    ensures Inv(Apply(s, PlanRead))
  {
    hide Low64, Avail, Drops, Takes, BoundedRead, MemoryInv, HistoryInv, ProducerInv;
    PlanReadAmounts(s.consumer.seen, s.taken, s.consumer.frames);
  }

  lemma CopyOutKeepsInv(s: State, i: nat)
    requires Inv(s) && Enabled(s, CopyOut(i))
    ensures Inv(Apply(s, CopyOut(i)))
  {
    hide Low64, SplitSlot, BoundedRead, HistoryInv, ProducerInv;
    var p := s.taken + s.consumer.drop + i;
    SplitSlotIsConsecutive(s.taken + s.consumer.drop, i);
    assert At(s.mem, p) == s.accepted[p];
  }

  lemma ReleaseReturnsAccepted(s: State)
    requires Inv(s) && Enabled(s, Release)
    ensures var s', c := Apply(s, Release), s.consumer;
      && s'.outcomes == s.outcomes + [Outcome(
           s.accepted[s.taken..s.taken + c.drop], s.accepted[s.taken + c.drop..s'.taken], c.frames, c.seen - s'.taken)]
      && s'.inRead == Low64(s'.taken)
  {
    hide BoundedRead, MemoryInv, HistoryInv, ProducerInv;
    var c := s.consumer;
    AdvanceWraps(s.taken + c.drop, c.n);
    var returned := seq(c.n, i requires 0 <= i < c.n => c.dst[i]);
    assert returned == s.accepted[s.taken + c.drop..s.taken + c.drop + c.n];
  }

  lemma ReleaseKeepsInv(s: State)
    requires Inv(s) && Enabled(s, Release)
    ensures Inv(Apply(s, Release))
  {
    hide Low64, At, BoundedRead;
    var c, s' := s.consumer, Apply(s, Release);
    ReleaseReturnsAccepted(s);
    assert s'.outcomes[..|s.outcomes|] == s.outcomes;
    assert s'.accepted[..s'.taken]
        == s.accepted[..s.taken] + s.accepted[s.taken..s.taken + c.drop] + s.accepted[s.taken + c.drop..s'.taken];
  }

  lemma BeginKeepsInv(s: State, step: Step)
    requires Inv(s) && Enabled(s, step) && (step.BeginWrite? || step.BeginRead?)
    ensures Inv(Apply(s, step))
  {
    hide MemoryInv, HistoryInv;
  }

  lemma StepKeepsInv(s: State, step: Step)
    requires Inv(s) && Enabled(s, step)
    ensures Inv(Apply(s, step))
  {
    hide Apply, ProducerInv, ConsumerInv, MemoryInv, HistoryInv;
    match step
    case BeginWrite(src) => BeginKeepsInv(s, step);
    case PlanWrite => PlanWriteKeepsInv(s);
    case CopyIn(i) => CopyInKeepsInv(s, i);
    case Publish => PublishKeepsInv(s);
    case BeginRead(frames) => BeginKeepsInv(s, step);
    case PlanRead => PlanReadKeepsInv(s);
    case CopyOut(i) => CopyOutKeepsInv(s, i);
    case Release => ReleaseKeepsInv(s);
  }

  /** A run is any interleaving of enabled steps from a quiescent, empty ring. */
  ghost predicate Run(states: seq<State>, steps: seq<Step>) {
    && |states| == |steps| + 1
    && Init(states[0])
    && forall k :: 0 <= k < |steps| ==>
         Typed(states[k]) && Enabled(states[k], steps[k]) && states[k + 1] == Apply(states[k], steps[k])
  }

  lemma {:induction false} RunKeepsInv(states: seq<State>, steps: seq<Step>, k: nat)
    requires Run(states, steps) && k < |states|
    ensures Inv(states[k])
  {
    if k == 0 {
      InitEstablishesInv(states[0]);
    } else {
      RunKeepsInv(states, steps, k - 1);
      StepKeepsInv(states[k - 1], steps[k - 1]);
    }
  }

  /** In every interleaving the accepted frames are, in order, those delivered and skipped, then those queued. */
  lemma FifoWithSkips(states: seq<State>, steps: seq<Step>, k: nat)
    requires Run(states, steps) && k < |states|
    ensures var s := states[k];
      && s.taken <= |s.accepted| <= s.taken + RING_FRAMES && |s.mem| == RING_FRAMES
      && s.accepted == Taken(s.offers)
      && s.accepted == Consumed(s.outcomes) + seq(|s.accepted| - s.taken, i requires 0 <= i => At(s.mem, s.taken + i))
      && forall j :: 0 <= j < |s.outcomes| ==> Bounded(s.outcomes[j])
  {
    RunKeepsInv(states, steps, k);
    var s := states[k];
    var queued := seq(|s.accepted| - s.taken, i requires 0 <= i => At(s.mem, s.taken + i));
    forall i | 0 <= i < |queued|
      ensures queued[i] == s.accepted[s.taken..][i]
    {
      assert At(s.mem, s.taken + i) == s.accepted[s.taken + i];
    }
    assert queued == s.accepted[s.taken..];
  }

  /** While both sides copy, no slot being filled is a slot being drained. */
  lemma CopiesNeverOverlap(states: seq<State>, steps: seq<Step>, k: nat, i: nat, j: nat)
    requires Run(states, steps) && k < |states|
    requires states[k].producer.Filling? && i < states[k].producer.n <= RING_FRAMES
    requires states[k].consumer.Draining? && j < states[k].consumer.n <= RING_FRAMES
    ensures SplitSlot(states[k].producer.w, i) != SplitSlot(states[k].consumer.rd, j)
  {
    RunKeepsInv(states, steps, k);
    var s := states[k];
    SplitSlotIsConsecutive(|s.accepted|, i);
    SplitSlotIsConsecutive(s.taken + s.consumer.drop, j);
    DistinctSlots(s.taken + s.consumer.drop + j, |s.accepted| + i);
  }
}
