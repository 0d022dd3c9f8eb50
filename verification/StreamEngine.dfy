/**
 * The streaming engine's request bookkeeping: a fixed pool of capture and playback requests, an in-flight
 * count, and the drain-and-restart protocol for sample-rate changes.
 *
 * The specification is a state machine on `Engine` values; the class `StreamEngine` is the callback code
 * proved against it. USB submissions may fail at any call: their results come in as `Submissions`.
 */
module StreamEngine {

  const REQUESTS: nat := 32
  /** Bus frames (milliseconds) one request covers. */
  const FRAME_MS: nat := 2
  /** Bus frames a fresh schedule starts ahead of the current one. */
  const LEAD: nat := 25

  predicate Supported(rate: nat) {
    rate == 44100 || rate == 48000 || rate == 88200 || rate == 96000
  }

  /** Results of the pipe calls one callback may make, by request, and the bus clock it may read. */
  datatype Submissions = Submissions(capture: nat -> bool, playback: nat -> bool, bus: nat)

  /**
   * `armedIn` and `armedOut` are the requests the USB stack holds, the latter with the rate they were sized for;
   * `inStarts` and `outStarts` are the bus frames scheduled since the last (re)start.
   */
  datatype Engine = Engine(
    inFlight: int, draining: bool, pending: nat, hwRate: nat, stopped: bool,
    inFrame: nat, outFrame: nat,
    armedIn: set<nat>, armedOut: map<nat, nat>, inStarts: seq<nat>, outStarts: seq<nat>, restarts: nat)

  function ArmIn(e: Engine, i: nat, ok: bool): Engine {
    if ok then
      e.(inFlight := e.inFlight + 1, inFrame := e.inFrame + FRAME_MS,
         armedIn := e.armedIn + {i}, inStarts := e.inStarts + [e.inFrame])
    else e.(stopped := true)
  }

  function ArmOut(e: Engine, i: nat, ok: bool): Engine {
    if ok then
      e.(inFlight := e.inFlight + 1, outFrame := e.outFrame + FRAME_MS,
         armedOut := e.armedOut[i := e.hwRate], outStarts := e.outStarts + [e.outFrame])
    else e
  }

  /** Arm one request of each pool, playback first. */
  function ArmPair(e: Engine, i: nat, sub: Submissions): Engine {
    ArmIn(ArmOut(e, i, sub.playback(i)), i, sub.capture(i))
  }

  ghost predicate OnlyBelow(e: Engine, n: nat) {
    && (forall i :: i in e.armedIn ==> i < n)
    && (forall i :: i in e.armedOut ==> i < n)
  }

  /** The first n requests of both pools have been (attempted to be) armed. */
  function ArmFirst(e: Engine, sub: Submissions, n: nat): (r: Engine)
    ensures OnlyBelow(e, 0) ==> OnlyBelow(r, n)
  {
    if n == 0 then e else ArmPair(ArmFirst(e, sub, n - 1), n - 1, sub)
  }

  /** A schedule that starts over from the current bus frame. */
  function Rescheduled(e: Engine, bus: nat): Engine {
    e.(inFrame := bus + LEAD, outFrame := bus + LEAD, inStarts := [], outStarts := [])
  }

  /** The restart that applies a pending rate. */
  function Reconfigured(e: Engine, sub: Submissions): Engine {
    var idle := Rescheduled(e, sub.bus).(hwRate := e.pending, draining := false, restarts := e.restarts + 1);
    ArmFirst(idle, sub, REQUESTS)
  }

  datatype Event =
    | CaptureDone(i: nat, ok: bool, sub: Submissions)
    | PlaybackDone(i: nat, sub: Submissions)
    | RatePoll(want: nat)
    | Stop

  ghost predicate Enabled(e: Engine, ev: Event) {
    match ev
    case CaptureDone(i, ok, sub) => i in e.armedIn
    case PlaybackDone(i, sub) => i in e.armedOut
    case RatePoll(want) => true
    case Stop => true
  }

  /** The books agree with the requests held, in every state. */
  ghost predicate Books(e: Engine) {
    && OnlyBelow(e, REQUESTS)
    && e.inFlight == |e.armedIn| + |e.armedOut|
    && (forall i :: i in e.armedOut ==> e.armedOut[i] == e.hwRate)
    && Consecutive(e.inStarts, e.inFrame)
    && Consecutive(e.outStarts, e.outFrame)
  }

  ghost predicate AllCapturing(e: Engine, n: nat) {
    forall i: nat :: i < n ==> i in e.armedIn
  }

  ghost predicate Inv(e: Engine) {
    && Books(e)
    && (!e.stopped && !e.draining ==> AllCapturing(e, REQUESTS))
    && (!e.stopped && e.draining ==> e.inFlight > 0)
    && (e.draining ==> Supported(e.pending) && e.pending != e.hwRate)
  }

  /** Scheduled windows follow one another without gap or overlap, up to the next one. */
  ghost predicate Consecutive(starts: seq<nat>, next: nat) {
    forall k :: 0 <= k < |starts| ==> starts[k] + FRAME_MS * (|starts| - k) == next
  }

  /** What every completion does first: the request is no longer in flight. */
  function Completed(e: Engine, ev: Event): Engine
    requires ev.CaptureDone? || ev.PlaybackDone?
  {
    if ev.CaptureDone? then e.(inFlight := e.inFlight - 1, armedIn := e.armedIn - {ev.i})
    else e.(inFlight := e.inFlight - 1, armedOut := e.armedOut - {ev.i})
  }

  function Next(e: Engine, ev: Event): Engine {
    match ev
    case CaptureDone(i, ok, sub) =>
      var c := Completed(e, ev);
      if c.draining then Drained(e, ev, sub)
      else if !ok then c.(stopped := true)
      else if c.stopped then c
      else ArmIn(c, i, sub.capture(i))
    case PlaybackDone(i, sub) =>
      var c := Completed(e, ev);
      if c.draining then Drained(e, ev, sub)
      else if c.stopped then c
      else ArmOut(c, i, sub.playback(i))
    case RatePoll(want) =>
      if !e.draining && want != e.hwRate && Supported(want) then e.(pending := want, draining := true) else e
    case Stop => e.(stopped := true)
  }

  /** A completion while draining: the last one out restarts the streams. */
  function Drained(e: Engine, ev: Event, sub: Submissions): Engine
    requires ev.CaptureDone? || ev.PlaybackDone?
  {
    var c := Completed(e, ev);
    if c.inFlight <= 0 then Reconfigured(c, sub) else c
  }

  lemma CompletionCounts(e: Engine, ev: Event)
    requires Inv(e) && Enabled(e, ev) && (ev.CaptureDone? || ev.PlaybackDone?)
    ensures Books(Completed(e, ev))
  {
    hide Consecutive;
    if ev.PlaybackDone? {
      assert (e.armedOut - {ev.i}).Keys == e.armedOut.Keys - {ev.i};
      assert |e.armedOut - {ev.i}| == |e.armedOut.Keys - {ev.i}|;
    }
  }

  lemma NothingLeft(c: Engine)
    requires c.inFlight == |c.armedIn| + |c.armedOut| && c.inFlight <= 0
    ensures OnlyBelow(c, 0) && c.inFlight == 0
  {
  }

  lemma ArmInKeepsBooks(e: Engine, i: nat, ok: bool)
    requires Books(e) && i !in e.armedIn && i < REQUESTS
    ensures Books(ArmIn(e, i, ok))
  {
  }

  lemma ArmOutKeepsBooks(e: Engine, i: nat, ok: bool)
    requires Books(e) && i !in e.armedOut && i < REQUESTS
    ensures Books(ArmOut(e, i, ok))
  {
    assert e.armedOut[i := e.hwRate].Keys == e.armedOut.Keys + {i};
    assert |e.armedOut[i := e.hwRate]| == |e.armedOut.Keys + {i}|;
  }

  lemma ArmPairKeepsBooks(e: Engine, i: nat, sub: Submissions)
    requires Books(e) && OnlyBelow(e, i) && i < REQUESTS
    ensures var r := ArmPair(e, i, sub);
      && Books(r) && OnlyBelow(r, i + 1)
      && r.hwRate == e.hwRate && r.draining == e.draining && r.pending == e.pending && r.restarts == e.restarts
      && (!r.stopped ==> !e.stopped && i in r.armedIn && e.armedIn <= r.armedIn)
  {
    hide Books, ArmIn, ArmOut, OnlyBelow;
    var m := ArmOut(e, i, sub.playback(i));
    ArmOutLeaves(e, i, sub.playback(i));
    ArmOutKeepsBooks(e, i, sub.playback(i));
    ArmInLeaves(m, i, sub.capture(i));
    ArmInKeepsBooks(m, i, sub.capture(i));
  }

  lemma ArmOutLeaves(e: Engine, i: nat, ok: bool)
    requires OnlyBelow(e, i)
    ensures var r := ArmOut(e, i, ok);
      && OnlyBelow(r, i + 1) && i !in e.armedOut && i !in r.armedIn && r.armedIn == e.armedIn && r.stopped == e.stopped
      && r.hwRate == e.hwRate && r.draining == e.draining && r.pending == e.pending && r.restarts == e.restarts
  {
  }

  lemma ArmInLeaves(e: Engine, i: nat, ok: bool)
    requires OnlyBelow(e, i + 1)
    ensures var r := ArmIn(e, i, ok);
      && OnlyBelow(r, i + 1) && (!r.stopped ==> !e.stopped && i in r.armedIn && e.armedIn <= r.armedIn)
      && r.hwRate == e.hwRate && r.draining == e.draining && r.pending == e.pending && r.restarts == e.restarts
  {
  }

  /** Arming the pools keeps the books, and misses a capture request only by stopping. */
  lemma {:induction false} ArmFirstKeepsBooks(e: Engine, sub: Submissions, n: nat)
    requires n <= REQUESTS && Books(e) && OnlyBelow(e, 0)
    ensures var r := ArmFirst(e, sub, n);
      && Books(r)
      && r.hwRate == e.hwRate && r.draining == e.draining && r.pending == e.pending && r.restarts == e.restarts
      && (!r.stopped ==> !e.stopped && AllCapturing(r, n))
  {
    hide Books, ArmPair;
    if n > 0 {
      ArmFirstKeepsBooks(e, sub, n - 1);
      ArmPairKeepsBooks(ArmFirst(e, sub, n - 1), n - 1, sub);
    }
  }

  lemma ReconfiguredKeepsInv(e: Engine, sub: Submissions)
    requires e.inFlight == 0 && OnlyBelow(e, 0)
    ensures Inv(Reconfigured(e, sub))
    ensures Reconfigured(e, sub).hwRate == e.pending && !Reconfigured(e, sub).draining
    ensures Reconfigured(e, sub).restarts == e.restarts + 1
  {
    var idle := Rescheduled(e, sub.bus).(hwRate := e.pending, draining := false, restarts := e.restarts + 1);
    assert Books(idle);
    hide Books;
    ArmFirstKeepsBooks(idle, sub, REQUESTS);
  }

  lemma DrainedKeepsInv(e: Engine, ev: Event, sub: Submissions)
    requires Inv(e) && Enabled(e, ev) && (ev.CaptureDone? || ev.PlaybackDone?) && e.draining
    ensures Inv(Drained(e, ev, sub))
  {
    var c := Completed(e, ev);
    CompletionCounts(e, ev);
    if c.inFlight <= 0 {
      NothingLeft(c);
      ReconfiguredKeepsInv(c, sub);
    }
  }

  /** Every callback keeps the count equal to the requests held, none armed twice, and playback sized for the current
      rate. */
  lemma NextKeepsInv(e: Engine, ev: Event)
    requires Inv(e) && Enabled(e, ev)
    ensures Inv(Next(e, ev))
  {
    match ev
    case CaptureDone(i, ok, sub) =>
      CompletionCounts(e, ev);
      if e.draining {
        DrainedKeepsInv(e, ev, sub);
      } else if ok && !e.stopped {
        ArmInKeepsBooks(Completed(e, ev), i, sub.capture(i));
      }
    case PlaybackDone(i, sub) =>
      CompletionCounts(e, ev);
      if e.draining {
        DrainedKeepsInv(e, ev, sub);
      } else if !e.stopped {
        ArmOutKeepsBooks(Completed(e, ev), i, sub.playback(i));
      }
    case RatePoll(want) =>
      if !e.stopped && !e.draining {
        assert 0 in e.armedIn;
      }
    case Stop =>
  }

  /** The engine as the program starts it, at any hardware rate. */
  function Started(rate: nat, sub: Submissions): Engine {
    var idle := Engine(0, false, 0, rate, false, 0, 0, {}, map[], [], [], 0);
    ArmFirst(Rescheduled(idle, sub.bus), sub, REQUESTS)
  }

  lemma StartedEstablishesInv(rate: nat, sub: Submissions)
    ensures Inv(Started(rate, sub))
  {
    var idle := Engine(0, false, 0, rate, false, 0, 0, {}, map[], [], [], 0);
    ArmFirstKeepsBooks(Rescheduled(idle, sub.bus), sub, REQUESTS);
  }

  /** A stretch of callbacks, each for a request that is held or for anything else that may happen. */
  ghost predicate Steps(states: seq<Engine>, events: seq<Event>) {
    && |states| == |events| + 1
    && forall k :: 0 <= k < |events| ==> Enabled(states[k], events[k]) && states[k + 1] == Next(states[k], events[k])
  }

  ghost predicate Stretch(states: seq<Engine>, events: seq<Event>) {
    Steps(states, events) && Inv(states[0])
  }

  lemma {:induction false} StretchKeepsInv(states: seq<Engine>, events: seq<Event>, k: nat)
    requires Stretch(states, events) && k < |states|
    ensures Inv(states[k])
  {
    if k > 0 {
      StretchKeepsInv(states, events, k - 1);
      NextKeepsInv(states[k - 1], events[k - 1]);
    }
  }

  /** In every state of every run of the program the books are right, and a live engine captures or drains. */
  lemma EveryRunKeepsInv(rate: nat, sub: Submissions, states: seq<Engine>, events: seq<Event>, k: nat)
    requires Steps(states, events) && states[0] == Started(rate, sub) && k < |states|
    ensures Inv(states[k])
  {
    StartedEstablishesInv(rate, sub);
    StretchKeepsInv(states, events, k);
  }

  ghost predicate IsCompletion(ev: Event) {
    ev.CaptureDone? || ev.PlaybackDone?
  }

  ghost function Completions(events: seq<Event>): nat {
    if events == [] then 0
    else Completions(events[..|events| - 1]) + if IsCompletion(events[|events| - 1]) then 1 else 0
  }

  /** One completion of a drain: the count goes down by one, and the last one restarts at the pending rate. */
  lemma DrainStep(e: Engine, ev: Event)
    requires Inv(e) && Enabled(e, ev) && e.draining
    ensures var r := Next(e, ev);
      if !IsCompletion(ev) then
        r.draining && r.inFlight == e.inFlight && r.pending == e.pending && r.restarts == e.restarts
      else if e.inFlight > 1 then
        r.draining && r.inFlight == e.inFlight - 1 && r.pending == e.pending && r.restarts == e.restarts
      else
        e.inFlight == 1 && !r.draining && r.hwRate == e.pending && r.restarts == e.restarts + 1
  {
    if IsCompletion(ev) {
      CompletionCounts(e, ev);
      if e.inFlight <= 1 {
        NothingLeft(Completed(e, ev));
        ReconfiguredKeepsInv(Completed(e, ev), ev.sub);
      }
    }
  }

  /** A drain lasts exactly as many completions as were in flight when it began, whatever else happens meanwhile. */
  lemma {:induction false} DrainLastsItsCount(states: seq<Engine>, events: seq<Event>)
    requires Stretch(states, events) && states[0].draining
    requires Completions(events) < states[0].inFlight
    ensures var e, r := states[0], states[|events|];
      && r.draining && r.inFlight == e.inFlight - Completions(events)
      && r.pending == e.pending && r.restarts == e.restarts
  {
    var n := |events|;
    if n > 0 {
      StretchKeepsInv(states, events, n - 1);
      DrainLastsItsCount(states[..n], events[..n - 1]);
      DrainStep(states[n - 1], events[n - 1]);
    }
  }

  /** With that many completions the drain has ended in a restart at the pending rate. */
  lemma DrainEndsAtItsCount(states: seq<Engine>, events: seq<Event>)
    requires Stretch(states, events) && states[0].draining && |events| > 0
    requires IsCompletion(events[|events| - 1]) && Completions(events) == states[0].inFlight
    ensures var e, r := states[0], states[|events|];
      !r.draining && r.hwRate == e.pending && r.restarts == e.restarts + 1
  {
    var n := |events|;
    StretchKeepsInv(states, events, n - 1);
    DrainLastsItsCount(states[..n], events[..n - 1]);
    DrainStep(states[n - 1], events[n - 1]);
  }

  /** Until the engine is stopped a poll never begins a drain with nothing to wait for. */
  lemma DrainStartsPositive(e: Engine, want: nat)
    requires Inv(e) && !e.stopped && !e.draining && Next(e, RatePoll(want)).draining
    ensures Next(e, RatePoll(want)).inFlight >= REQUESTS
  {
    HoldsAtLeast(e.armedIn, REQUESTS);
  }

  lemma {:induction false} HoldsAtLeast(s: set<nat>, n: nat)
    requires forall i: nat :: i < n ==> i in s
    ensures |s| >= n
  {
    if n > 0 {
      HoldsAtLeast(s - {n - 1}, n - 1);
    }
  }

  lemma {:induction false} HoldsAtMost(s: set<nat>, n: nat)
    requires forall i :: i in s ==> i < n
    ensures |s| <= n
  {
    if n > 0 {
      HoldsAtMost(s - {n - 1}, n - 1);
    } else {
      assert s == {};
    }
  }

  /** Restarts still to come while the requested rate stays at `want`. */
  ghost function Distance(e: Engine, want: nat): nat {
    if e.draining then (if e.pending == want then 1 else 2)
    else if e.hwRate == want then 0 else 1
  }

  ghost predicate PollsOnly(events: seq<Event>, want: nat) {
    forall k :: 0 <= k < |events| && events[k].RatePoll? ==> events[k].want == want
  }

  lemma DistanceStep(e: Engine, ev: Event, want: nat)
    requires Inv(e) && Enabled(e, ev) && Supported(want)
    requires ev.RatePoll? ==> ev.want == want
    ensures e.restarts <= Next(e, ev).restarts
    ensures Next(e, ev).restarts + Distance(Next(e, ev), want) == e.restarts + Distance(e, want)
  {
    if e.draining {
      DrainStep(e, ev);
      if IsCompletion(ev) && e.inFlight == 1 {
        assert e.pending != e.hwRate;
      }
    }
  }

  /** While the requested rate is steady every restart is one of the at most two that were due, and none is repeated. */
  lemma {:induction false} RestartsAreDue(states: seq<Engine>, events: seq<Event>, want: nat)
    requires Stretch(states, events) && Supported(want) && PollsOnly(events, want)
    ensures var e, r := states[0], states[|events|];
      && r.restarts + Distance(r, want) == e.restarts + Distance(e, want)
      && e.restarts <= r.restarts <= e.restarts + 2
  {
    var n := |events|;
    if n > 0 {
      StretchKeepsInv(states, events, n - 1);
      RestartsAreDue(states[..n], events[..n - 1], want);
      DistanceStep(states[n - 1], events[n - 1], want);
    }
  }

  /** Enough completions for whatever is in flight end a drain. */
  lemma {:induction false} DrainFinishes(states: seq<Engine>, events: seq<Event>)
    requires Stretch(states, events) && states[0].draining && states[0].inFlight > 0
    requires Completions(events) >= states[0].inFlight
    ensures exists k :: 0 <= k < |states| && states[k].restarts > states[0].restarts
  {
    var n := |events|;
    if Completions(events[..n - 1]) >= states[0].inFlight {
      DrainFinishes(states[..n], events[..n - 1]);
      var k :| 0 <= k < |states[..n]| && states[..n][k].restarts > states[0].restarts;
      assert states[k].restarts > states[0].restarts;
    } else {
      DrainEndsAtItsCount(states, events);
      assert states[n].restarts > states[0].restarts;
    }
  }

  lemma AtMostBothPools(e: Engine)
    requires Inv(e)
    ensures 0 <= e.inFlight <= 2 * REQUESTS
  {
    HoldsAtMost(e.armedIn, REQUESTS);
    HoldsAtMost(e.armedOut.Keys, REQUESTS);
  }

  lemma {:induction false} NothingHeldNothingCompletes(states: seq<Engine>, events: seq<Event>)
    requires Stretch(states, events) && states[0].draining && states[0].inFlight == 0
    ensures Completions(events) == 0 && states[|events|].draining && states[|events|].inFlight == 0
  {
    var n := |events|;
    if n > 0 {
      StretchKeepsInv(states, events, n - 1);
      NothingHeldNothingCompletes(states[..n], events[..n - 1]);
      DrainStep(states[n - 1], events[n - 1]);
    }
  }

  lemma PartOfStretch(states: seq<Engine>, events: seq<Event>, from: nat, to: nat)
    requires Stretch(states, events) && from <= to <= |events|
    ensures Stretch(states[from..to + 1], events[from..to])
    ensures states[from..to + 1][to - from] == states[to]
  {
    StretchKeepsInv(states, events, from);
    hide Inv, Enabled, Next;
  }

  /** A drain followed by one completion per pooled request brings the engine closer to the steady rate. */
  lemma RoundGetsCloser(states: seq<Engine>, events: seq<Event>, want: nat)
    requires Stretch(states, events) && Supported(want) && PollsOnly(events, want)
    requires states[0].draining && Completions(events) >= 2 * REQUESTS
    ensures Distance(states[|events|], want) < Distance(states[0], want)
  {
    hide Inv, Next, Completions, Distance, Stretch, PollsOnly;
    var k := RoundRestarts(states, events);
    StretchSize(states, events);
    PartOfStretch(states, events, 0, k);
    PartOfStretch(states, events, k, |events|);
    PartOfPolls(events, want, 0, k);
    PartOfPolls(events, want, k, |events|);
    RestartsAreDue(states[0..k + 1], events[0..k], want);
    RestartsAreDue(states[k..|events| + 1], events[k..|events|], want);
  }

  /** Somewhere in such a round the drain ends in a restart. */
  lemma RoundRestarts(states: seq<Engine>, events: seq<Event>) returns (k: nat)
    requires Stretch(states, events) && states[0].draining && Completions(events) >= 2 * REQUESTS
    ensures k <= |events| && states[k].restarts > states[0].restarts
  {
    hide Inv, Next, Completions;
    AtMostBothPools(states[0]);
    if states[0].inFlight == 0 {
      NothingHeldNothingCompletes(states, events);
    }
    DrainFinishes(states, events);
    k :| 0 <= k < |states| && states[k].restarts > states[0].restarts;
  }

  lemma StretchSize(states: seq<Engine>, events: seq<Event>)
    requires Stretch(states, events)
    ensures |states| == |events| + 1
  {
  }

  lemma PartOfPolls(events: seq<Event>, want: nat, from: nat, to: nat)
    requires PollsOnly(events, want) && from <= to <= |events|
    ensures PollsOnly(events[from..to], want)
  {
  }

  /**
   * With a steady supported rate, one completion per pooled request, a poll, and as many completions again
   * bring the hardware to that rate, in at most two restarts.
   */
  lemma SteadyRateIsReached(states: seq<Engine>, events: seq<Event>, want: nat, poll: nat)
    requires Stretch(states, events) && Supported(want) && PollsOnly(events, want)
    requires poll < |events| && events[poll].RatePoll?
    requires Completions(events[..poll]) >= 2 * REQUESTS && Completions(events[poll + 1..]) >= 2 * REQUESTS
    ensures !states[|events|].draining && states[|events|].hwRate == want
    ensures states[|events|].restarts <= states[0].restarts + 2
  {
    hide Inv, Next, Completions;
    var before, after := events[..poll], events[poll + 1..];
    var early, late := states[..poll + 1], states[poll + 1..|events| + 1];
    RestartsAreDue(states, events, want);
    PartOfStretch(states, events, 0, poll);
    PartOfStretch(states, events, poll + 1, |events|);
    assert events[0..poll] == before && events[poll + 1..|events|] == after;
    RestartsAreDue(early, before, want);
    if states[0].draining {
      RoundGetsCloser(early, before, want);
    }
    StretchKeepsInv(states, events, poll);
    DistanceStep(states[poll], events[poll], want);
    PollStartsDrain(states[poll], want);
    RestartsAreDue(late, after, want);
    if states[poll + 1].draining {
      RoundGetsCloser(late, after, want);
    }
  }

  lemma PollStartsDrain(e: Engine, want: nat)
    requires Inv(e) && Supported(want)
    ensures Next(e, RatePoll(want)).draining || Next(e, RatePoll(want)).hwRate == want
  {
  }

  /** The requests below n that a pipe takes. */
  function Taken(answers: nat -> bool, n: nat): (s: set<nat>) {
    set i: nat | i < n && answers(i)
  }

  /** Outside a drain a completed request is handed back exactly when the engine is live and its pipe takes it; other
      requests stay as they are, and only a failed or refused capture stops the engine. */
  lemma RearmedIff(e: Engine, ev: Event)
    requires Enabled(e, ev) && IsCompletion(ev) && !e.draining
    ensures var n := Next(e, ev);
      if ev.CaptureDone? then
        var again := ev.ok && !e.stopped && ev.sub.capture(ev.i);
        && n.armedIn == (if again then e.armedIn else e.armedIn - {ev.i}) && n.armedOut == e.armedOut
        && n.stopped == (e.stopped || !again) && |n.inStarts| == |e.inStarts| + (if again then 1 else 0)
        && n.outStarts == e.outStarts
      else
        var again := !e.stopped && ev.sub.playback(ev.i);
        && n.armedOut.Keys == (if again then e.armedOut.Keys else e.armedOut.Keys - {ev.i}) && n.armedIn == e.armedIn
        && n.stopped == e.stopped && |n.outStarts| == |e.outStarts| + (if again then 1 else 0)
        && n.inStarts == e.inStarts
  {
  }

  /** No poll of the stretch asks for a rate that would start a drain. */
  ghost predicate RateKept(events: seq<Event>, rate: nat) {
    forall k :: 0 <= k < |events| && events[k].RatePoll? ==> events[k].want == rate || !Supported(events[k].want)
  }

  /** A stopped engine whose rate is left alone schedules nothing more and runs down, a request per completion. */
  lemma {:induction false} StoppedRunsDown(states: seq<Engine>, events: seq<Event>)
    requires Stretch(states, events) && states[0].stopped && !states[0].draining && RateKept(events, states[0].hwRate)
    ensures var e, r := states[0], states[|events|];
      && r.stopped && !r.draining && r.hwRate == e.hwRate && r.restarts == e.restarts
      && r.inFlight == e.inFlight - Completions(events)
      && r.inStarts == e.inStarts && r.outStarts == e.outStarts
      && r.armedIn <= e.armedIn && r.armedOut.Keys <= e.armedOut.Keys
  {
    hide Inv, Next, Enabled;
    var n := |events|;
    if n > 0 {
      StretchKeepsInv(states, events, n - 1);
      StoppedRunsDown(states[..n], events[..n - 1]);
      StoppedStep(states[n - 1], events[n - 1]);
    }
  }

  lemma StoppedStep(e: Engine, ev: Event)
    requires e.stopped && !e.draining && (ev.RatePoll? ==> ev.want == e.hwRate || !Supported(ev.want))
    ensures var r := Next(e, ev);
      && r.stopped && !r.draining && r.hwRate == e.hwRate && r.restarts == e.restarts
      && r.inFlight == e.inFlight - (if IsCompletion(ev) then 1 else 0)
      && r.inStarts == e.inStarts && r.outStarts == e.outStarts
      && r.armedIn <= e.armedIn && r.armedOut.Keys <= e.armedOut.Keys
  {
    hide Supported;
  }

  /** Exactly the requests below n that the pipes take are armed, one window each. */
  ghost predicate Armed(e: Engine, starts: nat, outStarts: nat, sub: Submissions, n: nat) {
    && e.armedIn == Taken(sub.capture, n) && e.armedOut.Keys == Taken(sub.playback, n)
    && |e.inStarts| == starts + |e.armedIn| && |e.outStarts| == outStarts + |e.armedOut|
  }

  lemma NoneArmed(e: Engine, sub: Submissions)
    requires OnlyBelow(e, 0)
    ensures Armed(e, |e.inStarts|, |e.outStarts|, sub, 0)
  {
    assert e.armedIn == {} && e.armedOut.Keys == {} && e.armedOut == map[];
  }

  lemma TakenNext(answers: nat -> bool, n: nat)
    ensures n !in Taken(answers, n) && Taken(answers, n + 1) == Taken(answers, n) + if answers(n) then {n} else {}
  {
  }

  lemma ArmedNext(e: Engine, starts: nat, outStarts: nat, sub: Submissions, n: nat)
    requires Armed(e, starts, outStarts, sub, n)
    ensures Armed(ArmPair(e, n, sub), starts, outStarts, sub, n + 1)
  {
    hide ArmPair, Taken;
    TakenNext(sub.capture, n);
    TakenNext(sub.playback, n);
    ArmPairArms(e, n, sub);
  }

  lemma ArmInArms(e: Engine, i: nat, ok: bool)
    requires i !in e.armedIn
    ensures var r := ArmIn(e, i, ok);
      && r.armedIn == e.armedIn + (if ok then {i} else {}) && r.armedOut == e.armedOut
      && |r.armedIn| - |r.inStarts| == |e.armedIn| - |e.inStarts| && r.outStarts == e.outStarts
      && r.stopped == (e.stopped || !ok)
  {
  }

  lemma ArmOutArms(e: Engine, i: nat, ok: bool)
    requires i !in e.armedOut.Keys
    ensures var r := ArmOut(e, i, ok);
      && r.armedOut.Keys == e.armedOut.Keys + (if ok then {i} else {}) && r.armedIn == e.armedIn
      && |r.armedOut| - |r.outStarts| == |e.armedOut| - |e.outStarts| && r.inStarts == e.inStarts
      && r.stopped == e.stopped
  {
    if ok {
      assert e.armedOut[i := e.hwRate].Keys == e.armedOut.Keys + {i};
      assert |e.armedOut[i := e.hwRate]| == |e.armedOut.Keys + {i}|;
    }
  }

  lemma ArmPairArms(e: Engine, i: nat, sub: Submissions)
    requires i !in e.armedIn && i !in e.armedOut.Keys
    ensures var r := ArmPair(e, i, sub);
      && r.armedIn == e.armedIn + (if sub.capture(i) then {i} else {})
      && r.armedOut.Keys == e.armedOut.Keys + (if sub.playback(i) then {i} else {})
      && |r.armedIn| - |r.inStarts| == |e.armedIn| - |e.inStarts|
      && |r.armedOut| - |r.outStarts| == |e.armedOut| - |e.outStarts|
      && r.stopped == (e.stopped || !sub.capture(i))
  {
    hide ArmIn, ArmOut;
    ArmOutArms(e, i, sub.playback(i));
    ArmInArms(ArmOut(e, i, sub.playback(i)), i, sub.capture(i));
  }

  lemma {:induction false} ArmFirstArms(e: Engine, sub: Submissions, n: nat)
    requires OnlyBelow(e, 0)
    ensures Armed(ArmFirst(e, sub, n), |e.inStarts|, |e.outStarts|, sub, n)
  {
    hide ArmPair, Armed, OnlyBelow;
    if n == 0 {
      NoneArmed(e, sub);
    } else {
      ArmFirstArms(e, sub, n - 1);
      ArmedNext(ArmFirst(e, sub, n - 1), |e.inStarts|, |e.outStarts|, sub, n - 1);
    }
  }

  lemma {:induction false} ArmFirstStops(e: Engine, sub: Submissions, n: nat)
    ensures ArmFirst(e, sub, n).stopped <==> e.stopped || exists i: nat :: i < n && !sub.capture(i)
  {
    if n > 0 {
      ArmFirstStops(e, sub, n - 1);
    }
  }

  /** Both pools hold what the pipes took, in windows of two frames from 25 frames after the bus frame on. */
  ghost predicate Fresh(e: Engine, sub: Submissions) {
    && Armed(e, 0, 0, sub, 32)
    && (forall k :: 0 <= k < |e.inStarts| ==> e.inStarts[k] == sub.bus + 25 + 2 * k)
    && (forall k :: 0 <= k < |e.outStarts| ==> e.outStarts[k] == sub.bus + 25 + 2 * k)
  }

  lemma {:induction false} ArmFirstSchedules(e: Engine, sub: Submissions, n: nat)
    requires e.inFrame == e.outFrame == sub.bus + 25 && e.inStarts == e.outStarts == []
    ensures var r := ArmFirst(e, sub, n);
      && r.inFrame == sub.bus + 25 + 2 * |r.inStarts| && r.outFrame == sub.bus + 25 + 2 * |r.outStarts|
      && (forall k :: 0 <= k < |r.inStarts| ==> r.inStarts[k] == sub.bus + 25 + 2 * k)
      && (forall k :: 0 <= k < |r.outStarts| ==> r.outStarts[k] == sub.bus + 25 + 2 * k)
  {
    if n > 0 {
      ArmFirstSchedules(e, sub, n - 1);
    }
  }

  /** The program starts with every request of both pools that the pipes take, live unless a capture was refused. */
  lemma StartedIsFresh(rate: nat, sub: Submissions)
    ensures var e := Started(rate, sub);
      Fresh(e, sub) && e.hwRate == rate && (e.stopped <==> exists i: nat :: i < 32 && !sub.capture(i))
  {
    hide ArmFirst;
    var idle := Rescheduled(Engine(0, false, 0, rate, false, 0, 0, {}, map[], [], [], 0), sub.bus);
    ArmFirstArms(idle, sub, 32);
    ArmFirstSchedules(idle, sub, 32);
    ArmFirstStops(idle, sub, 32);
    ArmFirstKeepsBooks(idle, sub, 32);
  }

  /** The completion that ends a drain arms both pools afresh, even of an engine that was stopped. */
  lemma DrainEndIsFresh(e: Engine, ev: Event)
    requires Inv(e) && Enabled(e, ev) && IsCompletion(ev) && e.draining && e.inFlight == 1
    ensures var n := Next(e, ev);
      Fresh(n, ev.sub) && (n.stopped <==> e.stopped || exists i: nat :: i < 32 && !ev.sub.capture(i))
  {
    hide ArmFirst, Books, Consecutive, AllCapturing;
    CompletionCounts(e, ev);
    var c := Completed(e, ev);
    NothingHeld(c);
    RestartIsFresh(c, ev.sub);
  }

  lemma NothingHeld(c: Engine)
    requires Books(c) && c.inFlight <= 0
    ensures OnlyBelow(c, 0)
  {
    NothingLeft(c);
  }

  lemma RestartIsFresh(c: Engine, sub: Submissions)
    requires OnlyBelow(c, 0)
    ensures var n := Reconfigured(c, sub);
      Fresh(n, sub) && (n.stopped <==> c.stopped || exists i: nat :: i < 32 && !sub.capture(i))
  {
    hide ArmFirst;
    var idle := Rescheduled(c, sub.bus).(hwRate := c.pending, draining := false, restarts := c.restarts + 1);
    ArmFirstArms(idle, sub, 32);
    ArmFirstSchedules(idle, sub, 32);
    ArmFirstStops(idle, sub, 32);
  }

  /** The engine's globals and callbacks. */
  class StreamingEngine {
    var inFlight: int
    var rateState: int
    var pendingRate: nat
    var hwRate: nat
    var stop: bool
    var inFrame: nat
    var outFrame: nat
    ghost var armedIn: set<nat>
    ghost var armedOut: map<nat, nat>
    ghost var inStarts: seq<nat>
    ghost var outStarts: seq<nat>
    ghost var restarts: nat

    ghost function View(): Engine
      reads this
    {
      Engine(inFlight, rateState != 0, pendingRate, hwRate, stop, inFrame, outFrame,
             armedIn, armedOut, inStarts, outStarts, restarts)
    }

    constructor (rate: nat, sub: Submissions)
      ensures View() == Started(rate, sub) && Inv(View())
    {
      inFlight, rateState, pendingRate, hwRate, stop := 0, 0, 0, rate, false;
      inFrame, outFrame := sub.bus + LEAD, sub.bus + LEAD;
      armedIn, armedOut, inStarts, outStarts, restarts := {}, map[], [], [], 0;
      new;
      ArmPools(sub);
      StartedEstablishesInv(rate, sub);
    }

    method SubmitCapture(i: nat, ok: bool)
      modifies this
      ensures View() == ArmIn(old(View()), i, ok)
    {
      if !ok {
        stop := true;
        return;
      }
      inStarts, armedIn := inStarts + [inFrame], armedIn + {i};
      inFrame := inFrame + FRAME_MS;
      inFlight := inFlight + 1;
    }

    method SubmitPlayback(i: nat, ok: bool)
      modifies this
      ensures View() == ArmOut(old(View()), i, ok)
    {
      if !ok {
        return;
      }
      outStarts, armedOut := outStarts + [outFrame], armedOut[i := hwRate];
      outFrame := outFrame + FRAME_MS;
      inFlight := inFlight + 1;
    }

    method ArmPools(sub: Submissions)
      modifies this
      ensures View() == ArmFirst(old(View()), sub, REQUESTS)
    {
      for i := 0 to REQUESTS
        invariant View() == ArmFirst(old(View()), sub, i)
      {
        SubmitPlayback(i, sub.playback(i));
        SubmitCapture(i, sub.capture(i));
      }
    }

    method Reconfigure(sub: Submissions)
      modifies this
      ensures View() == Reconfigured(old(View()), sub)
    {
      hwRate := pendingRate;
      inFrame, outFrame := sub.bus + LEAD, sub.bus + LEAD;
      inStarts, outStarts := [], [];
      rateState := 0;
      restarts := restarts + 1;
      ArmPools(sub);
    }

    method InDone(i: nat, ok: bool, sub: Submissions)
      requires Inv(View()) && i in armedIn
      modifies this
      ensures View() == Next(old(View()), CaptureDone(i, ok, sub)) && Inv(View())
    {
      hide Reconfigured, AllCapturing, Consecutive, Supported;
      ghost var before, ev := View(), CaptureDone(i, ok, sub);
      NextKeepsInv(before, ev);
      CompletionCounts(before, ev);
      inFlight, armedIn := inFlight - 1, armedIn - {i};
      assert View() == Completed(before, ev);
      if rateState != 0 {
        if inFlight <= 0 {
          NothingLeft(View());
          Reconfigure(sub);
        }
        return;
      }
      if !ok {
        stop := true;
        return;
      }
      if !stop {
        SubmitCapture(i, sub.capture(i));
      }
    }

    method OutDone(i: nat, sub: Submissions)
      requires Inv(View()) && i in armedOut
      modifies this
      ensures View() == Next(old(View()), PlaybackDone(i, sub)) && Inv(View())
    {
      hide Reconfigured, AllCapturing, Consecutive, Supported;
      ghost var before, ev := View(), PlaybackDone(i, sub);
      NextKeepsInv(before, ev);
      CompletionCounts(before, ev);
      inFlight, armedOut := inFlight - 1, armedOut - {i};
      assert View() == Completed(before, ev);
      if rateState != 0 {
        if inFlight <= 0 {
          NothingLeft(View());
          Reconfigure(sub);
        }
        return;
      }
      if !stop {
        SubmitPlayback(i, sub.playback(i));
      }
    }

    method RateFollow(want: nat)
      requires Inv(View())
      modifies this
      ensures View() == Next(old(View()), RatePoll(want)) && Inv(View())
    {
      NextKeepsInv(View(), RatePoll(want));
      if rateState != 0 {
        return;
      }
      if want != hwRate && Supported(want) {
        pendingRate, rateState := want, 1;
      }
    }
  }
}
