/**
 * The driver's audio transport: starting and stopping I/O, the two streams of isochronous requests, the watchdog
 * that restarts a stalled transport, and following an external clock's rate. All events run one at a time on the
 * device's work queue; what the kernel answers is given as a parameter.
 */
module DeviceTransport {
  import opened Words
  import opened Options

  const REQUESTS: nat := 8
  const WINDOW: nat := 2
  const LEAD: nat := 25
  const INTERNAL: Byte := 1
  const LAST_SOURCE: Byte := 3

  datatype Validity = Unlocked | Locked | Unknown

  predicate Supported(rate: int) {
    rate == 44100 || rate == 48000 || rate == 88200 || rate == 96000
  }

  /** A rate as the hardware knows it: the fraction is cut off. */
  function Whole(rate: real): int {
    rate.Floor
  }

  /** The bus frames submitted in each direction since the transport last started, at bus frame `base`. */
  datatype Session = Session(base: nat, input: seq<nat>, output: seq<nat>)

  /** The two isochronous streams. */
  datatype Stream = Stream(
    running: bool, inputPipe: bool, outputPipe: bool, nextInput: nat, nextOutput: nat, lastInput: nat, lastOutput: nat,
    session: Session)

  /** `outstanding` is the configuration changes the host still owes an answer for, `applied` the external rates
      applied so far. */
  datatype Rates = Rates(current: real, pending: Word32, outstanding: nat, applied: seq<int>)

  /** `ticks` is one second in clock ticks, `interval` the watchdog's copy of it; `restarts` is when it restarted. */
  datatype Device = Device(
    ioActive: bool, inputMap: bool, outputMap: bool, clockSource: Byte, clockValid: Validity,
    stream: Stream, rates: Rates, nextRecovery: nat, interval: nat, ticks: nat, restarts: seq<nat>)

  /** When a request was handed to a pipe, and whether the pipe took it. */
  datatype Submission = Submission(now: nat, accepted: bool)

  /** What reading the clock gave; the lock bit is optional on the device. */
  datatype Reading = Unreadable | Reading(source: Byte, rate: Word32, lock: Option<bool>)

  /** What the kernel answers while the transport starts: `frame` is the bus frame, when it can be read. */
  datatype StartAnswers = StartAnswers(
    device: bool, interfaces: bool, ready: bool, clock: bool, frame: Option<nat>, now: nat,
    input: nat -> Submission, output: nat -> Submission)

  datatype IOAnswers = IOAnswers(host: bool, outputMap: bool, inputMap: bool, clock: bool, transport: StartAnswers)

  datatype RateAnswers = RateAnswers(hardware: bool, device: bool, input: bool, output: bool, latency: bool)

  datatype Event =
    | StartIO(answers: IOAnswers)
    | StopIO
    | Timer(time: nat, reading: Reading, accepted: bool, transport: StartAnswers)
    | InputDone(ok: bool, submission: Submission)
    | OutputDone(ok: bool, submission: Submission)
    | SelectClock(source: Word32, request: bool, rateSet: bool, reading: Reading)
    | ReadStatus(reading: Reading)
    | ChangeRate(rate: real, reading: Reading, change: RateAnswers)
    | CycleRate(reading: Reading, change: RateAnswers)
    | FollowExternalRate(change: RateAnswers)
    | AbandonExternalRate

  // One function per operation of the driver.

  function ValidityOf(source: Byte, lock: Option<bool>): Validity {
    match lock
    case Some(locked) => if locked then Locked else Unlocked
    case None => if source == INTERNAL then Locked else Unknown
  }

  function ReadClock(d: Device, r: Reading): Device {
    if r.Unreadable? then d
    else d.(clockSource := r.source, clockValid := ValidityOf(r.source, r.lock))
  }

  predicate SourceAccepted(d: Device, source: Byte, request: bool) {
    INTERNAL <= source <= LAST_SOURCE && !d.stream.running && request
  }

  /** Reasserting the clock before streaming. */
  predicate ClockConfigured(d: Device, request: bool) {
    if d.clockSource == INTERNAL then request else SourceAccepted(d, d.clockSource, request)
  }

  function Stopped(s: Stream): Stream {
    s.(running := false, inputPipe := false, outputPipe := false)
  }

  function StopTransport(d: Device): Device {
    d.(stream := Stopped(d.stream))
  }

  function CompleteInput(s: Stream, ok: bool, sub: Submission): Stream {
    if !s.running then s
    else if !ok then s.(running := false)
    else if !sub.accepted then s.(lastInput := sub.now, running := false)
    else s.(lastInput := sub.now, nextInput := s.nextInput + WINDOW,
            session := s.session.(input := s.session.input + [s.nextInput]))
  }

  function CompleteOutput(s: Stream, ok: bool, sub: Submission): Stream {
    if !s.running then s
    else if !ok then s.(running := false)
    else if !sub.accepted then s.(lastOutput := sub.now, running := false)
    else s.(lastOutput := sub.now, nextOutput := s.nextOutput + WINDOW,
            session := s.session.(output := s.session.output + [s.nextOutput]))
  }

  /** The first n requests of both directions are handed to the pipes, input first. */
  function Primed(s: Stream, a: StartAnswers, n: nat): Stream {
    if n == 0 then s
    else CompleteOutput(CompleteInput(Primed(s, a, n - 1), true, a.input(n - 1)), true, a.output(n - 1))
  }

  /** Streams about to begin a little after bus frame f. */
  function Scheduled(f: nat, now: nat): Stream {
    Stream(true, true, true, f + LEAD, f + LEAD, now, now, Session(f + LEAD, [], []))
  }

  function StartTransport(d: Device, a: StartAnswers): (r: (Device, bool)) {
    if !a.device || !d.inputMap || !d.outputMap || !a.interfaces then (d, false)
    else if !a.ready || !ClockConfigured(d, a.clock) || a.frame.None? then (StopTransport(d), false)
    else (d.(stream := Primed(Scheduled(a.frame.value, a.now), a, REQUESTS)), true)
  }

  function StartedIO(d: Device, a: IOAnswers): Device {
    var failed := d.(ioActive := false, inputMap := false, outputMap := false);
    if !a.host || !a.outputMap || !a.inputMap then failed
    else
      var mapped := d.(inputMap := true, outputMap := true);
      if !ClockConfigured(mapped, a.clock) then failed
      else
        var (started, ok) := StartTransport(mapped, a.transport);
        if ok then started.(ioActive := true, interval := started.ticks)
        else started.(ioActive := false, inputMap := false, outputMap := false)
  }

  function StoppedIO(d: Device): Device {
    StopTransport(d.(ioActive := false))
  }

  function WithRate(d: Device, rate: real): Device {
    d.(rates := d.rates.(current := rate))
  }

  /** Set the device's rate; a stream that refuses it leaves the rate set. */
  function ApplyRate(d: Device, rate: real, program: bool, a: RateAnswers): Device {
    if !Supported(Whole(rate)) || (program && !(d.clockSource == INTERNAL && a.hardware)) || !a.device then d
    else if !a.input || !a.output || !a.latency then WithRate(d, rate)
    else WithRate(d, rate).(interval := d.ticks)
  }

  predicate RateAccepted(d: Device, rate: real, program: bool, a: RateAnswers) {
    && Supported(Whole(rate)) && (program ==> d.clockSource == INTERNAL && a.hardware)
    && a.device && a.input && a.output && a.latency
  }

  /** On an external clock only the rate that the hardware is locked to is accepted. */
  predicate ChangeAccepted(d: Device, rate: real, r: Reading, a: RateAnswers) {
    if d.clockSource == INTERNAL then RateAccepted(d, rate, true, a)
    else
      && r.Reading? && ValidityOf(r.source, r.lock) != Unlocked && r.rate == Whole(rate)
      && RateAccepted(ReadClock(d, r), rate, false, a)
  }

  function ChangedRate(d: Device, rate: real, r: Reading, a: RateAnswers): Device {
    if d.clockSource == INTERNAL then ApplyRate(d, rate, true, a)
    else
      var read := ReadClock(d, r);
      if r.Unreadable? || ValidityOf(r.source, r.lock) == Unlocked || r.rate != Whole(rate) then read
      else ApplyRate(read, rate, false, a)
  }

  /** The supported rate after the current one, in a circle. */
  function NextRate(rate: real): real {
    if Whole(rate) == 44100 then 48000.0
    else if Whole(rate) == 48000 then 88200.0
    else if Whole(rate) == 88200 then 96000.0
    else 44100.0
  }

  function FollowedRate(d: Device, a: RateAnswers): Device
    requires d.rates.outstanding > 0
  {
    var r := d.rates;
    var answered := r.(pending := 0, outstanding := r.outstanding - 1, applied := r.applied + [r.pending]);
    ApplyRate(d.(rates := answered), r.pending as real, false, a)
  }

  function AbandonedRate(d: Device): Device
    requires d.rates.outstanding > 0
  {
    d.(rates := d.rates.(pending := 0, outstanding := d.rates.outstanding - 1))
  }

  /** Ask the host to follow an external rate, unless a request is already pending. */
  function Requested(r: Rates, source: Byte, rate: Word32, accepted: bool): Rates {
    if source == INTERNAL || !Supported(rate) || rate == Whole(r.current) || r.pending != 0 || !accepted then r
    else r.(pending := rate, outstanding := r.outstanding + 1)
  }

  predicate Stalled(s: Stream, time: nat, interval: nat) {
    || (time > s.lastInput && time - s.lastInput > 2 * interval)
    || (time > s.lastOutput && time - s.lastOutput > 2 * interval)
  }

  function Recovered(d: Device, time: nat, a: StartAnswers): Device {
    if d.stream.running && !Stalled(d.stream, time, d.interval) then d
    else if d.clockSource != INTERNAL && d.clockValid == Unlocked then d
    else if time < d.nextRecovery then d
    else StartTransport(StopTransport(d.(nextRecovery := time + 2 * d.interval, restarts := d.restarts + [time])), a).0
  }

  function Monitored(d: Device, time: nat, r: Reading, accepted: bool, a: StartAnswers): Device {
    if !d.ioActive then d
    else if r.Unreadable? then Recovered(d, time, a)
    else
      var read := ReadClock(d, r);
      if r.source != INTERNAL && read.clockValid == Unlocked then
        if d.stream.running then StopTransport(read) else read
      else Recovered(read.(rates := Requested(read.rates, r.source, r.rate, accepted)), time, a)
  }

  /** Choosing a clock; the source is cut to a byte. */
  function SelectedClock(d: Device, source: Word32, request: bool, rateSet: bool, r: Reading): Device {
    var cut := source % 0x100;
    if !SourceAccepted(d, cut, request) then d
    else
      var chosen := d.(clockSource := cut);
      if source == INTERNAL && !rateSet then chosen else ReadClock(chosen, r)
  }

  // Runs.

  predicate Enabled(d: Device, e: Event) {
    e.FollowExternalRate? || e.AbandonExternalRate? ==> d.rates.outstanding > 0
  }

  function Next(d: Device, e: Event): Device
    requires Enabled(d, e)
  {
    match e
    case StartIO(answers) => StartedIO(d, answers)
    case StopIO => StoppedIO(d)
    case Timer(time, reading, accepted, transport) => Monitored(d, time, reading, accepted, transport)
    case InputDone(ok, submission) => d.(stream := CompleteInput(d.stream, ok, submission))
    case OutputDone(ok, submission) => d.(stream := CompleteOutput(d.stream, ok, submission))
    case SelectClock(source, request, rateSet, reading) => SelectedClock(d, source, request, rateSet, reading)
    case ReadStatus(reading) => ReadClock(d, reading)
    case ChangeRate(rate, reading, change) => ChangedRate(d, rate, reading, change)
    case CycleRate(reading, change) => ChangedRate(d, NextRate(d.rates.current), reading, change)
    case FollowExternalRate(change) => FollowedRate(d, change)
    case AbandonExternalRate => AbandonedRate(d)
  }

  function Initial(ticks: nat): Device {
    Device(false, false, false, INTERNAL, Unknown, Stream(false, false, false, 0, 0, 0, 0, Session(0, [], [])),
           Rates(48000.0, 0, 0, []), 0, 0, ticks, [])
  }

  // The invariant, part by part.

  /** Submissions since the start cover consecutive two-millisecond windows, up to the next one. */
  predicate Consecutive(base: nat, frames: seq<nat>, next: nat) {
    && next == base + WINDOW * |frames|
    && forall k :: 0 <= k < |frames| ==> frames[k] == base + WINDOW * k
  }

  /** A running stream has both its pipes, and both directions cover their windows. */
  predicate StreamHolds(s: Stream) {
    && (s.running ==> s.inputPipe && s.outputPipe)
    && Consecutive(s.session.base, s.session.input, s.nextInput)
    && Consecutive(s.session.base, s.session.output, s.nextOutput)
  }

  /** Streaming means active I/O and both buffers. */
  predicate Backed(d: Device) {
    (d.stream.running ==> d.ioActive) && (d.ioActive ==> d.inputMap && d.outputMap)
  }

  predicate Paced(restarts: seq<nat>, nextRecovery: nat, ticks: nat) {
    && (forall k :: 0 < k < |restarts| ==> restarts[k] >= restarts[k - 1] + 2 * ticks)
    && nextRecovery == if restarts == [] then 0 else restarts[|restarts| - 1] + 2 * ticks
  }

  predicate RatesHold(r: Rates) {
    && Supported(Whole(r.current))
    && (r.pending != 0 ==> Supported(r.pending))
    && r.outstanding == (if r.pending != 0 then 1 else 0)
    && forall k :: 0 <= k < |r.applied| ==> Supported(r.applied[k])
  }

  predicate Inv(d: Device) {
    && Backed(d) && StreamHolds(d.stream) && RatesHold(d.rates)
    && Paced(d.restarts, d.nextRecovery, d.ticks) && (d.ioActive ==> d.interval == d.ticks)
  }

  lemma InitialHolds(ticks: nat)
    ensures Inv(Initial(ticks))
  {
    assert Whole(48000.0) == 48000;
  }

  lemma FollowOn(base: nat, frames: seq<nat>, next: nat)
    requires Consecutive(base, frames, next)
    ensures Consecutive(base, frames + [next], next + WINDOW)
  {
  }

  lemma CompletionsKeep(s: Stream, ok: bool, sub: Submission)
    requires StreamHolds(s)
    ensures StreamHolds(CompleteInput(s, ok, sub)) && StreamHolds(CompleteOutput(s, ok, sub))
  {
    hide Consecutive;
    FollowOn(s.session.base, s.session.input, s.nextInput);
    FollowOn(s.session.base, s.session.output, s.nextOutput);
  }

  lemma {:induction false} PrimedKeeps(s: Stream, a: StartAnswers, n: nat)
    requires StreamHolds(s)
    ensures StreamHolds(Primed(s, a, n))
  {
    hide StreamHolds, CompleteInput, CompleteOutput;
    if n > 0 {
      PrimedKeeps(s, a, n - 1);
      CompletionsKeep(Primed(s, a, n - 1), true, a.input(n - 1));
      CompletionsKeep(CompleteInput(Primed(s, a, n - 1), true, a.input(n - 1)), true, a.output(n - 1));
    }
  }

  /** A start touches the streams alone; it succeeds only with both buffers, and failing it starts nothing. */
  lemma StartTransportKeeps(d: Device, a: StartAnswers)
    requires StreamHolds(d.stream)
    ensures var (e, ok) := StartTransport(d, a);
      && e == d.(stream := e.stream) && StreamHolds(e.stream)
      && (ok ==> d.inputMap && d.outputMap) && (!ok && !d.stream.running ==> !e.stream.running)
  {
    hide Primed, ClockConfigured;
    if a.frame.Some? {
      PrimedKeeps(Scheduled(a.frame.value, a.now), a, REQUESTS);
    }
  }

  lemma {:induction false} PrimedRuns(s: Stream, a: StartAnswers, n: nat)
    requires s.running
    ensures Primed(s, a, n).running <==> forall k: nat :: k < n ==> a.input(k).accepted && a.output(k).accepted
    ensures Primed(s, a, n).running ==> |Primed(s, a, n).session.input| == |s.session.input| + n
  {
    hide CompleteInput, CompleteOutput;
    if n > 0 {
      PrimedRuns(s, a, n - 1);
      PairRuns(Primed(s, a, n - 1), a.input(n - 1), a.output(n - 1));
    }
  }

  lemma PairRuns(s: Stream, i: Submission, o: Submission)
    ensures var e := CompleteOutput(CompleteInput(s, true, i), true, o);
      && (e.running <==> s.running && i.accepted && o.accepted)
      && (e.running ==> |e.session.input| == |s.session.input| + 1)
  {
  }

  /** A successful start streams exactly when both pipes took all sixteen requests; otherwise it reports success
      with nothing streaming. */
  lemma StartedStreamsIff(d: Device, a: StartAnswers)
    requires StartTransport(d, a).1
    ensures var s := StartTransport(d, a).0.stream;
      && (s.running <==> forall k: nat :: k < REQUESTS ==> a.input(k).accepted && a.output(k).accepted)
      && (s.running ==> |s.session.input| == REQUESTS)
  {
    PrimedRuns(Scheduled(a.frame.value, a.now), a, REQUESTS);
  }

  lemma StartIOKeeps(d: Device, a: IOAnswers)
    requires Inv(d) && !d.stream.running
    ensures Inv(StartedIO(d, a)) && StartedIO(d, a).ticks == d.ticks
  {
    hide StartTransport, ClockConfigured, StreamHolds, Paced, RatesHold;
    StartTransportKeeps(d.(inputMap := true, outputMap := true), a.transport);
  }

  /**
   * Starting I/O keeps the invariant whatever the kernel answers exactly when nothing is streaming. Started while
   * streaming, a host refusal releases the buffers under a transport that stays marked as running.
   */
  lemma StartIOIsSafeIff(d: Device)
    requires Inv(d)
    ensures (forall a: IOAnswers :: Inv(StartedIO(d, a))) <==> !d.stream.running
  {
    if d.stream.running {
      assert !Backed(StartedIO(d, Refusing()));
    } else {
      forall a: IOAnswers
        ensures Inv(StartedIO(d, a))
      {
        StartIOKeeps(d, a);
      }
    }
  }

  function Refusing(): IOAnswers {
    var none := Submission(0, false);
    var nothing := StartAnswers(false, false, false, false, None, 0, _ => none, _ => none);
    IOAnswers(false, false, false, false, nothing)
  }

  function Granting(): IOAnswers {
    var taken := Submission(0, true);
    var all := StartAnswers(true, true, true, true, Some(0), 0, _ => taken, _ => taken);
    IOAnswers(true, true, true, true, all)
  }

  lemma ApplyKeeps(d: Device, rate: real, program: bool, a: RateAnswers)
    requires RatesHold(d.rates)
    ensures var e := ApplyRate(d, rate, program, a);
      && RatesHold(e.rates) && e == d.(rates := e.rates, interval := e.interval)
      && (e.interval == d.interval || e.interval == d.ticks)
  {
    hide Supported, Whole;
  }

  lemma ChangedRateKeeps(d: Device, rate: real, r: Reading, a: RateAnswers)
    requires RatesHold(d.rates)
    ensures var e := ChangedRate(d, rate, r, a);
      && RatesHold(e.rates) && (e.interval == d.interval || e.interval == d.ticks)
      && e == d.(rates := e.rates, interval := e.interval, clockSource := e.clockSource, clockValid := e.clockValid)
  {
    hide RatesHold, ApplyRate, Whole, ValidityOf;
    ApplyKeeps(d, rate, true, a);
    ApplyKeeps(ReadClock(d, r), rate, false, a);
  }

  lemma WholeOfWhole(x: int)
    ensures Whole(x as real) == x
  {
  }

  /** An external rate that the host lets through is applied as measured: it is one of the four. */
  lemma FollowedRateKeeps(d: Device, a: RateAnswers)
    requires RatesHold(d.rates) && d.rates.outstanding > 0
    ensures Supported(d.rates.pending)
    ensures var e := FollowedRate(d, a);
      && RatesHold(e.rates) && e == d.(rates := e.rates, interval := e.interval)
      && (e.interval == d.interval || e.interval == d.ticks)
      && (a.device ==> Whole(e.rates.current) == d.rates.pending)
  {
    hide Whole;
    WholeOfWhole(d.rates.pending);
  }

  lemma RequestedKeeps(r: Rates, source: Byte, rate: Word32, accepted: bool)
    requires RatesHold(r)
    ensures RatesHold(Requested(r, source, rate, accepted))
  {
    hide Whole;
  }

  lemma PacedNext(restarts: seq<nat>, next: nat, ticks: nat, time: nat)
    requires Paced(restarts, next, ticks) && time >= next
    ensures Paced(restarts + [time], time + 2 * ticks, ticks)
  {
  }

  lemma StoppedHolds(s: Stream)
    requires StreamHolds(s)
    ensures StreamHolds(Stopped(s)) && !Stopped(s).running
  {
  }

  lemma RecoveredKeeps(d: Device, time: nat, a: StartAnswers)
    requires Inv(d) && d.ioActive
    ensures Inv(Recovered(d, time, a)) && Recovered(d, time, a).ticks == d.ticks
  {
    hide StartTransport, StreamHolds, Paced, RatesHold, Stalled, Stopped;
    StoppedHolds(d.stream);
    StartTransportKeeps(StopTransport(d.(nextRecovery := time + 2 * d.interval, restarts := d.restarts + [time])), a);
    if time >= d.nextRecovery {
      PacedNext(d.restarts, d.nextRecovery, d.ticks, time);
    }
  }

  lemma MonitoredKeeps(d: Device, time: nat, r: Reading, accepted: bool, a: StartAnswers)
    requires Inv(d)
    ensures Inv(Monitored(d, time, r, accepted, a)) && Monitored(d, time, r, accepted, a).ticks == d.ticks
  {
    hide StreamHolds, Paced, RatesHold, ValidityOf, Recovered, Requested, Stopped;
    StoppedHolds(d.stream);
    if d.ioActive && r.Unreadable? {
      RecoveredKeeps(d, time, a);
    } else if d.ioActive {
      RequestedKeeps(d.rates, r.source, r.rate, accepted);
      RecoveredKeeps(ReadClock(d, r).(rates := Requested(d.rates, r.source, r.rate, accepted)), time, a);
    }
  }

  /** Every event keeps the invariant, except starting I/O while already streaming. */
  lemma NextKeepsInv(d: Device, e: Event)
    requires Inv(d) && Enabled(d, e) && (e.StartIO? ==> !d.stream.running)
    ensures Inv(Next(d, e)) && Next(d, e).ticks == d.ticks
  {
    hide StreamHolds, Paced, RatesHold, Monitored, StartedIO, ChangedRate, FollowedRate, ValidityOf, CompleteInput,
         CompleteOutput, Stopped, AbandonedRate, NextRate;
    match e
    case StartIO(answers) => StartIOKeeps(d, answers);
    case StopIO => StoppedHolds(d.stream);
    case Timer(time, reading, accepted, transport) => MonitoredKeeps(d, time, reading, accepted, transport);
    case InputDone(ok, submission) => CompletionsKeep(d.stream, ok, submission); StillBacked(d.stream, ok, submission);
    case OutputDone(ok, submission) => CompletionsKeep(d.stream, ok, submission); StillBacked(d.stream, ok, submission);
    case SelectClock(source, request, rateSet, reading) =>
    case ReadStatus(reading) =>
    case ChangeRate(rate, reading, change) => ChangedRateKeeps(d, rate, reading, change);
    case CycleRate(reading, change) => ChangedRateKeeps(d, NextRate(d.rates.current), reading, change);
    case FollowExternalRate(change) => FollowedRateKeeps(d, change);
    case AbandonExternalRate => AbandonedKeeps(d);
  }

  lemma StillBacked(s: Stream, ok: bool, sub: Submission)
    ensures CompleteInput(s, ok, sub).running ==> s.running
    ensures CompleteOutput(s, ok, sub).running ==> s.running
  {
  }

  lemma AbandonedKeeps(d: Device)
    requires RatesHold(d.rates) && d.rates.outstanding > 0
    ensures var e := AbandonedRate(d); RatesHold(e.rates) && e == d.(rates := e.rates)
  {
    hide Whole;
  }

  /** A run that the host may produce: it answers each request it accepted once, and starts I/O only when stopped. */
  predicate Legal(d: Device, events: seq<Event>)
    decreases |events|
  {
    events == []
    || (Enabled(d, events[0]) && (events[0].StartIO? ==> !d.stream.running) && Legal(Next(d, events[0]), events[1..]))
  }

  function Run(d: Device, events: seq<Event>): Device
    requires Legal(d, events)
    decreases |events|
  {
    if events == [] then d else Run(Next(d, events[0]), events[1..])
  }

  lemma {:induction false} RunKeepsInv(d: Device, events: seq<Event>)
    requires Inv(d) && Legal(d, events)
    ensures Inv(Run(d, events)) && Run(d, events).ticks == d.ticks
    decreases |events|
  {
    hide Inv, Next;
    if events != [] {
      NextKeepsInv(d, events[0]);
      RunKeepsInv(Next(d, events[0]), events[1..]);
    }
  }

  /** The state is reachable: after one start that everything grants the device streams, and a second start that the
      host refuses leaves it streaming without I/O or buffers. */
  lemma StartIOWhileStreamingFails(ticks: nat)
    ensures var first, again := StartIO(Granting()), StartIO(Refusing());
      && Legal(Initial(ticks), [first])
      && var d := Run(Initial(ticks), [first]);
      && d.stream.running && Inv(d) && Enabled(d, again) && Next(d, again).stream.running && !Backed(Next(d, again))
  {
    var d, first := Initial(ticks), StartIO(Granting());
    InitialHolds(ticks);
    StartIOKeeps(d, Granting());
    hide Primed, Inv;
    PrimedRuns(Scheduled(0, 0), Granting().transport, REQUESTS);
    assert [first][1..] == [];
    assert Legal(Next(d, first), []);
    assert Run(d, [first]) == Next(d, first);
  }

  /** Over every run: streaming is backed, windows follow one another, restarts are two intervals apart, at most one
      external change is outstanding, and every rate applied for one is supported. */
  lemma EveryRun(ticks: nat, events: seq<Event>)
    requires Legal(Initial(ticks), events)
    ensures var d := Run(Initial(ticks), events); var s := d.stream;
      && (s.running ==> d.ioActive && s.inputPipe && s.outputPipe && d.inputMap && d.outputMap)
      && (forall j, k :: 0 <= j < k < |s.session.input| ==>
            s.session.input[j] + WINDOW * (k - j) == s.session.input[k])
      && (forall j, k :: 0 <= j < k < |s.session.output| ==>
            s.session.output[j] + WINDOW * (k - j) == s.session.output[k])
      && (forall k :: 0 < k < |d.restarts| ==> d.restarts[k] >= d.restarts[k - 1] + 2 * ticks)
      && d.rates.outstanding <= 1 && Supported(Whole(d.rates.current))
      && (forall k :: 0 <= k < |d.rates.applied| ==> d.rates.applied[k] != 0 && Supported(d.rates.applied[k]))
  {
    hide Run, Legal, Whole;
    InitialHolds(ticks);
    RunKeepsInv(Initial(ticks), events);
  }

  /** With I/O inactive nothing is submitted and nothing restarts, until I/O is started again. */
  lemma {:induction false} QuietUntilStarted(d: Device, events: seq<Event>)
    requires !d.ioActive && !d.stream.running && Legal(d, events)
    requires forall k :: 0 <= k < |events| ==> !events[k].StartIO?
    ensures var e := Run(d, events);
      && !e.ioActive && !e.stream.running && e.restarts == d.restarts && e.stream.session == d.stream.session
      && (e.stream.inputPipe ==> d.stream.inputPipe) && (e.stream.outputPipe ==> d.stream.outputPipe)
    decreases |events|
  {
    hide Next;
    if events != [] {
      QuietStep(d, events[0]);
      QuietUntilStarted(Next(d, events[0]), events[1..]);
    }
  }

  /** So whatever was streaming, once I/O is stopped the pipes are let go, and submissions and restarts are final. */
  lemma NothingAfterStop(d: Device, events: seq<Event>)
    requires Legal(StoppedIO(d), events) && forall k :: 0 <= k < |events| ==> !events[k].StartIO?
    ensures var e := Run(StoppedIO(d), events);
      && !e.ioActive && !e.stream.running && !e.stream.inputPipe && !e.stream.outputPipe
      && e.stream.session == d.stream.session && e.restarts == d.restarts
  {
    QuietUntilStarted(StoppedIO(d), events);
  }

  lemma QuietStep(d: Device, e: Event)
    requires !d.ioActive && !d.stream.running && !e.StartIO? && Enabled(d, e)
    ensures var n := Next(d, e);
      && !n.ioActive && !n.stream.running && n.restarts == d.restarts && n.stream.session == d.stream.session
      && (n.stream.inputPipe ==> d.stream.inputPipe) && (n.stream.outputPipe ==> d.stream.outputPipe)
  {
    hide Recovered, Requested, ValidityOf, Supported, Whole, NextRate, ApplyRate, ChangedRate;
    match e
    case ChangeRate(rate, reading, change) => QuietChange(d, rate, reading, change);
    case CycleRate(reading, change) => QuietChange(d, NextRate(d.rates.current), reading, change);
    case FollowExternalRate(change) =>
      var r := d.rates;
      QuietApply(d.(rates := r.(pending := 0, outstanding := r.outstanding - 1, applied := r.applied + [r.pending])),
                 r.pending as real, false, change);
    case _ =>
  }

  /** What a change of rate leaves alone. */
  predicate Untouched(d: Device, e: Device) {
    e.ioActive == d.ioActive && e.stream == d.stream && e.restarts == d.restarts
  }

  lemma QuietApply(d: Device, rate: real, program: bool, a: RateAnswers)
    ensures Untouched(d, ApplyRate(d, rate, program, a))
  {
    hide Supported, Whole;
  }

  lemma QuietChange(d: Device, rate: real, r: Reading, a: RateAnswers)
    ensures Untouched(d, ChangedRate(d, rate, r, a))
  {
    hide ApplyRate, ValidityOf, Whole;
    QuietApply(d, rate, true, a);
    QuietApply(ReadClock(d, r), rate, false, a);
  }

  predicate KnownUnlocked(d: Device) {
    d.clockSource != INTERNAL && d.clockValid == Unlocked
  }

  /** A watchdog tick at which a restart is due: I/O is active, the clock is not known to be unlocked after the tick has
      read it, nothing is streaming or a direction has stalled, and the last restart is two intervals back. */
  predicate Due(d: Device, e: Event) {
    && e.Timer? && d.ioActive && !KnownUnlocked(ReadClock(d, e.reading))
    && (!d.stream.running || Stalled(d.stream, e.time, d.interval)) && e.time >= d.nextRecovery
  }

  lemma TickRestarts(d: Device, e: Event)
    requires Inv(d) && e.Timer?
    ensures Monitored(d, e.time, e.reading, e.accepted, e.transport).restarts
         == d.restarts + if Due(d, e) then [e.time] else []
  {
    hide StartTransport, Stalled, StreamHolds, Paced, RatesHold, ValidityOf, Supported, Whole, Requested;
    var r, read := e.reading, ReadClock(d, e.reading);
    var q := if r.Reading? then read.(rates := Requested(read.rates, r.source, r.rate, e.accepted)) else d;
    StoppedHolds(d.stream);
    StartTransportKeeps(
      StopTransport(q.(nextRecovery := e.time + 2 * q.interval, restarts := q.restarts + [e.time])), e.transport);
    assert d.restarts + [] == d.restarts;
  }

  lemma NextRestarts(d: Device, e: Event)
    requires Inv(d) && Enabled(d, e)
    ensures Next(d, e).restarts == d.restarts + if Due(d, e) then [e.time] else []
  {
    hide Monitored, Due, StartTransport, ApplyRate, ChangedRate, NextRate, ReadClock, StreamHolds, Paced, RatesHold;
    assert d.restarts + [] == d.restarts;
    match e
    case Timer(time, reading, accepted, transport) => TickRestarts(d, e);
    case StartIO(answers) =>
      OnlyTicksAreDue(d, e);
      StartTransportKeeps(d.(inputMap := true, outputMap := true), answers.transport);
    case ChangeRate(rate, reading, change) =>
      OnlyTicksAreDue(d, e);
      QuietChange(d, rate, reading, change);
    case CycleRate(reading, change) =>
      OnlyTicksAreDue(d, e);
      QuietChange(d, NextRate(d.rates.current), reading, change);
    case FollowExternalRate(change) =>
      OnlyTicksAreDue(d, e);
      var r := d.rates;
      QuietApply(d.(rates := r.(pending := 0, outstanding := r.outstanding - 1, applied := r.applied + [r.pending])),
                 r.pending as real, false, change);
    case ReadStatus(reading) => OnlyTicksAreDue(d, e); QuietRead(d, reading);
    case SelectClock(source, request, rateSet, reading) =>
      OnlyTicksAreDue(d, e);
      QuietRead(d.(clockSource := source % 0x100), reading);
    case _ => OnlyTicksAreDue(d, e);
  }

  lemma OnlyTicksAreDue(d: Device, e: Event)
    requires !e.Timer?
    ensures !Due(d, e)
  {
  }

  lemma QuietRead(d: Device, r: Reading)
    ensures Untouched(d, ReadClock(d, r))
  {
  }

  /** The times of the ticks of a run at which a restart was due. */
  function DueTicks(d: Device, events: seq<Event>): seq<nat>
    requires Legal(d, events)
    decreases |events|
  {
    if events == [] then []
    else (if Due(d, events[0]) then [events[0].time] else []) + DueTicks(Next(d, events[0]), events[1..])
  }

  /** Over every run the transport is restarted at the due ticks and at no other time. */
  lemma {:induction false} RestartsAreDueTicks(d: Device, events: seq<Event>)
    requires Inv(d) && Legal(d, events)
    ensures Run(d, events).restarts == d.restarts + DueTicks(d, events)
    decreases |events|
  {
    hide Next, Inv, Due;
    if events != [] {
      NextKeepsInv(d, events[0]);
      NextRestarts(d, events[0]);
      RestartsAreDueTicks(Next(d, events[0]), events[1..]);
    }
  }

  /** The clock is known to be unlocked before, between and after these events. */
  predicate UnlockedThroughout(d: Device, events: seq<Event>)
    requires Legal(d, events)
    decreases |events|
  {
    KnownUnlocked(d) && (events == [] || UnlockedThroughout(Next(d, events[0]), events[1..]))
  }

  lemma UnlockedStep(d: Device, e: Event)
    requires KnownUnlocked(d) && !d.stream.running && Enabled(d, e) && !e.StartIO? && KnownUnlocked(Next(d, e))
    ensures var n := Next(d, e);
      !n.stream.running && n.restarts == d.restarts && n.stream.session == d.stream.session
  {
    hide StartTransport, ApplyRate, ChangedRate, NextRate, Requested, ValidityOf, Supported, Whole;
    match e
    case ChangeRate(rate, reading, change) => QuietChange(d, rate, reading, change);
    case CycleRate(reading, change) => QuietChange(d, NextRate(d.rates.current), reading, change);
    case FollowExternalRate(change) =>
      var r := d.rates;
      QuietApply(d.(rates := r.(pending := 0, outstanding := r.outstanding - 1, applied := r.applied + [r.pending])),
                 r.pending as real, false, change);
    case Timer(time, reading, accepted, transport) => UnlockedTick(d, e);
    case _ =>
  }

  lemma UnlockedTick(d: Device, e: Event)
    requires e.Timer? && KnownUnlocked(Next(d, e)) && (KnownUnlocked(d) || d.ioActive)
    requires d.stream.running ==> d.ioActive && e.reading.Reading?
    ensures var n := Next(d, e);
      !n.stream.running && n.restarts == d.restarts && n.stream.session == d.stream.session
  {
    hide Requested, Primed, ClockConfigured, Stalled;
  }

  lemma {:induction false} UnlockedStaysQuiet(d: Device, events: seq<Event>)
    requires !d.stream.running && Legal(d, events) && UnlockedThroughout(d, events)
    requires forall k :: 0 <= k < |events| ==> !events[k].StartIO?
    ensures var e := Run(d, events);
      !e.stream.running && e.restarts == d.restarts && e.stream.session == d.stream.session
    decreases |events|
  {
    hide Next, KnownUnlocked;
    if events != [] {
      assert UnlockedThroughout(Next(d, events[0]), events[1..]);
      UnlockedStep(d, events[0]);
      UnlockedStaysQuiet(Next(d, events[0]), events[1..]);
    }
  }

  /** From a tick that finds the external clock unlocked until one finds lock, or I/O is started again, nothing is
      submitted and nothing restarts, whatever was streaming. */
  lemma NothingUntilLock(d: Device, tick: Event, events: seq<Event>)
    requires d.ioActive && tick.Timer? && tick.reading.Reading?
    requires tick.reading.source != INTERNAL && tick.reading.lock == Some(false)
    requires Legal(Next(d, tick), events) && UnlockedThroughout(Next(d, tick), events)
    requires forall k :: 0 <= k < |events| ==> !events[k].StartIO?
    ensures var e := Run(Next(d, tick), events);
      !e.stream.running && e.restarts == d.restarts && e.stream.session == d.stream.session
  {
    hide Run, Legal, UnlockedThroughout;
    UnlockedReading(d, tick);
    UnlockedStaysQuiet(Next(d, tick), events);
  }

  lemma UnlockedReading(d: Device, tick: Event)
    requires d.ioActive && tick.Timer? && tick.reading.Reading?
    requires tick.reading.source != INTERNAL && tick.reading.lock == Some(false)
    ensures var n := Next(d, tick);
      !n.stream.running && n.restarts == d.restarts && n.stream.session == d.stream.session
  {
    hide Recovered, Requested;
  }

  /** On the internal clock, four requests that nothing refuses take the device through all four rates and back, each
      to the next one up and from the highest to the lowest. */
  lemma FourCyclesReturn(d: Device, e: Event)
    requires RatesHold(d.rates) && d.clockSource == INTERNAL && e.CycleRate?
    requires e.change == RateAnswers(true, true, true, true, true)
    ensures var d1 := Next(d, e); var d2 := Next(d1, e); var d3 := Next(d2, e); var d4 := Next(d3, e);
      && Whole(d4.rates.current) == Whole(d.rates.current)
      && {d1.rates.current, d2.rates.current, d3.rates.current, d4.rates.current}
         == {44100.0, 48000.0, 88200.0, 96000.0}
      && if Whole(d.rates.current) == 96000 then d1.rates.current == 44100.0
         else Whole(d.rates.current) < Whole(d1.rates.current) <= 2 * Whole(d.rates.current)
  {
    hide Whole;
    WholeRates();
    var d1 := Next(d, e);
    CycleStep(d, e);
    CycleStep(d1, e);
    CycleStep(Next(d1, e), e);
    CycleStep(Next(Next(d1, e), e), e);
  }

  lemma CycleStep(d: Device, e: Event)
    requires Supported(Whole(d.rates.current)) && d.clockSource == INTERNAL && e.CycleRate?
    requires e.change == RateAnswers(true, true, true, true, true)
    ensures var n := Next(d, e);
      n.rates.current == NextRate(d.rates.current) && n.clockSource == INTERNAL && Supported(Whole(n.rates.current))
  {
    hide Whole;
    WholeRates();
  }

  lemma WholeRates()
    ensures Whole(44100.0) == 44100 && Whole(48000.0) == 48000 && Whole(88200.0) == 88200 && Whole(96000.0) == 96000
  {
  }

  /** What the kernel must answer for a transport to begin on this clock. */
  predicate Grants(source: Byte, a: StartAnswers) {
    a.device && a.interfaces && a.ready && a.clock && a.frame.Some? && source in {1, 2, 3}
  }

  /** Both pipes have taken windows of two bus frames, eight each, from 25 frames after the bus frame on, and the last
      one taken is the latest sign of life. */
  predicate Begun(s: Stream, a: StartAnswers) {
    && s.running && s.inputPipe && s.outputPipe && a.frame.Some?
    && |s.session.input| == |s.session.output| == 8
    && (forall k :: 0 <= k < 8 ==> s.session.input[k] == s.session.output[k] == a.frame.value + 25 + 2 * k)
    && s.lastInput == a.input(7).now && s.lastOutput == a.output(7).now
  }

  predicate AllTaken(a: StartAnswers) {
    forall k: nat :: k < 8 ==> a.input(k).accepted && a.output(k).accepted
  }

  lemma {:induction false} PrimedAs(s: Stream, a: StartAnswers, n: nat)
    requires s.running && forall k: nat :: k < n ==> a.input(k).accepted && a.output(k).accepted
    ensures var e := Primed(s, a, n);
      && e.running && e.inputPipe == s.inputPipe && e.outputPipe == s.outputPipe
      && e.session.base == s.session.base
      && |e.session.input| == |s.session.input| + n && |e.session.output| == |s.session.output| + n
      && (n > 0 ==> e.lastInput == a.input(n - 1).now && e.lastOutput == a.output(n - 1).now)
  {
    if n > 0 {
      PrimedAs(s, a, n - 1);
    }
  }

  lemma ScheduledBegins(a: StartAnswers)
    requires a.frame.Some?
    ensures var s := Primed(Scheduled(a.frame.value, a.now), a, 8);
      && (s.running <==> AllTaken(a)) && (s.running ==> Begun(s, a))
  {
    hide Primed;
    var s := Scheduled(a.frame.value, a.now);
    PrimedRuns(s, a, 8);
    PrimedKeeps(s, a, 8);
    if AllTaken(a) {
      PrimedAs(s, a, 8);
      assert Primed(s, a, 8).session.base == a.frame.value + 25;
    }
  }

  /** With nothing streaming, I/O becomes active exactly when host, buffers, clock and transport are granted; then it
      streams from its first windows exactly when all sixteen are taken. */
  lemma StartIOActivatesIff(d: Device, a: IOAnswers)
    requires !d.stream.running
    ensures var n := Next(d, StartIO(a));
      && (n.ioActive <==> a.host && a.outputMap && a.inputMap && a.clock && Grants(d.clockSource, a.transport))
      && (n.stream.running <==> n.ioActive && AllTaken(a.transport))
      && (n.stream.running ==> Begun(n.stream, a.transport))
      && n.inputMap == n.outputMap == n.ioActive
  {
    hide Primed, AllTaken, Begun;
    if a.transport.frame.Some? {
      ScheduledBegins(a.transport);
    }
  }

  /** A due tick leaves the transport streaming from its first windows exactly when the kernel grants a start and takes
      all sixteen. */
  lemma DueTickRecoversIff(d: Device, tick: Event)
    requires Inv(d) && Due(d, tick)
    ensures var n := Next(d, tick);
      && (n.stream.running <==> Grants(n.clockSource, tick.transport) && AllTaken(tick.transport))
      && (n.stream.running ==> Begun(n.stream, tick.transport))
  {
    hide Primed, AllTaken, Begun, Requested, ValidityOf, StreamHolds, Paced, RatesHold, Stalled;
    if tick.transport.frame.Some? {
      ScheduledBegins(tick.transport);
    }
  }

  /** A completion submits the next window of its own direction exactly when the transport is up, the completion is good
      and the pipe takes it; a bad or refused one takes the transport down. */
  lemma CompletionSubmitsIff(d: Device, ok: bool, sub: Submission)
    ensures var was, i := d.stream, Next(d, InputDone(ok, sub)).stream; var o := Next(d, OutputDone(ok, sub)).stream;
      && i.running == o.running == (was.running && ok && sub.accepted)
      && i.session.output == was.session.output && o.session.input == was.session.input
      && i.session.base == o.session.base == was.session.base
      && |i.session.input| == |was.session.input| + (if i.running then 1 else 0)
      && |o.session.output| == |was.session.output| + (if o.running then 1 else 0)
      && i.session.input[..|was.session.input|] == was.session.input
      && o.session.output[..|was.session.output|] == was.session.output
  {
  }

  /** Good completions hold the watchdog off for two seconds each: after one in each direction, a tick that does not
      find the clock unlocked restarts the transport exactly when it comes more than two seconds after either and is
      not within two seconds of the last restart. */
  lemma WatchdogFiresIff(d: Device, input: Submission, output: Submission, tick: Event)
    requires Inv(d) && d.stream.running && input.accepted && output.accepted && tick.Timer?
    requires tick.reading.Unreadable? ==> d.clockSource == 1 || d.clockValid != Unlocked
    requires tick.reading.Reading? ==> tick.reading.source == 1 || tick.reading.lock != Some(false)
    ensures var up := Next(Next(d, InputDone(true, input)), OutputDone(true, output));
      var late := tick.time > input.now + 2 * d.ticks || tick.time > output.now + 2 * d.ticks;
      var early := d.restarts != [] && tick.time < d.restarts[|d.restarts| - 1] + 2 * d.ticks;
      && Next(up, tick).restarts == d.restarts + (if late && !early then [tick.time] else [])
      && (!late ==> Next(up, tick).stream == up.stream)
  {
    hide StreamHolds, RatesHold, StartTransport;
    var mid := Next(d, InputDone(true, input));
    var up := Next(mid, OutputDone(true, output));
    NextKeepsInv(d, InputDone(true, input));
    NextKeepsInv(mid, OutputDone(true, output));
    hide Requested;
    TickRestarts(up, tick);
  }

  /** While I/O is active and the transport is down, a tick restarts it unless the last restart is less than two
      seconds back or the tick leaves an external clock known to be unlocked. */
  lemma DownRestartsIff(d: Device, tick: Event)
    requires Inv(d) && d.ioActive && !d.stream.running && tick.Timer?
    ensures var r := tick.reading;
      var unlocked := if r.Reading? then r.source != 1 && r.lock == Some(false)
                      else d.clockSource != 1 && d.clockValid == Unlocked;
      var early := d.restarts != [] && tick.time < d.restarts[|d.restarts| - 1] + 2 * d.ticks;
      Next(d, tick).restarts == d.restarts + if unlocked || early then [] else [tick.time]
  {
    hide StreamHolds, RatesHold, StartTransport, Stalled, Requested;
    TickRestarts(d, tick);
  }

  /** The clock is known to be unlocked after a reading exactly when it is external and says so. */
  lemma UnlockedIff(d: Device, r: Reading)
    ensures var n := Next(d, ReadStatus(r));
      if r.Unreadable? then n == d
      else && (KnownUnlocked(n) <==> r.source != 1 && r.lock == Some(false)) && n.clockSource == r.source
           && (n.clockValid == Unknown <==> r.source != 1 && r.lock.None?)
  {
  }

  /** A rate is taken exactly when it is one of the four, the device takes it, and the clock allows it: an internal
      clock that was set to it, or an external one read at it and not unlocked. */
  lemma RateIsTakenIff(d: Device, rate: real, r: Reading, change: RateAnswers)
    ensures var n := Next(d, ChangeRate(rate, r, change));
      var taken := rate.Floor in {44100, 48000, 88200, 96000} && change.device
        && if d.clockSource == 1 then change.hardware
           else r.Reading? && r.lock != Some(false) && r.rate == rate.Floor;
      && n.rates == d.rates.(current := if taken then rate else d.rates.current)
      && ChangeAccepted(d, rate, r, change) == (taken && change.input && change.output && change.latency)
      && (d.clockSource == 1 ==> n.clockSource == 1)
  {
  }

  /** A clock is chosen exactly when nothing streams, its low byte is 1, 2 or 3 and the device agrees; the state then
      shows what was read, or the choice when nothing was. */
  lemma ClockIsChosenIff(d: Device, source: Word32, request: bool, rateSet: bool, r: Reading)
    ensures var n := Next(d, SelectClock(source, request, rateSet, r));
      if d.stream.running || source % 256 !in {1, 2, 3} || !request then n == d
      else
        && n.clockSource == (if r.Reading? && (source != 1 || rateSet) then r.source else source % 256)
        && n.stream == d.stream && n.rates == d.rates
  {
  }

  /** A tick at which the host is asked to follow an external rate, and agrees. */
  predicate AsksToFollow(d: Device, tick: Event) {
    && tick.Timer? && d.ioActive && tick.accepted && d.rates.pending == 0
    && tick.reading.Reading? && tick.reading.source != 1 && tick.reading.lock != Some(false)
    && tick.reading.rate in {44100, 48000, 88200, 96000} && tick.reading.rate != d.rates.current.Floor
  }

  /** A tick asks for the measured rate exactly when I/O is active, the clock is external and not unlocked, its rate is
      one of the four and new, and nothing is pending; otherwise it leaves the rates alone. */
  lemma TickAsksIff(d: Device, tick: Event)
    requires Inv(d) && tick.Timer?
    ensures var after := Next(d, tick).rates;
      && (after.outstanding == d.rates.outstanding + 1 <==> AsksToFollow(d, tick))
      && after == if AsksToFollow(d, tick) then d.rates.(pending := tick.reading.rate, outstanding := 1) else d.rates
  {
    hide StartTransport, Stalled, StreamHolds, Paced, Stopped;
    var r, read := tick.reading, ReadClock(d, tick.reading);
    RecoveredKeepsRates(d, tick);
    if r.Reading? {
      RecoveredKeepsRates(read.(rates := Requested(read.rates, r.source, r.rate, tick.accepted)), tick);
    }
  }

  lemma RecoveredKeepsRates(d: Device, tick: Event)
    requires tick.Timer?
    ensures Recovered(d, tick.time, tick.transport).rates == d.rates
  {
    hide Primed, ClockConfigured, Stalled;
  }

  lemma PendingStep(d: Device, e: Event)
    requires d.rates.pending != 0 && Enabled(d, e) && !e.FollowExternalRate? && !e.AbandonExternalRate?
    ensures var after := Next(d, e).rates;
      after.pending == d.rates.pending && after.outstanding == d.rates.outstanding && after.applied == d.rates.applied
  {
    hide StartTransport, Stalled, ValidityOf, Whole, Supported, NextRate, Recovered;
    match e
    case Timer(time, reading, accepted, transport) =>
      RecoveredKeepsRates(d, e);
      RecoveredKeepsRates(ReadClock(d, reading), e);
    case StartIO(answers) => StartedKeepsRates(d, answers);
    case _ =>
  }

  lemma StartedKeepsRates(d: Device, a: IOAnswers)
    ensures StartedIO(d, a).rates == d.rates
  {
    hide Primed, ClockConfigured;
  }

  lemma {:induction false} PendingUntilAnswered(d: Device, events: seq<Event>)
    requires Inv(d) && d.rates.pending != 0 && Legal(d, events)
    requires forall k :: 0 <= k < |events| ==> !events[k].FollowExternalRate? && !events[k].AbandonExternalRate?
    ensures var after := Run(d, events).rates;
      after.pending == d.rates.pending && after.outstanding == d.rates.outstanding && after.applied == d.rates.applied
    decreases |events|
  {
    hide Next, Inv;
    if events != [] {
      NextKeepsInv(d, events[0]);
      PendingStep(d, events[0]);
      PendingUntilAnswered(Next(d, events[0]), events[1..]);
    }
  }

  /** Whatever happens between the request and the host's go-ahead, the device then runs at the rate measured, and
      nothing is left to answer. */
  lemma ExternalRateIsFollowed(d: Device, tick: Event, between: seq<Event>, change: RateAnswers)
    requires Inv(d) && AsksToFollow(d, tick) && Legal(Next(d, tick), between) && change.device
    requires forall k :: 0 <= k < |between| ==> !between[k].FollowExternalRate? && !between[k].AbandonExternalRate?
    ensures var asked, go := Run(Next(d, tick), between), FollowExternalRate(change);
      && Enabled(asked, go)
      && var after := Next(asked, go).rates;
      && after.current.Floor == tick.reading.rate && after.pending == 0 && after.outstanding == 0
      && after.applied == d.rates.applied + [tick.reading.rate]
  {
    hide Monitored, Run, Legal;
    TickAsksIff(d, tick);
    NextKeepsInv(d, tick);
    RunKeepsInv(Next(d, tick), between);
    PendingUntilAnswered(Next(d, tick), between);
    Followed(Run(Next(d, tick), between), change);
  }

  lemma Followed(d: Device, a: RateAnswers)
    requires RatesHold(d.rates) && d.rates.outstanding > 0 && a.device
    ensures var after := FollowedRate(d, a).rates;
      && after.current.Floor == d.rates.pending && after.pending == 0 && after.outstanding == 0
      && after.applied == d.rates.applied + [d.rates.pending]
  {
    WholeOfWhole(d.rates.pending);
  }

  /** The device object. The history is kept beside the fields the driver has. */
  class ElevenRackDevice {
    var usbRunning: bool
    var ioActive: bool
    var inputPipe: bool
    var outputPipe: bool
    var inputMemoryMap: bool
    var outputMemoryMap: bool
    var usbClockSource: Byte
    var usbClockValid: Validity
    var sampleRate: real
    var pendingExternalRate: Word32
    var nextInputFrame: nat
    var nextOutputFrame: nat
    var lastInputCompletion: nat
    var lastOutputCompletion: nat
    var nextRecoveryTime: nat
    var monitorInterval: nat
    const ticks: nat
    ghost var outstanding: nat
    ghost var applied: seq<int>
    ghost var session: Session
    ghost var restarts: seq<nat>

    ghost function StreamView(): Stream
      reads this
    {
      Stream(usbRunning, inputPipe, outputPipe, nextInputFrame, nextOutputFrame, lastInputCompletion,
             lastOutputCompletion, session)
    }

    ghost function RatesView(): Rates
      reads this
    {
      Rates(sampleRate, pendingExternalRate, outstanding, applied)
    }

    ghost function View(): Device
      reads this
    {
      Device(ioActive, inputMemoryMap, outputMemoryMap, usbClockSource, usbClockValid, StreamView(), RatesView(),
             nextRecoveryTime, monitorInterval, ticks, restarts)
    }

    constructor (ticks: nat)
      ensures View() == Initial(ticks)
    {
      this.ticks := ticks;
      usbRunning, ioActive, inputPipe, outputPipe := false, false, false, false;
      inputMemoryMap, outputMemoryMap := false, false;
      usbClockSource, usbClockValid, sampleRate, pendingExternalRate := INTERNAL, Unknown, 48000.0, 0;
      nextInputFrame, nextOutputFrame, lastInputCompletion, lastOutputCompletion := 0, 0, 0, 0;
      nextRecoveryTime, monitorInterval, outstanding, applied, restarts := 0, 0, 0, [], [];
      session := Session(0, [], []);
    }

    method ReadUSBClockStatus(r: Reading) returns (ok: bool)
      modifies this
      ensures View() == ReadClock(old(View()), r) && ok == r.Reading?
    {
      if r.Unreadable? {
        return false;
      }
      usbClockSource := r.source;
      var valid := Unknown;
      if r.lock.Some? {
        valid := if r.lock.value then Locked else Unlocked;
      } else if r.source == INTERNAL {
        valid := Locked;
      }
      usbClockValid := valid;
      return true;
    }

    method SetUSBClockSource(source: Byte, request: bool) returns (ok: bool)
      modifies this
      ensures ok == SourceAccepted(old(View()), source, request)
      ensures View() == if ok then old(View()).(clockSource := source) else old(View())
    {
      if source < INTERNAL || source > LAST_SOURCE || usbRunning || !request {
        return false;
      }
      usbClockSource := source;
      return true;
    }

    method SetUSBHardwareRate(request: bool) returns (ok: bool)
      ensures ok == (usbClockSource == INTERNAL && request)
    {
      ok := usbClockSource == INTERNAL && request;
    }

    method ConfigureClock(request: bool) returns (ok: bool)
      modifies this
      ensures ok == ClockConfigured(old(View()), request) && View() == old(View())
    {
      if usbClockSource == INTERNAL {
        ok := SetUSBHardwareRate(request);
      } else {
        ok := SetUSBClockSource(usbClockSource, request);
      }
    }

    method SetClockSource(source: Word32, request: bool, rateSet: bool, r: Reading) returns (ok: bool)
      modifies this
      ensures View() == SelectedClock(old(View()), source, request, rateSet, r)
      ensures ok == (SourceAccepted(old(View()), source % 0x100, request) && (source == INTERNAL ==> rateSet))
    {
      ok := SetUSBClockSource(source % 0x100, request);
      if ok && source == INTERNAL {
        ok := SetUSBHardwareRate(rateSet);
      }
      if ok {
        var read := ReadUSBClockStatus(r);
      }
    }

    method StopUSBTransport()
      modifies this
      ensures View() == StopTransport(old(View()))
    {
      usbRunning, inputPipe, outputPipe := false, false, false;
    }

    method InputIsochComplete(ok: bool, s: Submission)
      modifies this
      ensures View() == old(View()).(stream := CompleteInput(old(StreamView()), ok, s))
    {
      if !usbRunning {
        return;
      }
      if !ok {
        usbRunning := false;
        return;
      }
      lastInputCompletion := s.now;
      if s.accepted {
        session := session.(input := session.input + [nextInputFrame]);
        nextInputFrame := nextInputFrame + WINDOW;
      } else {
        usbRunning := false;
      }
    }

    method OutputIsochComplete(ok: bool, s: Submission)
      modifies this
      ensures View() == old(View()).(stream := CompleteOutput(old(StreamView()), ok, s))
    {
      if !usbRunning {
        return;
      }
      if !ok {
        usbRunning := false;
        return;
      }
      lastOutputCompletion := s.now;
      if s.accepted {
        session := session.(output := session.output + [nextOutputFrame]);
        nextOutputFrame := nextOutputFrame + WINDOW;
      } else {
        usbRunning := false;
      }
    }

    method AttachPipes()
      modifies this
      ensures View() == old(View()).(stream := old(StreamView()).(inputPipe := true, outputPipe := true))
    {
      inputPipe, outputPipe := true, true;
    }

    /** The next windows begin a little after bus frame f. */
    method ScheduleFrom(f: nat)
      modifies this
      ensures View() == old(View()).(stream := old(StreamView()).(
                nextInput := f + LEAD, nextOutput := f + LEAD, session := Session(f + LEAD, [], [])))
    {
      nextInputFrame, nextOutputFrame := f + LEAD, f + LEAD;
      session := Session(f + LEAD, [], []);
    }

    method BeginRunning(now: nat)
      modifies this
      ensures View() == old(View()).(stream := old(StreamView()).(lastInput := now, lastOutput := now, running := true))
    {
      lastInputCompletion, lastOutputCompletion, usbRunning := now, now, true;
    }

    /** Hand every request to its pipe. */
    method Prime(a: StartAnswers)
      modifies this
      ensures View() == old(View()).(stream := Primed(old(StreamView()), a, REQUESTS))
    {
      hide CompleteInput, CompleteOutput, StreamView;
      for index := 0 to REQUESTS
        invariant View() == old(View()).(stream := Primed(old(StreamView()), a, index))
      {
        InputIsochComplete(true, a.input(index));
        OutputIsochComplete(true, a.output(index));
      }
    }

    method StartUSBTransport(a: StartAnswers) returns (ok: bool)
      modifies this
      ensures (View(), ok) == StartTransport(old(View()), a)
    {
      hide Primed;
      if !a.device || !inputMemoryMap || !outputMemoryMap || !a.interfaces {
        return false;
      }
      if !a.ready {
        StopUSBTransport();
        return false;
      }
      AttachPipes();
      var configured := ConfigureClock(a.clock);
      if !configured || a.frame.None? {
        StopUSBTransport();
        return false;
      }
      ScheduleFrom(a.frame.value);
      BeginRunning(a.now);
      Prime(a);
      return true;
    }

    method SetMaps(present: bool)
      modifies this
      ensures View() == old(View()).(inputMap := present, outputMap := present)
    {
      inputMemoryMap, outputMemoryMap := present, present;
    }

    method SetActive(active: bool)
      modifies this
      ensures View() == old(View()).(ioActive := active)
    {
      ioActive := active;
    }

    method StartIO(a: IOAnswers) returns (ok: bool)
      modifies this
      ensures View() == StartedIO(old(View()), a) && ok == View().ioActive
    {
      hide StartTransport, ClockConfigured, View;
      ok := a.host && a.outputMap && a.inputMap;
      if ok {
        SetMaps(true);
        ok := ConfigureClock(a.clock);
      }
      if ok {
        ok := StartUSBTransport(a.transport);
      }
      if ok {
        SetActive(true);
        UpdateTimers();
      } else {
        SetActive(false);
        SetMaps(false);
      }
    }

    method StopIO()
      modifies this
      ensures View() == StoppedIO(old(View()))
    {
      ioActive := false;
      StopUSBTransport();
    }

    method UpdateTimers()
      modifies this
      ensures View() == old(View()).(interval := old(View()).ticks)
    {
      monitorInterval := ticks;
    }

    method IsSupported(rate: real) returns (supported: bool)
      ensures supported == Supported(Whole(rate))
    {
      var rates := [44100, 48000, 88200, 96000];
      supported := false;
      for i := 0 to |rates|
        invariant supported <==> exists k :: 0 <= k < i && rates[k] == Whole(rate)
      {
        supported := supported || Whole(rate) == rates[i];
      }
      assert rates[0] == 44100 && rates[1] == 48000 && rates[2] == 88200 && rates[3] == 96000;
    }

    method SetSampleRate(rate: real)
      modifies this
      ensures View() == WithRate(old(View()), rate)
    {
      sampleRate := rate;
    }

    method ApplySampleRate(rate: real, program: bool, a: RateAnswers) returns (ok: bool)
      modifies this
      ensures View() == ApplyRate(old(View()), rate, program, a) && ok == RateAccepted(old(View()), rate, program, a)
    {
      assert View().clockSource == usbClockSource;
      hide View, Whole, Supported;
      ok := IsSupported(rate);
      if ok && program {
        ok := SetUSBHardwareRate(a.hardware);
      }
      if ok && a.device {
        SetSampleRate(rate);
        ok := a.input && a.output && a.latency;
        if ok {
          UpdateTimers();
        }
      } else {
        ok := false;
      }
    }

    method HandleChangeSampleRate(rate: real, r: Reading, a: RateAnswers) returns (ok: bool)
      modifies this
      ensures View() == ChangedRate(old(View()), rate, r, a) && ok == ChangeAccepted(old(View()), rate, r, a)
    {
      hide ApplyRate, RateAccepted;
      if usbClockSource == INTERNAL {
        ok := ApplySampleRate(rate, true, a);
        return;
      }
      ok := ReadUSBClockStatus(r);
      if !ok || usbClockValid == Unlocked || r.rate != Whole(rate) {
        return false;
      }
      ok := ApplySampleRate(rate, false, a);
    }

    /** The rate after the current one in the table, the first when the current one is not there. */
    method PickNextRate() returns (next: real)
      ensures next == NextRate(sampleRate)
    {
      hide Whole;
      WholeRates();
      var rates := [44100.0, 48000.0, 88200.0, 96000.0];
      for i := 0 to |rates|
        invariant forall k :: 0 <= k < i ==> Whole(sampleRate) != Whole(rates[k])
      {
        if Whole(sampleRate) == Whole(rates[i]) {
          assert i == 0 || i == 1 || i == 2 || i == 3;
          return rates[(i + 1) % |rates|];
        }
      }
      assert Whole(sampleRate) != Whole(rates[0]) && Whole(sampleRate) != Whole(rates[1]);
      assert Whole(sampleRate) != Whole(rates[2]) && Whole(sampleRate) != Whole(rates[3]);
      return 44100.0;
    }

    /** The control application's request: move to the next rate in the circle. */
    method PerformCustomChange(r: Reading, a: RateAnswers) returns (ok: bool)
      modifies this
      ensures var next := NextRate(old(View()).rates.current);
        View() == ChangedRate(old(View()), next, r, a) && ok == ChangeAccepted(old(View()), next, r, a)
    {
      hide ChangedRate, ChangeAccepted, NextRate;
      var next := PickNextRate();
      ok := HandleChangeSampleRate(next, r, a);
    }

    method PerformExternalRateChange(a: RateAnswers) returns (ok: bool)
      requires outstanding > 0
      modifies this
      ensures View() == FollowedRate(old(View()), a)
      ensures ok == RateAccepted(old(View()), old(View()).rates.pending as real, false, a)
    {
      hide ApplyRate;
      var rate := pendingExternalRate;
      pendingExternalRate := 0;
      outstanding, applied := outstanding - 1, applied + [rate];
      ok := ApplySampleRate(rate as real, false, a);
    }

    method AbortExternalRateChange()
      requires outstanding > 0
      modifies this
      ensures View() == AbandonedRate(old(View()))
    {
      pendingExternalRate, outstanding := 0, outstanding - 1;
    }

    /** One watchdog tick; `accepted` is the host's answer to a request for a configuration change. */
    method MonitorAndRecoverTransport(time: nat, r: Reading, accepted: bool, a: StartAnswers)
      modifies this
      ensures View() == Monitored(old(View()), time, r, accepted, a)
    {
      hide StartTransport, Stalled, Supported;
      if !ioActive {
        return;
      }
      var ok := ReadUSBClockStatus(r);
      if ok {
        if usbClockSource != INTERNAL && usbClockValid == Unlocked {
          if usbRunning {
            StopUSBTransport();
          }
          return;
        }
        if r.source != INTERNAL && Supported(r.rate) && r.rate != Whole(sampleRate) && pendingExternalRate == 0 {
          pendingExternalRate := r.rate;
          if accepted {
            outstanding := outstanding + 1;
          } else {
            pendingExternalRate := 0;
          }
        }
      }
      RecoverTransport(time, a);
    }

    /** The second half of a tick: restart a transport that is down or stalled. */
    method RecoverTransport(time: nat, a: StartAnswers)
      modifies this
      ensures View() == Recovered(old(View()), time, a)
    {
      hide StartTransport;
      var threshold := 2 * monitorInterval;
      var inputStalled := time > lastInputCompletion && time - lastInputCompletion > threshold;
      var outputStalled := time > lastOutputCompletion && time - lastOutputCompletion > threshold;
      if usbRunning && !inputStalled && !outputStalled {
        return;
      }
      if usbClockSource != INTERNAL && usbClockValid == Unlocked {
        return;
      }
      if time < nextRecoveryTime {
        return;
      }
      nextRecoveryTime, restarts := time + 2 * monitorInterval, restarts + [time];
      StopUSBTransport();
      var ok := StartUSBTransport(a);
    }
  }
}
