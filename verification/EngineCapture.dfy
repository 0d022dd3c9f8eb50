/**
 * The capture callbacks as a whole: the engine's state decides what of a completed request reaches the parser, and a
 * restart of the streams is a restart of the parser.
 */
module EngineCapture {
  import opened Words
  import opened StreamEngine
  import opened CaptureParser

  /** The byte streams of the sessions that are over, and of the one that is going on. */
  datatype Parsed = Parsed(sessions: seq<seq<Byte>>, fed: seq<Byte>)

  /** What one event adds: a good completion outside a drain feeds its payload, and a restart begins a new session. */
  function ParsedNext(e: Engine, ev: Event, payload: seq<Byte>, p: Parsed): Parsed {
    if ev.CaptureDone? && ev.ok && !e.draining then p.(fed := p.fed + payload)
    else if Next(e, ev).restarts > e.restarts then Parsed(p.sessions + [p.fed], [])
    else p
  }

  /** What a run of events adds, each with the payload of its request. */
  function ParsedAfter(states: seq<Engine>, events: seq<Event>, payloads: seq<seq<Byte>>, p: Parsed): Parsed
    requires |states| == |events| + 1 == |payloads| + 1
  {
    if events == [] then p
    else
      var n := |events| - 1;
      ParsedNext(states[n], events[n], payloads[n], ParsedAfter(states[..n + 1], events[..n], payloads[..n], p))
  }

  /** While a drain goes on nothing reaches the parser, whatever the completed requests hold. */
  lemma {:induction false} NothingFedWhileDraining(states: seq<Engine>, events: seq<Event>, payloads: seq<seq<Byte>>,
                                                   p: Parsed)
    requires Stretch(states, events) && |payloads| == |events| && states[0].draining
    requires Completions(events) < states[0].inFlight
    ensures ParsedAfter(states, events, payloads, p) == p
  {
    if events != [] {
      var n := |events| - 1;
      NothingFedWhileDraining(states[..n + 1], events[..n], payloads[..n], p);
      DrainLastsItsCount(states[..n + 1], events[..n]);
      DrainLastsItsCount(states, events);
    }
  }

  /** Over every stretch there are as many new sessions as restarts: none is torn, none is joined to the next. */
  lemma {:induction false} OneSessionPerRestart(states: seq<Engine>, events: seq<Event>, payloads: seq<seq<Byte>>,
                                                p: Parsed)
    requires Stretch(states, events) && |payloads| == |events|
    ensures |ParsedAfter(states, events, payloads, p).sessions| - |p.sessions|
         == states[|events|].restarts - states[0].restarts
    ensures p.sessions <= ParsedAfter(states, events, payloads, p).sessions
  {
    hide Next;
    if events != [] {
      var n := |events| - 1;
      OneSessionPerRestart(states[..n + 1], events[..n], payloads[..n], p);
      StretchKeepsInv(states, events, n);
      RestartsByOne(states[n], events[n]);
    }
  }

  /** The payloads of the good capture completions of a stretch that came outside any drain, in order. */
  ghost function Arrived(states: seq<Engine>, events: seq<Event>, payloads: seq<seq<Byte>>): seq<Byte>
    requires |states| == |events| + 1 == |payloads| + 1
  {
    if events == [] then []
    else
      var n := |events| - 1;
      Arrived(states[..n + 1], events[..n], payloads[..n])
      + if events[n].CaptureDone? && events[n].ok && !states[n].draining then payloads[n] else []
  }

  function Joined(sessions: seq<seq<Byte>>): seq<Byte> {
    if sessions == [] then [] else Joined(sessions[..|sessions| - 1]) + sessions[|sessions| - 1]
  }

  lemma ParsedNextConserves(e: Engine, ev: Event, payload: seq<Byte>, p: Parsed)
    requires Inv(e) && Enabled(e, ev)
    ensures var n := ParsedNext(e, ev, payload, p);
      && Joined(n.sessions) + n.fed
         == Joined(p.sessions) + p.fed + (if ev.CaptureDone? && ev.ok && !e.draining then payload else [])
      && (Next(e, ev).restarts > e.restarts ==> n.fed == [])
  {
    hide Next;
    RestartsByOne(e, ev);
    assert (p.sessions + [p.fed])[..|p.sessions|] == p.sessions;
  }

  /** Nothing that arrives is lost, repeated or moved: the sessions joined, the current one last, grow by exactly the
      payloads that came outside drains, and a restart leaves the new session empty. */
  lemma {:induction false} PayloadsAreConserved(states: seq<Engine>, events: seq<Event>, payloads: seq<seq<Byte>>,
                                                p: Parsed)
    requires Stretch(states, events) && |payloads| == |events|
    ensures var after := ParsedAfter(states, events, payloads, p);
      && Joined(after.sessions) + after.fed == Joined(p.sessions) + p.fed + Arrived(states, events, payloads)
      && (events != [] && states[|events|].restarts > states[|events| - 1].restarts ==> after.fed == [])
  {
    hide Next, Joined, ParsedNext, Inv, Enabled;
    if events == [] {
      assert Joined(p.sessions) + p.fed + [] == Joined(p.sessions) + p.fed;
    } else {
      var n := |events| - 1;
      PayloadsAreConserved(states[..n + 1], events[..n], payloads[..n], p);
      StretchKeepsInv(states, events, n);
      var before := ParsedAfter(states[..n + 1], events[..n], payloads[..n], p);
      ParsedNextConserves(states[n], events[n], payloads[n], before);
    }
  }

  /** An event restarts the streams exactly when it ends a drain. */
  lemma RestartsByOne(e: Engine, ev: Event)
    requires Inv(e) && Enabled(e, ev)
    ensures var n := Next(e, ev);
      n.restarts == if e.draining && !n.draining then e.restarts + 1 else e.restarts
  {
    if e.draining {
      DrainStep(e, ev);
    }
  }

  class CaptureEngine {
    const engine: StreamingEngine
    const parser: Parser

    ghost predicate Valid()
      reads this, engine, parser, parser.carry, parser.lanes, parser.sink, parser.sink.ring, parser.sink.ring.buf
    {
      Inv(engine.View()) && parser.Valid()
    }

    ghost function State(): Parsed
      reads this, parser
    {
      Parsed(parser.sessions, parser.fed)
    }

    constructor (engine: StreamingEngine, parser: Parser)
      requires Inv(engine.View()) && parser.Valid()
      ensures Valid() && this.engine == engine && this.parser == parser
    {
      this.engine, this.parser := engine, parser;
    }

    /** A capture request has completed. The parser's part of a restart is independent of the re-arming around it. */
    method InDone(i: nat, ok: bool, sub: Submissions, data: array<Byte>, counts: array<int>, stride: nat)
      requires Valid() && i in engine.armedIn && data != parser.carry && counts != parser.lanes
      requires counts.Length == 16 && stride <= 512 && Fits(data[..], counts[..], stride)
      modifies engine, parser, parser.carry, parser.lanes, parser.sink, parser.sink.ring, parser.sink.ring.buf
      ensures Valid() && engine.View() == Next(old(engine.View()), CaptureDone(i, ok, sub))
      ensures State() == ParsedNext(old(engine.View()), CaptureDone(i, ok, sub),
                                    old(Payload(data[..], counts[..], stride, counts.Length)), old(State()))
    {
      hide Inv, Next, Payload, Fits;
      RestartsByOne(engine.View(), CaptureDone(i, ok, sub));
      ghost var before := engine.View();
      var draining := engine.rateState != 0;
      if !draining && ok {
        parser.ParseRequest(data, counts, stride);
      }
      engine.InDone(i, ok, sub);
      if draining && engine.rateState == 0 {
        parser.Restart();
      }
    }

    /** A playback request has completed. */
    method OutDone(i: nat, sub: Submissions)
      requires Valid() && i in engine.armedOut
      modifies engine, parser
      ensures Valid() && engine.View() == Next(old(engine.View()), PlaybackDone(i, sub))
      ensures State() == ParsedNext(old(engine.View()), PlaybackDone(i, sub), [], old(State()))
    {
      hide Inv, Next;
      RestartsByOne(engine.View(), PlaybackDone(i, sub));
      var draining := engine.rateState != 0;
      engine.OutDone(i, sub);
      if draining && engine.rateState == 0 {
        parser.Restart();
      }
    }
  }
}
