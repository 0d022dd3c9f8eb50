/** From the USB bytes to the reader of the ring: every frame delivered is one 32-byte unit of one session. */
module CapturePath {
  import opened Words
  import opened RingPlan
  import opened AudioRing
  import opened CaptureSink
  import opened CaptureParser
  import Playback

  /** Eight samples that are the words of one whole unit of one session. */
  ghost predicate IsUnit(sessions: seq<seq<Byte>>, samples: seq<real>) {
    exists j, k: nat ::
      0 <= j < |sessions| && 32 * k + 32 <= |sessions[j]| && samples == Fractions(FrameAt(sessions[j], k))
  }

  /** Frame i of the ring is the frame numbered kept[i], whatever was dropped before it. */
  lemma KeptFrame(emitted: seq<seq<int>>, kept: seq<nat>, i: nat)
    requires AllFrames(emitted) && Ascending(kept, |emitted|) && i < |kept|
    ensures var all := Published(emitted, kept);
      LANES * i + LANES <= |all| && all[LANES * i..LANES * i + LANES] == Fractions(emitted[kept[i]])
  {
    hide Published;
    var all := Published(emitted, kept);
    PublishedLength(emitted, kept);
    forall c: nat | c < LANES
      ensures all[LANES * i + c] == Fraction(emitted[kept[i]][c])
    {
      PublishedAt(emitted, kept, i, c);
    }
  }

  /** Every frame in the ring is one unit of one session. */
  lemma KeptFrameIsUnit(sessions: seq<seq<Byte>>, kept: seq<nat>, i: nat)
    requires var emitted := SessionFrames(sessions); AllFrames(emitted) && Ascending(kept, |emitted|) && i < |kept|
    ensures IsUnit(sessions, Fractions(SessionFrames(sessions)[kept[i]]))
  {
    hide FrameAt, SessionFrames, Fractions;
    NoFrameSpansARestart(sessions, kept[i]);
  }

  /**
   * When the feed has dropped nothing, and no restart came in between, channel c of frame i of the ring's stream is
   * the little-endian word at byte 32i + 4c of what was fed.
   */
  lemma NothingLost(parser: Parser, i: nat, c: nat)
    requires parser.Valid() && parser.sessions == [] && NothingDropped(parser.sink.Fed())
    requires i < |parser.fed| / 32 && c < LANES
    ensures var accepted := parser.sink.ring.accepted;
      && |accepted| == LANES * (|parser.fed| / 32)
      && accepted[LANES * i + c] == Fraction(Le32(parser.fed, 32 * i + 4 * c))
  {
    hide Le32, Published, Fraction;
    parser.EmittedAll();
    var emitted, kept := parser.sink.emitted, parser.sink.kept;
    assert emitted == Frames(parser.fed);
    PublishedLength(emitted, kept);
    PublishedAt(emitted, kept, i, c);
  }

  /** A captured word that is played again comes out one step nearer to zero, and zero as zero. */
  lemma PlayedAgain(word: Int32)
    ensures -1.0 <= Fraction(word) < 1.0
    ensures Playback.Pcm(Fraction(word)) == if word > 0 then word - 1 else if word < 0 then word + 1 else 0
  {
    var sample := Fraction(word);
    assert sample * 2147483647.0 == word as real - sample;
    if word > 0 {
      assert 0.0 < sample < 1.0;
      assert (word as real - sample).Floor == word - 1;
    } else if word < 0 {
      assert 0.0 < -sample <= 1.0;
      assert (sample - word as real).Floor == -(word as int) - 1;
    }
  }

  /** The first n frames of a buffer are the units numbered kept[from], kept[from + 1], ... of the sessions. */
  ghost predicate Delivered(sessions: seq<seq<Byte>>, kept: seq<nat>, dst: seq<real>, from: nat, n: nat) {
    var units := SessionFrames(sessions);
    && from + n <= |kept| && LANES * n <= |dst|
    && forall i :: 0 <= i < n ==>
         && kept[from + i] < |units| && dst[LANES * i..LANES * i + LANES] == Fractions(units[kept[from + i]])
         && IsUnit(sessions, dst[LANES * i..LANES * i + LANES])
  }

  lemma DeliversUnits(sessions: seq<seq<Byte>>, kept: seq<nat>, dst: seq<real>, from: nat, n: nat)
    requires var units := SessionFrames(sessions); AllFrames(units) && Ascending(kept, |units|)
    requires from + n <= |kept| && LANES * n <= |dst|
    requires LANES * (from + n) <= |Published(SessionFrames(sessions), kept)|
    requires dst[..LANES * n] == Published(SessionFrames(sessions), kept)[LANES * from..LANES * (from + n)]
    ensures Delivered(sessions, kept, dst, from, n)
  {
    hide Published, FrameAt, IsUnit, SessionFrames, Fractions;
    var units := SessionFrames(sessions);
    forall i | 0 <= i < n
      ensures dst[LANES * i..LANES * i + LANES] == Fractions(units[kept[from + i]])
      ensures IsUnit(sessions, dst[LANES * i..LANES * i + LANES])
    {
      KeptFrame(units, kept, from + i);
      KeptFrameIsUnit(sessions, kept, from + i);
      Window(dst, Published(units, kept), LANES * from, LANES * n, LANES * i);
    }
  }

  /**
   * Read from the ring that a parser feeds: as many frames as the backlog allows, each the unit with the number kept
   * at that place of the ring's stream.
   */
  method ReadCapture(parser: Parser, dst: array<real>, frames: Word32) returns (n: Word32)
    requires parser.Valid() && dst != parser.sink.ring.buf && Samples(frames, LANES) <= dst.Length
    modifies parser.sink.ring`read, parser.sink.ring`taken, dst
    ensures parser.Valid() && LANES * n <= dst.Length && dst[LANES * n..] == old(dst[LANES * n..])
    ensures var ring := parser.sink.ring;
      && n == Takes(old(ring.written - ring.taken), frames) <= ring.taken
      && ring.taken == old(ring.taken) + Drops(old(ring.written - ring.taken), frames) + n
      && WasRead(old(parser.sink.Fed()), parser.sink.Fed())
      && Delivered(parser.sessions + [parser.fed], parser.sink.kept, dst[..], ring.taken - n, n)
  {
    hide Published, Recent, Frames, SessionFrames, Samples, Drops, Takes, Delivered;
    var ring := parser.sink.ring;
    ReadBoundsBacklog(ring.written - ring.taken, frames);
    n := ring.Read(dst, frames);
    ghost var from := ring.taken - n;
    AllSessions(parser.sessions, parser.fed);
    parser.EmittedAll();
    FrameSamples(from, n, ring.written);
    DeliversUnits(parser.sessions + [parser.fed], parser.sink.kept, dst[..], from, n);
  }

  lemma AllSessions(sessions: seq<seq<Byte>>, fed: seq<Byte>)
    ensures SessionFrames(sessions + [fed]) == SessionFrames(sessions) + Frames(fed)
  {
    hide Frames;
    assert (sessions + [fed])[..|sessions|] == sessions;
  }

  lemma Window(dst: seq<real>, accepted: seq<real>, from: nat, len: nat, at: nat)
    requires from + len <= |accepted| && len <= |dst| && at + LANES <= len && dst[..len] == accepted[from..from + len]
    ensures dst[at..at + LANES] == accepted[from + at..from + at + LANES]
  {
    var part, whole := dst[at..at + LANES], accepted[from + at..from + at + LANES];
    forall k | 0 <= k < LANES
      ensures part[k] == whole[k]
    {
      assert dst[..len][at + k] == accepted[from..from + len][at + k];
    }
  }

  lemma FrameSamples(from: nat, n: nat, written: nat)
    ensures Samples(from, LANES) == LANES * from && Samples(n, LANES) == LANES * n
    ensures Samples(from + n, LANES) == LANES * (from + n) && Samples(written, LANES) == LANES * written
  {
  }
}
