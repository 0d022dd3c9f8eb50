/**
 * The playback "accordion": a fractional frame rate becomes a whole number of frames per microframe, and each
 * playback request is filled from the ring, packet after packet. The accumulator is kept exactly, as a real.
 */
module Playback {
  import opened Words
  import opened RingPlan
  import AudioRing

  const MICROFRAMES_PER_SECOND: nat := 8000
  const PACKETS: nat := 16
  const CHANNELS: nat := 6
  const MAX_FRAMES: nat := 12
  const FASTEST: nat := 96000
  /** Bytes the driver sets aside for each packet of a request. */
  const DRIVER_PACKET: nat := 416

  /** Frames due in one microframe, given the fraction left over from the ones before. */
  function Due(accum: real, rate: nat): nat
    requires accum >= 0.0
  {
    (accum + rate as real / 8000.0).Floor
  }

  function Leftover(accum: real, rate: nat): (rest: real)
    requires accum >= 0.0
    ensures 0.0 <= rest < 1.0
  {
    accum + rate as real / 8000.0 - Due(accum, rate) as real
  }

  function Sum(xs: seq<nat>): nat {
    if xs == [] then 0 else Sum(xs[..|xs| - 1]) + xs[|xs| - 1]
  }

  /** The accumulator after a run of microframes, each at its own rate, starting from a reset. */
  function AccumAfter(rates: seq<nat>): (accum: real)
    ensures 0.0 <= accum < 1.0
  {
    if rates == [] then 0.0 else Leftover(AccumAfter(rates[..|rates| - 1]), rates[|rates| - 1])
  }

  /** The packet sizes, in frames, of a run of microframes from a reset. */
  function Sizes(rates: seq<nat>): (sizes: seq<nat>)
    ensures |sizes| == |rates|
  {
    if rates == [] then []
    else Sizes(rates[..|rates| - 1]) + [Due(AccumAfter(rates[..|rates| - 1]), rates[|rates| - 1])]
  }

  lemma {:induction false} SizesUpTo(rates: seq<nat>, n: nat)
    requires n <= |rates|
    ensures Sizes(rates)[..n] == Sizes(rates[..n])
  {
    if n < |rates| {
      var before := rates[..|rates| - 1];
      SizesUpTo(before, n);
      assert rates[..n] == before[..n];
      assert Sizes(rates)[..n] == Sizes(before)[..n];
    } else {
      assert rates[..n] == rates;
    }
  }

  /** Whatever the rates, the frames sent so far are the whole part of the time elapsed at those rates. */
  lemma {:induction false} TotalIsWholePart(rates: seq<nat>)
    ensures Sum(Sizes(rates)) as real + AccumAfter(rates) == Sum(rates) as real / 8000.0
    ensures Sum(Sizes(rates)) == Sum(rates) / MICROFRAMES_PER_SECOND
  {
    if rates != [] {
      var n := |rates| - 1;
      TotalIsWholePart(rates[..n]);
      assert Sizes(rates)[..n] == Sizes(rates[..n]);
    }
    WholePart(Sum(Sizes(rates)), AccumAfter(rates), Sum(rates));
  }

  lemma WholePart(total: nat, accum: real, rateSum: nat)
    requires 0.0 <= accum < 1.0 && total as real + accum == rateSum as real / 8000.0
    ensures total == rateSum / MICROFRAMES_PER_SECOND
  {
    assert (8000 * total) as real <= rateSum as real < (8000 * total + 8000) as real;
  }

  lemma {:induction false} SumOfConstant(rate: nat, rates: seq<nat>)
    requires forall k :: 0 <= k < |rates| ==> rates[k] == rate
    ensures Sum(rates) == rate * |rates|
  {
    if rates != [] {
      SumOfConstant(rate, rates[..|rates| - 1]);
    }
  }

  lemma {:induction false} SumSplits(xs: seq<nat>, ys: seq<nat>)
    ensures Sum(xs + ys) == Sum(xs) + Sum(ys)
  {
    if ys == [] {
      assert xs + ys == xs;
    } else {
      var n := |ys| - 1;
      SumSplits(xs, ys[..n]);
      assert (xs + ys)[..|xs| + n] == xs + ys[..n];
    }
  }

  lemma SizesOfWindow(before: seq<nat>, window: seq<nat>)
    ensures Sum(Sizes(before + window)[|before|..]) == Sum(Sizes(before + window)) - Sum(Sizes(before))
  {
    hide Sum, Sizes, AccumAfter;
    var all := before + window;
    SizesUpTo(all, |before|);
    assert all[..|before|] == before;
    SumSplits(Sizes(all)[..|before|], Sizes(all)[|before|..]);
    assert Sizes(all) == Sizes(all)[..|before|] + Sizes(all)[|before|..];
  }

  /** Any window of microframes at one rate is within one frame of the ideal amount, whatever came before. */
  lemma WindowNearIdeal(before: seq<nat>, window: seq<nat>, rate: nat)
    requires forall k :: 0 <= k < |window| ==> window[k] == rate
    ensures var sent := Sum(Sizes(before + window)[|before|..]);
      MICROFRAMES_PER_SECOND * (sent - 1) < rate * |window| < MICROFRAMES_PER_SECOND * (sent + 1)
  {
    hide Sum, Sizes, AccumAfter;
    SizesOfWindow(before, window);
    WholePartsDiffer(Sum(before), Sum(window));
    TotalIsWholePart(before);
    TotalIsWholePart(before + window);
    SumSplits(before, window);
    SumOfConstant(rate, window);
  }

  lemma WholePartsDiffer(a: nat, b: nat)
    ensures var d := (a + b) / MICROFRAMES_PER_SECOND - a / MICROFRAMES_PER_SECOND;
      MICROFRAMES_PER_SECOND * (d - 1) < b < MICROFRAMES_PER_SECOND * (d + 1)
  {
  }

  /** The limit the engine puts on one packet. */
  function Clamp(frames: nat): (most: nat)
    ensures most <= 12 && (most == frames || most == 12 < frames)
  {
    if frames > MAX_FRAMES then MAX_FRAMES else frames
  }

  lemma DueFits(accum: real, rate: nat)
    requires 0.0 <= accum < 1.0 && rate <= FASTEST
    ensures Due(accum, rate) <= MAX_FRAMES
  {
  }

  function Repeat(rate: nat, n: nat): (rates: seq<nat>)
    ensures |rates| == n && forall k :: 0 <= k < n ==> rates[k] == rate
  {
    seq(n, k => rate)
  }

  /** The clamp never fires on a steady rate exactly when the rate is at most 96 kHz. */
  lemma ClampNeverFires(rate: nat)
    ensures rate <= FASTEST <==>
      forall n: nat, k :: 0 <= k < n ==> Clamp(Sizes(Repeat(rate, n))[k]) == Sizes(Repeat(rate, n))[k]
  {
    if rate <= FASTEST {
      forall n: nat, k | 0 <= k < n
        ensures Clamp(Sizes(Repeat(rate, n))[k]) == Sizes(Repeat(rate, n))[k]
      {
        SizesFit(Repeat(rate, n), k);
      }
    } else {
      var rates := Repeat(rate, MICROFRAMES_PER_SECOND);
      TotalIsWholePart(rates);
      SumOfConstant(rate, rates);
      if forall k :: 0 <= k < |rates| ==> Sizes(rates)[k] <= MAX_FRAMES {
        SumAtMost(Sizes(rates), MAX_FRAMES);
        assert false;
      }
    }
  }

  lemma {:induction false} SizesFit(rates: seq<nat>, k: nat)
    requires k < |rates| && forall j :: 0 <= j < |rates| ==> rates[j] <= FASTEST
    ensures Sizes(rates)[k] <= MAX_FRAMES
  {
    var n := |rates| - 1;
    if k < n {
      SizesFit(rates[..n], k);
    } else {
      DueFits(AccumAfter(rates[..n]), rates[n]);
    }
  }

  /** The driver lays sixteen packets of 24-byte frames end to end: every offset stays inside its buffer. */
  lemma DriverOffsetsFit(rates: seq<nat>, from: nat, packets: nat)
    requires packets <= PACKETS && from + packets <= |rates|
    requires forall j :: 0 <= j < |rates| ==> rates[j] <= FASTEST
    ensures 24 * Sum(Sizes(rates)[from..from + packets]) <= 416 * packets <= 6656
  {
    hide Sizes, Sum;
    var window := Sizes(rates)[from..from + packets];
    forall k | 0 <= k < |window|
      ensures window[k] <= MAX_FRAMES
    {
      SizesFit(rates, from + k);
    }
    SumAtMost(window, MAX_FRAMES);
    PacketBytes(Sum(window), packets);
  }

  lemma PacketBytes(frames: nat, packets: nat)
    requires frames <= MAX_FRAMES * packets && packets <= PACKETS
    ensures 24 * frames <= DRIVER_PACKET * packets <= DRIVER_PACKET * PACKETS
  {
  }

  lemma {:induction false} SumAtMost(xs: seq<nat>, most: nat)
    requires forall k :: 0 <= k < |xs| ==> xs[k] <= most
    ensures Sum(xs) <= most * |xs|
  {
    if xs != [] {
      SumAtMost(xs[..|xs| - 1], most);
    }
  }

  /** The word nearest full scale times the sample, limited to [-1, 1], on the side of zero. */
  ghost predicate Quantized(sample: real, w: int) {
    && (sample >= 1.0 ==> w == 2147483647)
    && (sample <= -1.0 ==> w == -2147483647)
    && (0.0 <= sample <= 1.0 ==> w as real <= sample * 2147483647.0 < w as real + 1.0)
    && (-1.0 <= sample <= 0.0 ==> w as real - 1.0 < sample * 2147483647.0 <= w as real)
  }

  /** A float sample as the device's signed 32-bit word: limited to [-1, 1], scaled, truncated toward zero. */
  function Pcm(sample: real): (w: int)
    ensures -0x7FFF_FFFF <= w <= 0x7FFF_FFFF && Quantized(sample, w)
  {
    var v := if sample > 1.0 then 1.0 else if sample < -1.0 then -1.0 else sample;
    if v >= 0.0 then (v * 2147483647.0).Floor else -(-v * 2147483647.0).Floor
  }

  /** One packet: the samples that were available, then silence. */
  function PacketWords(samples: seq<real>, frames: nat): (words: seq<int>)
    ensures |words| == CHANNELS * frames
  {
    seq(CHANNELS * frames, j requires 0 <= j => if j < |samples| then Pcm(samples[j]) else 0)
  }

  /** Packets laid end to end. */
  function RequestWords(pulled: seq<seq<real>>, sizes: seq<nat>): seq<int>
    requires |pulled| == |sizes|
  {
    if sizes == [] then []
    else
      var n := |sizes| - 1;
      RequestWords(pulled[..n], sizes[..n]) + PacketWords(pulled[n], sizes[n])
  }

  /** A ring read of `size` frames takes the read position from `start` to `mark`. */
  ghost predicate Advances(written: nat, start: nat, size: nat, mark: nat) {
    && start <= written <= start + RING_FRAMES && size <= MAX_FRAMES
    && mark == start + Drops(written - start, size) + Takes(written - start, size) <= written
  }

  /** One packet of `size` frames is exactly what such a read gives. */
  ghost predicate PulledFrom(accepted: seq<real>, written: nat, start: nat, size: nat, samples: seq<real>, mark: nat) {
    && Advances(written, start, size, mark) && CHANNELS * written <= |accepted|
    && var first := mark - Takes(written - start, size);
    && first >= 0 && samples == accepted[CHANNELS * first..CHANNELS * mark]
  }

  /** Each packet is read from where the packet before it ended; packet f ends at frame marks[f]. */
  ghost predicate PulledInOrder(accepted: seq<real>, written: nat, from: nat, sizes: seq<nat>,
                                pulled: seq<seq<real>>, marks: seq<nat>) {
    && |marks| == |pulled| == |sizes|
    && forall f :: 0 <= f < |pulled| ==>
         PulledFrom(accepted, written, StartOf(from, marks, f), sizes[f], pulled[f], marks[f])
  }

  ghost function StartOf(from: nat, marks: seq<nat>, f: nat): nat
    requires f <= |marks|
  {
    if f == 0 then from else marks[f - 1]
  }

  lemma PulledNext(accepted: seq<real>, written: nat, from: nat, sizes: seq<nat>, pulled: seq<seq<real>>,
                   marks: seq<nat>, size: nat, samples: seq<real>, mark: nat)
    requires |marks| == |pulled| == |sizes|
    ensures PulledInOrder(accepted, written, from, sizes, pulled, marks)
            && PulledFrom(accepted, written, StartOf(from, marks, |marks|), size, samples, mark)
       ==> PulledInOrder(accepted, written, from, sizes + [size], pulled + [samples], marks + [mark])
  {
    hide PulledFrom;
    var sizes', pulled', marks' := sizes + [size], pulled + [samples], marks + [mark];
    if PulledInOrder(accepted, written, from, sizes, pulled, marks)
       && PulledFrom(accepted, written, StartOf(from, marks, |marks|), size, samples, mark)
    {
      forall f | 0 <= f < |pulled'|
        ensures PulledFrom(accepted, written, StartOf(from, marks', f), sizes'[f], pulled'[f], marks'[f])
      {
        assert StartOf(from, marks', f) == StartOf(from, marks, f);
        if f < |pulled| {
          assert PulledFrom(accepted, written, StartOf(from, marks, f), sizes[f], pulled[f], marks[f]);
        }
      }
    }
  }

  /** Where the stream stands after f packets when nothing is skipped between them: it may run out. */
  function Position(start: nat, written: nat, sizes: seq<nat>, f: nat): nat
    requires f <= |sizes|
  {
    if start + Sum(sizes[..f]) < written then start + Sum(sizes[..f]) else written
  }

  /** Where a request begins to play: stale frames are skipped down to the target backlog behind its first packet. */
  function FirstFrame(from: nat, written: nat, size: nat): nat {
    if written > from + size + TARGET_FILL then written - size - TARGET_FILL else from
  }

  /** Only the first packet of a request can skip: packet f covers positions f to f + 1. */
  lemma {:induction false} MarkAt(written: nat, from: nat, sizes: seq<nat>, marks: seq<nat>, f: nat)
    requires |marks| == |sizes| && f < |sizes|
    requires forall g :: 0 <= g < |sizes| ==> Advances(written, StartOf(from, marks, g), sizes[g], marks[g])
    ensures var start := FirstFrame(from, written, sizes[0]);
      var at, next := Position(start, written, sizes, f), Position(start, written, sizes, f + 1);
      && at <= next <= written && marks[f] == next
      && Advances(written, StartOf(from, marks, f), sizes[f], marks[f])
      && marks[f] - Takes(written - StartOf(from, marks, f), sizes[f]) == at
  {
    hide Advances, Drops, Takes, Position, FirstFrame;
    assert Advances(written, StartOf(from, marks, 0), sizes[0], marks[0]);
    assert Advances(written, StartOf(from, marks, f), sizes[f], marks[f]);
    FirstMark(written, from, sizes, marks[0]);
    if f > 0 {
      MarkAt(written, from, sizes, marks, f - 1);
      NextMark(written, from, sizes, f, marks[f]);
    }
  }

  lemma FirstMark(written: nat, from: nat, sizes: seq<nat>, mark: nat)
    requires sizes != [] && Advances(written, from, sizes[0], mark)
    ensures from <= written
    ensures var start := FirstFrame(from, written, sizes[0]);
      var at, next := Position(start, written, sizes, 0), Position(start, written, sizes, 1);
      at <= next <= written && mark == next && mark - Takes(written - from, sizes[0]) == at
  {
    hide Drops, Takes, Position, FirstFrame;
    StartsThere(from, written, sizes);
    PositionStep(FirstFrame(from, written, sizes[0]), written, sizes, 0);
    FirstPull(from, written, sizes[0]);
  }

  lemma NextMark(written: nat, from: nat, sizes: seq<nat>, f: nat, mark: nat)
    requires 0 < f < |sizes| && from <= written
    requires var at := Position(FirstFrame(from, written, sizes[0]), written, sizes, f);
      Advances(written, at, sizes[f], mark)
    ensures var start := FirstFrame(from, written, sizes[0]);
      var at, next := Position(start, written, sizes, f), Position(start, written, sizes, f + 1);
      at <= next <= written && mark == next && mark - Takes(written - at, sizes[f]) == at
  {
    hide Drops, Takes, Position, FirstFrame;
    var start := FirstFrame(from, written, sizes[0]);
    StartsThere(from, written, sizes);
    PositionStep(start, written, sizes, f);
    NoStalePosition(from, written, sizes, f);
    NextPull(written - Position(start, written, sizes, f), sizes[f]);
  }

  /** A request plays the accepted frames without a gap, each packet full until the stream runs out. */
  lemma RequestPlaysNext(accepted: seq<real>, written: nat, from: nat, sizes: seq<nat>,
                         pulled: seq<seq<real>>, marks: seq<nat>, f: nat)
    requires PulledInOrder(accepted, written, from, sizes, pulled, marks) && f < |sizes|
    ensures CHANNELS * written <= |accepted|
    ensures var start := FirstFrame(from, written, sizes[0]);
      var at, next := Position(start, written, sizes, f), Position(start, written, sizes, f + 1);
      marks[f] == next && at <= next <= written && pulled[f] == accepted[CHANNELS * at..CHANNELS * next]
  {
    hide Advances, Position, FirstFrame, Takes;
    forall g | 0 <= g < |sizes|
      ensures Advances(written, StartOf(from, marks, g), sizes[g], marks[g])
    {
      assert PulledFrom(accepted, written, StartOf(from, marks, g), sizes[g], pulled[g], marks[g]);
    }
    assert PulledFrom(accepted, written, StartOf(from, marks, f), sizes[f], pulled[f], marks[f]);
    MarkAt(written, from, sizes, marks, f);
  }

  lemma PositionStep(start: nat, written: nat, sizes: seq<nat>, f: nat)
    requires f < |sizes| && start <= written
    ensures var at, next := Position(start, written, sizes, f), Position(start, written, sizes, f + 1);
      at <= next == if sizes[f] < written - at then at + sizes[f] else written
  {
    assert sizes[..f + 1][..f] == sizes[..f];
    assert Sum(sizes[..f + 1]) == Sum(sizes[..f]) + sizes[f];
  }

  lemma StartsThere(from: nat, written: nat, sizes: seq<nat>)
    requires sizes != [] && from <= written
    ensures var start := FirstFrame(from, written, sizes[0]); from <= start <= written
    ensures Position(FirstFrame(from, written, sizes[0]), written, sizes, 0) == FirstFrame(from, written, sizes[0])
  {
    assert Sum(sizes[..0]) == 0;
  }

  lemma NextPull(left: nat, size: nat)
    requires left <= TARGET_FILL && size <= MAX_FRAMES
    ensures Drops(left, size) == 0 && Takes(left, size) == if size < left then size else left
  {
  }

  lemma FirstPull(from: nat, written: nat, size: nat)
    requires from <= written <= from + RING_FRAMES && size <= MAX_FRAMES
    ensures from + Drops(written - from, size) == FirstFrame(from, written, size)
    ensures Takes(written - from, size) == var left := written - FirstFrame(from, written, size);
      if size < left then size else left
  {
  }

  /** After the first packet no more than the target backlog is left. */
  lemma {:induction false} NoStalePosition(from: nat, written: nat, sizes: seq<nat>, f: nat)
    requires 0 < f <= |sizes| && from <= written
    ensures written - Position(FirstFrame(from, written, sizes[0]), written, sizes, f) <= TARGET_FILL
  {
    hide Position;
    StartsThere(from, written, sizes);
    PositionStep(FirstFrame(from, written, sizes[0]), written, sizes, f - 1);
    if f > 1 {
      NoStalePosition(from, written, sizes, f - 1);
    }
  }

  /** Word j of packet f lies behind the words of all packets before it. */
  lemma {:induction false} WordAt(pulled: seq<seq<real>>, sizes: seq<nat>, f: nat, j: nat)
    requires |pulled| == |sizes| && f < |sizes| && j < CHANNELS * sizes[f]
    ensures |RequestWords(pulled, sizes)| == CHANNELS * Sum(sizes)
    ensures CHANNELS * Sum(sizes[..f]) + j < CHANNELS * Sum(sizes)
    ensures RequestWords(pulled, sizes)[CHANNELS * Sum(sizes[..f]) + j] == PacketWords(pulled[f], sizes[f])[j]
  {
    hide PacketWords;
    var n := |sizes| - 1;
    RequestLength(pulled, sizes);
    RequestLength(pulled[..n], sizes[..n]);
    if f < n {
      assert sizes[..n][..f] == sizes[..f];
      WordAt(pulled[..n], sizes[..n], f, j);
    }
  }

  lemma {:induction false} RequestLength(pulled: seq<seq<real>>, sizes: seq<nat>)
    requires |pulled| == |sizes|
    ensures |RequestWords(pulled, sizes)| == CHANNELS * Sum(sizes)
  {
    hide PacketWords;
    if sizes != [] {
      RequestLength(pulled[..|sizes| - 1], sizes[..|sizes| - 1]);
    }
  }

  /** Channel c of frame i of packet f: the next accepted frame's sample, or silence once the stream runs out. */
  ghost predicate PlaysAt(accepted: seq<real>, written: nat, from: nat, sizes: seq<nat>, data: seq<int>,
                          f: nat, i: nat, c: nat)
    requires f < |sizes|
  {
    var start, word := FirstFrame(from, written, sizes[0]), 6 * Sum(sizes[..f]) + 6 * i + c;
    var frame := Position(start, written, sizes, f) + i;
    && word < |data|
    && if frame < Position(start, written, sizes, f + 1)
       then 6 * frame + c < |accepted| && Quantized(accepted[6 * frame + c], data[word])
       else data[word] == 0
  }

  /** The buffer of a request holds the accepted frames from its first position on, packet after packet. */
  ghost predicate Plays(accepted: seq<real>, written: nat, from: nat, sizes: seq<nat>, data: seq<int>) {
    forall f, i, c :: 0 <= f < |sizes| && 0 <= i < sizes[f] && 0 <= c < 6 ==>
      PlaysAt(accepted, written, from, sizes, data, f, i, c)
  }

  /** Every word of a request is the sample due there, or silence after the end of the stream. */
  lemma RequestSounds(accepted: seq<real>, written: nat, from: nat, sizes: seq<nat>,
                      pulled: seq<seq<real>>, marks: seq<nat>, data: seq<int>)
    requires PulledInOrder(accepted, written, from, sizes, pulled, marks) && RequestWords(pulled, sizes) <= data
    ensures Plays(accepted, written, from, sizes, data)
  {
    hide RequestWords, Position, FirstFrame, PlaysAt;
    forall f, i, c | 0 <= f < |sizes| && 0 <= i < sizes[f] && 0 <= c < 6
      ensures PlaysAt(accepted, written, from, sizes, data, f, i, c)
    {
      WordSounds(accepted, written, from, sizes, pulled, marks, data, f, i, c);
    }
  }

  lemma WordSounds(accepted: seq<real>, written: nat, from: nat, sizes: seq<nat>, pulled: seq<seq<real>>,
                   marks: seq<nat>, data: seq<int>, f: nat, i: nat, c: nat)
    requires PulledInOrder(accepted, written, from, sizes, pulled, marks) && RequestWords(pulled, sizes) <= data
    requires f < |sizes| && i < sizes[f] && c < 6
    ensures PlaysAt(accepted, written, from, sizes, data, f, i, c)
  {
    hide RequestWords, PulledFrom, Position, FirstFrame, Quantized, Sum;
    WordAt(pulled, sizes, f, CHANNELS * i + c);
    RequestPlaysNext(accepted, written, from, sizes, pulled, marks, f);
    var start := FirstFrame(from, written, sizes[0]);
    var at, next := Position(start, written, sizes, f), Position(start, written, sizes, f + 1);
    assert at + i < next <==> CHANNELS * i + c < 6 * (next - at);
    assert at + i < next ==> pulled[f][CHANNELS * i + c] == accepted[CHANNELS * (at + i) + c];
  }

  lemma RequestNext(pulled: seq<seq<real>>, sizes: seq<nat>, samples: seq<real>, frames: nat)
    requires |pulled| == |sizes|
    ensures RequestWords(pulled + [samples], sizes + [frames])
         == RequestWords(pulled, sizes) + PacketWords(samples, frames)
  {
    assert (pulled + [samples])[..|pulled|] == pulled && (sizes + [frames])[..|sizes|] == sizes;
  }

  /** Packet sizes are the engine's limit applied to the latest accordion sizes. */
  ghost predicate Sized(sizes: seq<nat>, rates: seq<nat>) {
    && |sizes| <= |rates|
    && var latest := Sizes(rates)[|rates| - |sizes|..];
    && forall g :: 0 <= g < |sizes| ==> sizes[g] == Clamp(latest[g])
  }

  lemma SizedNext(sizes: seq<nat>, rates: seq<nat>, rate: nat, frames: nat)
    requires Sized(sizes, rates)
    requires frames == Clamp(Sizes(rates + [rate])[|rates|])
    ensures Sized(sizes + [frames], rates + [rate])
  {
    hide Sizes, Clamp;
    var all, before, from := Sizes(rates + [rate]), Sizes(rates), |rates| - |sizes|;
    SizesUpTo(rates + [rate], |rates|);
    assert (rates + [rate])[..|rates|] == rates && all[..|rates|] == before;
    LatestNext(all, before, from);
    var latest, sizes' := all[from..], sizes + [frames];
    assert |rates + [rate]| - |sizes'| == from && |latest| == |sizes'|;
    forall g | 0 <= g < |sizes'|
      ensures sizes'[g] == Clamp(latest[g])
    {
      assert g < |sizes| ==> sizes[g] == Clamp(before[from..][g]);
    }
  }

  lemma LatestNext(all: seq<nat>, before: seq<nat>, from: nat)
    requires from <= |before| && |all| == |before| + 1 && all[..|before|] == before
    ensures all[from..] == before[from..] + [all[|before|]]
  {
    assert all == before + [all[|before|]];
  }

  class Player {
    var accum: real
    /** The rate of every microframe since the accumulator was last reset. */
    ghost var rates: seq<nat>

    ghost predicate Valid()
      reads this
    {
      accum == AccumAfter(rates)
    }

    constructor ()
      ensures Valid() && rates == []
    {
      accum, rates := 0.0, [];
    }

    /** Size the next packet. */
    method NextPacket(rate: nat) returns (frames: nat)
      requires Valid()
      modifies this
      ensures Valid() && rates == old(rates) + [rate]
      ensures Sizes(rates) == Sizes(old(rates)) + [Due(AccumAfter(old(rates)), rate)]
      ensures frames == Clamp(Sizes(rates)[|rates| - 1])
    {
      ghost var all := rates + [rate];
      assert all[..|rates|] == rates;
      accum := accum + rate as real / 8000.0;
      frames := accum.Floor;
      accum := accum - frames as real;
      if frames > MAX_FRAMES {
        frames := MAX_FRAMES;
      }
      rates := all;
    }

    /** Read one packet's frames from the ring. */
    method Pull(ring: AudioRing.Ring, buf: array<real>, frames: nat) returns (got: nat)
      requires ring.Valid() && ring.nch == CHANNELS && buf != ring.buf
      requires frames <= MAX_FRAMES && buf.Length == MAX_FRAMES * CHANNELS
      modifies ring`read, ring`taken, buf
      ensures ring.Valid() && got <= frames
      ensures PulledFrom(ring.accepted, ring.written, old(ring.taken), frames, buf[..CHANNELS * got], ring.taken)
    {
      hide AudioRing.Samples, AudioRing.Recent, Low64, Drops, Takes;
      SixChannels(0, frames, 0);
      got := ring.Read(buf, frames);
      SixChannels(got, ring.taken, ring.written);
      RingPlan.ReadBoundsBacklog(old(ring.written - ring.taken), frames);
    }

    lemma SixChannels(got: nat, taken: nat, written: nat)
      requires got <= taken
      ensures AudioRing.Samples(got, CHANNELS) == CHANNELS * got
      ensures AudioRing.Samples(taken - got, CHANNELS) == CHANNELS * taken - CHANNELS * got
      ensures AudioRing.Samples(taken, CHANNELS) == CHANNELS * taken
      ensures AudioRing.Samples(written, CHANNELS) == CHANNELS * written
    {
    }

    /** Encode one packet at a word offset, silence after the first `count` samples. */
    method Encode(buf: array<real>, count: nat, frames: nat, data: array<int>, off: nat)
      requires count <= buf.Length && count <= CHANNELS * frames && off + CHANNELS * frames <= data.Length
      modifies data
      ensures data[..] == old(data[..off]) + PacketWords(buf[..count], frames) + old(data[off + CHANNELS * frames..])
    {
      hide AudioRing.Overwritten;
      ghost var words := PacketWords(buf[..count], frames);
      ghost var before := data[..];
      AudioRing.NothingOverwritten(before, off, words);
      for j := 0 to CHANNELS * frames
        invariant data[..] == AudioRing.Overwritten(before, off, words, j)
      {
        var v := if j < count then buf[j] else 0.0;
        assert words[j] == Pcm(v);
        AudioRing.OverwrittenNext(before, off, words, j);
        data[off + j] := Pcm(v);
      }
      AudioRing.AllOverwritten(before, off, words);
    }

    /**
     * Fill one playback request: sixteen packets sized for the current rate, contiguous in the buffer. The sizes are
     * the accordion's, each packet is exactly what a ring read of its size gives, and the words are those samples.
     */
    method ArmOut(ring: AudioRing.Ring, rate: nat, data: array<int>, counts: array<nat>)
        returns (ghost pulled: seq<seq<real>>, ghost marks: seq<nat>, ghost sizes: seq<nat>)
      requires Valid() && ring.Valid() && ring.nch == CHANNELS
      requires counts.Length == 16 && data.Length == 2048
      modifies this, ring`read, ring`taken, data, counts
      ensures Valid() && ring.Valid()
      ensures rates == old(rates) + Repeat(rate, PACKETS)
      ensures |sizes| == 16 && Sized(sizes, rates)
      ensures forall f :: 0 <= f < 16 ==> counts[f] == 24 * sizes[f]
      ensures |pulled| == 16 && PulledInOrder(ring.accepted, ring.written, old(ring.taken), sizes, pulled, marks)
      ensures ring.taken == marks[15] && RequestWords(pulled, sizes) <= data[..]
      ensures Plays(ring.accepted, ring.written, old(ring.taken), sizes, data[..])
    {
      hide Sized, PulledInOrder, PulledFrom, RequestWords, PacketWords, Sizes, AccumAfter, Plays;
      var buf := new real[MAX_FRAMES * CHANNELS];
      var off := 0;
      pulled, marks, sizes := [], [], [];
      NothingPulled(ring.accepted, ring.written, ring.taken, rates);
      for f := 0 to PACKETS
        invariant Valid() && ring.Valid()
        invariant rates == old(rates) + Repeat(rate, f)
        invariant |sizes| == |pulled| == |marks| == f && 0 <= off <= CHANNELS * MAX_FRAMES * f
        invariant Sized(sizes, rates)
        invariant forall g :: 0 <= g < f ==> counts[g] == 4 * CHANNELS * sizes[g]
        invariant PulledInOrder(ring.accepted, ring.written, old(ring.taken), sizes, pulled, marks)
        invariant ring.taken == StartOf(old(ring.taken), marks, f)
        invariant data[..off] == RequestWords(pulled, sizes)
      {
        ghost var before := rates;
        var nf := NextPacket(rate);
        SizedNext(sizes, before, rate, nf);
        var got := Pull(ring, buf, nf);
        ghost var samples := buf[..CHANNELS * got];
        PulledNext(ring.accepted, ring.written, old(ring.taken), sizes, pulled, marks, nf, samples, ring.taken);
        Encode(buf, CHANNELS * got, nf, data, off);
        RequestNext(pulled, sizes, samples, nf);
        counts[f] := nf * CHANNELS * 4;
        pulled, marks, sizes := pulled + [samples], marks + [ring.taken], sizes + [nf];
        off := off + CHANNELS * nf;
      }
      RequestSounds(ring.accepted, ring.written, old(ring.taken), sizes, pulled, marks, data[..]);
    }
  }

  lemma NothingPulled(accepted: seq<real>, written: nat, from: nat, rates: seq<nat>)
    ensures PulledInOrder(accepted, written, from, [], [], []) && Sized([], rates) && RequestWords([], []) == []
  {
  }
}
