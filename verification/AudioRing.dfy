/**
 * The shared audio ring as the code manipulates it: one interleaved sample array per direction, two wrapping
 * counters, copies split where the array ends. `accepted` and `taken` record, without bound, what went in and
 * how many frames have left.
 */
module AudioRing {
  import opened Words
  import opened RingPlan

  /** A buffer with the first j elements of some data written at an offset. */
  function Overwritten<T>(before: seq<T>, off: nat, data: seq<T>, j: nat): (after: seq<T>)
    requires off + |data| <= |before| && j <= |data|
    ensures |after| == |before|
  {
    before[..off] + data[..j] + before[off + j..]
  }

  lemma NothingOverwritten<T>(before: seq<T>, off: nat, data: seq<T>)
    requires off + |data| <= |before|
    ensures Overwritten(before, off, data, 0) == before
  {
  }

  lemma OverwrittenNext<T>(before: seq<T>, off: nat, data: seq<T>, j: nat)
    requires off + |data| <= |before| && j < |data|
    ensures Overwritten(before, off, data, j)[off + j := data[j]] == Overwritten(before, off, data, j + 1)
  {
  }

  lemma AllOverwritten<T>(before: seq<T>, off: nat, data: seq<T>)
    requires off + |data| <= |before|
    ensures Overwritten(before, off, data, |data|) == before[..off] + data + before[off + |data|..]
  {
    assert data[..|data|] == data;
  }

  /** Copy `count` samples of `src` from `from` to `dst` at `to`. */
  method Memcpy(dst: array<real>, to: nat, src: array<real>, from: nat, count: nat)
    requires dst != src && to + count <= dst.Length && from + count <= src.Length
    modifies dst
    ensures dst[..] == old(dst[..to]) + src[from..from + count] + old(dst[to + count..])
  {
    hide Overwritten;
    ghost var data, before := src[from..from + count], dst[..];
    NothingOverwritten(before, to, data);
    for k := 0 to count
      invariant dst[..] == Overwritten(before, to, data, k) && src[from..from + count] == data
    {
      assert src[from + k] == data[k];
      OverwrittenNext(before, to, data, k);
      dst[to + k] := src[from + k];
    }
    AllOverwritten(before, to, data);
  }

  /** The two halves of a copy into a circular buffer; the second starts over at index 0. */
  method StoreSamples(buf: array<real>, at: nat, src: array<real>, head: nat, tail: nat)
    requires src != buf && at + head <= buf.Length && head + tail <= src.Length && head + tail <= buf.Length
    requires tail > 0 ==> at + head == buf.Length
    modifies buf
    ensures buf[..] == Stored(old(buf[..]), at, src[..head + tail])
  {
    ghost var data, before := src[..head + tail], buf[..];
    assert data[..head] == src[0..head] && data[head..] == src[head..head + tail];
    Memcpy(buf, at, src, 0, head);
    if tail > 0 {
      Memcpy(buf, 0, src, head, tail);
    }
    StoredInTwo(before, at, data, head);
  }

  lemma StoredInTwo(ring: seq<real>, at: nat, data: seq<real>, head: nat)
    requires head <= |data| <= |ring| && at + head <= |ring| && (|data| > head ==> at + head == |ring|)
    ensures var one := ring[..at] + data[..head] + ring[at + head..]; var tail := |data| - head;
      Stored(ring, at, data) == data[head..] + one[tail..]
  {
    var one, tail := ring[..at] + data[..head] + ring[at + head..], |data| - head;
    assert one[tail..] == ring[tail..at] + data[..head] + ring[at + head..];
  }

  /** The two halves of a copy out of a circular buffer. */
  method FetchSamples(buf: array<real>, at: nat, dst: array<real>, head: nat, tail: nat)
    requires dst != buf && at + head <= buf.Length && head + tail <= dst.Length && head + tail <= buf.Length
    requires tail > 0 ==> at + head == buf.Length
    modifies dst
    ensures dst[..] == Fetched(buf[..], at, head + tail) + old(dst[head + tail..])
  {
    Memcpy(dst, 0, buf, at, head);
    if tail > 0 {
      Memcpy(dst, head, buf, 0, tail);
    }
  }

  /** What a copy of `data` into a circular buffer at `at` makes of its contents. */
  function Stored(ring: seq<real>, at: nat, data: seq<real>): (r: seq<real>)
    requires at <= |ring| && |data| <= |ring|
    ensures |r| == |ring|
  {
    var first := if |data| <= |ring| - at then |data| else |ring| - at;
    data[first..] + ring[|data| - first..at] + data[..first] + ring[at + first..]
  }

  /** What a copy of `count` samples out of a circular buffer from `at` returns. */
  function Fetched(ring: seq<real>, at: nat, count: nat): (r: seq<real>)
    requires at <= |ring| && count <= |ring|
    ensures |r| == count
  {
    var first := if count <= |ring| - at then count else |ring| - at;
    ring[at..at + first] + ring[..count - first]
  }

  /** Index that lies `age` samples behind index `at`. */
  function Behind(at: nat, age: nat, n: nat): (i: nat)
    requires at < n && age <= n
    ensures i < n || age == 0
  {
    if age <= at then at - age else at + n - age
  }

  /** Index that lies `count` samples ahead of index `at`. */
  function Ahead(at: nat, count: nat, n: nat): (i: nat)
    requires at < n && count <= n
    ensures i < n
  {
    if at + count < n then at + count else at + count - n
  }

  /** Behind the write index the buffer still holds the most recent samples ever accepted, one capacity deep. */
  ghost predicate Recent(ring: seq<real>, at: nat, accepted: seq<real>)
    requires at < |ring|
  {
    forall age :: 1 <= age <= |ring| && age <= |accepted| ==>
      ring[Behind(at, age, |ring|)] == accepted[|accepted| - age]
  }

  lemma StoreKeepsRecent(ring: seq<real>, at: nat, accepted: seq<real>, data: seq<real>)
    requires at < |ring| && |data| <= |ring|
    requires Recent(ring, at, accepted)
    ensures Recent(Stored(ring, at, data), Ahead(at, |data|, |ring|), accepted + data)
  {
    var n, at' := |ring|, Ahead(at, |data|, |ring|);
    var accepted' := accepted + data;
    forall age | 1 <= age <= n && age <= |accepted'|
      ensures Stored(ring, at, data)[Behind(at', age, n)] == accepted'[|accepted'| - age]
    {
      if age > |data| {
        assert Behind(at', age, n) == Behind(at, age - |data|, n);
        assert ring[Behind(at, age - |data|, n)] == accepted[|accepted| - (age - |data|)];
      }
    }
  }

  lemma FetchReturnsRecent(ring: seq<real>, at: nat, accepted: seq<real>, age: nat, count: nat)
    requires at < |ring| && count <= age <= |ring| && age <= |accepted| && 0 < age
    requires Recent(ring, at, accepted)
    ensures Fetched(ring, Behind(at, age, |ring|), count) == accepted[|accepted| - age..|accepted| - age + count]
  {
    var n, from := |ring|, Behind(at, age, |ring|);
    forall k | 0 <= k < count
      ensures Fetched(ring, from, count)[k] == accepted[|accepted| - age + k]
    {
      assert ring[Behind(at, age - k, n)] == accepted[|accepted| - (age - k)];
    }
  }

  /** Samples in a number of interleaved frames. */
  function Samples(frames: nat, nch: nat): nat {
    frames * nch
  }

  /** Frame counts scale to sample counts. */
  lemma Scale(a: nat, b: nat, n: nat)
    ensures Samples(0, n) == 0 && Samples(1, n) == n
    ensures Samples(a + b, n) == Samples(a, n) + Samples(b, n)
    ensures a <= b ==> Samples(a, n) <= Samples(b, n)
    ensures a < b && n > 0 ==> Samples(a, n) < Samples(b, n)
  {
    if a <= b {
      assert b * n == a * n + (b - a) * n;
      assert b > a && n > 0 ==> (b - a) * n > 0;
    }
  }

  /** Turning a frame counter into a ring index keeps step with the samples between two counters. */
  lemma IndexAhead(count: nat, n: nat, nch: nat)
    requires 0 < nch && n <= RING_FRAMES
    ensures Samples(count % RING_FRAMES, nch) < Samples(RING_FRAMES, nch)
    ensures Samples(n, nch) <= Samples(RING_FRAMES, nch)
    ensures Samples((count + n) % RING_FRAMES, nch)
         == Ahead(Samples(count % RING_FRAMES, nch), Samples(n, nch), Samples(RING_FRAMES, nch))
  {
    hide Samples;
    var idx := count % RING_FRAMES;
    Scale(idx, n, nch);
    Scale(idx, RING_FRAMES, nch);
    Scale(n, RING_FRAMES, nch);
    if idx + n < RING_FRAMES {
      assert (count + n) % RING_FRAMES == idx + n;
      Scale(idx + n, RING_FRAMES, nch);
    } else {
      assert (count + n) % RING_FRAMES == idx + n - RING_FRAMES;
      Scale(idx + n - RING_FRAMES, RING_FRAMES, nch);
    }
  }

  lemma IndexBehind(count: nat, n: nat, nch: nat)
    requires 0 < nch && 0 < n <= RING_FRAMES && n <= count
    ensures Samples(count % RING_FRAMES, nch) < Samples(RING_FRAMES, nch)
    ensures 0 < Samples(n, nch) <= Samples(RING_FRAMES, nch)
    ensures Samples((count - n) % RING_FRAMES, nch)
         == Behind(Samples(count % RING_FRAMES, nch), Samples(n, nch), Samples(RING_FRAMES, nch))
  {
    hide Samples;
    var idx := count % RING_FRAMES;
    Scale(idx, RING_FRAMES, nch);
    Scale(n, RING_FRAMES, nch);
    Scale(0, n, nch);
    Scale(idx, n, nch);
    if n <= idx {
      assert (count - n) % RING_FRAMES == idx - n;
      Scale(idx - n, n, nch);
    } else {
      assert (count - n) % RING_FRAMES == idx + RING_FRAMES - n;
      Scale(idx + RING_FRAMES - n, n, nch);
      Scale(idx, RING_FRAMES, nch);
    }
  }

  /** Largest magnitude of channel `c` over the frames [from, to) of an interleaved stream. */
  function Peak(stream: seq<real>, nch: nat, c: nat, from: nat, to: nat): (peak: real)
    requires c < nch && from <= to && Samples(to, nch) <= |stream|
    ensures peak >= 0.0
  {
    if from == to then 0.0
    else
      Scale(to - 1, 1, nch);
      Louder(Peak(stream, nch, c, from, to - 1), stream[Samples(to - 1, nch) + c])
  }

  function Louder(peak: real, sample: real): real {
    var v := if sample < 0.0 then -sample else sample;
    if v > peak then v else peak
  }

  /** The peak bounds every sample in the window, and some sample attains it unless all are silent. */
  lemma {:induction false} PeakIsMaximum(stream: seq<real>, nch: nat, c: nat, from: nat, to: nat)
    requires c < nch && from <= to && Samples(to, nch) <= |stream|
    ensures forall f: nat :: from <= f < to ==> SampleAt(stream, nch, c, f) <= Peak(stream, nch, c, from, to)
    ensures forall f: nat :: from <= f < to ==> -SampleAt(stream, nch, c, f) <= Peak(stream, nch, c, from, to)
    ensures Peak(stream, nch, c, from, to) == 0.0
         || exists f: nat :: from <= f < to
              && Peak(stream, nch, c, from, to) in {SampleAt(stream, nch, c, f), -SampleAt(stream, nch, c, f)}
  {
    if from < to {
      Scale(to - 1, 1, nch);
      PeakIsMaximum(stream, nch, c, from, to - 1);
      assert SampleAt(stream, nch, c, to - 1) == stream[Samples(to - 1, nch) + c];
    }
  }

  ghost function SampleAt(stream: seq<real>, nch: nat, c: nat, f: nat): real {
    if Samples(f, nch) + c < |stream| then stream[Samples(f, nch) + c] else 0.0
  }

  /** Frames a meter scans, given the raw write counter. */
  function PeekWindow(counter: Word64, lookback: Word32): nat {
    var n := if lookback > counter then counter else lookback;
    if n > RING_FRAMES then RING_FRAMES else n
  }

  /**
   * The meter covers the documented window (as many frames as asked, as were ever written and as fit)
   * exactly until the 64-bit counter wraps, and after that whenever the wrapped counter has grown past the window.
   */
  lemma PeekWindowIsDocumented(written: nat, lookback: Word32)
    ensures (var least := if lookback < RING_FRAMES then lookback else RING_FRAMES;
             PeekWindow(Low64(written), lookback) == (if written < least then written else least)
             <==> written < U64 || least <= Low64(written))
  {
  }

  /** Ten frames after the counter wraps the meter scans ten frames, not the 2048 asked for and written. */
  lemma WrappedCounterShrinksWindow()
    ensures PeekWindow(Low64(U64 + 10), 2048) == 10
  {
  }

  class Ring {
    const nch: nat
    const buf: array<real>
    var write: Word64
    var read: Word64
    ghost var accepted: seq<real>
    ghost var written: nat
    ghost var taken: nat

    ghost predicate Valid()
      reads this, buf
    {
      && 0 < nch
      && buf.Length == Samples(RING_FRAMES, nch) > 0
      && |accepted| == Samples(written, nch)
      && taken <= written <= taken + RING_FRAMES
      && write == Low64(written) && read == Low64(taken)
      && Samples(written % RING_FRAMES, nch) < buf.Length
      && Recent(buf[..], Samples(written % RING_FRAMES, nch), accepted)
    }

    constructor (nch: nat)
      requires 0 < nch
      ensures Valid() && fresh(buf) && this.nch == nch
      ensures accepted == [] && written == 0 && taken == 0
    {
      this.nch := nch;
      Scale(0, RING_FRAMES, nch);
      buf := new real[Samples(RING_FRAMES, nch)];
      write, read := 0, 0;
      accepted, written, taken := [], 0, 0;
    }

    /** Copy whole frames in at a counter, in one piece or two. */
    method CopyIn(counter: Word64, src: array<real>, frames: nat)
      requires src != buf && 0 < nch && buf.Length == Samples(RING_FRAMES, nch)
      requires frames <= RING_FRAMES && Samples(frames, nch) <= src.Length
      modifies buf
      ensures Samples(counter % RING_FRAMES, nch) < buf.Length && Samples(frames, nch) <= buf.Length
      ensures buf[..] == Stored(old(buf[..]), Samples(counter % RING_FRAMES, nch), src[..Samples(frames, nch)])
    {
      IndexAhead(counter, frames, nch);
      var idx := counter % RING_FRAMES;
      var first := if RING_FRAMES - idx > frames then frames else RING_FRAMES - idx;
      SplitScales(idx, frames, nch);
      StoreSamples(buf, Samples(idx, nch), src, Samples(first, nch), Samples(frames - first, nch));
    }

    /** Copy whole frames out from a counter, in one piece or two. */
    method CopyOut(counter: Word64, dst: array<real>, frames: nat)
      requires dst != buf && 0 < nch && buf.Length == Samples(RING_FRAMES, nch)
      requires frames <= RING_FRAMES && Samples(frames, nch) <= dst.Length
      modifies dst
      ensures Samples(counter % RING_FRAMES, nch) < buf.Length && Samples(frames, nch) <= buf.Length
      ensures dst[..] == Fetched(buf[..], Samples(counter % RING_FRAMES, nch), Samples(frames, nch))
                         + old(dst[Samples(frames, nch)..])
    {
      IndexAhead(counter, frames, nch);
      var idx := counter % RING_FRAMES;
      var first := if RING_FRAMES - idx > frames then frames else RING_FRAMES - idx;
      SplitScales(idx, frames, nch);
      FetchSamples(buf, Samples(idx, nch), dst, Samples(first, nch), Samples(frames - first, nch));
    }

    /** Producer: accept as many frames as fit, in order. */
    method Write(src: array<real>, frames: Word32) returns (n: Word32)
      requires Valid() && src != buf && Samples(frames, nch) <= src.Length
      modifies this, buf
      ensures Valid()
      ensures n == if frames > RING_FRAMES - old(written - taken) then RING_FRAMES - old(written - taken) else frames
      ensures Samples(n, nch) <= src.Length && accepted == old(accepted) + src[..Samples(n, nch)]
      ensures written == old(written) + n && taken == old(taken)
    {
      hide Samples, Recent, Stored, Low64;
      PlanIsExact(written, taken);
      var space := Space(write, read);
      n := frames;
      if frames > space {
        n := space;
      }
      Scale(n, frames, nch);
      WrappedSlot(written);
      IndexAhead(written, n, nch);
      StoreKeepsRecent(buf[..], Samples(written % RING_FRAMES, nch), accepted, src[..Samples(n, nch)]);
      CopyIn(write, src, n);
      AdvanceWraps(written, n);
      Scale(written, n, nch);
      write := Low64(write + n);
      written, accepted := written + n, accepted + src[..Samples(n, nch)];
    }

    /** Consumer: skip surplus backlog, then deliver the oldest frames that remain. */
    method Read(dst: array<real>, frames: Word32) returns (n: Word32)
      requires Valid() && dst != buf && Samples(frames, nch) <= dst.Length
      modifies `read, `taken, dst
      ensures Valid()
      ensures var avail: nat := old(written - taken);
        && n == Takes(avail, frames)
        && taken == old(taken) + Drops(avail, frames) + n
      ensures written - taken <= TARGET_FILL
      ensures Samples(taken - n, nch) <= Samples(taken, nch) <= |accepted| && Samples(n, nch) <= dst.Length
      ensures dst[..] == accepted[Samples(taken - n, nch)..Samples(taken, nch)] + old(dst[Samples(n, nch)..])
    {
      hide Samples, Recent, Fetched, Low64;
      PlanIsExact(written, taken);
      var avail := Avail(write, read);
      ReadBoundsBacklog(avail, frames);
      var threshold := Low32(frames + TARGET_FILL);
      var rd := read;
      if avail > threshold {
        var drop := avail - threshold;
        rd, avail := Low64(rd + drop), avail - drop;
      }
      n := frames;
      if frames > avail {
        n := avail;
      }
      ghost var start := written - avail;
      AdvanceWraps(taken, start - taken);
      AdvanceWraps(start, n);
      WrappedSlot(start);
      Scale(n, frames, nch);
      CopyOut(rd, dst, n);
      FetchDelivers(buf[..], accepted, written, start, n, nch);
      read := Low64(rd + n);
      taken := start + n;
    }

    /** Meter: per-channel peak over the most recent frames, without touching the counters. */
    method PeekLevels(lookback: Word32, outPeak: array<real>)
      requires Valid() && outPeak != buf && outPeak.Length == nch
      modifies outPeak
      ensures Valid()
      ensures PeekWindow(write, lookback) <= written
      ensures forall c :: 0 <= c < nch ==>
        outPeak[c] == Peak(accepted, nch, c, written - PeekWindow(write, lookback), written)
    {
      hide Samples, Recent;
      for c := 0 to nch
        invariant forall k :: 0 <= k < c ==> outPeak[k] == 0.0
      {
        outPeak[c] := 0.0;
      }
      if write == 0 {
        return;
      }
      var window := if lookback > write then write else lookback;
      if window > RING_FRAMES {
        window := RING_FRAMES;
      }
      var start := Low64(write - window);
      ghost var from: nat := written - window;
      Scale(from, written, nch);
      for f := 0 to window
        invariant Samples(from + f, nch) <= |accepted|
        invariant forall c :: 0 <= c < nch ==> outPeak[c] == Peak(accepted, nch, c, from, from + f)
      {
        var idx := Low64(start + f) % RING_FRAMES;
        PeekIndex(written, window, f);
        Scale(from + f, written, nch);
        RaisePeaks(idx, outPeak, from, window - f);
      }
    }

    /** Raise every channel's peak to the magnitude it has in one frame of the buffer. */
    method RaisePeaks(idx: nat, outPeak: array<real>, ghost from: nat, ghost age: nat)
      requires Valid() && outPeak != buf && outPeak.Length == nch
      requires 0 < age <= RING_FRAMES && from + age <= written && idx == (written - age) % RING_FRAMES
      requires Samples(written - age, nch) <= |accepted|
      requires forall c :: 0 <= c < nch ==> outPeak[c] == Peak(accepted, nch, c, from, written - age)
      modifies outPeak
      ensures Samples(written - age + 1, nch) <= |accepted|
      ensures forall c :: 0 <= c < nch ==> outPeak[c] == Peak(accepted, nch, c, from, written - age + 1)
    {
      hide Samples, Recent, Low64;
      ghost var at := written - age;
      Scale(at + 1, written, nch);
      for c := 0 to nch
        invariant forall k :: 0 <= k < c ==> outPeak[k] == Peak(accepted, nch, k, from, at + 1)
        invariant forall k :: c <= k < nch ==> outPeak[k] == Peak(accepted, nch, k, from, at)
      {
        RecentSample(buf[..], accepted, written, age, nch, c);
        var v := buf[Samples(idx, nch) + c];
        if v < 0.0 {
          v := -v;
        }
        if v > outPeak[c] {
          outPeak[c] := v;
        }
      }
    }
  }

  /** Fetching frames that are still in the buffer returns them as they were accepted. */
  lemma FetchDelivers(ring: seq<real>, accepted: seq<real>, written: nat, start: nat, n: nat, nch: nat)
    requires 0 < nch && start + n <= written <= start + RING_FRAMES
    requires |ring| == Samples(RING_FRAMES, nch) && |accepted| == Samples(written, nch)
    requires Samples(written % RING_FRAMES, nch) < |ring|
    requires Recent(ring, Samples(written % RING_FRAMES, nch), accepted)
    ensures Samples(start % RING_FRAMES, nch) <= |ring| && Samples(n, nch) <= |ring|
    ensures Samples(start, nch) <= Samples(start + n, nch) <= |accepted|
    ensures Fetched(ring, Samples(start % RING_FRAMES, nch), Samples(n, nch))
         == accepted[Samples(start, nch)..Samples(start + n, nch)]
  {
    hide Samples, Recent, Fetched;
    var avail := written - start;
    Scale(n, avail, nch);
    Scale(start, n, nch);
    Scale(start, avail, nch);
    Scale(start + n, written, nch);
    IndexAhead(start, n, nch);
    if avail > 0 {
      IndexBehind(written, avail, nch);
      FetchReturnsRecent(ring, Samples(written % RING_FRAMES, nch), accepted, Samples(avail, nch), Samples(n, nch));
    }
  }

  /** The meter's wrapped start plus an offset names the slot of the unbounded position. */
  lemma PeekIndex(written: nat, window: nat, f: nat)
    requires f < window <= Low64(written)
    ensures Low64(Low64(Low64(written) - window) + f) % RING_FRAMES == (written - (window - f)) % RING_FRAMES
  {
    var p := written - window + f;
    assert Low64(p) == Low64(written) - window + f;
    WrappedSlot(p);
  }

  /** A sample of a frame that is still in the buffer, by the frame's age. */
  lemma RecentSample(ring: seq<real>, accepted: seq<real>, written: nat, age: nat, nch: nat, c: nat)
    requires 0 < age <= RING_FRAMES && age <= written && c < nch
    requires |ring| == Samples(RING_FRAMES, nch) && |accepted| == Samples(written, nch)
    requires Samples(written % RING_FRAMES, nch) < |ring|
    requires Recent(ring, Samples(written % RING_FRAMES, nch), accepted)
    ensures 0 <= Samples((written - age) % RING_FRAMES, nch) + c < |ring|
    ensures 0 <= Samples(written - age, nch) + c < |accepted|
    ensures ring[Samples((written - age) % RING_FRAMES, nch) + c] == accepted[Samples(written - age, nch) + c]
  {
    hide Samples;
    var at, slot := Samples(written % RING_FRAMES, nch), Samples((written - age) % RING_FRAMES, nch);
    IndexBehind(written, age, nch);
    Scale((written - age) % RING_FRAMES, 1, nch);
    Scale((written - age) % RING_FRAMES + 1, RING_FRAMES, nch);
    Scale(written - age, age, nch);
    Scale(1, age, nch);
    assert Behind(at, Samples(age, nch) - c, |ring|) == slot + c;
  }

  /** Splitting a copy at the end of the buffer gives the same pieces in frames and in samples. */
  lemma SplitScales(idx: nat, frames: nat, nch: nat)
    requires idx < RING_FRAMES && frames <= RING_FRAMES
    ensures var first := if RING_FRAMES - idx > frames then frames else RING_FRAMES - idx;
      var at, count, size := Samples(idx, nch), Samples(frames, nch), Samples(RING_FRAMES, nch);
      && at <= size
      && Samples(first, nch) == (if count <= size - at then count else size - at)
      && Samples(frames - first, nch) == count - Samples(first, nch)
  {
    Scale(idx, RING_FRAMES - idx, nch);
    Scale(frames, RING_FRAMES - idx, nch);
    Scale(RING_FRAMES - idx, frames, nch);
    if RING_FRAMES - idx <= frames {
      Scale(RING_FRAMES - idx, frames - (RING_FRAMES - idx), nch);
    }
  }
}
