/**
 * The capture parser: packet payloads of any length are joined into little-endian 32-bit words, and every
 * eight words make one frame. A rate-change restart drops whatever was unfinished.
 */
module CaptureParser {
  import opened Words
  import opened CaptureSink

  const CHANNELS: nat := 8
  const MAX_PACKET: nat := 512
  const PACKETS_PER_REQUEST: nat := 16

  /** Frame k of a byte stream: channel c is the word at byte 32k + 4c. */
  function FrameAt(stream: seq<Byte>, k: nat): seq<int>
    requires 32 * k + 32 <= |stream|
  {
    seq(CHANNELS, c requires 0 <= c < CHANNELS => Le32(stream, 32 * k + 4 * c))
  }

  /** The frames that are complete in a byte stream. */
  function Frames(stream: seq<Byte>): seq<seq<int>> {
    seq(|stream| / 32, k requires 0 <= k < |stream| / 32 => FrameAt(stream, k))
  }

  /** The frames of several streams, each parsed from its own beginning. */
  function SessionFrames(sessions: seq<seq<Byte>>): seq<seq<int>> {
    if sessions == [] then []
    else SessionFrames(sessions[..|sessions| - 1]) + Frames(sessions[|sessions| - 1])
  }

  /** Every frame ever emitted lies wholly inside one session: none mixes words across a restart. */
  lemma {:induction false} NoFrameSpansARestart(sessions: seq<seq<Byte>>, i: nat)
    requires i < |SessionFrames(sessions)|
    ensures exists j, k: nat :: 0 <= j < |sessions| && 32 * k + 32 <= |sessions[j]|
              && SessionFrames(sessions)[i] == FrameAt(sessions[j], k)
  {
    var n := |sessions|;
    var before := SessionFrames(sessions[..n - 1]);
    if i < |before| {
      NoFrameSpansARestart(sessions[..n - 1], i);
      var j, k: nat :| 0 <= j < n - 1 && 32 * k + 32 <= |sessions[j]| && before[i] == FrameAt(sessions[j], k);
      assert SessionFrames(sessions)[i] == FrameAt(sessions[j], k);
    } else {
      assert SessionFrames(sessions)[i] == FrameAt(sessions[n - 1], i - |before|);
    }
  }

  /** More bytes never change the frames already complete. */
  lemma FramesGrow(stream: seq<Byte>, more: seq<Byte>)
    ensures |Frames(stream)| == |stream| / 32 <= |Frames(stream + more)| == (|stream| + |more|) / 32
    ensures Frames(stream + more)[..|Frames(stream)|] == Frames(stream)
  {
    var whole := stream + more;
    forall k | 0 <= k < |Frames(stream)|
      ensures Frames(whole)[k] == Frames(stream)[k]
    {
      assert FrameAt(whole, k) == FrameAt(stream, k);
    }
  }

  /** The unfinished frame: the words after the last whole frame are in their lanes. */
  ghost predicate LanesHold(stream: seq<Byte>, lanes: seq<int>, words: nat)
    requires 4 * words <= |stream| && |lanes| == CHANNELS
  {
    forall l :: 0 <= l < words % CHANNELS ==> lanes[l] == Le32(stream, 4 * (words - words % CHANNELS + l))
  }

  /** Placing the next word fills the next lane. */
  lemma WordFillsLane(stream: seq<Byte>, lanes: seq<int>, words: nat)
    requires 4 * words + 4 <= |stream| && |lanes| == CHANNELS
    requires LanesHold(stream, lanes, words)
    ensures var lane := words % CHANNELS; var lanes' := lanes[lane := Le32(stream, 4 * words)];
      && LanesHold(stream, lanes', words + 1)
      && (lane == CHANNELS - 1 ==> 4 * words + 4 == 32 * (words / CHANNELS) + 32)
      && (lane == CHANNELS - 1 ==> lanes' == FrameAt(stream, words / CHANNELS))
  {
    hide Le32;
    var frame, lane := words / CHANNELS, words % CHANNELS;
    assert words == CHANNELS * frame + lane;
    if lane == CHANNELS - 1 {
      assert (words + 1) % CHANNELS == 0;
      assert forall l :: 0 <= l < lane ==> lanes[l] == Le32(stream, 4 * (CHANNELS * frame + l));
    } else {
      assert (words + 1) % CHANNELS == lane + 1;
    }
  }

  /** The frame count only moves when a word completes a frame. */
  lemma WordCompletesFrame(stream: seq<Byte>, words: nat)
    requires 4 * words + 4 <= |stream|
    ensures Frames(stream[..4 * words + 4]) == Frames(stream[..4 * words])
              + if words % CHANNELS == CHANNELS - 1 then [FrameAt(stream, words / CHANNELS)] else []
  {
    var before, after := stream[..4 * words], stream[..4 * words + 4];
    assert after[..4 * words] == before;
    FramesGrow(before, after[4 * words..]);
    assert before + after[4 * words..] == after;
    if words % CHANNELS == CHANNELS - 1 {
      assert FrameAt(after, words / CHANNELS) == FrameAt(stream, words / CHANNELS);
    }
  }

  /** Byte offset of a packet slot in a request's buffer. */
  function SlotOffset(f: nat, stride: nat): nat {
    f * stride
  }

  lemma {:induction false} SlotsFit(f: nat, n: nat, stride: nat)
    requires f < n
    ensures SlotOffset(f, stride) + stride <= SlotOffset(n, stride)
  {
    hide SlotOffset;
    NextSlot(n - 1, stride);
    if f < n - 1 {
      SlotsFit(f, n - 1, stride);
    }
  }

  lemma NextSlot(f: nat, stride: nat)
    ensures SlotOffset(f + 1, stride) == SlotOffset(f, stride) + stride
  {
  }

  /** The data of packet f of a capture request: none when the slot is empty, else from its fixed offset. */
  function Slot(data: seq<Byte>, count: int, stride: nat, f: nat): seq<Byte>
    requires count <= stride && SlotOffset(f, stride) + stride <= |data|
  {
    if count <= 0 then [] else data[SlotOffset(f, stride)..SlotOffset(f, stride) + count]
  }

  /** A request's buffer has room for every slot, and no packet is longer than its slot. */
  predicate Fits(data: seq<Byte>, counts: seq<int>, stride: nat) {
    SlotOffset(|counts|, stride) <= |data| && forall f :: 0 <= f < |counts| ==> counts[f] <= stride
  }

  /** The first n packets of a capture request, joined. */
  function Payload(data: seq<Byte>, counts: seq<int>, stride: nat, n: nat): seq<Byte>
    requires n <= |counts| && Fits(data, counts, stride)
  {
    if n == 0 then []
    else
      SlotsFit(n - 1, |counts|, stride);
      Payload(data, counts, stride, n - 1) + Slot(data, counts[n - 1], stride, n - 1)
  }

  /** Bytes in the first n packets; an empty slot may count below zero. */
  function BytesBefore(counts: seq<int>, n: nat): nat
    requires n <= |counts|
  {
    if n == 0 then 0 else BytesBefore(counts, n - 1) + if counts[n - 1] > 0 then counts[n - 1] else 0
  }

  lemma SlotLength(data: seq<Byte>, count: int, stride: nat, f: nat)
    requires count <= stride && SlotOffset(f, stride) + stride <= |data|
    ensures |Slot(data, count, stride, f)| == if count > 0 then count else 0
  {
    hide SlotOffset;
  }

  lemma {:induction false} PayloadLength(data: seq<Byte>, counts: seq<int>, stride: nat, n: nat)
    requires n <= |counts| && Fits(data, counts, stride)
    ensures |Payload(data, counts, stride, n)| == BytesBefore(counts, n)
  {
    hide SlotOffset, Slot;
    if n > 0 {
      SlotsFit(n - 1, |counts|, stride);
      PayloadLength(data, counts, stride, n - 1);
      SlotLength(data, counts[n - 1], stride, n - 1);
    }
  }

  lemma {:induction false} PayloadFrom(data: seq<Byte>, counts: seq<int>, stride: nat, n: nat, f: nat, i: nat)
    requires f < n <= |counts| && Fits(data, counts, stride) && i < counts[f]
    ensures SlotOffset(f, stride) + i < |data| && BytesBefore(counts, f) + i < |Payload(data, counts, stride, n)|
    ensures Payload(data, counts, stride, n)[BytesBefore(counts, f) + i] == data[SlotOffset(f, stride) + i]
  {
    hide SlotOffset, Slot;
    SlotsFit(f, |counts|, stride);
    SlotsFit(n - 1, |counts|, stride);
    PayloadLength(data, counts, stride, n - 1);
    if f < n - 1 {
      PayloadFrom(data, counts, stride, n - 1, f, i);
    } else {
      SlotAt(data, counts[f], stride, f, i);
    }
  }

  lemma SlotAt(data: seq<Byte>, count: int, stride: nat, f: nat, i: nat)
    requires i < count <= stride && SlotOffset(f, stride) + stride <= |data|
    ensures var slot := Slot(data, count, stride, f); |slot| == count && slot[i] == data[SlotOffset(f, stride) + i]
  {
    hide SlotOffset;
  }

  /** Byte i of packet f comes behind the bytes of the packets before it, and is byte i of the packet's own slot. */
  lemma PayloadAt(data: seq<Byte>, counts: seq<int>, stride: nat, f: nat, i: nat)
    requires f < |counts| && Fits(data, counts, stride) && i < counts[f]
    ensures var all := Payload(data, counts, stride, |counts|);
      && f * stride + i < |data| && |all| == BytesBefore(counts, |counts|)
      && BytesBefore(counts, f) + i < |all| && all[BytesBefore(counts, f) + i] == data[f * stride + i]
  {
    PayloadFrom(data, counts, stride, |counts|, f, i);
    PayloadLength(data, counts, stride, |counts|);
  }

  lemma PayloadStart(data: seq<Byte>, counts: seq<int>, stride: nat)
    requires Fits(data, counts, stride)
    ensures Payload(data, counts, stride, 0) == []
  {
  }

  lemma PayloadNext(data: seq<Byte>, counts: seq<int>, stride: nat, n: nat, before: seq<Byte>)
    requires n < |counts| && Fits(data, counts, stride)
    ensures SlotOffset(n, stride) + stride <= |data| && counts[n] <= stride
    ensures before + Payload(data, counts, stride, n + 1)
         == before + Payload(data, counts, stride, n) + Slot(data, counts[n], stride, n)
  {
    hide Slot;
    SlotsFit(n, |counts|, stride);
  }

  class Parser {
    const carry: array<Byte>
    var carryN: nat
    var wordPhase: Word32
    const lanes: array<int>
    ghost var sessions: seq<seq<Byte>>
    ghost var fed: seq<Byte>
    ghost var words: nat
    const sink: Sink

    ghost predicate Valid()
      reads this, carry, lanes, sink, sink.ring, sink.ring.buf
    {
      && sink.Valid() && carry.Length == 4 && carryN < 4
      && 4 * words + carryN == |fed|
      && carry[..carryN] == fed[4 * words..]
      && Placed(fed)
      && Frames(fed[..4 * words]) == Frames(fed)
    }

    /** The first `words` words of a stream are in the lanes or emitted. */
    ghost predicate Placed(stream: seq<Byte>)
      reads this, lanes, sink
    {
      && lanes.Length == CHANNELS
      && 4 * words <= |stream|
      && wordPhase == Low32(words)
      && LanesHold(stream, lanes[..], words)
      && sink.emitted == SessionFrames(sessions) + Frames(stream[..4 * words])
    }

    constructor (sink: Sink)
      requires sink.Valid() && sink.emitted == []
      ensures Valid() && fresh(carry) && fresh(lanes) && this.sink == sink
      ensures sessions == [] && fed == []
    {
      this.sink := sink;
      carry := new Byte[4];
      lanes := new int[CHANNELS];
      carryN, wordPhase := 0, 0;
      sessions, fed, words := [], [], 0;
    }

    /** The restart's part in the parser: only the carry count and the word phase are cleared. */
    method Restart()
      requires Valid()
      modifies this
      ensures Valid()
      ensures sessions == old(sessions) + [old(fed)] && fed == []
    {
      hide LanesHold;
      carryN, wordPhase := 0, 0;
      ghost var all := sessions + [fed];
      assert all[..|sessions|] == sessions;
      sessions, fed, words := all, [], 0;
      EmptyLanes(lanes[..]);
    }

    /** Place one word; the last lane emits the frame. */
    method PlaceWord(w: int, ghost stream: seq<Byte>)
      requires sink.Valid() && Placed(stream) && 4 * words + 4 <= |stream| && w == Le32(stream, 4 * words)
      modifies `wordPhase, `words, lanes, sink, sink.ring, sink.ring.buf
      ensures sink.Valid() && Placed(stream) && words == old(words) + 1 && Grew(old(sink.Fed()), sink.Fed())
    {
      NothingYet();
      hide LanesHold, Frames, FrameAt, SessionFrames, Le32, Sink.Valid, Sink.Fed, Grew;
      WordCompletesFrame(stream, words);
      var full := FillLane(w, stream);
      if full {
        sink.EmitSuperframe(lanes);
      }
    }

    /** Put one word in its lane, and tell whether the unit is full. */
    method FillLane(w: int, ghost stream: seq<Byte>) returns (full: bool)
      requires 4 * words + 4 <= |stream| && w == Le32(stream, 4 * words)
      requires lanes.Length == CHANNELS && wordPhase == Low32(words) && LanesHold(stream, lanes[..], words)
      modifies `wordPhase, `words, lanes
      ensures words == old(words) + 1 && wordPhase == Low32(words) && LanesHold(stream, lanes[..], words)
      ensures full == (old(words) % CHANNELS == CHANNELS - 1)
      ensures full ==> lanes[..] == FrameAt(stream, old(words) / CHANNELS)
    {
      hide LanesHold, FrameAt, Le32;
      WordFillsLane(stream, lanes[..], words);
      var lane := wordPhase % CHANNELS;
      LaneOfPhase(words);
      lanes[lane] := w;
      wordPhase := Low32(wordPhase + 1);
      words := words + 1;
      return lane == CHANNELS - 1;
    }

    /** Feed one packet. */
    method FeedBytes(data: array<Byte>, from: nat, len: nat)
      requires Valid() && data != carry
      requires len <= MAX_PACKET && from + len <= data.Length
      modifies `carryN, `wordPhase, `words, `fed, carry, lanes, sink, sink.ring, sink.ring.buf
      ensures Valid() && fed == old(fed) + data[from..from + len]
      ensures sink.emitted == SessionFrames(sessions) + Frames(fed) && Grew(old(sink.Fed()), sink.Fed())
    {
      hide Frames, Grew, Sink.Fed, Sink.Valid, SessionFrames, LanesHold, Le32;
      ghost var start, stream := words, fed + data[from..from + len];
      var tmp, t := Join(data, from, len);
      TailJoined(fed, data[from..from + len], 4 * words);
      StreamKeepsPlaced(stream);
      var count, rem := t / 4, t % 4;
      PlaceWords(tmp, count, t, stream);
      TailLeft(stream, 4 * start, tmp[..t], 4 * count);
      assert tmp[..t][4 * count..] == tmp[4 * count..4 * count + rem];
      KeepRest(tmp, 4 * count, rem, stream);
      EmittedAll();
    }

    /** Keep the bytes of an unfinished word for the next packet. */
    method KeepRest(tmp: array<Byte>, from: nat, rem: nat, ghost stream: seq<Byte>)
      requires sink.Valid() && Placed(stream) && carry.Length == 4 && tmp != carry
      requires rem < 4 && from + rem <= tmp.Length && stream[4 * words..] == tmp[from..from + rem]
      modifies `carryN, `fed, carry
      ensures Valid() && fed == stream
    {
      hide Frames, SessionFrames, LanesHold, Le32, Sink.Valid;
      SaveCarry(tmp, from, rem);
      fed := stream;
      WholeWords(stream, words);
    }

    method PlaceWords(tmp: array<Byte>, count: nat, ghost t: nat, ghost stream: seq<Byte>)
      requires sink.Valid() && Placed(stream) && 4 * count <= t <= tmp.Length && tmp != carry
      requires stream[4 * words..] == tmp[..t]
      modifies `wordPhase, `words, lanes, sink, sink.ring, sink.ring.buf
      ensures sink.Valid() && Placed(stream) && words == old(words) + count && Grew(old(sink.Fed()), sink.Fed())
    {
      NothingYet();
      hide LanesHold, Frames, Le32, Grew, Sink.Valid, Sink.Fed;
      ghost var start, feed := words, sink.Fed();
      for i := 0 to count
        invariant sink.Valid() && Placed(stream) && words == start + i && Grew(feed, sink.Fed())
      {
        ghost var before := sink.Fed();
        Le32Within(tmp[..], stream, 4 * start, 4 * i, t);
        PlaceWord(Le32(tmp[..], 4 * i), stream);
        GrewFurther(feed, before, sink.Fed());
      }
    }

    /** Before anything is fed the feed has come no further. */
    lemma NothingYet()
      requires sink.Valid()
      ensures Grew(sink.Fed(), sink.Fed())
    {
      GrewNot(sink.Fed());
    }

    method SaveCarry(tmp: array<Byte>, from: nat, rem: nat)
      requires carry.Length == 4 && rem < 4 && from + rem <= tmp.Length && tmp != carry
      modifies `carryN, carry
      ensures carryN == rem && carry[..rem] == tmp[from..from + rem]
    {
      carryN := rem;
      for i := 0 to rem
        invariant carry[..i] == tmp[from..from + i] && carryN == rem
      {
        carry[i] := tmp[from + i];
      }
    }

    /** What a capture completion feeds: every packet with data, from its fixed offset in the request's buffer. */
    method ParseRequest(data: array<Byte>, counts: array<int>, stride: nat)
      requires Valid() && data != carry && counts != lanes
      requires counts.Length == 16 && stride <= 512
      requires Fits(data[..], counts[..], stride)
      modifies `carryN, `wordPhase, `words, `fed, carry, lanes, sink, sink.ring, sink.ring.buf
      ensures Valid() && fed == old(fed) + Payload(data[..], counts[..], stride, counts.Length)
      ensures sink.emitted == SessionFrames(sessions) + Frames(fed) && Grew(old(sink.Fed()), sink.Fed())
    {
      NothingYet();
      hide SlotOffset, Frames, SessionFrames, Valid, Payload, Fits, Slot, Grew;
      ghost var bytes, sizes, was, feed := data[..], counts[..], fed, sink.Fed();
      PayloadStart(bytes, sizes, stride);
      assert was + [] == was;
      for f := 0 to PACKETS_PER_REQUEST
        invariant Valid() && fed == was + Payload(bytes, sizes, stride, f)
        invariant data[..] == bytes && counts[..] == sizes && Grew(feed, sink.Fed())
      {
        ghost var before := sink.Fed();
        PayloadNext(bytes, sizes, stride, f, was);
        FeedSlot(data, counts[f], stride, f);
        GrewFurther(feed, before, sink.Fed());
      }
      EmittedAll();
    }

    /** Feed one packet of a request, unless its slot is empty. */
    method FeedSlot(data: array<Byte>, count: int, stride: nat, f: nat)
      requires Valid() && data != carry
      requires count <= stride <= MAX_PACKET && SlotOffset(f, stride) + stride <= data.Length
      modifies `carryN, `wordPhase, `words, `fed, carry, lanes, sink, sink.ring, sink.ring.buf
      ensures Valid() && fed == old(fed) + Slot(data[..], count, stride, f) && Grew(old(sink.Fed()), sink.Fed())
    {
      NothingYet();
      hide Frames, SessionFrames, Valid, SlotOffset, Grew;
      if count > 0 {
        var at := SlotOffset(f, stride);
        FeedBytes(data, at, count);
        assert data[at..at + count] == data[..][at..at + count];
      } else {
        assert fed + [] == fed;
      }
    }

    /** The carried bytes followed by the packet, in a scratch buffer. */
    method Join(data: array<Byte>, from: nat, len: nat) returns (tmp: array<Byte>, t: nat)
      requires carry.Length == 4 && carryN < 4
      requires len <= MAX_PACKET && from + len <= data.Length
      ensures fresh(tmp) && t == carryN + len <= tmp.Length
      ensures tmp[..t] == carry[..carryN] + data[from..from + len]
    {
      tmp := new Byte[MAX_PACKET + 4];
      for i := 0 to carryN
        invariant tmp[..i] == carry[..i]
      {
        tmp[i] := carry[i];
      }
      t := carryN;
      for k := 0 to len
        invariant tmp[..t + k] == carry[..t] + data[from..from + k]
      {
        tmp[t + k] := data[from + k];
      }
      t := t + len;
    }

    /** What has been emitted is the frames of all sessions and of the bytes fed since the last restart. */
    lemma EmittedAll()
      requires Valid()
      ensures sink.emitted == SessionFrames(sessions) + Frames(fed)
    {
    }

    /** Words placed for a stream stay placed when the stream grows. */
    lemma StreamKeepsPlaced(stream: seq<Byte>)
      requires Valid() && fed <= stream
      ensures Placed(stream)
    {
      hide Frames, SessionFrames;
      assert stream[..4 * words] == fed[..4 * words];
    }
  }

  lemma EmptyLanes(lanes: seq<int>)
    requires |lanes| == CHANNELS
    ensures LanesHold([], lanes, 0)
  {
  }

  /** The 32-bit word phase still names the lane after it wraps. */
  lemma LaneOfPhase(words: nat)
    ensures Low32(words) % CHANNELS == words % CHANNELS
    ensures Low32(Low32(words) + 1) == Low32(words + 1)
  {
    assert words == U32 * (words / U32) + Low32(words);
  }

  lemma Le32Within(tmp: seq<Byte>, stream: seq<Byte>, at: nat, i: nat, t: nat)
    requires t <= |tmp| && at <= |stream| && stream[at..] == tmp[..t] && i + 4 <= t
    ensures at + i + 4 <= |stream| && Le32(tmp, i) == Le32(stream, at + i)
  {
    assert tmp[..t][i] == stream[at..][i] && tmp[..t][i + 1] == stream[at..][i + 1];
    assert tmp[..t][i + 2] == stream[at..][i + 2] && tmp[..t][i + 3] == stream[at..][i + 3];
  }

  lemma TailJoined(fed: seq<Byte>, more: seq<Byte>, at: nat)
    requires at <= |fed|
    ensures (fed + more)[at..] == fed[at..] + more
  {
  }

  lemma TailLeft(stream: seq<Byte>, at: nat, tail: seq<Byte>, n: nat)
    requires at <= |stream| && stream[at..] == tail && n <= |tail|
    ensures stream[at + n..] == tail[n..]
  {
  }

  /** Bytes of an unfinished word complete no frame. */
  lemma WholeWords(stream: seq<Byte>, words: nat)
    requires 4 * words <= |stream| < 4 * words + 4
    ensures Frames(stream[..4 * words]) == Frames(stream)
  {
    hide Frames;
    var whole, rest := stream[..4 * words], stream[4 * words..];
    assert whole + rest == stream;
    FramesGrow(whole, rest);
    var q := words / 8;
    assert 32 * q <= 4 * words <= |stream| < 4 * words + 4 <= 32 * q + 32;
    assert (4 * words) / 32 == q && |stream| / 32 == q;
  }
}
