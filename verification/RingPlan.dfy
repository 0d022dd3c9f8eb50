/** The counter arithmetic of the two ring calls, shared by the sequential ring and the interleaved protocol. */
module RingPlan {
  import opened Words

  /** Free frames, from the raw 64-bit counters, with the 32-bit truncation of the subtraction. */
  function Space(w: Word64, r: Word64): Word32 {
    Low32(RING_FRAMES - Low32(Low64(w - r)))
  }

  /** Queued frames, from the raw 64-bit counters. */
  function Avail(w: Word64, r: Word64): Word32 {
    Low32(Low64(w - r))
  }

  /** Frames a write call accepts. */
  function Accepts(w: Word64, r: Word64, frames: Word32): Word32 {
    if frames > Space(w, r) then Space(w, r) else frames
  }

  /** Frames a read call skips before copying; the threshold is a 32-bit sum and may wrap. */
  function Drops(avail: Word32, frames: Word32): Word32 {
    var threshold := Low32(frames + TARGET_FILL);
    if avail > threshold then avail - threshold else 0
  }

  /** Frames a read call copies out. */
  function Takes(avail: Word32, frames: Word32): Word32 {
    var left := avail - Drops(avail, frames);
    if frames > left then left else frames
  }

  /** Index of the i-th frame of a copy that starts at a counter: the copy is split where the buffer ends. */
  function SplitSlot(counter: Word64, i: nat): (slot: nat)
    requires i < RING_FRAMES
    ensures slot < RING_FRAMES
  {
    var idx := counter % RING_FRAMES;
    if i < RING_FRAMES - idx then idx + i else i - (RING_FRAMES - idx)
  }

  /** The raw counters give exact room and backlog whatever the unbounded counts are. */
  lemma PlanIsExact(written: nat, taken: nat)
    requires taken <= written <= taken + RING_FRAMES
    ensures Avail(Low64(written), Low64(taken)) == written - taken
    ensures Space(Low64(written), Low64(taken)) == RING_FRAMES - (written - taken)
  {
    WrappedDistance(written, taken);
  }

  /** Advancing a stored counter wraps like the unbounded count it stands for. */
  lemma AdvanceWraps(count: nat, n: nat)
    ensures Low64(Low64(count) + n) == Low64(count + n)
  {
    assert count == U64 * (count / U64) + Low64(count);
  }

  /** The split copy touches the slots of consecutive unbounded counts. */
  lemma SplitSlotIsConsecutive(count: nat, i: nat)
    requires i < RING_FRAMES
    ensures SplitSlot(Low64(count), i) == (count + i) % RING_FRAMES
  {
    WrappedSlot(count);
    var q, r := count / RING_FRAMES, count % RING_FRAMES;
    assert count + i == RING_FRAMES * q + (r + i);
    AddWholeTurns(r + i, q);
  }

  /** Every read leaves at most the target backlog, and skips only when it fills the request from what is left. */
  lemma ReadBoundsBacklog(avail: Word32, frames: Word32)
    ensures Drops(avail, frames) + Takes(avail, frames) <= avail
    ensures avail - Drops(avail, frames) - Takes(avail, frames) <= TARGET_FILL
    ensures Takes(avail, frames) <= frames
  {
  }

  /**
   * A read gives what its documentation says (as much of the request as is queued) exactly when the sum
   * of the request and the target backlog fits in 32 bits, or the backlog is within the wrapped sum.
   */
  lemma ReadFillsRequest(avail: Word32, frames: Word32)
    requires avail <= RING_FRAMES
    ensures Takes(avail, frames) == (if frames < avail then frames else avail)
       <==> frames + TARGET_FILL < U32 || avail <= frames + TARGET_FILL - U32
  {
  }

  /** A huge request whose threshold wraps: of 3000 queued frames it skips some and delivers only 2047. */
  lemma HugeRequestComesUpShort()
    ensures Drops(3000, 0xFFFF_FFFF) == 953 && Takes(3000, 0xFFFF_FFFF) == 2047
  {
  }
}
