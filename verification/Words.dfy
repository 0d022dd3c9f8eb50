/** Machine-word arithmetic shared by the models: 32- and 64-bit wrap-around, and the sizes of the audio ring. */
module Words {

  const U32: nat := 0x1_0000_0000
  const U64: nat := 0x1_0000_0000_0000_0000

  /** Capacity of either audio ring, in frames. */
  const RING_FRAMES: nat := 32768

  /** Backlog the consumer tries to stay within, in frames. */
  const TARGET_FILL: nat := 2048

  type Byte = x: int | 0 <= x < 0x100
  type Word32 = x: int | 0 <= x < U32
  type Int32 = x: int | -0x8000_0000 <= x < 0x8000_0000
  type Word64 = x: int | 0 <= x < U64

  function Low32(x: int): Word32 {
    x % U32
  }

  function Low64(x: int): Word64 {
    x % U64
  }

  /** A 32-bit pattern read as a signed number. */
  function Signed32(x: Word32): Int32 {
    if x >= 0x8000_0000 then x - U32 else x
  }

  /** Signed little-endian word at a byte offset. */
  function Le32(b: seq<Byte>, at: nat): Int32
    requires at + 4 <= |b|
  {
    Signed32(b[at] as int + b[at + 1] as int * 0x100 + b[at + 2] as int * 0x1_0000 + b[at + 3] as int * 0x100_0000)
  }

  /** The ring index of a wrapped counter is the ring index of the unbounded count behind it. */
  lemma WrappedSlot(count: nat)
    ensures Low64(count) % RING_FRAMES == count % RING_FRAMES
  {
    var q, r := count / U64, count % U64;
    assert count == RING_FRAMES * (0x2_0000_0000_0000 * q) + r;
    AddWholeTurns(r, 0x2_0000_0000_0000 * q);
  }

  lemma AddWholeTurns(x: nat, turns: nat)
    ensures (RING_FRAMES * turns + x) % RING_FRAMES == x % RING_FRAMES
  {
    var q, r := x / RING_FRAMES, x % RING_FRAMES;
    assert RING_FRAMES * turns + x == RING_FRAMES * (turns + q) + r;
  }

  /** A truncated difference of wrapped counters is the true distance, as long as that fits in 32 bits. */
  lemma WrappedDistance(later: nat, earlier: nat)
    requires earlier <= later < earlier + U32
    ensures Low32(Low64(Low64(later) - Low64(earlier))) == later - earlier
  {
    var a, b := later / U64, earlier / U64;
    var d := later - earlier;
    assert Low64(later) - Low64(earlier) == d - U64 * (a - b);
    assert a == b || a == b + 1;
  }

  /** Two counts less than one capacity apart never share a slot. */
  lemma DistinctSlots(p: nat, q: nat)
    requires p < q < p + RING_FRAMES
    ensures p % RING_FRAMES != q % RING_FRAMES
  {
  }
}
