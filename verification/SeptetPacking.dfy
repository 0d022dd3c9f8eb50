/**
 * The 7-bit packing of bulk payloads: septets carry the bits of a byte string, most significant first. The
 * unpacker is the code's; the packer is written from the format alone, as bit strings.
 */
module SeptetPacking {
  import opened Words

  function Pow2(k: nat): (p: nat)
    ensures p > 0
  {
    if k == 0 then 1 else 2 * Pow2(k - 1)
  }

  /** The low n bits of a number, most significant first. */
  function Bits(x: nat, n: nat): (b: seq<bool>)
    ensures |b| == n
  {
    if n == 0 then [] else Bits(x / 2, n - 1) + [x % 2 == 1]
  }

  function Value(b: seq<bool>): (x: nat)
    ensures x < Pow2(|b|)
  {
    if b == [] then 0 else 2 * Value(b[..|b| - 1]) + if b[|b| - 1] then 1 else 0
  }

  lemma {:induction false} BitsOfValue(b: seq<bool>)
    ensures Bits(Value(b), |b|) == b
  {
    if b != [] {
      BitsOfValue(b[..|b| - 1]);
    }
  }

  lemma {:induction false} ValueOfBits(x: nat, n: nat)
    requires x < Pow2(n)
    ensures Value(Bits(x, n)) == x
  {
    if n > 0 {
      ValueOfBits(x / 2, n - 1);
      assert Bits(x, n)[..n - 1] == Bits(x / 2, n - 1);
    }
  }

  /** A number split at bit k is its high bits followed by its low bits. */
  lemma {:induction false} BitsSplit(high: nat, low: nat, n: nat, k: nat)
    requires low < Pow2(k)
    ensures Bits(high * Pow2(k) + low, n + k) == Bits(high, n) + Bits(low, k)
  {
    if k > 0 {
      DoublePower(high, k);
      BitsSplit(high, low / 2, n, k - 1);
      JoinBits(high * Pow2(k - 1), low, n + k);
    } else {
      assert high * Pow2(0) == high;
    }
  }

  lemma DoublePower(high: nat, k: nat)
    requires k > 0
    ensures high * Pow2(k) == 2 * (high * Pow2(k - 1)) && Pow2(k) == 2 * Pow2(k - 1)
  {
  }

  /** The bits of an even number plus a smaller one, last bit apart. */
  lemma JoinBits(half: nat, low: nat, n: nat)
    requires n > 0
    ensures Bits(2 * half + low, n) == Bits(half + low / 2, n - 1) + [low % 2 == 1]
  {
    assert (2 * half + low) / 2 == half + low / 2 && (2 * half + low) % 2 == low % 2;
  }

  lemma DivMod(x: nat, d: nat)
    requires d > 0
    ensures x == (x / d) * d + x % d && 0 <= x % d < d
  {
  }

  /** Bitwise or of two n-bit numbers. */
  function Or(x: nat, y: nat, n: nat): nat {
    if n == 0 then 0
    else 2 * Or(x / 2, y / 2, n - 1) + if x % 2 == 1 || y % 2 == 1 then 1 else 0
  }

  /** Or with a number below the lowest set bit fills in the low bits. */
  lemma {:induction false} OrFillsLowBits(high: nat, low: nat, n: nat, k: nat)
    requires low < Pow2(k)
    ensures Bits(Or(high * Pow2(k), low, n + k), n + k) == Bits(high, n) + Bits(low, k)
  {
    hide Or;
    if k > 0 {
      var half := high * Pow2(k - 1);
      DoublePower(high, k);
      OrFillsLowBits(high, low / 2, n, k - 1);
      OrBits(2 * half, low, n + k);
      assert n + k - 1 == n + (k - 1) && 2 * half / 2 == half && (2 * half) % 2 == 0;
    } else {
      assert high * Pow2(0) == high;
      OrWithZero(high, n);
    }
  }

  lemma OrBits(x: nat, y: nat, n: nat)
    requires n > 0
    ensures Bits(Or(x, y, n), n) == Bits(Or(x / 2, y / 2, n - 1), n - 1) + [x % 2 == 1 || y % 2 == 1]
  {
  }

  lemma {:induction false} OrWithZero(x: nat, n: nat)
    ensures Bits(Or(x, 0, n), n) == Bits(x, n)
  {
    if n > 0 {
      OrWithZero(x / 2, n - 1);
    }
  }

  lemma {:induction false} OrFits(x: nat, y: nat, n: nat)
    ensures Or(x, y, n) < Pow2(n)
  {
    if n > 0 {
      OrFits(x / 2, y / 2, n - 1);
    }
  }

  lemma Powers()
    ensures Pow2(0) == 1 && Pow2(1) == 2 && Pow2(2) == 4 && Pow2(3) == 8
    ensures Pow2(4) == 16 && Pow2(5) == 32 && Pow2(6) == 64 && Pow2(7) == 128 && Pow2(8) == 256
  {
    assert Pow2(2) == 4 && Pow2(4) == 16 && Pow2(6) == 64;
  }

  /** The raw byte at place `phase` of its group, from two neighbouring packed bytes, cut to eight bits. */
  function Regroup(p: Byte, q: Byte, phase: nat): Byte
    requires 1 <= phase <= 7
  {
    Powers();
    OrFits((p * Pow2(phase)) % 0x100, q / Pow2(7 - phase), 8);
    Or((p * Pow2(phase)) % 0x100, q / Pow2(7 - phase), 8)
  }

  /** Shifting left and dropping what leaves the byte keeps the low bits. */
  lemma ShiftKeepsLowBits(p: nat, phase: nat)
    requires 1 <= phase <= 7
    ensures (p * Pow2(phase)) % 0x100 == (p % Pow2(8 - phase)) * Pow2(phase)
  {
    Powers();
    CutProduct(p, Pow2(8 - phase), Pow2(phase));
  }

  lemma CutProduct(p: nat, d: nat, s: nat)
    requires d > 0 && d * s == 0x100
    ensures (p * s) % 0x100 == (p % d) * s
  {
    DivMod(p, d);
    var q, r := p / d, p % d;
    assert p * s == q * (d * s) + r * s;
    assert (d - r) * s > 0;
    Remainder(q, r * s);
  }

  lemma Remainder(q: nat, r: nat)
    requires r < 0x100
    ensures (q * 0x100 + r) % 0x100 == r
  {
  }

  lemma RegroupJoins(p: Byte, q: Byte, phase: nat)
    requires 1 <= phase <= 7
    ensures Regroup(p, q, phase) == Or((p % Pow2(8 - phase)) * Pow2(phase), q / Pow2(7 - phase), 8)
  {
    ShiftKeepsLowBits(p, phase);
  }

  /** A regrouped byte is the low bits of the first septet, then the high bits of the second. */
  lemma RegroupedBits(p: Byte, q: Byte, phase: nat)
    requires 1 <= phase <= 7 && p < 0x80 && q < 0x80
    ensures Bits(Regroup(p, q, phase), 8) == Bits(p, 7)[phase - 1..] + Bits(q, 7)[..phase]
  {
    hide Bits, Regroup, Or, Pow2;
    var d, e := Pow2(8 - phase), Pow2(7 - phase);
    DivMod(p, d);
    DivMod(q, e);
    HighPartFits(q, phase);
    RegroupJoins(p, q, phase);
    OrOfParts(p % d, q / e, phase);
    LowBits(p / d, p % d, phase);
    HighBits(q / e, q % e, phase);
  }

  lemma OrOfParts(high: nat, low: nat, phase: nat)
    requires 1 <= phase <= 7 && low < Pow2(phase)
    ensures Bits(Or(high * Pow2(phase), low, 8), 8) == Bits(high, 8 - phase) + Bits(low, phase)
  {
    hide Bits, Or, Pow2;
    OrFillsLowBits(high, low, 8 - phase, phase);
    assert 8 - phase + phase == 8;
  }

  lemma LowBits(high: nat, low: nat, phase: nat)
    requires 1 <= phase <= 7 && low < Pow2(8 - phase)
    ensures Bits(high * Pow2(8 - phase) + low, 7)[phase - 1..] == Bits(low, 8 - phase)
  {
    hide Bits, Pow2;
    BitsSplit(high, low, phase - 1, 8 - phase);
    assert phase - 1 + (8 - phase) == 7;
  }

  lemma HighBits(high: nat, low: nat, phase: nat)
    requires 1 <= phase <= 7 && low < Pow2(7 - phase)
    ensures Bits(high * Pow2(7 - phase) + low, 7)[..phase] == Bits(high, phase)
  {
    hide Bits, Pow2;
    BitsSplit(high, low, phase, 7 - phase);
    assert phase + (7 - phase) == 7;
  }

  lemma HighPartFits(q: nat, phase: nat)
    requires phase <= 7 && q < 0x80
    ensures q / Pow2(7 - phase) < Pow2(phase)
  {
    Powers();
    QuotientFits(q, Pow2(7 - phase), Pow2(phase));
  }

  lemma QuotientFits(q: nat, e: nat, s: nat)
    requires e > 0 && q < e * s
    ensures q / e < s
  {
    DivMod(q, e);
    if q / e >= s {
      MulMonotone(s, q / e, e);
      assert false;
    }
  }

  lemma MulMonotone(a: nat, b: nat, n: nat)
    requires a <= b
    ensures a * n <= b * n
  {
  }

  /** Bits in n numbers of a width. */
  function Span(width: Width, n: nat): nat {
    if width == 7 then 7 * n else 8 * n
  }

  type Width = w: nat | w == 7 || w == 8 witness 8

  /** The bits of a sequence of numbers, `width` each. */
  function Stream(xs: seq<Byte>, width: Width): (b: seq<bool>)
    ensures |b| == Span(width, |xs|)
  {
    if xs == [] then [] else Stream(xs[..|xs| - 1], width) + Bits(xs[|xs| - 1], width)
  }

  lemma StreamLast(xs: seq<Byte>, width: Width)
    requires xs != []
    ensures var n := |xs| - 1; var b := Stream(xs, width);
      && Span(width, |xs|) == Span(width, n) + width
      && b[..Span(width, n)] == Stream(xs[..n], width)
      && b[Span(width, n)..] == Bits(xs[n], width)
  {
  }

  lemma {:induction false} StreamAt(xs: seq<Byte>, width: Width, i: nat)
    requires i < |xs|
    ensures Span(width, i) + width <= Span(width, |xs|)
    ensures Stream(xs, width)[Span(width, i)..Span(width, i) + width] == Bits(xs[i], width)
  {
    hide Stream, Bits;
    var n, b := |xs| - 1, Stream(xs, width);
    StreamLast(xs, width);
    SpanStep(width, i);
    if i < n {
      StreamAt(xs[..n], width, i);
      assert b[0..Span(width, n)] == b[..Span(width, n)];
      SubSlice(b, 0, Span(width, n), Span(width, i), Span(width, i) + width);
    } else {
      assert b[Span(width, n)..Span(width, n) + width] == b[Span(width, n)..];
    }
  }

  lemma SpanStep(width: Width, i: nat)
    ensures Span(width, i + 1) == Span(width, i) + width
  {
  }

  /** Raw bytes that n packed bytes give: seven per full group, one less than its length from a partial one. */
  function UnpackedLength(n: nat): (m: nat)
    ensures m == 7 * n / 8
  {
    7 * (n / 8) + if n % 8 > 0 then n % 8 - 1 else 0
  }

  /** The raw bytes of a packed sequence. */
  function Unpacked(packed: seq<Byte>): (raw: seq<Byte>)
    ensures |raw| == 7 * |packed| / 8
  {
    seq(UnpackedLength(|packed|), j requires 0 <= j < UnpackedLength(|packed|) => RawAt(packed, j))
  }

  function RawAt(packed: seq<Byte>, j: nat): Byte
    requires j < UnpackedLength(|packed|)
  {
    Regroup(packed[8 * (j / 7) + j % 7], packed[8 * (j / 7) + j % 7 + 1], j % 7 + 1)
  }

  predicate Septets(packed: seq<Byte>) {
    forall i :: 0 <= i < |packed| ==> packed[i] < 0x80
  }

  /** Where the bits of raw byte j lie in the packed sequence. */
  lemma RawIndex(n: nat, j: nat)
    requires j < UnpackedLength(n)
    ensures var i, phase := 8 * (j / 7) + j % 7, j % 7 + 1; i + 1 < n && 8 * j == 7 * i + phase - 1
  {
  }

  lemma RawBits(packed: seq<Byte>, j: nat)
    requires Septets(packed) && j < UnpackedLength(|packed|)
    ensures Bits(RawAt(packed, j), 8) == Stream(packed, 7)[8 * j..8 * j + 8]
  {
    hide UnpackedLength, Stream, Bits, Regroup;
    RawIndex(|packed|, j);
    TwoSeptetBits(packed, 8 * (j / 7) + j % 7, j % 7 + 1);
  }

  lemma SubSlice(b: seq<bool>, at: nat, len: nat, from: nat, to: nat)
    requires at + len <= |b| && from <= to <= len
    ensures b[at..at + len][from..to] == b[at + from..at + to]
  {
    var part, whole := b[at..at + len][from..to], b[at + from..at + to];
    assert |part| == |whole|;
    forall k | 0 <= k < |part|
      ensures part[k] == whole[k]
    {
      assert b[at..at + len][from + k] == b[at + from + k];
    }
  }

  lemma TwoSeptetBits(packed: seq<Byte>, i: nat, phase: nat)
    requires Septets(packed) && i + 1 < |packed| && 1 <= phase <= 7
    ensures 7 * i + phase + 7 <= |Stream(packed, 7)|
    ensures Bits(Regroup(packed[i], packed[i + 1], phase), 8) == Stream(packed, 7)[7 * i + phase - 1..7 * i + phase + 7]
  {
    hide Stream, Bits, Regroup;
    RegroupedBits(packed[i], packed[i + 1], phase);
    StreamAt(packed, 7, i);
    StreamAt(packed, 7, i + 1);
    var b := Stream(packed, 7);
    SubSlice(b, 7 * i, 7, phase - 1, 7);
    SubSlice(b, 7 * i + 7, 7, 0, phase);
    assert b[7 * i + phase - 1..7 * i + phase + 7] == b[7 * i + phase - 1..7 * i + 7] + b[7 * i + 7..7 * i + 7 + phase];
  }

  /** Unpacking regroups the septets' bit stream into bytes, as far as it fills them. */
  lemma UnpackRegroups(packed: seq<Byte>)
    requires Septets(packed)
    ensures Stream(Unpacked(packed), 8) == Stream(packed, 7)[..8 * |Unpacked(packed)|]
  {
    UnpackRegroupsUpTo(packed, |Unpacked(packed)|);
    assert Unpacked(packed)[..|Unpacked(packed)|] == Unpacked(packed);
  }

  lemma {:induction false} UnpackRegroupsUpTo(packed: seq<Byte>, n: nat)
    requires Septets(packed) && n <= |Unpacked(packed)|
    ensures Stream(Unpacked(packed)[..n], 8) == Stream(packed, 7)[..8 * n]
  {
    hide Stream, Unpacked, Septets, Bits, RawAt, UnpackedLength;
    var raw := Unpacked(packed);
    if n == 0 {
      NoStream(8);
    } else {
      UnpackRegroupsUpTo(packed, n - 1);
      RawByte(packed, n - 1);
      assert raw[..n] == raw[..n - 1] + [raw[n - 1]];
      StreamNext(raw[..n - 1], raw[n - 1], 8);
    }
    assert raw[..|raw|] == raw;
  }

  lemma RawByte(packed: seq<Byte>, j: nat)
    requires Septets(packed) && j < |Unpacked(packed)|
    ensures 8 * j + 8 <= |Stream(packed, 7)|
    ensures Bits(Unpacked(packed)[j], 8) == Stream(packed, 7)[8 * j..8 * j + 8]
  {
    hide Stream, Bits, Regroup, Septets;
    RawBits(packed, j);
  }

  /** Cut a bit string into septets; its length is a multiple of seven. */
  function Chop(b: seq<bool>): (packed: seq<Byte>)
    requires |b| % 7 == 0
    ensures Septets(packed) && |packed| == |b| / 7
  {
    if b == [] then []
    else
      Powers();
      Chop(b[..|b| - 7]) + [Value(b[|b| - 7..])]
  }

  function Padding(n: nat): (b: seq<bool>)
    ensures |b| < 7 && (n + |b|) % 7 == 0
  {
    seq((7 - n % 7) % 7, i => false)
  }

  /** The bits of a byte string, filled up with zeros. */
  function Padded(raw: seq<Byte>): (b: seq<bool>)
    ensures |b| % 7 == 0 && 8 * |raw| <= |b| < 8 * |raw| + 7
    ensures b[..8 * |raw|] == Stream(raw, 8)
  {
    Stream(raw, 8) + Padding(8 * |raw|)
  }

  /** The packed form of a byte string. */
  function Pack(raw: seq<Byte>): (packed: seq<Byte>)
    ensures Septets(packed)
  {
    Chop(Padded(raw))
  }

  lemma StreamNext(xs: seq<Byte>, x: Byte, width: Width)
    ensures Stream(xs + [x], width) == Stream(xs, width) + Bits(x, width)
  {
    assert (xs + [x])[..|xs|] == xs;
  }

  lemma {:induction false} StreamOfChop(b: seq<bool>)
    requires |b| % 7 == 0
    ensures Stream(Chop(b), 7) == b
  {
    hide Stream, Bits, Value, Pow2;
    if b == [] {
      NoStream(7);
    } else {
      var init, last := b[..|b| - 7], b[|b| - 7..];
      Powers();
      StreamOfChop(init);
      BitsOfValue(last);
      StreamNext(Chop(init), Value(last), 7);
    }
  }

  lemma NoStream(width: Width)
    ensures Stream([], width) == []
  {
  }

  lemma {:induction false} StreamDetermines(a: seq<Byte>, b: seq<Byte>, width: Width)
    requires |a| == |b| && Stream(a, width) == Stream(b, width)
    requires width == 7 ==> Septets(a) && Septets(b)
    ensures a == b
  {
    hide Stream, Bits, Value, Pow2;
    if a != [] {
      var n := |a| - 1;
      StreamLast(a, width);
      StreamLast(b, width);
      StreamDetermines(a[..n], b[..n], width);
      NumberOfWidth(a, width, n);
      NumberOfWidth(b, width, n);
      assert a[n] == b[n];
      assert a == a[..n] + [a[n]] && b == b[..n] + [b[n]];
    }
  }

  lemma NumberOfWidth(xs: seq<Byte>, width: Width, i: nat)
    requires i < |xs| && (width == 7 ==> Septets(xs))
    ensures Value(Bits(xs[i], width)) == xs[i]
  {
    Powers();
    ValueOfBits(xs[i], width);
  }

  /** Unpacking undoes packing, for every byte string. */
  lemma UnpackUndoesPack(raw: seq<Byte>)
    ensures Septets(Pack(raw)) && Unpacked(Pack(raw)) == raw
  {
    hide Stream, Padded, Pack, Septets, Unpacked;
    var packed := Pack(raw);
    PackIsChop(raw);
    UnpackRegroups(packed);
    WholeBytesBack(|raw|, |packed|);
    StreamDetermines(Unpacked(packed), raw, 8);
  }

  lemma WholeBytesBack(n: nat, m: nat)
    requires 8 * n <= Span(7, m) < 8 * n + 7
    ensures 7 * m / 8 == n
  {
  }

  /** The bits after the last whole byte are all zero. */
  predicate SpareBitsZero(bits: seq<bool>) {
    forall k :: 8 * (|bits| / 8) <= k < |bits| ==> !bits[k]
  }

  /** A septet sequence is the packing of something exactly when no septet is left over and the spare bits are zero. */
  lemma PackUndoesUnpackIff(packed: seq<Byte>)
    requires Septets(packed)
    ensures Pack(Unpacked(packed)) == packed <==> |packed| % 8 != 1 && SpareBitsZero(Stream(packed, 7))
  {
    hide Stream, Unpacked, Padding, Septets, SpareBitsZero;
    var raw, bits := Unpacked(packed), Stream(packed, 7);
    var used := 8 * |raw|;
    UnpackRegroups(packed);
    PackedLengths(|packed|);
    WholeBytes(|packed|);
    ZeroFilled(bits, used);
    assert Stream(raw, 8) + Padding(used) == bits[..used] + Padding(used);
    PackedAs(raw, packed);
  }

  lemma WholeBytes(n: nat)
    ensures 8 * (7 * n / 8) == 8 * (Span(7, n) / 8)
  {
  }

  /** The packing of raw is the septet sequence whose bits are raw's, filled up. */
  lemma PackedAs(raw: seq<Byte>, packed: seq<Byte>)
    requires Septets(packed)
    ensures Pack(raw) == packed <==> Stream(raw, 8) + Padding(8 * |raw|) == Stream(packed, 7)
  {
    hide Stream, Padding, Pack, Septets;
    PackIsChop(raw);
    SameStream(Pack(raw), packed);
  }

  lemma PackIsChop(raw: seq<Byte>)
    ensures Stream(Pack(raw), 7) == Padded(raw)
  {
    hide Stream, Chop, Padded, Septets;
    StreamOfChop(Padded(raw));
  }

  lemma SameStream(a: seq<Byte>, b: seq<Byte>)
    requires Septets(a) && Septets(b)
    ensures a == b <==> Stream(a, 7) == Stream(b, 7)
  {
    hide Stream, Septets;
    if Stream(a, 7) == Stream(b, 7) {
      assert Span(7, |a|) == Span(7, |b|);
      StreamDetermines(a, b, 7);
    }
  }

  lemma ZeroFilled(bits: seq<bool>, used: nat)
    requires used == 8 * (|bits| / 8)
    ensures bits[..used] + Padding(used) == bits <==> used + |Padding(used)| == |bits| && SpareBitsZero(bits)
  {
    var padded := bits[..used] + Padding(used);
    if padded == bits {
      assert forall k :: used <= k < |bits| ==> bits[k] == padded[k];
    }
  }

  /** The spare bits of n septets are fewer than seven unless one septet too many was sent. */
  lemma PackedLengths(n: nat)
    ensures 8 * (7 * n / 8) + |Padding(8 * (7 * n / 8))| == 7 * n <==> n % 8 != 1
  {
    hide Padding;
    var q, r := n / 8, n % 8;
    assert 7 * n / 8 == 7 * q + if r == 0 then 0 else r - 1;
    PaddingLength(q, if r == 0 then 0 else r - 1);
  }

  lemma PaddingLength(q: nat, k: nat)
    requires k < 7
    ensures |Padding(8 * (7 * q + k))| == if k == 0 then 0 else 7 - k
  {
    assert 8 * (7 * q + k) == 7 * (8 * q + k) + k;
    assert (8 * (7 * q + k)) % 7 == k;
  }

  /** Unpack into a buffer of limited capacity. */
  method Unpack7Bit(packed: seq<Byte>, raw: array<Byte>) returns (used: nat)
    modifies raw
    ensures used == (if 7 * |packed| / 8 <= raw.Length then 7 * |packed| / 8 else raw.Length)
    ensures raw[..used] == Unpacked(packed)[..used]
  {
    hide Unpacked, Regroup, UnpackedLength;
    used := 0;
    var offset := 0;
    UnpackedSoFar(packed, 0);
    while offset + 1 < |packed|
      invariant offset % 8 == 0 && offset < |packed| + 8 && used <= raw.Length
      invariant used == if offset <= |packed| then 7 * (offset / 8) else UnpackedLength(|packed|)
      invariant used <= UnpackedLength(|packed|) && raw[..used] == Unpacked(packed)[..used]
    {
      var available := |packed| - offset;
      if available > 8 {
        available := 8;
      }
      UnpackedSoFar(packed, offset);
      ghost var start := used;
      for phase := 1 to available
        invariant used == start + phase - 1 <= UnpackedLength(|packed|) && used <= raw.Length
        invariant raw[..used] == Unpacked(packed)[..used]
      {
        UnpackedAt(packed, offset, phase);
        if used == raw.Length {
          return;
        }
        raw[used] := Regroup(packed[offset + phase - 1], packed[offset + phase], phase);
        used := used + 1;
      }
      offset := offset + 8;
    }
    UnpackedSoFar(packed, offset);
  }

  /** Raw bytes before a group, and where the last group ends. */
  lemma UnpackedSoFar(packed: seq<Byte>, offset: nat)
    requires offset % 8 == 0 && offset < |packed| + 8
    ensures offset + 8 <= |packed| ==> 7 * ((offset + 8) / 8) == 7 * (offset / 8) + 7 <= UnpackedLength(|packed|)
    ensures offset + 1 < |packed| < offset + 8 ==> UnpackedLength(|packed|) == 7 * (offset / 8) + |packed| - offset - 1
    ensures offset <= |packed| <= offset + 1 ==> UnpackedLength(|packed|) == 7 * (offset / 8)
    ensures offset <= |packed| ==> 7 * (offset / 8) <= UnpackedLength(|packed|)
  {
    var n, q := |packed|, offset / 8;
    assert offset == 8 * q;
    if offset <= n < offset + 8 {
      assert n / 8 == q && n % 8 == n - offset;
    } else if offset + 8 <= n {
      assert n / 8 >= q + 1;
    }
  }

  lemma UnpackedAt(packed: seq<Byte>, offset: nat, phase: nat)
    requires offset % 8 == 0 && 1 <= phase <= 7 && offset + phase < |packed|
    ensures var j := 7 * (offset / 8) + phase - 1;
      && j < UnpackedLength(|packed|)
      && Unpacked(packed)[j] == Regroup(packed[offset + phase - 1], packed[offset + phase], phase)
  {
    var j := 7 * (offset / 8) + phase - 1;
    assert j / 7 == offset / 8 && j % 7 == phase - 1;
  }
}
