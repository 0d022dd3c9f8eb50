/**
 * Where capture frames go: each becomes eight samples and one ring write, so a full ring drops whole frames and
 * never tears one.
 */
module CaptureSink {
  import opened Words
  import opened AudioRing

  const LANES: nat := 8

  /** A 32-bit sample as a fraction of full scale. */
  function Fraction(word: int): (sample: real)
    ensures 2147483648.0 * sample == word as real
  {
    word as real / 2147483648.0
  }

  function Fractions(frame: seq<int>): (s: seq<real>)
    ensures |s| == |frame|
  {
    seq(|frame|, c requires 0 <= c < |frame| => Fraction(frame[c]))
  }

  /** The samples of the frames with the given numbers, in order. */
  function Published(emitted: seq<seq<int>>, kept: seq<nat>): seq<real>
    requires forall i :: 0 <= i < |kept| ==> kept[i] < |emitted|
  {
    if kept == [] then []
    else Published(emitted, kept[..|kept| - 1]) + Fractions(emitted[kept[|kept| - 1]])
  }

  predicate Ascending(kept: seq<nat>, end: nat) {
    && (forall i :: 0 <= i < |kept| ==> kept[i] < end)
    && forall i, j :: 0 <= i < j < |kept| ==> kept[i] < kept[j]
  }

  predicate AllFrames(emitted: seq<seq<int>>) {
    forall i :: 0 <= i < |emitted| ==> |emitted[i]| == LANES
  }

  lemma {:induction false} PublishedGrows(emitted: seq<seq<int>>, more: seq<int>, kept: seq<nat>)
    requires forall i :: 0 <= i < |kept| ==> kept[i] < |emitted|
    ensures Published(emitted + [more], kept) == Published(emitted, kept)
  {
    if kept != [] {
      PublishedGrows(emitted, more, kept[..|kept| - 1]);
    }
  }

  lemma PublishedNext(emitted: seq<seq<int>>, more: seq<int>, kept: seq<nat>)
    requires forall i :: 0 <= i < |kept| ==> kept[i] < |emitted|
    ensures Published(emitted + [more], kept + [|emitted|]) == Published(emitted, kept) + Fractions(more)
  {
    hide Fractions;
    PublishedGrows(emitted, more, kept);
    assert (kept + [|emitted|])[..|kept|] == kept;
  }

  /** Frame i of the ring is the i-th kept frame, channel by channel. */
  lemma {:induction false} PublishedAt(emitted: seq<seq<int>>, kept: seq<nat>, i: nat, c: nat)
    requires AllFrames(emitted) && i < |kept| && c < LANES
    requires forall k :: 0 <= k < |kept| ==> kept[k] < |emitted|
    ensures |Published(emitted, kept)| == LANES * |kept|
    ensures Published(emitted, kept)[LANES * i + c] == Fraction(emitted[kept[i]][c])
  {
    var n := |kept| - 1;
    if n > 0 {
      PublishedAt(emitted, kept[..n], if i < n then i else 0, c);
    }
  }

  lemma {:induction false} PublishedLength(emitted: seq<seq<int>>, kept: seq<nat>)
    requires AllFrames(emitted) && forall k :: 0 <= k < |kept| ==> kept[k] < |emitted|
    ensures |Published(emitted, kept)| == LANES * |kept|
  {
    if kept != [] {
      PublishedLength(emitted, kept[..|kept| - 1]);
    }
  }

  /** How far the feed has come: frames emitted, the numbers of those the ring took, and frames read or skipped. */
  datatype Feed = Feed(emitted: nat, kept: seq<nat>, taken: nat)

  /** Consecutive frame numbers. */
  function Numbers(from: nat, n: nat): (s: seq<nat>)
    ensures |s| == n
  {
    seq(n, i requires 0 <= i => from + i)
  }

  function Least(a: int, b: int): int {
    if a < b then a else b
  }

  /** Frames the ring still has room for. */
  function Room(f: Feed): int {
    RING_FRAMES - (|f.kept| - f.taken)
  }

  /** From one point of a feed to another with no read between: the ring takes the first new frames, up to its room. */
  predicate Grew(f: Feed, g: Feed) {
    && f.taken <= |f.kept| <= f.taken + RING_FRAMES
    && g.taken == f.taken && g.emitted >= f.emitted
    && g.kept == f.kept + Numbers(f.emitted, Least(Room(f), g.emitted - f.emitted))
  }

  lemma GrewNot(f: Feed)
    requires f.taken <= |f.kept| <= f.taken + RING_FRAMES
    ensures Grew(f, f)
  {
    assert f.kept + [] == f.kept;
  }

  /** Feeding twice is feeding the whole. */
  lemma GrewFurther(f: Feed, g: Feed, h: Feed)
    requires Grew(f, g) && Grew(g, h)
    ensures Grew(f, h)
  {
    var n, m := Least(Room(f), g.emitted - f.emitted), Least(Room(g), h.emitted - g.emitted);
    if n == g.emitted - f.emitted {
      assert Numbers(f.emitted, n) + Numbers(g.emitted, m) == Numbers(f.emitted, n + m);
    } else {
      assert m == 0 && Numbers(f.emitted, n) + Numbers(g.emitted, 0) == Numbers(f.emitted, n);
    }
    assert h.kept == f.kept + (Numbers(f.emitted, n) + Numbers(g.emitted, m));
  }

  /** Every frame emitted so far is in the ring's stream. */
  predicate NothingDropped(f: Feed) {
    f.kept == Numbers(0, f.emitted)
  }

  /** One stretch of feeding loses nothing exactly when its frames fit the room there was. */
  lemma KeepsAllIff(f: Feed, g: Feed)
    requires Grew(f, g) && Ascending(f.kept, f.emitted)
    ensures NothingDropped(g) <==> NothingDropped(f) && g.emitted - f.emitted <= Room(f)
    ensures Ascending(g.kept, g.emitted)
  {
    var n := Least(Room(f), g.emitted - f.emitted);
    AscendingFits(f.kept, f.emitted);
    if NothingDropped(f) && n == g.emitted - f.emitted {
      assert Numbers(0, f.emitted) + Numbers(f.emitted, n) == Numbers(0, g.emitted);
    }
    if NothingDropped(g) {
      assert |g.kept| == |f.kept| + n;
      assert f.kept == g.kept[..|f.kept|] == Numbers(0, f.emitted);
    }
  }

  lemma {:induction false} AscendingFits(kept: seq<nat>, end: nat)
    requires Ascending(kept, end)
    ensures |kept| <= end
  {
    if kept != [] {
      AscendingFits(kept[..|kept| - 1], kept[|kept| - 1]);
    }
  }

  /** Between two stretches a reader may take frames or skip them. */
  predicate WasRead(f: Feed, g: Feed) {
    g == f.(taken := g.taken) && f.taken <= g.taken <= |f.kept|
  }

  /** A feed from an empty ring: stretches of feeding, and reads between them. */
  predicate Feeding(feeds: seq<Feed>) {
    && feeds != [] && feeds[0] == Feed(0, [], 0)
    && forall k :: 0 < k < |feeds| ==> Grew(feeds[k - 1], feeds[k]) || WasRead(feeds[k - 1], feeds[k])
  }

  /** Over any such run nothing is lost exactly when every stretch fitted the room it found. */
  lemma {:induction false} NothingDroppedIff(feeds: seq<Feed>)
    requires Feeding(feeds)
    ensures var last := feeds[|feeds| - 1];
      && Ascending(last.kept, last.emitted)
      && (NothingDropped(last)
          <==> forall k :: 0 < k < |feeds| && Grew(feeds[k - 1], feeds[k]) ==>
                 feeds[k].emitted - feeds[k - 1].emitted <= Room(feeds[k - 1]))
  {
    hide Grew, Ascending, NothingDropped;
    var n := |feeds| - 1;
    if n == 0 {
      EmptyFeed();
    } else {
      NothingDroppedIff(feeds[..n]);
      if Grew(feeds[n - 1], feeds[n]) {
        KeepsAllIff(feeds[n - 1], feeds[n]);
      } else {
        ReadKeepsAll(feeds[n - 1], feeds[n]);
      }
    }
  }

  lemma EmptyFeed()
    ensures Ascending([], 0) && NothingDropped(Feed(0, [], 0))
  {
  }

  lemma ReadKeepsAll(f: Feed, g: Feed)
    requires WasRead(f, g)
    ensures NothingDropped(f) <==> NothingDropped(g)
  {
  }

  class Sink {
    const ring: Ring
    ghost var emitted: seq<seq<int>>
    ghost var kept: seq<nat>

    ghost predicate Valid()
      reads this, ring, ring.buf
    {
      && ring.Valid() && ring.nch == LANES && |kept| == ring.written
      && AllFrames(emitted) && Ascending(kept, |emitted|)
      && ring.accepted == Published(emitted, kept)
    }

    ghost function Fed(): Feed
      reads this, ring
    {
      Feed(|emitted|, kept, ring.taken)
    }

    constructor (ring: Ring)
      requires ring.Valid() && ring.nch == LANES && ring.written == 0
      ensures Valid() && this.ring == ring && emitted == [] && Fed() == Feed(0, [], 0)
    {
      this.ring, emitted, kept := ring, [], [];
      new;
      NoFrames();
    }

    /** Publish one frame; it is dropped exactly when the ring is full. */
    method EmitSuperframe(lanes: array<int>)
      requires Valid() && lanes.Length == LANES
      modifies this, ring, ring.buf
      ensures Valid() && emitted == old(emitted) + [lanes[..]]
      ensures Grew(old(Fed()), Fed())
    {
      hide Published, Fractions, Recent;
      var samples := new real[LANES];
      for c := 0 to LANES
        modifies samples
        invariant samples[..c] == Fractions(lanes[..c])
      {
        NextFraction(lanes[..], c);
        samples[c] := Fraction(lanes[c]);
      }
      NoFrames();
      PublishedGrows(emitted, lanes[..], kept);
      PublishedNext(emitted, lanes[..], kept);
      assert samples[..] == samples[..LANES] && lanes[..] == lanes[..LANES];
      OneMore(Fed());
      var n := ring.Write(samples, 1);
      if n == 1 {
        kept := kept + [|emitted|];
      }
      emitted := emitted + [lanes[..]];
    }
  }

  lemma OneMore(f: Feed)
    requires f.taken <= |f.kept| <= f.taken + RING_FRAMES
    ensures Grew(f, f.(emitted := f.emitted + 1, kept := f.kept + if Room(f) > 0 then [f.emitted] else []))
  {
  }

  lemma NextFraction(lanes: seq<int>, c: nat)
    requires c < |lanes|
    ensures Fractions(lanes[..c + 1]) == Fractions(lanes[..c]) + [Fraction(lanes[c])]
    ensures Fractions([]) == []
  {
  }

  lemma NoFrames()
    ensures Samples(0, LANES) == 0 && Samples(1, LANES) == LANES
  {
  }
}
