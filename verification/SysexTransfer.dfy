/**
 * Whole SysEx messages over USB-MIDI: the packer that cuts a message into events, and the reader that collects
 * one message from bounded endpoint reads, whatever other traffic surrounds it.
 */
module SysexTransfer {
  import opened Words
  import opened UsbMidi

  const MAX_READS: nat := 4096
  const RIG_CABLE: Nibble := 0

  /** The events of a message: groups of three, the code index telling where the end byte is. */
  function SysexGroups(midi: seq<Byte>): seq<Event> {
    if midi == [] then []
    else
      var count := if |midi| >= 3 then 3 else |midi|;
      [Packed(RIG_CABLE, PackCin(midi[..count]), midi[..count])] + SysexGroups(midi[count..])
  }

  function PackCin(group: seq<Byte>): Nibble
    requires 1 <= |group| <= 3
  {
    if group[|group| - 1] == SYSEX_END then GroupCin(|group|, 7) else 4
  }

  /** A group reads back as itself, unless it is short and does not end the message: then it gains padding. */
  lemma GroupRoundTrip(g: seq<Byte>)
    requires 1 <= |g| <= 3
    ensures var back := Decode([Packed(RIG_CABLE, PackCin(g), g)], RIG_CABLE);
      if |g| == 3 || g[|g| - 1] == SYSEX_END then back == g else |back| == 3
  {
    var e := Packed(RIG_CABLE, PackCin(g), g);
    assert Decode([e], RIG_CABLE) == Carried(e) + [];
  }

  /** Packing loses nothing exactly when the last group is full or ends the message. */
  lemma {:induction false} GroupsRoundTripIff(midi: seq<Byte>)
    ensures Decode(SysexGroups(midi), RIG_CABLE) == midi
       <==> |midi| % 3 == 0 || midi[|midi| - 1] == SYSEX_END
  {
    hide SysexGroups, Packed, Decode;
    if midi == [] {
      GroupsOfNone(midi);
      DecodeNone(RIG_CABLE);
    } else {
      var count := if |midi| >= 3 then 3 else |midi|;
      var g, rest := midi[..count], midi[count..];
      assert midi == g + rest;
      GroupsStep(midi);
      GroupRoundTrip(g);
      DecodeConcat([Packed(RIG_CABLE, PackCin(g), g)], SysexGroups(rest), RIG_CABLE);
      GroupsRoundTripIff(rest);
      SamePrefix(g, Decode(SysexGroups(rest), RIG_CABLE), rest);
      if count < 3 {
        assert rest == [];
      } else if rest != [] {
        assert rest[|rest| - 1] == midi[|midi| - 1];
      }
    }
  }

  /** Pack a message into a buffer; 0 when the buffer is too small. */
  method EncodeSysex(midi: seq<Byte>, usb: array<Byte>) returns (output: nat)
    modifies usb
    ensures 4 * |SysexGroups(midi)| <= usb.Length ==>
      output == 4 * |SysexGroups(midi)| && usb[..output] == Bytes(SysexGroups(midi))
    ensures 4 * |SysexGroups(midi)| > usb.Length ==> output == 0
  {
    hide SysexGroups, Packed, Bytes, EventBytes, PackCin;
    var input := 0;
    output := 0;
    ghost var whole, done := SysexGroups(midi), [];
    BytesOfNone();
    assert midi[0..] == midi && done + whole == whole;
    while input < |midi|
      invariant input <= |midi| && output == 4 * |done| <= usb.Length
      invariant done + SysexGroups(midi[input..]) == whole
      invariant usb[..output] == Bytes(done)
    {
      var remaining := |midi| - input;
      var count := if remaining >= 3 then 3 else remaining;
      var cin: Nibble := 4;
      if midi[input + count - 1] == SYSEX_END {
        cin := if count == 1 then 5 else if count == 2 then 6 else 7;
      }
      NextGroup(midi, input, done);
      ghost var e := Packed(RIG_CABLE, cin, midi[input..input + count]);
      if output + 4 > usb.Length {
        return 0;
      }
      StoreEvent(usb, output, cin, midi[input..input + count]);
      BytesOfNext(done, e);
      done := done + [e];
      output := output + 4;
      input := input + count;
    }
    GroupsOfNone(midi[input..]);
    assert done + [] == done;
  }

  /** The group that starts at a position, and what follows it. */
  lemma NextGroup(midi: seq<Byte>, input: nat, done: seq<Event>)
    requires input < |midi|
    ensures var count := if |midi| - input >= 3 then 3 else |midi| - input;
      var cin := if midi[input + count - 1] != SYSEX_END then 4
                 else if count == 1 then 5 else if count == 2 then 6 else 7;
      done + SysexGroups(midi[input..])
      == done + [Packed(RIG_CABLE, cin, midi[input..input + count])] + SysexGroups(midi[input + count..])
  {
    hide SysexGroups, Packed;
    var count := if |midi| - input >= 3 then 3 else |midi| - input;
    GroupsStep(midi[input..]);
    assert midi[input..][..count] == midi[input..input + count] && midi[input..][count..] == midi[input + count..];
  }

  method StoreEvent(usb: array<Byte>, at: nat, cin: Nibble, g: seq<Byte>)
    requires at + 4 <= usb.Length && 1 <= |g| <= 3
    modifies usb
    ensures usb[..at + 4] == old(usb[..at]) + EventBytes(Packed(RIG_CABLE, cin, g))
  {
    usb[at] := cin;
    usb[at + 1] := g[0];
    usb[at + 2] := if |g| > 1 then g[1] else 0;
    usb[at + 3] := if |g| > 2 then g[2] else 0;
  }

  lemma GroupsStep(midi: seq<Byte>)
    requires midi != []
    ensures var count := if |midi| >= 3 then 3 else |midi|;
      var cin := if midi[count - 1] != SYSEX_END then 4 else if count == 1 then 5 else if count == 2 then 6 else 7;
      SysexGroups(midi) == [Packed(RIG_CABLE, cin, midi[..count])] + SysexGroups(midi[count..])
  {
  }

  /** A group's code index belongs to SysEx: 4 for one that goes on, 5 to 7 for an end after one to three bytes. */
  lemma {:induction false} GroupCodes(midi: seq<Byte>, k: nat)
    requires k < |SysexGroups(midi)|
    ensures var end := 3 * k + 2 >= |midi| || midi[3 * k + 2] == SYSEX_END;
      SysexGroups(midi)[k].cin in {4, 5, 6, 7} && (end || SysexGroups(midi)[k].cin == 4)
  {
    GroupsStep(midi);
    if k > 0 {
      GroupCodes(midi[3..], k - 1);
    }
  }

  /** Both encoders cut a whole SysEx message into the same events. */
  lemma EncodersAgree(midi: seq<Byte>)
    requires IsSysex(midi)
    ensures Encode(RIG_CABLE, midi) == SysexGroups(midi)
  {
    hide SysexGroups, SysexEvents, Encode;
    EndedGroups(midi);
    assert midi == [midi[0]] + midi[1..] && [] + [midi[0]] == [SYSEX_START];
    OneMore(midi[0], midi[1..], []);
    EncodeSysexStep(midi);
  }

  lemma EncodeSysexStep(midi: seq<Byte>)
    requires midi != [] && midi[0] == SYSEX_START
    ensures var (events, after) := SysexEvents(RIG_CABLE, [SYSEX_START], midi[1..]);
      after == [] ==> Encode(RIG_CABLE, midi) == events
  {
    assert Encode(RIG_CABLE, []) == [];
  }

  /** The stream encoder takes the next byte of a SysEx message. */
  lemma OneMore(b: Byte, rest: seq<Byte>, group: seq<Byte>)
    requires |group| < 3
    ensures var all, g := SysexEvents(RIG_CABLE, group, [b] + rest), group + [b];
      && (b == SYSEX_END ==> all == ([Packed(RIG_CABLE, GroupCin(|g|, 7), g)], rest))
      && (b != SYSEX_END && |g| < 3 ==> all == SysexEvents(RIG_CABLE, g, rest))
      && (b != SYSEX_END && |g| == 3 ==>
            var more := SysexEvents(RIG_CABLE, [], rest); all == ([Packed(RIG_CABLE, 4, g)] + more.0, more.1))
  {
    assert ([b] + rest)[1..] == rest;
  }

  lemma LastByte(group: seq<Byte>)
    requires |group| < 3
    ensures SysexEvents(RIG_CABLE, group, [SYSEX_END])
         == ([Packed(RIG_CABLE, GroupCin(|group| + 1, 7), group + [SYSEX_END])], [])
  {
    hide SysexEvents, Packed, GroupCin;
    assert [SYSEX_END] + [] == [SYSEX_END];
    OneMore(SYSEX_END, [], group);
  }

  predicate Ended(rest: seq<Byte>) {
    rest != [] && rest[|rest| - 1] == SYSEX_END && forall k :: 0 <= k < |rest| - 1 ==> rest[k] != SYSEX_END
  }

  /** Where the stream encoder stands after the first n bytes of a group. */
  lemma {:induction false} GroupTaken(rest: seq<Byte>, n: nat)
    requires n < 3 && n < |rest| && Ended(rest)
    ensures SysexEvents(RIG_CABLE, [], rest) == SysexEvents(RIG_CABLE, rest[..n], rest[n..])
  {
    hide SysexEvents;
    if n == 0 {
      assert rest[..0] == [] && rest[0..] == rest;
    } else {
      GroupTaken(rest, n - 1);
      SplitAt(rest, n - 1);
      OneMore(rest[n - 1], rest[n..], rest[..n - 1]);
    }
  }

  lemma SplitAt(rest: seq<Byte>, n: nat)
    requires n < |rest|
    ensures rest[n..] == [rest[n]] + rest[n + 1..] && rest[..n] + [rest[n]] == rest[..n + 1]
  {
  }

  lemma {:induction false} EndedGroups(rest: seq<Byte>)
    requires Ended(rest)
    ensures SysexEvents(RIG_CABLE, [], rest) == (SysexGroups(rest), [])
  {
    hide SysexEvents, SysexGroups, Packed;
    if |rest| > 3 {
      EndedGroups(rest[3..]);
      FullGroup(rest);
    } else {
      LastGroup(rest);
    }
  }

  lemma FullGroup(rest: seq<Byte>)
    requires Ended(rest) && |rest| > 3
    requires SysexEvents(RIG_CABLE, [], rest[3..]) == (SysexGroups(rest[3..]), [])
    ensures SysexEvents(RIG_CABLE, [], rest) == (SysexGroups(rest), [])
  {
    hide SysexEvents, SysexGroups, Packed;
    GroupTaken(rest, 2);
    SplitAt(rest, 2);
    OneMore(rest[2], rest[3..], rest[..2]);
    GroupsStep(rest);
  }

  lemma LastGroup(rest: seq<Byte>)
    requires Ended(rest) && |rest| <= 3
    ensures SysexEvents(RIG_CABLE, [], rest) == (SysexGroups(rest), [])
  {
    hide SysexEvents, SysexGroups, Packed, GroupCin;
    var n := |rest| - 1;
    GroupTaken(rest, n);
    assert rest[n..] == [SYSEX_END];
    assert rest == rest[..n] + [SYSEX_END];
    LastByte(rest[..n]);
    LastGroupAlone(rest);
  }

  lemma LastGroupAlone(rest: seq<Byte>)
    requires Ended(rest) && |rest| <= 3
    ensures SysexGroups(rest) == [Packed(RIG_CABLE, GroupCin(|rest|, 7), rest)]
  {
    hide SysexGroups, Packed;
    GroupsStep(rest);
    assert rest[..|rest|] == rest;
    GroupsOfNone(rest[|rest|..]);
  }

  lemma GroupsOfNone(midi: seq<Byte>)
    requires midi == []
    ensures SysexGroups(midi) == []
  {
  }

  lemma BytesOfNone()
    ensures Bytes([]) == []
  {
  }

  lemma BytesOfNext(events: seq<Event>, e: Event)
    ensures Bytes(events + [e]) == Bytes(events) + EventBytes(e)
  {
    assert (events + [e])[..|events|] == events;
  }

  datatype Outcome = Complete(message: seq<Byte>) | TooLong | Pending(partial: seq<Byte>)

  /** Collect one message from a byte stream: everything before the start byte is ignored. */
  function Listen(stream: seq<Byte>, partial: seq<Byte>, capacity: nat): Outcome {
    if stream == [] then Pending(partial)
    else if partial == [] && stream[0] != SYSEX_START then Listen(stream[1..], partial, capacity)
    else if |partial| == capacity then TooLong
    else if stream[0] == SYSEX_END then Complete(partial + [SYSEX_END])
    else Listen(stream[1..], partial + [stream[0]], capacity)
  }

  /** A message as the tools mean it: the start byte first, the end byte last and nowhere else. */
  predicate IsSysex(m: seq<Byte>) {
    && |m| >= 2 && m[0] == SYSEX_START && m[|m| - 1] == SYSEX_END
    && forall k :: 0 <= k < |m| - 1 ==> m[k] != SYSEX_END
  }

  lemma {:induction false} ListenToBody(body: seq<Byte>, after: seq<Byte>, partial: seq<Byte>, capacity: nat)
    requires partial != [] && SYSEX_END !in body && |partial| + |body| + 1 <= capacity
    ensures Listen(body + [SYSEX_END] + after, partial, capacity) == Complete(partial + body + [SYSEX_END])
  {
    var stream := body + [SYSEX_END] + after;
    if body != [] {
      ListenToBody(body[1..], after, partial + [body[0]], capacity);
      assert stream[1..] == body[1..] + [SYSEX_END] + after;
      assert partial + [body[0]] + body[1..] + [SYSEX_END] == partial + body + [SYSEX_END];
    }
  }

  /** A message is picked out of whatever precedes and follows it. */
  lemma {:induction false} ListenFindsMessage(before: seq<Byte>, m: seq<Byte>, after: seq<Byte>, capacity: nat)
    requires SYSEX_START !in before && IsSysex(m) && |m| <= capacity
    ensures Listen(before + m + after, [], capacity) == Complete(m)
  {
    var stream := before + m + after;
    if before != [] {
      assert stream[1..] == before[1..] + m + after;
      ListenFindsMessage(before[1..], m, after, capacity);
    } else {
      var body := m[1..|m| - 1];
      assert stream[0] == SYSEX_START && [] + [stream[0]] == [SYSEX_START];
      assert stream[1..] == body + [SYSEX_END] + after;
      ListenToBody(body, after, [SYSEX_START], capacity);
      assert [SYSEX_START] + body + [SYSEX_END] == m;
    }
  }

  /** Only such messages, within capacity, are ever returned. */
  lemma {:induction false} ListenReturnsSysex(stream: seq<Byte>, partial: seq<Byte>, capacity: nat)
    requires partial != [] ==> partial[0] == SYSEX_START && SYSEX_END !in partial
    requires |partial| <= capacity
    ensures var o := Listen(stream, partial, capacity);
      o.Complete? ==> IsSysex(o.message) && |o.message| <= capacity
    decreases |stream|
  {
    if stream != [] {
      if partial == [] && stream[0] != SYSEX_START {
        ListenReturnsSysex(stream[1..], partial, capacity);
      } else if |partial| < capacity && stream[0] != SYSEX_END {
        ListenReturnsSysex(stream[1..], partial + [stream[0]], capacity);
      }
    }
  }

  /** Listening in two parts is listening to both. */
  lemma {:induction false} ListenOverflows(body: seq<Byte>, after: seq<Byte>, partial: seq<Byte>, capacity: nat)
    requires partial != [] && SYSEX_END !in body && |partial| <= capacity
    ensures var o := Listen(body + after, partial, capacity);
      && (|partial| + |body| > capacity ==> o == TooLong)
      && (|partial| + |body| == capacity && after != [] ==> o == TooLong)
      && (|partial| + |body| <= capacity && after == [] ==> o == Pending(partial + body))
  {
    var stream := body + after;
    if body == [] {
      assert stream == after;
    } else {
      assert stream[0] == body[0] && stream[1..] == body[1..] + after;
      if |partial| < capacity {
        ListenOverflows(body[1..], after, partial + [body[0]], capacity);
        assert partial + [body[0]] + body[1..] == partial + body;
      }
    }
  }

  /** Without an end that fits nothing is returned: listening goes on while what has come of the message fits, and the
      first byte that does not fit ends it. */
  lemma {:induction false} ListenFindsNoMessage(before: seq<Byte>, body: seq<Byte>, after: seq<Byte>, capacity: nat)
    requires SYSEX_START !in before && SYSEX_END !in body && capacity > 0
    ensures Listen(before, [], capacity) == Pending([])
    ensures var o := Listen(before + ([SYSEX_START] + body + after), [], capacity);
      && (1 + |body| > capacity || (1 + |body| == capacity && after != []) ==> o == TooLong)
      && (1 + |body| <= capacity && after == [] ==> o == Pending([SYSEX_START] + body))
  {
    var rest := [SYSEX_START] + body + after;
    if before == [] {
      assert before + rest == rest && rest[1..] == body + after && [] + [SYSEX_START] == [SYSEX_START];
      ListenOverflows(body, after, [SYSEX_START], capacity);
    } else {
      assert (before + rest)[1..] == before[1..] + rest;
      ListenFindsNoMessage(before[1..], body, after, capacity);
    }
  }

  lemma {:induction false} ListenResumes(a: seq<Byte>, b: seq<Byte>, partial: seq<Byte>, capacity: nat)
    ensures Listen(a + b, partial, capacity) ==
      match Listen(a, partial, capacity)
      case Pending(p) => Listen(b, p, capacity)
      case done => done
    decreases |a|
  {
    if a == [] {
      assert a + b == b;
    } else {
      assert (a + b)[1..] == a[1..] + b;
      if partial == [] && a[0] != SYSEX_START {
        ListenResumes(a[1..], b, partial, capacity);
      } else if |partial| != capacity && a[0] != SYSEX_END {
        ListenResumes(a[1..], b, partial + [a[0]], capacity);
      }
    }
  }

  datatype Status = Success | TimedOut | Failed

  /** One bounded endpoint read; a status other than success may still come with data. */
  datatype Read = Read(status: Status, bytes: seq<Byte>)

  predicate Ends(r: Read) {
    r.status != Success && r.bytes == []
  }

  /** The rig cable's bytes from the reads made until one comes back empty-handed. */
  function Heard(results: seq<Read>): seq<Byte> {
    if results == [] || Ends(results[0]) then []
    else Decode(Parse(results[0].bytes), RIG_CABLE) + Heard(results[1..])
  }

  /** The events of all reads, each read's trailing fragment ignored. */
  function EventsOf(results: seq<Read>): seq<Event> {
    if results == [] then [] else Parse(results[0].bytes) + EventsOf(results[1..])
  }

  /** Reads that come with bytes, whatever their status, and successful reads without any are heard whole, in order. */
  lemma {:induction false} AllHeard(results: seq<Read>)
    requires forall k :: 0 <= k < |results| ==> results[k].bytes != [] || results[k].status == Success
    ensures Heard(results) == Decode(EventsOf(results), RIG_CABLE)
  {
    hide Decode, Parse;
    if results == [] {
      DecodeNone(RIG_CABLE);
    } else {
      assert results[0].bytes != [] || results[0].status == Success;
      AllHeard(results[1..]);
      DecodeConcat(Parse(results[0].bytes), EventsOf(results[1..]), RIG_CABLE);
    }
  }

  /** A read that fails without a byte ends the listening: nothing after it is heard. */
  lemma {:induction false} EmptyFailureEnds(before: seq<Read>, r: Read, after: seq<Read>)
    requires forall k :: 0 <= k < |before| ==> before[k].bytes != [] || before[k].status == Success
    requires r.status != Success && r.bytes == []
    ensures Heard(before + [r] + after) == Decode(EventsOf(before), RIG_CABLE)
  {
    hide Decode, Parse;
    var all := before + [r] + after;
    if before == [] {
      assert all[0] == r;
      DecodeNone(RIG_CABLE);
    } else {
      assert before[0].bytes != [] || before[0].status == Success;
      EmptyFailureEnds(before[1..], r, after);
      assert all[0] == before[0] && all[1..] == before[1..] + [r] + after;
      DecodeConcat(Parse(before[0].bytes), EventsOf(before[1..]), RIG_CABLE);
    }
  }

  datatype Verdict = More | Found | Overflow

  /** What the reader holds in its buffer agrees with the listening done so far. */
  ghost predicate Reflects(o: Outcome, verdict: Verdict, held: seq<Byte>) {
    match o
    case Pending(p) => verdict == More && held == p
    case Complete(m) => verdict == Found && held == m
    case TooLong => verdict == Overflow
  }

  /** The bytes of one event. */
  method CollectBytes(data: seq<Byte>, output: array<Byte>, start: nat) returns (verdict: Verdict, used: nat)
    requires start <= output.Length
    modifies output
    ensures used <= output.Length
    ensures Reflects(Listen(data, old(output[..start]), output.Length), verdict, output[..used])
  {
    ghost var before := output[..start];
    used := start;
    var inSysex := start > 0;
    assert data[0..] == data;
    for index := 0 to |data|
      invariant used <= output.Length && inSysex == (used > 0)
      invariant Listen(data, before, output.Length) == Listen(data[index..], output[..used], output.Length)
    {
      assert data[index..][1..] == data[index + 1..];
      var byte := data[index];
      if !inSysex {
        if byte != SYSEX_START {
          continue;
        }
        inSysex := true;
      }
      if used == output.Length {
        return Overflow, used;
      }
      ghost var held := output[..used];
      output[used] := byte;
      used := used + 1;
      assert output[..used] == held + [byte];
      if byte == SYSEX_END {
        return Found, used;
      }
    }
    return More, used;
  }

  /** The events of one read; other cables' events are passed over. */
  method CollectEvents(usb: seq<Byte>, output: array<Byte>, start: nat) returns (verdict: Verdict, used: nat)
    requires start <= output.Length
    modifies output
    ensures used <= output.Length
    ensures Reflects(Listen(Decode(Parse(usb), RIG_CABLE), old(output[..start]), output.Length),
                     verdict, output[..used])
  {
    hide Listen, Decode, Parse, ParseAt, CinLength, Carried;
    ghost var before, events := output[..start], Parse(usb);
    ParsedEvents(usb);
    DecodeNone(RIG_CABLE);
    ListenToNone(before, output.Length);
    used := start;
    var offset := 0;
    while offset + 3 < |usb|
      invariant used <= output.Length && offset % 4 == 0 && offset / 4 <= |events|
      invariant Listen(Decode(events[..offset / 4], RIG_CABLE), before, output.Length) == Pending(output[..used])
    {
      ghost var k := offset / 4;
      DecodeNext(events, k, RIG_CABLE);
      assert events[k] == ParseAt(usb, 4 * k);
      CarriedAt(usb, offset);
      var cable, count := usb[offset] / 16, CinLength(usb[offset] % 16);
      if cable != RIG_CABLE {
        offset := offset + 4;
        continue;
      }
      ghost var heard := Carried(events[k]);
      ListenResumes(Decode(events[..k], RIG_CABLE), heard, before, output.Length);
      verdict, used := CollectBytes(usb[offset + 1..offset + 1 + count], output, used);
      if verdict != More {
        StaysDecided(events, k + 1, before, output.Length);
        return;
      }
      offset := offset + 4;
    }
    assert events[..offset / 4] == events;
    verdict := More;
  }

  lemma ListenToNone(partial: seq<Byte>, capacity: nat)
    ensures Listen([], partial, capacity) == Pending(partial)
  {
  }

  /** Once a message is complete, or too long, later events do not change that. */
  lemma StaysDecided(events: seq<Event>, k: nat, partial: seq<Byte>, capacity: nat)
    requires k <= |events| && !Listen(Decode(events[..k], RIG_CABLE), partial, capacity).Pending?
    ensures Listen(Decode(events, RIG_CABLE), partial, capacity)
         == Listen(Decode(events[..k], RIG_CABLE), partial, capacity)
  {
    assert events == events[..k] + events[k..];
    DecodeConcat(events[..k], events[k..], RIG_CABLE);
    ListenResumes(Decode(events[..k], RIG_CABLE), Decode(events[k..], RIG_CABLE), partial, capacity);
  }

  /** The reads that the reader makes before it gives up. */
  function Attempted(results: seq<Read>): (tried: seq<Read>)
    ensures tried <= results && |tried| <= 4096 && (|tried| < 4096 ==> tried == results)
  {
    if |results| > MAX_READS then results[..MAX_READS] else results
  }

  /** Collect one message from successive reads, at most 4096 of them; reads beyond those given come back empty. */
  method ReadSysex(results: seq<Read>, output: array<Byte>) returns (ok: bool, length: nat)
    modifies output
    ensures length <= output.Length
    ensures var o := Listen(Heard(Attempted(results)), [], output.Length);
      && (ok <==> o.Complete?)
      && (ok ==> output[..length] == o.message)
  {
    hide Listen, Heard, Decode, Parse;
    length := 0;
    ghost var made := Attempted(results);
    assert made[0..] == made && output[..0] == [];
    for attempt := 0 to |Attempted(results)|
      invariant length <= output.Length
      invariant Listen(Heard(made), [], output.Length)
             == Listen(Heard(made[attempt..]), output[..length], output.Length)
    {
      var r := results[attempt];
      HeardStep(made[attempt..]);
      ListenToNone(output[..length], output.Length);
      if r.status == TimedOut && r.bytes == [] {
        break;
      }
      if r.status != Success && r.bytes == [] {
        return false, length;
      }
      assert made[attempt..][1..] == made[attempt + 1..];
      ListenResumes(Decode(Parse(r.bytes), RIG_CABLE), Heard(made[attempt + 1..]), output[..length], output.Length);
      var verdict;
      verdict, length := CollectEvents(r.bytes, output, length);
      if verdict != More {
        return verdict == Found, length;
      }
    }
    HeardStep(made[|made|..]);
    ListenToNone(output[..length], output.Length);
    ok := false;
  }

  lemma HeardStep(results: seq<Read>)
    ensures Heard(results) ==
      if results == [] || Ends(results[0]) then []
      else Decode(Parse(results[0].bytes), RIG_CABLE) + Heard(results[1..])
  {
  }

  /** The events on one cable. */
  function OnCable(events: seq<Event>, cable: Nibble): seq<Event> {
    if events == [] then []
    else (if events[0].cable == cable then [events[0]] else []) + OnCable(events[1..], cable)
  }

  lemma {:induction false} DecodeOnCable(events: seq<Event>, cable: Nibble)
    ensures Decode(events, cable) == Decode(OnCable(events, cable), cable)
  {
    if events != [] {
      var e, rest := events[0], OnCable(events[1..], cable);
      DecodeOnCable(events[1..], cable);
      assert e.cable == cable ==> ([e] + rest)[1..] == rest;
      assert e.cable != cable ==> OnCable(events, cable) == rest;
    }
  }

  /** An event stream cut into reads at event boundaries, whatever their statuses: only a read without bytes has to be
      successful. */
  ghost predicate CutInto(events: seq<Event>, results: seq<Read>) {
    if results == [] then events == []
    else
      && (results[0].bytes != [] || results[0].status == Success) && |results[0].bytes| % 4 == 0
      && Parse(results[0].bytes) <= events
      && CutInto(events[|Parse(results[0].bytes)|..], results[1..])
  }

  lemma {:induction false} CutsAreHeardWhole(events: seq<Event>, results: seq<Read>)
    requires CutInto(events, results)
    ensures Heard(results) == Decode(events, RIG_CABLE)
  {
    CutsJoin(events, results);
    AllHeard(results);
  }

  lemma {:induction false} CutsJoin(events: seq<Event>, results: seq<Read>)
    requires CutInto(events, results)
    ensures EventsOf(results) == events
    ensures forall k :: 0 <= k < |results| ==> results[k].bytes != [] || results[k].status == Success
  {
    if results != [] {
      var first := Parse(results[0].bytes);
      CutsJoin(events[|first|..], results[1..]);
      assert events == first + events[|first|..];
    }
  }

  /**
   * The reader returns the packed message, however its events are cut into reads, whatever other cables send in
   * between, and whatever the rig cable carried before its start byte or carries after its end.
   */
  lemma PackedMessageIsRead(m: seq<Byte>, noise: seq<Event>, tail: seq<Event>, events: seq<Event>,
                            results: seq<Read>, capacity: nat)
    requires IsSysex(m) && |m| <= capacity
    requires SYSEX_START !in Decode(noise, RIG_CABLE)
    requires OnCable(events, RIG_CABLE) == noise + SysexGroups(m) + tail
    requires CutInto(events, results)
    ensures Listen(Heard(results), [], capacity) == Complete(m)
  {
    CutsAreHeardWhole(events, results);
    DecodeOnCable(events, RIG_CABLE);
    DecodeConcat(noise + SysexGroups(m), tail, RIG_CABLE);
    DecodeConcat(noise, SysexGroups(m), RIG_CABLE);
    GroupsRoundTripIff(m);
    ListenFindsMessage(Decode(noise, RIG_CABLE), m, Decode(tail, RIG_CABLE), capacity);
  }

  /** A byte sequence packed and read back is itself exactly when it is one message that fits. */
  lemma ReadBackIffSysex(m: seq<Byte>, capacity: nat)
    ensures Listen(Decode(SysexGroups(m), RIG_CABLE), [], capacity) == Complete(m) <==> IsSysex(m) && |m| <= capacity
  {
    ListenReturnsSysex(Decode(SysexGroups(m), RIG_CABLE), [], capacity);
    if IsSysex(m) && |m| <= capacity {
      GroupsRoundTripIff(m);
      ListenFindsMessage([], m, [], capacity);
      assert [] + m + [] == m;
    }
  }
}
