/**
 * USB-MIDI event packets: four bytes, a cable number and code index in the first, up to three MIDI bytes after
 * it. The encoder turns a CoreMIDI byte stream into events; the reader turns events back into bytes using only
 * the code index. The format is section 4 of the USB Device Class Definition for MIDI Devices, Release 1.0.
 */
module UsbMidi {
  import opened Words

  const BUFFER_EVENTS: nat := 128
  const BUFFER_BYTES: nat := 512
  const CABLES: nat := 2
  const SYSEX_START: Byte := 0xF0
  const SYSEX_END: Byte := 0xF7

  type Nibble = x: int | 0 <= x < 16

  datatype Event = Event(cable: Nibble, cin: Nibble, b0: Byte, b1: Byte, b2: Byte)

  /** MIDI bytes carried by an event, by code index. */
  function CinLength(cin: Nibble): (n: nat)
    ensures n <= 3
  {
    match cin
    case 0 => 0 case 1 => 0 case 2 => 2 case 3 => 3
    case 4 => 3 case 5 => 1 case 6 => 2 case 7 => 3
    case 8 => 3 case 9 => 3 case 10 => 3 case 11 => 3
    case 12 => 2 case 13 => 2 case 14 => 3 case _ => 1
  }

  /** Length of the message a status byte starts; 0 for a data byte. */
  function StatusLength(s: Byte): (n: nat)
    ensures n <= 3
  {
    if s < 0x80 then 0
    else if s < 0xC0 then 3
    else if s < 0xE0 then 2
    else if s < 0xF0 then 3
    else if s == 0xF1 || s == 0xF3 then 2
    else if s == 0xF2 then 3
    else 1
  }

  /** An event for up to three bytes, padded with zeros. */
  function Packed(cable: Nibble, cin: Nibble, b: seq<Byte>): Event
    requires |b| <= 3
  {
    Event(cable, cin, if |b| > 0 then b[0] else 0, if |b| > 1 then b[1] else 0, if |b| > 2 then b[2] else 0)
  }

  /** The MIDI bytes an event stands for. */
  function Carried(e: Event): seq<Byte> {
    [e.b0, e.b1, e.b2][..CinLength(e.cin)]
  }

  /** The byte stream of one cable in a sequence of events. */
  function Decode(events: seq<Event>, cable: Nibble): seq<Byte> {
    if events == [] then []
    else (if events[0].cable == cable then Carried(events[0]) else []) + Decode(events[1..], cable)
  }

  /** Code index of a SysEx group that ends the message, or that the packet ends with. */
  function GroupCin(n: nat, whole: Nibble): Nibble {
    if n == 1 then 5 else if n == 2 then 6 else whole
  }

  /** Events for the rest of a SysEx message, given the bytes of the group in progress, and what follows it. */
  function SysexEvents(cable: Nibble, group: seq<Byte>, rest: seq<Byte>): (r: (seq<Event>, seq<Byte>))
    requires |group| < 3
    ensures |r.1| <= |rest| && r.1 == rest[|rest| - |r.1|..]
    decreases |rest|
  {
    if rest == [] then
      (if group == [] then [] else [Packed(cable, GroupCin(|group|, 4), group)], [])
    else
      var g := group + [rest[0]];
      if rest[0] == SYSEX_END then ([Packed(cable, GroupCin(|g|, 7), g)], rest[1..])
      else if |g| == 3 then
        var (events, after) := SysexEvents(cable, [], rest[1..]);
        ([Packed(cable, 4, g)] + events, after)
      else SysexEvents(cable, g, rest[1..])
  }

  /** Length taken by the message at the front: the whole message, or what there is of it. */
  function FrontLength(data: seq<Byte>): (n: nat)
    requires data != []
    ensures n <= |data|
  {
    if StatusLength(data[0]) > |data| then |data| else StatusLength(data[0])
  }

  function FrontCin(s: Byte, n: nat): Nibble {
    if s >= 0xF0 then (if n == 1 then 15 else if n == 2 then 2 else 3) else s / 16
  }

  /** The events for a byte stream. */
  function Encode(cable: Nibble, data: seq<Byte>): seq<Event>
    decreases |data|
  {
    if data == [] then []
    else if data[0] == SYSEX_START then
      var (events, after) := SysexEvents(cable, [SYSEX_START], data[1..]);
      events + Encode(cable, after)
    else
      var n := FrontLength(data);
      if n == 0 then Encode(cable, data[1..])
      else [Packed(cable, FrontCin(data[0], n), data[..n])] + Encode(cable, data[n..])
  }

  /** Bytes in a complete message with this status byte, as MIDI defines them; 0 for a data byte. */
  function MessageLength(status: Byte): nat {
    if 0x80 <= status <= 0xBF || 0xE0 <= status <= 0xEF || status == 0xF2 then 3
    else if 0xC0 <= status <= 0xDF || status == 0xF1 || status == 0xF3 then 2
    else if 0xF4 <= status then 1
    else 0
  }

  /** The encoder's length of a message, in its own order of tests, is that of the message. */
  lemma LengthsAgree(status: Byte)
    requires status != SYSEX_START
    ensures StatusLength(status) == MessageLength(status)
  {
  }

  /** The lengths by code index, in order, as both readers list them. */
  lemma LengthTable(cin: Nibble)
    ensures CinLength(cin) == [0, 0, 2, 3, 3, 1, 2, 3, 3, 3, 3, 3, 2, 2, 3, 1][cin]
  {
  }

  /** A complete MIDI message: a status byte with its data, or a SysEx message with what lies between its ends. */
  datatype Message = Short(status: Byte, data: seq<Byte>) | Sysex(body: seq<Byte>)

  predicate Whole(m: Message) {
    match m
    case Short(status, data) =>
      0x80 <= status && status != SYSEX_START && status != SYSEX_END && 1 + |data| == MessageLength(status)
    case Sysex(body) => SYSEX_END !in body
  }

  function Text(m: Message): (b: seq<Byte>)
    ensures b != []
  {
    match m
    case Short(status, data) => [status] + data
    case Sysex(body) => [SYSEX_START] + body + [SYSEX_END]
  }

  function Texts(messages: seq<Message>): seq<Byte> {
    if messages == [] then [] else Text(messages[0]) + Texts(messages[1..])
  }

  /** What is left of a stream after a SysEx message that has already begun. */
  function AfterSysex(rest: seq<Byte>): (after: seq<Byte>)
    ensures |after| <= |rest|
  {
    if rest == [] then [] else if rest[0] == SYSEX_END then rest[1..] else AfterSysex(rest[1..])
  }

  /**
   * Every byte belongs to a message: nothing starts with a data byte, and no channel message is cut short.
   * A SysEx or system common message may be cut off by the end of the stream.
   */
  predicate Framed(data: seq<Byte>)
    decreases |data|
  {
    if data == [] then true
    else if data[0] == SYSEX_START then Framed(AfterSysex(data[1..]))
    else
      var n := MessageLength(data[0]);
      if n == 0 then false
      else if n <= |data| then Framed(data[n..])
      else data[0] >= 0xF0
  }

  lemma {:induction false} DecodeConcat(a: seq<Event>, b: seq<Event>, cable: Nibble)
    ensures Decode(a + b, cable) == Decode(a, cable) + Decode(b, cable)
  {
    if a == [] {
      assert a + b == b;
    } else {
      assert (a + b)[1..] == a[1..] + b;
      DecodeConcat(a[1..], b, cable);
    }
  }

  lemma DecodeOne(cable: Nibble, cin: Nibble, b: seq<Byte>)
    requires |b| <= 3 && CinLength(cin) == |b|
    ensures Decode([Packed(cable, cin, b)], cable) == b
  {
    var e := Packed(cable, cin, b);
    assert Decode([e], cable) == Carried(e) + [];
  }

  /** A SysEx message's events carry exactly its bytes, cut off or not. */
  lemma {:induction false} SysexRoundTrip(cable: Nibble, group: seq<Byte>, rest: seq<Byte>)
    requires |group| < 3
    ensures var (events, after) := SysexEvents(cable, group, rest);
      && after == AfterSysex(rest)
      && Decode(events, cable) + after == group + rest
    decreases |rest|
  {
    hide Packed, CinLength, Decode;
    if rest == [] {
      if group != [] {
        GroupLengths(|group|);
        DecodeOne(cable, GroupCin(|group|, 4), group);
      } else {
        DecodeNone(cable);
      }
    } else {
      var g := group + [rest[0]];
      assert group + rest == g + rest[1..];
      GroupLengths(|g|);
      if rest[0] == SYSEX_END {
        DecodeOne(cable, GroupCin(|g|, 7), g);
      } else if |g| == 3 {
        SysexRoundTrip(cable, [], rest[1..]);
        var (events, after) := SysexEvents(cable, [], rest[1..]);
        DecodeConcat([Packed(cable, 4, g)], events, cable);
        DecodeOne(cable, 4, g);
        assert (g + Decode(events, cable)) + after == g + (Decode(events, cable) + after);
      } else {
        SysexRoundTrip(cable, g, rest[1..]);
      }
    }
  }

  lemma DecodeNone(cable: Nibble)
    ensures Decode([], cable) == []
  {
  }

  /** The code indices of SysEx groups name the groups' lengths. */
  lemma GroupLengths(n: nat)
    requires 1 <= n <= 3
    ensures CinLength(GroupCin(n, 7)) == n && CinLength(GroupCin(n, 4)) == n && CinLength(4) == 3
  {
  }

  /** What decodes back begins with a status byte. */
  lemma {:induction false} DecodedStartsWithStatus(cable: Nibble, data: seq<Byte>)
    ensures var back := Decode(Encode(cable, data), cable); back == [] || back[0] >= 0x80
    decreases |data|
  {
    if data != [] {
      if data[0] == SYSEX_START {
        SysexRoundTrip(cable, [SYSEX_START], data[1..]);
        var (events, after) := SysexEvents(cable, [SYSEX_START], data[1..]);
        DecodeConcat(events, Encode(cable, after), cable);
        assert |Decode(events, cable)| + |after| == 1 + |data[1..]|;
        assert (Decode(events, cable) + after)[0] == SYSEX_START;
      } else if FrontLength(data) == 0 {
        DecodedStartsWithStatus(cable, data[1..]);
      }
    }
  }

  /** The front message survives when it is whole or a system message; a cut channel message gains padding. */
  lemma FrontRoundTrip(cable: Nibble, data: seq<Byte>)
    requires data != [] && data[0] != SYSEX_START && data[0] >= 0x80
    ensures var n := FrontLength(data); var e := Packed(cable, FrontCin(data[0], n), data[..n]);
      && n > 0
      && Carried(e)[..n] == data[..n]
      && |Carried(e)| == (if data[0] >= 0xF0 then n else StatusLength(data[0]))
  {
    var n := FrontLength(data);
    FrontCinLength(data[0], n);
    if n == 1 {
      assert data[..n] == [data[0]];
    } else if n == 2 {
      assert data[..n] == [data[0], data[1]];
    } else {
      assert data[..n] == [data[0], data[1], data[2]];
    }
  }

  /** The code index of a message names its length; a cut channel message keeps its whole length. */
  lemma FrontCinLength(s: Byte, n: nat)
    requires s >= 0x80 && s != SYSEX_START && 0 < n <= StatusLength(s)
    ensures CinLength(FrontCin(s, n)) == if s >= 0xF0 then n else StatusLength(s)
  {
  }

  /** Encoding then reading returns the stream exactly when every byte of it belongs to a message. */
  lemma {:induction false} RoundTripIffFramed(cable: Nibble, data: seq<Byte>)
    ensures Decode(Encode(cable, data), cable) == data <==> Framed(data)
    decreases |data|
  {
    hide Decode, Carried, Packed, SysexEvents, FrontCin, CinLength, Encode, Framed;
    if data == [] {
      EncodeNothing(cable, data);
      DecodeNone(cable);
      FramedStep(data);
    } else if data[0] == SYSEX_START {
      SysexRoundTrip(cable, [SYSEX_START], data[1..]);
      var (events, after) := SysexEvents(cable, [SYSEX_START], data[1..]);
      EncodeStep(cable, data);
      FramedStep(data);
      DecodeConcat(events, Encode(cable, after), cable);
      assert data == [SYSEX_START] + data[1..];
      RoundTripIffFramed(cable, after);
      SamePrefix(Decode(events, cable), Decode(Encode(cable, after), cable), after);
    } else if data[0] < 0x80 {
      EncodeStep(cable, data);
      FramedStep(data);
      DecodedStartsWithStatus(cable, data[1..]);
    } else {
      FramedStep(data);
      FrontMessageStep(cable, data);
      if StatusLength(data[0]) <= |data| || data[0] >= 0xF0 {
        RoundTripIffFramed(cable, data[FrontLength(data)..]);
        FramedStep(data[FrontLength(data)..]);
      }
    }
  }

  lemma FramedStep(data: seq<Byte>)
    ensures Framed(data) <==>
      if data == [] then true
      else if data[0] == SYSEX_START then Framed(AfterSysex(data[1..]))
      else if StatusLength(data[0]) == 0 then false
      else if StatusLength(data[0]) <= |data| then Framed(data[StatusLength(data[0])..])
      else data[0] >= 0xF0
    ensures data == [] ==> Framed(data)
  {
    if data != [] && data[0] != SYSEX_START {
      LengthsAgree(data[0]);
    }
  }

  lemma {:induction false} AfterBody(body: seq<Byte>, rest: seq<Byte>)
    requires SYSEX_END !in body
    ensures AfterSysex(body + ([SYSEX_END] + rest)) == rest
  {
    var all := body + ([SYSEX_END] + rest);
    if body == [] {
      assert all == [SYSEX_END] + rest && all[1..] == rest;
    } else {
      AfterBody(body[1..], rest);
      assert all[1..] == body[1..] + ([SYSEX_END] + rest);
    }
  }

  lemma ShortIsFramed(status: Byte, data: seq<Byte>, rest: seq<Byte>)
    requires Whole(Short(status, data)) && Framed(rest)
    ensures Framed([status] + data + rest)
  {
    hide Framed, StatusLength;
    var all := [status] + data + rest;
    assert all[0] == status && all[1 + |data|..] == rest;
    LengthsAgree(status);
    FramedStep(all);
  }

  lemma SysexIsFramed(body: seq<Byte>, rest: seq<Byte>)
    requires SYSEX_END !in body && Framed(rest)
    ensures Framed([SYSEX_START] + body + [SYSEX_END] + rest)
  {
    hide Framed, StatusLength, AfterSysex;
    var all := [SYSEX_START] + body + [SYSEX_END] + rest;
    assert all[1..] == body + ([SYSEX_END] + rest);
    AfterBody(body, rest);
    FramedStep(all);
  }

  /** Complete messages one after another are framed. */
  lemma {:induction false} WholeMessagesAreFramed(messages: seq<Message>)
    requires forall k :: 0 <= k < |messages| ==> Whole(messages[k])
    ensures Framed(Texts(messages))
  {
    hide Framed;
    if messages == [] {
      FramedStep([]);
    } else {
      WholeMessagesAreFramed(messages[1..]);
      assert Whole(messages[0]);
      match messages[0]
      case Short(status, data) => ShortIsFramed(status, data, Texts(messages[1..]));
      case Sysex(body) => SysexIsFramed(body, Texts(messages[1..]));
    }
  }

  /** Every list of complete messages, SysEx of any length among them, is decoded back as it was sent. */
  lemma MessagesRoundTrip(cable: Nibble, messages: seq<Message>)
    requires forall k :: 0 <= k < |messages| ==> Whole(messages[k])
    ensures Decode(Encode(cable, Texts(messages)), cable) == Texts(messages)
  {
    WholeMessagesAreFramed(messages);
    RoundTripIffFramed(cable, Texts(messages));
  }

  /** What follows the front message decides, unless that is a channel message cut short, which is lost. */
  lemma FrontMessageStep(cable: Nibble, data: seq<Byte>)
    requires data != [] && data[0] != SYSEX_START && data[0] >= 0x80
    ensures var rest := data[FrontLength(data)..];
      Decode(Encode(cable, data), cable) == data <==>
        (StatusLength(data[0]) <= |data| || data[0] >= 0xF0) && Decode(Encode(cable, rest), cable) == rest
    ensures 0 < FrontLength(data)
  {
    hide Decode, Carried, FrontCin, CinLength, Encode;
    FrontRoundTrip(cable, data);
    EncodeStep(cable, data);
    var n := FrontLength(data);
    var e := Packed(cable, FrontCin(data[0], n), data[..n]);
    var back := Decode(Encode(cable, data[n..]), cable);
    DecodeConcat([e], Encode(cable, data[n..]), cable);
    DecodeAlone(e, cable);
    assert data == data[..n] + data[n..];
    if |Carried(e)| == n {
      SamePrefix(data[..n], back, data[n..]);
    }
  }

  lemma DecodeAlone(e: Event, cable: Nibble)
    ensures Decode([e], cable) == if e.cable == cable then Carried(e) else []
  {
    assert Decode([e], cable) == (if e.cable == cable then Carried(e) else []) + [];
  }

  lemma SamePrefix(p: seq<Byte>, a: seq<Byte>, b: seq<Byte>)
    ensures p + a == p + b <==> a == b
  {
    if p + a == p + b {
      assert a == (p + a)[|p|..] == (p + b)[|p|..] == b;
    }
  }

  /** The events of several packets, one after the other. */
  function EncodeAll(cable: Nibble, packets: seq<seq<Byte>>): seq<Event> {
    if packets == [] then []
    else EncodeAll(cable, packets[..|packets| - 1]) + Encode(cable, packets[|packets| - 1])
  }

  function Join(packets: seq<seq<Byte>>): seq<Byte> {
    if packets == [] then [] else Join(packets[..|packets| - 1]) + packets[|packets| - 1]
  }

  /** What fits in one transfer: once it is full, every later event is dropped. */
  function Fit(events: seq<Event>): seq<Event> {
    if |events| > BUFFER_EVENTS then events[..BUFFER_EVENTS] else events
  }

  lemma {:induction false} AllRoundTrip(cable: Nibble, packets: seq<seq<Byte>>)
    requires forall k :: 0 <= k < |packets| ==> Framed(packets[k])
    ensures Decode(EncodeAll(cable, packets), cable) == Join(packets)
  {
    if packets != [] {
      var n := |packets| - 1;
      AllRoundTrip(cable, packets[..n]);
      RoundTripIffFramed(cable, packets[n]);
      DecodeConcat(EncodeAll(cable, packets[..n]), Encode(cable, packets[n]), cable);
    }
  }

  /** Every event belongs to its cable and carries something. */
  ghost predicate Loaded(events: seq<Event>, cable: Nibble) {
    forall k :: 0 <= k < |events| ==> events[k].cable == cable && CinLength(events[k].cin) > 0
  }

  lemma LoadedNext(cable: Nibble, cin: Nibble, b: seq<Byte>, events: seq<Event>)
    requires |b| <= 3 && CinLength(cin) > 0 && Loaded(events, cable)
    ensures Loaded([Packed(cable, cin, b)] + events, cable)
  {
  }

  lemma {:induction false} SysexEventsLoaded(cable: Nibble, group: seq<Byte>, rest: seq<Byte>)
    requires |group| < 3
    ensures Loaded(SysexEvents(cable, group, rest).0, cable)
    decreases |rest|
  {
    hide Packed, Loaded;
    NoneLoaded(cable);
    if rest == [] {
      if group != [] {
        GroupLengths(|group|);
        LoadedNext(cable, GroupCin(|group|, 4), group, []);
        assert [Packed(cable, GroupCin(|group|, 4), group)] + [] == [Packed(cable, GroupCin(|group|, 4), group)];
      }
    } else {
      var g := group + [rest[0]];
      GroupLengths(|g|);
      if rest[0] == SYSEX_END {
        LoadedNext(cable, GroupCin(|g|, 7), g, []);
        assert [Packed(cable, GroupCin(|g|, 7), g)] + [] == [Packed(cable, GroupCin(|g|, 7), g)];
      } else if |g| == 3 {
        SysexEventsLoaded(cable, [], rest[1..]);
        LoadedNext(cable, 4, g, SysexEvents(cable, [], rest[1..]).0);
      } else {
        SysexEventsLoaded(cable, g, rest[1..]);
      }
    }
  }

  lemma NoneLoaded(cable: Nibble)
    ensures Loaded([], cable)
  {
  }

  lemma {:induction false} EncodedLoaded(cable: Nibble, data: seq<Byte>)
    ensures Loaded(Encode(cable, data), cable)
    decreases |data|
  {
    if data != [] {
      if data[0] == SYSEX_START {
        SysexEventsLoaded(cable, [SYSEX_START], data[1..]);
        EncodedLoaded(cable, SysexEvents(cable, [SYSEX_START], data[1..]).1);
      } else if FrontLength(data) == 0 {
        EncodedLoaded(cable, data[1..]);
      } else {
        EncodedLoaded(cable, data[FrontLength(data)..]);
      }
    }
  }

  lemma {:induction false} AllLoaded(cable: Nibble, packets: seq<seq<Byte>>)
    ensures Loaded(EncodeAll(cable, packets), cable)
  {
    if packets != [] {
      AllLoaded(cable, packets[..|packets| - 1]);
      EncodedLoaded(cable, packets[|packets| - 1]);
    }
  }

  lemma {:induction false} LoadedDecodes(events: seq<Event>, cable: Nibble, other: Nibble)
    requires Loaded(events, cable)
    ensures other != cable ==> Decode(events, other) == []
    ensures |Decode(events, cable)| >= |events|
  {
    if events != [] {
      LoadedDecodes(events[1..], cable, other);
    }
  }

  /** One transfer delivers a prefix of the messages, and all of them exactly when their events fit. */
  lemma TransferIsPrefix(cable: Nibble, packets: seq<seq<Byte>>)
    requires forall k :: 0 <= k < |packets| ==> Framed(packets[k])
    ensures var back := Decode(Fit(EncodeAll(cable, packets)), cable);
      && back <= Join(packets)
      && (back == Join(packets) <==> |EncodeAll(cable, packets)| <= BUFFER_EVENTS)
  {
    var events := EncodeAll(cable, packets);
    AllRoundTrip(cable, packets);
    AllLoaded(cable, packets);
    if |events| > BUFFER_EVENTS {
      var sent, lost := events[..BUFFER_EVENTS], events[BUFFER_EVENTS..];
      assert events == sent + lost;
      DecodeConcat(sent, lost, cable);
      LoadedDecodes(lost, cable, cable);
    }
  }

  /** A destination's packet list, written to the endpoint as one transfer. */
  datatype Transfer = Transfer(cable: Nibble, packets: seq<seq<Byte>>)

  /** The endpoint's event stream: whole transfers in whatever order the write lock admits them. */
  function Wire(transfers: seq<Transfer>): seq<Event> {
    if transfers == [] then []
    else
      var t := transfers[|transfers| - 1];
      Wire(transfers[..|transfers| - 1]) + Fit(EncodeAll(t.cable, t.packets))
  }

  function SentOn(transfers: seq<Transfer>, cable: Nibble): seq<Byte> {
    if transfers == [] then []
    else
      var t := transfers[|transfers| - 1];
      SentOn(transfers[..|transfers| - 1], cable) + if t.cable == cable then Join(t.packets) else []
  }

  ghost predicate Sendable(t: Transfer) {
    && |EncodeAll(t.cable, t.packets)| <= BUFFER_EVENTS
    && forall j :: 0 <= j < |t.packets| ==> Framed(t.packets[j])
  }

  lemma TransferDecodes(t: Transfer, cable: Nibble)
    requires Sendable(t)
    ensures Decode(Fit(EncodeAll(t.cable, t.packets)), cable) == if t.cable == cable then Join(t.packets) else []
  {
    TransferIsPrefix(t.cable, t.packets);
    AllLoaded(t.cable, t.packets);
    LoadedDecodes(EncodeAll(t.cable, t.packets), t.cable, cable);
  }

  /** Transfers from several cables, interleaved in any order, give each cable back its own stream. */
  lemma {:induction false} CablesSeparate(transfers: seq<Transfer>, cable: Nibble)
    requires forall k :: 0 <= k < |transfers| ==> Sendable(transfers[k])
    ensures Decode(Wire(transfers), cable) == SentOn(transfers, cable)
  {
    hide Decode, EncodeAll, Fit, Join, Sendable;
    if transfers == [] {
      DecodeNone(cable);
    } else {
      var n := |transfers| - 1;
      var t := transfers[n];
      CablesSeparate(transfers[..n], cable);
      DecodeConcat(Wire(transfers[..n]), Fit(EncodeAll(t.cable, t.packets)), cable);
      TransferDecodes(t, cable);
    }
  }

  function EventBytes(e: Event): seq<Byte> {
    [(e.cable * 16 + e.cin) as int, e.b0, e.b1, e.b2]
  }

  function Bytes(events: seq<Event>): (b: seq<Byte>)
    ensures |b| == 4 * |events|
  {
    if events == [] then [] else Bytes(events[..|events| - 1]) + EventBytes(events[|events| - 1])
  }

  /** The whole events at the front of a transfer; a trailing fragment is ignored. */
  function Parse(b: seq<Byte>): seq<Event> {
    seq(|b| / 4, k requires 0 <= k < |b| / 4 => ParseAt(b, 4 * k))
  }

  function ParseAt(b: seq<Byte>, at: nat): Event
    requires at + 4 <= |b|
  {
    Event(b[at] / 16, b[at] % 16, b[at + 1], b[at + 2], b[at + 3])
  }

  lemma {:induction false} ParseBytes(events: seq<Event>)
    ensures Parse(Bytes(events)) == events
  {
    if events != [] {
      var n := |events| - 1;
      ParseBytes(events[..n]);
      var all, before := Bytes(events), Bytes(events[..n]);
      forall k | 0 <= k < n
        ensures ParseAt(all, 4 * k) == events[k]
      {
        assert Parse(before)[k] == ParseAt(before, 4 * k);
      }
    }
  }

  /** The code index of a complete short message: its status nibble on a channel, else by its length. */
  function ShortCode(status: Byte): Nibble
    requires 0x80 <= status
  {
    if status < 0xF0 then status / 0x10
    else if status == 0xF1 || status == 0xF3 then 2
    else if status == 0xF2 then 3
    else 15
  }

  /** A complete short message is sent as one event of four bytes: cable and code index, the message, zeros. */
  lemma ShortIsOneEvent(cable: Nibble, status: Byte, data: seq<Byte>)
    requires Whole(Short(status, data))
    ensures Bytes(Encode(cable, Text(Short(status, data))))
         == [0x10 * cable + ShortCode(status), status] + data
            + (if |data| == 2 then [] else if |data| == 1 then [0] else [0, 0])
  {
    var b := [status] + data;
    LengthsAgree(status);
    assert b[|b|..] == [] && b[..|b|] == b;
    assert Encode(cable, []) == [] && Bytes([]) == [];
    var e := Packed(cable, FrontCin(status, |b|), b);
    assert Encode(cable, b) == [e];
    assert Bytes([e]) == [] + EventBytes(e);
  }

  lemma FitStep(events: seq<Event>, e: Event)
    ensures |Fit(events)| <= BUFFER_EVENTS
    ensures |Fit(events)| < BUFFER_EVENTS ==> Fit(events + [e]) == Fit(events) + [e]
    ensures |Fit(events)| == BUFFER_EVENTS ==> Fit(events + [e]) == Fit(events)
  {
  }

  /** The output buffer one packet list is encoded into. */
  class TransferBuffer {
    const usb: array<Byte>
    var used: nat
    /** Everything the encoder emitted, whether or not it fitted. */
    ghost var events: seq<Event>

    ghost predicate Valid()
      reads this, usb
    {
      && usb.Length == 512
      && used == 4 * |Fit(events)|
      && usb[..used] == Bytes(Fit(events))
    }

    constructor ()
      ensures Valid() && fresh(usb) && events == []
    {
      usb := new Byte[BUFFER_BYTES];
      used, events := 0, [];
    }

    method EmitEvent(cable: Nibble, cin: Nibble, b: seq<Byte>)
      requires Valid() && |b| <= 3
      modifies this, usb
      ensures Valid() && events == old(events) + [Packed(cable, cin, b)]
    {
      hide Fit;
      ghost var e := Packed(cable, cin, b);
      FitStep(events, e);
      ghost var fitted := Fit(events);
      events := events + [e];
      if used + 4 > BUFFER_BYTES {
        return;
      }
      assert (fitted + [e])[..|fitted|] == fitted;
      usb[used] := cable * 16 + cin;
      usb[used + 1] := if |b| > 0 then b[0] else 0;
      usb[used + 2] := if |b| > 1 then b[1] else 0;
      usb[used + 3] := if |b| > 2 then b[2] else 0;
      used := used + 4;
    }

    /** Encode one packet's bytes. */
    method EncodeMidi(cable: Nibble, data: seq<Byte>)
      requires Valid()
      modifies this, usb
      ensures Valid() && events == old(events) + Encode(cable, data)
    {
      hide Encode, Fit, Bytes, Valid;
      var i := 0;
      ghost var whole := events + Encode(cable, data);
      assert data[0..] == data;
      while i < |data|
        invariant i <= |data| && Valid() && events + Encode(cable, data[i..]) == whole
      {
        i := EncodeNext(cable, data, i);
      }
      EncodeNothing(cable, data[i..]);
    }

    /** Encode what starts at one byte: a SysEx message, another message, or nothing for a stray data byte. */
    method EncodeNext(cable: Nibble, data: seq<Byte>, i: nat) returns (next: nat)
      requires Valid() && i < |data|
      modifies this, usb
      ensures Valid() && i < next <= |data|
      ensures events + Encode(cable, data[next..]) == old(events) + Encode(cable, data[i..])
    {
      hide Encode, Packed, SysexEvents, Fit, Bytes, FrontCin, StatusLength, Valid;
      ghost var was, rest := events, data[i..];
      EncodeStep(cable, rest);
      if data[i] == SYSEX_START {
        next := EncodeSysex(cable, data, i);
        assert was + SysexEvents(cable, [SYSEX_START], rest[1..]).0 + Encode(cable, data[next..])
            == was + (SysexEvents(cable, [SYSEX_START], rest[1..]).0 + Encode(cable, data[next..]));
        return;
      }
      if StatusLength(data[i]) == 0 {
        assert rest[1..] == data[i + 1..];
        return i + 1;
      }
      var n := EncodeMessage(cable, data, i);
      next := i + n;
      assert rest[n..] == data[next..];
      ghost var e := [Packed(cable, FrontCin(rest[0], n), rest[..n])];
      assert was + e + Encode(cable, data[next..]) == was + (e + Encode(cable, data[next..]));
    }

    /** The message branch: one event for a whole message, or for what there is of it. */
    method EncodeMessage(cable: Nibble, data: seq<Byte>, i: nat) returns (n: nat)
      requires Valid() && i < |data| && data[i] != SYSEX_START && StatusLength(data[i]) > 0
      modifies this, usb
      ensures Valid() && n == FrontLength(data[i..]) > 0
      ensures events == old(events) + [Packed(cable, FrontCin(data[i], n), data[i..][..n])]
    {
      n := StatusLength(data[i]);
      if i + n > |data| {
        n := |data| - i;
      }
      var cin: Nibble := data[i] / 16;
      if data[i] >= 0xF0 {
        cin := if n == 1 then 15 else if n == 2 then 2 else 3;
      }
      assert data[i..][..n] == data[i..i + n];
      EmitEvent(cable, cin, data[i..i + n]);
    }

    /** The SysEx branch: groups of three until the end byte or the end of the packet. */
    method EncodeSysex(cable: Nibble, data: seq<Byte>, start: nat) returns (i: nat)
      requires Valid() && start < |data| && data[start] == SYSEX_START
      modifies this, usb
      ensures Valid() && start < i <= |data|
      ensures var r := SysexEvents(cable, [SYSEX_START], data[start..][1..]);
        events == old(events) + r.0 && data[i..] == r.1
    {
      hide Packed, SysexEvents, Fit, Bytes;
      var b := [data[start]];
      i := start + 1;
      ghost var all, done := SysexEvents(cable, [SYSEX_START], data[i..]), [];
      assert data[start..][1..] == data[i..];
      while i < |data|
        invariant start < i <= |data| && Valid() && |b| < 3
        invariant events == old(events) + done
        invariant var r := SysexEvents(cable, b, data[i..]); done + r.0 == all.0 && r.1 == all.1
      {
        SysexStep(cable, b, data[i..]);
        assert data[i..][1..] == data[i + 1..] && data[i..][0] == data[i];
        b := b + [data[i]];
        i := i + 1;
        if b[|b| - 1] == SYSEX_END {
          EmitEvent(cable, GroupCin(|b|, 7), b);
          return;
        }
        if |b| == 3 {
          EmitEvent(cable, 4, b);
          done := done + [Packed(cable, 4, b)];
          b := [];
        }
      }
      SysexStep(cable, b, data[i..]);
      if b != [] {
        EmitEvent(cable, GroupCin(|b|, 4), b);
      }
    }
  }

  /** One byte's worth of the SysEx encoding. */
  lemma SysexStep(cable: Nibble, b: seq<Byte>, rest: seq<Byte>)
    requires |b| < 3
    ensures var r := SysexEvents(cable, b, rest);
      if rest == [] then r == (if b == [] then [] else [Packed(cable, GroupCin(|b|, 4), b)], [])
      else
        var g := b + [rest[0]];
        if rest[0] == SYSEX_END then r == ([Packed(cable, GroupCin(|g|, 7), g)], rest[1..])
        else if |g| == 3 then
          var next := SysexEvents(cable, [], rest[1..]);
          r == ([Packed(cable, 4, g)] + next.0, next.1)
        else r == SysexEvents(cable, g, rest[1..])
  {
  }

  /** One message's worth of the encoding. */
  lemma EncodeStep(cable: Nibble, rest: seq<Byte>)
    requires rest != []
    ensures Encode(cable, rest) ==
      if rest[0] == SYSEX_START then
        var r := SysexEvents(cable, [SYSEX_START], rest[1..]);
        r.0 + Encode(cable, r.1)
      else if StatusLength(rest[0]) == 0 then Encode(cable, rest[1..])
      else
        var n := FrontLength(rest);
        [Packed(cable, FrontCin(rest[0], n), rest[..n])] + Encode(cable, rest[n..])
  {
  }

  lemma EncodeNothing(cable: Nibble, rest: seq<Byte>)
    requires rest == []
    ensures Encode(cable, rest) == []
  {
  }

  /** The reader's side: one stream per CoreMIDI source. */
  class Reader {
    var streams: seq<seq<Byte>>

    ghost predicate Valid()
      reads this
    {
      |streams| == CABLES
    }

    constructor ()
      ensures Valid() && streams == [[], []]
    {
      streams := [[], []];
    }

    method Deliver(cable: Nibble, data: seq<Byte>)
      requires Valid()
      modifies this
      ensures Valid()
      ensures streams == if cable >= CABLES then old(streams) else old(streams)[cable := old(streams)[cable] + data]
    {
      if cable >= CABLES || |data| == 0 {
        assert cable < CABLES ==> streams[cable] + data == streams[cable];
        return;
      }
      streams := streams[cable := streams[cable] + data];
    }

    /** Deliver every whole event of one transfer. */
    method Receive(usb: seq<Byte>)
      requires Valid()
      modifies this
      ensures Valid() && Collected(old(streams), Parse(usb), streams)
    {
      hide Collected, Parse, ParseAt, CinLength, Carried;
      var i := 0;
      ghost var k, events := 0, Parse(usb);
      ParsedEvents(usb);
      NothingCollected(streams);
      assert events[..0] == [];
      while i + 3 < |usb|
        invariant Valid() && i == 4 * k && k <= |events|
        invariant Collected(old(streams), events[..k], streams)
      {
        CollectedNext(old(streams), events, k, streams);
        var cable, count := usb[i] / 16, CinLength(usb[i] % 16);
        CarriedAt(usb, i);
        Deliver(cable, usb[i + 1..i + 1 + count]);
        i, k := i + 4, k + 1;
      }
      assert events[..k] == events;
    }
  }

  /** Each stream has grown by what its cable's events carry. */
  predicate Collected(before: seq<seq<Byte>>, events: seq<Event>, after: seq<seq<Byte>>) {
    && |before| == |after| == CABLES
    && after[0] == before[0] + Decode(events, 0) && after[1] == before[1] + Decode(events, 1)
  }

  lemma NothingCollected(streams: seq<seq<Byte>>)
    requires |streams| == CABLES
    ensures Collected(streams, [], streams)
  {
  }

  lemma CollectedNext(before: seq<seq<Byte>>, events: seq<Event>, k: nat, streams: seq<seq<Byte>>)
    requires k < |events| && Collected(before, events[..k], streams) && |streams| == CABLES
    ensures var e := events[k];
      Collected(before, events[..k + 1],
                if e.cable >= CABLES then streams else streams[e.cable := streams[e.cable] + Carried(e)])
  {
    hide Decode, Carried;
    DecodeNext(events, k, 0);
    DecodeNext(events, k, 1);
  }

  lemma ParsedEvents(usb: seq<Byte>)
    ensures |Parse(usb)| == |usb| / 4
    ensures forall k :: 0 <= k < |usb| / 4 ==> Parse(usb)[k] == ParseAt(usb, 4 * k)
  {
  }

  lemma DecodeNext(events: seq<Event>, k: nat, cable: Nibble)
    requires k < |events|
    ensures Decode(events[..k + 1], cable)
         == if events[k].cable == cable then Decode(events[..k], cable) + Carried(events[k])
            else Decode(events[..k], cable)
  {
    var e := events[k];
    assert events[..k + 1] == events[..k] + [e];
    DecodeConcat(events[..k], [e], cable);
    assert Decode([e], cable) == (if e.cable == cable then Carried(e) else []) + [];
  }

  lemma CarriedAt(usb: seq<Byte>, i: nat)
    requires i + 4 <= |usb|
    ensures var count := CinLength(usb[i] % 16);
      && Carried(ParseAt(usb, i)) == usb[i + 1..i + 1 + count]
      && ParseAt(usb, i).cable == usb[i] / 16
  {
  }
}
