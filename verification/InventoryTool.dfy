/**
 * The inventory program. What the device, the clock, the file system and signals will do is given as a `World` that
 * the program questions; every action is noted in a trace, which is proved to obey the rules, and what the run
 * achieves is stated in terms of the answers.
 */
module InventoryTool {
  import opened Words
  import opened Options
  import opened Inventory
  import RigExport

  const VERIFY_ATTEMPTS: nat := 5
  const DUMP_ATTEMPTS: nat := 3
  const REPLY_ATTEMPTS: nat := 64
  const PATH_LIMIT: nat := 1024

  datatype Nap = Slept(extra: nat) | Failed | Woken
  datatype Reply = Silence | Message(bytes: seq<Byte>)
  datatype Store = Store(created: bool, written: nat, closed: bool, moved: bool)

  /**
   * The answers to the program's questions, each kind numbered in the order asked: whether a signal has come in, how
   * much time has passed, how a sleep ends, whether a program change and a get request are accepted, what is read
   * next, and how writing a file goes. `pathLength` is the length of the output directory's path.
   */
  datatype World = World(
    pathLength: nat, connected: bool, signal: nat -> bool, tick: nat -> nat, nap: nat -> Nap, accepts: nat -> bool,
    request: nat -> bool, reply: nat -> Reply, store: nat -> Store, recordCreated: bool, recordWritten: bool)

  /** Whether the path of the record fits the program's buffer; the captures' own paths are shorter. */
  predicate RecordPathFits(w: World) {
    w.pathLength + |"/original_program.txt"| < PATH_LIMIT
  }

  predicate PartialPathFits(w: World, slot: Slot) {
    w.pathLength + (if slot.bank == 1 then |"/factory_01A.syx.partial"| else |"/user_01A.syx.partial"|) < PATH_LIMIT
  }

  /** The next message about an object, within a number of reads, and the number of the read after it. */
  function Awaited(w: World, device: Byte, kind: Byte, from: nat, left: nat): (Option<seq<Byte>>, nat)
    decreases left
  {
    if left == 0 then (None, from)
    else
      match w.reply(from)
      case Silence => (None, from + 1)
      case Message(m) =>
        if IsObject(m, device, kind) then (Some(m), from + 1) else Awaited(w, device, kind, from + 1, left - 1)
  }

  /** What the device says is selected. */
  function AskedRig(w: World, device: Byte, requests: nat, replies: nat): (r: (Option<Slot>, nat)) {
    if !w.request(requests) then (None, replies)
    else
      var (m, next) := Awaited(w, device, CURRENT_RIG, replies, REPLY_ATTEMPTS);
      (if m.Some? && |m.value| >= 9 then Some(Slot(m.value[6], m.value[7])) else None, next)
  }

  /** Whether the device names the slot within a number of questions, and the numbers of the questions after them. */
  function Verified(w: World, device: Byte, slot: Slot, requests: nat, replies: nat, left: nat): (bool, nat, nat)
    decreases left
  {
    if left == 0 then (false, requests, replies)
    else
      var (current, next) := AskedRig(w, device, requests, replies);
      if current == Some(slot) then (true, requests + 1, next)
      else Verified(w, device, slot, requests + 1, next, left - 1)
  }

  /** The dump the device sends within a number of questions. */
  function AskedDump(w: World, device: Byte, requests: nat, replies: nat, left: nat): (Option<seq<Byte>>, nat, nat)
    decreases left
  {
    if left == 0 then (None, requests, replies)
    else if !w.request(requests) then AskedDump(w, device, requests + 1, replies, left - 1)
    else
      var (m, next) := Awaited(w, device, EDIT_BUFFER, replies, REPLY_ATTEMPTS);
      if m.Some? && |m.value| > MINIMUM then (m, requests + 1, next)
      else AskedDump(w, device, requests + 1, next, left - 1)
  }

  predicate Storable(w: World, slot: Slot, k: nat, length: nat) {
    var s := w.store(k); PartialPathFits(w, slot) && s.created && s.written >= length && s.closed && s.moved
  }

  /** The device names the slot in time, sends its dump, and the dump can be stored. */
  predicate Capturable(w: World, device: Byte, slot: Slot, requests: nat, replies: nat, stores: nat) {
    var (verified, asked, heard) := Verified(w, device, slot, requests, replies, VERIFY_ATTEMPTS);
    verified
    && var dump := AskedDump(w, device, asked, heard, DUMP_ATTEMPTS).0;
       dump.Some? && Storable(w, slot, stores, |dump.value|)
  }

  /** What a run leaves as the record. */
  function RecordLeft(w: World, record: Record, current: Option<Slot>): Record {
    if !record.Absent? || current.None? || !w.recordCreated then record
    else if !w.recordWritten then Unreadable
    else Readable(current.value.bank, current.value.rig)
  }

  /** A message that is no answer about the object: too short, cut off, of another device or family, about something
      else, or, for a dump, not sent on request. */
  predicate Foreign(m: seq<Byte>, device: Byte, kind: Byte) {
    || |m| < 8 || m[..4] != [0xF0, 0x13, 0x0B, device] || m[5] != kind || m[|m| - 1] != 0xF7
    || m[4] !in if kind == 1 then {0x12} else {0x02, 0x12}
  }

  lemma ForeignIff(m: seq<Byte>, device: Byte, kind: Byte)
    ensures Foreign(m, device, kind) <==> !IsObject(m, device, kind)
  {
    if |m| >= 8 {
      assert m[..4] == [m[0], m[1], m[2], m[3]];
    }
  }

  /** The next n reads give messages that are no answer. */
  predicate Passes(w: World, device: Byte, kind: Byte, from: nat, n: nat) {
    forall i :: from <= i < from + n ==> w.reply(i).Message? && Foreign(w.reply(i).bytes, device, kind)
  }

  /** Waiting gives the first message about the object within 64 reads, unless a read before it gives nothing. */
  lemma {:induction false} AwaitedIsFirst(w: World, device: Byte, kind: Byte, from: nat, left: nat, n: nat)
    requires n <= left && Passes(w, device, kind, from, n)
    ensures n == left ==> Awaited(w, device, kind, from, left) == (None, from + n)
    ensures n < left && w.reply(from + n).Silence? ==> Awaited(w, device, kind, from, left) == (None, from + n + 1)
    ensures n < left && w.reply(from + n).Message? && IsObject(w.reply(from + n).bytes, device, kind) ==>
      Awaited(w, device, kind, from, left) == (Some(w.reply(from + n).bytes), from + n + 1)
    decreases n
  {
    hide IsObject, Foreign;
    if n > 0 {
      ForeignIff(w.reply(from).bytes, device, kind);
      AwaitedIsFirst(w, device, kind, from + 1, left - 1, n - 1);
    }
  }

  /** The device names a program, on request or on its own account. */
  predicate Names(m: seq<Byte>, device: Byte, slot: Slot) {
    || m == [0xF0, 0x13, 0x0B, device, 0x02, 0x02, slot.bank, slot.rig, 0xF7]
    || m == [0xF0, 0x13, 0x0B, device, 0x12, 0x02, slot.bank, slot.rig, 0xF7]
  }

  /** The bytes that select a program and the bytes that name it mean the same slot. */
  lemma NamesWhatIsSent(device: Byte, sent: Slot, named: Slot, m: seq<Byte>)
    requires Names(m, device, named)
    ensures m[5..] == ChangeMessage(device, sent)[5..] <==> sent == named
  {
    var c := ChangeMessage(device, sent);
    assert m[5..] == [m[5], m[6], m[7], m[8]] && c[5..] == [c[5], c[6], c[7], c[8]];
  }

  /** A program named within 64 reads of an accepted request, behind any messages about other things, is the one the
      tool takes to be selected. */
  lemma NamedIsAsked(w: World, device: Byte, requests: nat, replies: nat, n: nat, slot: Slot)
    requires w.request(requests) && n < 64 && Passes(w, device, 0x02, replies, n)
    requires w.reply(replies + n).Message? && Names(w.reply(replies + n).bytes, device, slot)
    ensures AskedRig(w, device, requests, replies) == (Some(slot), replies + n + 1)
  {
    AwaitedIsFirst(w, device, 0x02, replies, 64, n);
  }

  /** A question gets no answer: it is refused, or one read gives nothing or names another program. */
  ghost predicate Unanswered(w: World, device: Byte, slot: Slot, request: nat, reply: nat) {
    || !w.request(request) || w.reply(reply).Silence?
    || exists other :: other != slot && Names(w.reply(reply).bytes, device, other)
  }

  /** How many of the next n questions the device accepts. */
  function Accepted(w: World, requests: nat, n: nat): nat
    decreases n
  {
    if n == 0 then 0 else Accepted(w, requests + 1, n - 1) + if w.request(requests) then 1 else 0
  }

  /** The next n questions about the selected program get no answer, each accepted one using up one read. */
  ghost predicate NoAnswers(w: World, device: Byte, slot: Slot, requests: nat, replies: nat, n: nat)
    decreases n
  {
    n == 0 || (Unanswered(w, device, slot, requests, replies)
               && NoAnswers(w, device, slot, requests + 1, replies + Accepted(w, requests, 1), n - 1))
  }

  lemma UnansweredAsks(w: World, device: Byte, slot: Slot, requests: nat, replies: nat)
    requires Unanswered(w, device, slot, requests, replies)
    ensures var (current, next) := AskedRig(w, device, requests, replies);
      current != Some(slot) && next == replies + Accepted(w, requests, 1)
  {
    assert Accepted(w, requests + 1, 0) == 0;
    if w.request(requests) && w.reply(replies).Message? {
      var other :| other != slot && Names(w.reply(replies).bytes, device, other);
      NamedIsAsked(w, device, requests, replies, 0, other);
    }
  }

  /** A slot is verified when one of five questions is answered by its name, whatever became of those before. */
  lemma {:induction false} NamedIsVerified(w: World, device: Byte, slot: Slot, requests: nat, replies: nat, left: nat,
                                           q: nat, n: nat)
    requires q < left && NoAnswers(w, device, slot, requests, replies, q)
    requires var asked, heard := requests + q, replies + Accepted(w, requests, q);
      && w.request(asked) && n < 64 && Passes(w, device, 0x02, heard, n)
      && w.reply(heard + n).Message? && Names(w.reply(heard + n).bytes, device, slot)
    ensures Verified(w, device, slot, requests, replies, left)
         == (true, requests + q + 1, replies + Accepted(w, requests, q) + n + 1)
    decreases q
  {
    hide Names, Passes, Unanswered, AskedRig;
    if q == 0 {
      NamedIsAsked(w, device, requests, replies, n, slot);
    } else {
      UnansweredAsks(w, device, slot, requests, replies);
      assert Accepted(w, requests + 1, 0) == 0;
      NamedIsVerified(w, device, slot, requests + 1, replies + Accepted(w, requests, 1), left - 1, q - 1, n);
    }
  }

  /** A dump of the edit buffer as the device sends it, longer than 100 bytes. */
  predicate IsDump(m: seq<Byte>, device: Byte) {
    && |m| > 100 && m[..6] == [0xF0, 0x13, 0x0B, device, 0x12, 0x01] && m[|m| - 1] == 0xF7
  }

  /** The next n questions are refused or followed by one read that gives nothing. */
  predicate NoDumps(w: World, requests: nat, replies: nat, n: nat)
    decreases n
  {
    n == 0 || ((!w.request(requests) || w.reply(replies).Silence?)
               && NoDumps(w, requests + 1, replies + Accepted(w, requests, 1), n - 1))
  }

  /** A dump is taken when one of three questions brings it, behind any messages about other things. */
  lemma {:induction false} DumpIsAsked(w: World, device: Byte, requests: nat, replies: nat, left: nat, q: nat, n: nat)
    requires q < left && NoDumps(w, requests, replies, q)
    requires var asked, heard := requests + q, replies + Accepted(w, requests, q);
      && w.request(asked) && n < 64 && Passes(w, device, 0x01, heard, n)
      && w.reply(heard + n).Message? && IsDump(w.reply(heard + n).bytes, device)
    ensures var heard := replies + Accepted(w, requests, q);
      AskedDump(w, device, requests, replies, left) == (Some(w.reply(heard + n).bytes), requests + q + 1, heard + n + 1)
    decreases q
  {
    hide Passes, Awaited;
    if q == 0 {
      var m := w.reply(replies + n).bytes;
      assert m[0] == m[..6][0] && m[1] == m[..6][1] && m[2] == m[..6][2] && m[3] == m[..6][3];
      assert m[4] == m[..6][4] && m[5] == m[..6][5];
      AwaitedIsFirst(w, device, 0x01, replies, 64, n);
    } else {
      assert Accepted(w, requests + 1, 0) == 0;
      if w.request(requests) {
        SilenceIsNothing(w, device, replies);
      }
      DumpIsAsked(w, device, requests + 1, replies + Accepted(w, requests, 1), left - 1, q - 1, n);
    }
  }

  lemma SilenceIsNothing(w: World, device: Byte, replies: nat)
    requires w.reply(replies).Silence?
    ensures Awaited(w, device, 0x01, replies, 64) == (None, replies + 1)
  {
  }

  /** A file of a slot is stored: its path fits, and it is created, written in full, closed and moved into place. */
  predicate Stores(w: World, slot: Slot, k: nat, length: nat) {
    && w.pathLength <= (if slot.bank == 1 then 999 else 1002)
    && w.store(k).created && w.store(k).written >= length && w.store(k).closed && w.store(k).moved
  }

  lemma StorableIff(w: World, slot: Slot, k: nat, length: nat)
    ensures Storable(w, slot, k, length) <==> Stores(w, slot, k, length)
  {
  }

  /** A slot is captured when it is named within five questions, its dump comes within three more, and the file is
      stored. */
  lemma AnsweredIsCapturable(w: World, device: Byte, slot: Slot, requests: nat, replies: nat, stores: nat,
                             q: nat, n: nat, p: nat, m: nat)
    requires q < 5 && NoAnswers(w, device, slot, requests, replies, q)
    requires var asked, heard := requests + q, replies + Accepted(w, requests, q);
      && w.request(asked) && n < 64 && Passes(w, device, 0x02, heard, n)
      && w.reply(heard + n).Message? && Names(w.reply(heard + n).bytes, device, slot)
    requires var asked, heard := requests + q + 1, replies + Accepted(w, requests, q) + n + 1;
      && p < 3 && NoDumps(w, asked, heard, p)
      && var last := heard + Accepted(w, asked, p);
      && w.request(asked + p) && m < 64 && Passes(w, device, 0x01, last, m)
      && w.reply(last + m).Message? && IsDump(w.reply(last + m).bytes, device)
      && Stores(w, slot, stores, |w.reply(last + m).bytes|)
    ensures Capturable(w, device, slot, requests, replies, stores)
  {
    hide NoAnswers, NoDumps, Passes, Names, IsDump, Accepted, Verified, AskedDump;
    NamedIsVerified(w, device, slot, requests, replies, 5, q, n);
    DumpIsAsked(w, device, requests + q + 1, replies + Accepted(w, requests, q) + n + 1, 3, p, m);
  }

  /** On the first run, the program that the device names is the one recorded; a record that exists is left alone. */
  lemma NamedIsRecorded(w: World, device: Byte, record: Record, n: nat, slot: Slot)
    requires w.request(0) && n < 64 && Passes(w, device, 0x02, 0, n)
    requires w.reply(n).Message? && Names(w.reply(n).bytes, device, slot)
    ensures var left := RecordLeft(w, record, AskedRig(w, device, 0, 0).0);
      && (record != Absent || !w.recordCreated ==> left == record)
      && (left == Readable(slot.bank, slot.rig)
          <==> record == Readable(slot.bank, slot.rig) || (record == Absent && w.recordCreated && w.recordWritten))
  {
    NamedIsAsked(w, device, 0, 0, n, slot);
  }

  /** What is captured is a rig dump, as the exporter recognises it. */
  lemma DumpIsRigMessage(bytes: seq<Byte>, device: Byte)
    requires IsObject(bytes, device, EDIT_BUFFER)
    ensures RigExport.IsRigMessage(bytes)
  {
  }

  /** Some sleep failed for another reason than a signal. */
  ghost predicate NapFailed(w: World, from: nat, to: nat) {
    exists i :: from <= i < to && w.nap(i).Failed?
  }

  lemma NoNaps(w: World, n: nat)
    ensures !NapFailed(w, n, n)
  {
  }

  lemma OneMoreNap(w: World, from: nat, to: nat)
    requires from <= to
    ensures NapFailed(w, from, to + 1) <==> NapFailed(w, from, to) || w.nap(to).Failed?
  {
  }

  /** What visiting slots must not disturb. */
  datatype Milestone = Milestone(original: Option<Slot>, record: Record, stop: bool, refused: bool, naps: nat)

  /** From one point of a run to a later one: a wait has only been refused because a sleep failed. */
  ghost predicate Onward(w: World, a: Milestone, b: Milestone) {
    && b.original == a.original && b.record == a.record && (a.stop ==> b.stop) && a.naps <= b.naps
    && (b.refused <==> a.refused || NapFailed(w, a.naps, b.naps))
  }

  lemma OnwardFurther(w: World, a: Milestone, b: Milestone, c: Milestone)
    requires Onward(w, a, b) && Onward(w, b, c)
    ensures Onward(w, a, c)
  {
    if NapFailed(w, a.naps, c.naps) {
      var i :| a.naps <= i < c.naps && w.nap(i).Failed?;
      assert i < b.naps || b.naps <= i;
    }
  }

  lemma OnwardNot(w: World, a: Milestone)
    ensures Onward(w, a, a)
  {
  }

  /** Slots visited so far, by whether they were counted. */
  predicate Counts(disk: Disk, completed: nat, n: nat) {
    completed <= n && (completed == n <==> CapturedUpTo(disk, n))
  }

  lemma CountedOneMore(before: Disk, after: Disk, completed: nat, n: nat)
    requires n < ALL_RIGS && Counts(before, completed, n) && Captured(after, SlotAt(n))
    requires forall s :: s != SlotAt(n) ==> (Captured(before, s) <==> Captured(after, s))
    ensures Counts(after, completed + 1, n + 1)
  {
    hide Captured;
    assert forall k :: 0 <= k < n ==> SlotAt(k) != SlotAt(n);
  }

  lemma CountedGap(before: Disk, after: Disk, completed: nat, n: nat, end: nat)
    requires n < end <= ALL_RIGS && Counts(before, completed, n) && !Captured(after, SlotAt(n))
    ensures Counts(after, completed, end)
  {
    hide Captured;
  }

  datatype Visit = Counted | GaveUp | Missed

  class Tool {
    const world: World
    const device: Byte
    var disk: Disk
    var stop: bool
    var now: nat
    var looks: nat
    var ticks: nat
    var naps: nat
    var sends: nat
    var requests: nat
    var replies: nat
    var stores: nat
    ghost const start: Disk
    ghost const begun: nat
    ghost var log: seq<Action>

    ghost function State(): Run
      reads this
    {
      Replay(Begin(start, begun), log)
    }

    ghost predicate Valid()
      reads this
    {
      && Trace(Begin(start, begun), device, log)
      && State().disk == disk && State().interrupted == stop && State().at <= now
      && (State().lastSend.Some? ==> State().lastSend.value <= now)
    }

    constructor (world: World, disk: Disk, device: Byte, now: nat)
      ensures Valid() && log == [] && this.disk == start == disk && this.world == world && this.device == device
      ensures begun == now && !stop && requests == replies == naps == 0
    {
      this.world, this.disk, this.device, this.now, this.stop := world, disk, device, now, false;
      looks, ticks, naps, sends, requests, replies, stores := 0, 0, 0, 0, 0, 0, 0;
      this.start, this.begun, this.log := disk, now, [];
    }

    /** Note an action that the rules allow. */
    ghost method Note(a: Action)
      requires Trace(Begin(start, begun), device, log) && Allowed(State(), device, a)
      modifies this`log
      ensures Trace(Begin(start, begun), device, log) && State() == After(old(State()), a)
    {
      TraceNext(Begin(start, begun), device, log, a);
      log := log + [a];
    }

    /** A signal may have come in. */
    method Poll()
      requires Valid()
      modifies this`stop, this`log, this`looks
      ensures Valid() && stop == (old(stop) || world.signal(old(looks)))
      ensures State() == old(State()).(interrupted := stop)
    {
      hide Replay, Trace;
      if world.signal(looks) {
        stop := true;
        Note(Interrupted);
      }
      looks := looks + 1;
    }

    /** Time passes, at least this much. */
    method Pass(least: nat)
      requires Valid()
      modifies this`now, this`ticks
      ensures Valid() && now == old(now) + least + world.tick(old(ticks))
    {
      now, ticks := now + least + world.tick(ticks), ticks + 1;
    }

    /** Wait until fifteen seconds after the last program change of this run: granted unless a signal came in or a
        sleep failed. */
    method WaitForSwitchWindow(last: Option<nat>) returns (ok: bool)
      requires Valid() && State().begun && !State().restored
      modifies this`stop, this`log, this`now, this`looks, this`ticks, this`naps
      ensures Valid() && now >= old(now) && naps >= old(naps) && (old(stop) ==> stop)
      ensures State() == old(State()).(interrupted := stop, refused := State().refused)
      ensures State().refused <==> old(State()).refused || NapFailed(world, old(naps), naps)
      ensures ok <==> !stop && !NapFailed(world, old(naps), naps)
      ensures ok ==> Spaced(last, now)
    {
      hide Replay, Trace, NapFailed;
      NoNaps(world, naps);
      if last.None? {
        Poll();
        return !stop;
      }
      while true
        invariant Valid() && now >= old(now) && naps >= old(naps) && (old(stop) ==> stop)
        invariant State() == old(State()).(interrupted := stop) && !NapFailed(world, old(naps), naps)
        decreases last.value + INTERVAL - now
      {
        Pass(0);
        var elapsed := now - last.value;
        if elapsed >= INTERVAL {
          Poll();
          return !stop;
        }
        OneMoreNap(world, old(naps), naps);
        var rested := Nap(INTERVAL - elapsed);
        if !rested {
          return false;
        }
        Poll();
        if stop {
          return false;
        }
      }
    }

    /** Sleep once: a signal may cut it short, and it may fail. */
    method Nap(least: nat) returns (ok: bool)
      requires Valid() && State().begun && !State().restored
      modifies this`stop, this`log, this`now, this`ticks, this`naps
      ensures Valid() && now >= old(now) && naps == old(naps) + 1 && ok == !world.nap(old(naps)).Failed?
      ensures (old(stop) ==> stop) && (ok && !stop ==> now >= old(now) + least)
      ensures State() == old(State()).(interrupted := stop, refused := old(State()).refused || !ok)
    {
      hide Replay, Trace, Allowed;
      var nap := world.nap(naps);
      naps := naps + 1;
      match nap {
        case Slept(extra) =>
          Pass(least + extra);
        case Failed =>
          MayNote(Refused);
          Note(Refused);
          return false;
        case Woken =>
          stop := true;
          MayNote(Interrupted);
          Note(Interrupted);
      }
      return true;
    }

    lemma MayNote(a: Action)
      requires a.Interrupted? || (State().begun && !State().restored && (a.Refused? || a.Reported?))
      ensures Allowed(State(), device, a)
    {
    }

    /** Wait for a response about an object. */
    method WaitForObject(kind: Byte) returns (response: Option<seq<Byte>>)
      modifies this`replies
      ensures (response, replies) == Awaited(world, device, kind, old(replies), REPLY_ATTEMPTS)
      ensures response.Some? ==> IsObject(response.value, device, kind)
    {
      hide IsObject;
      for attempt := 0 to REPLY_ATTEMPTS
        invariant Awaited(world, device, kind, old(replies), REPLY_ATTEMPTS)
               == Awaited(world, device, kind, replies, REPLY_ATTEMPTS - attempt)
      {
        var reply := world.reply(replies);
        replies := replies + 1;
        if reply.Silence? {
          return None;
        }
        if IsObject(reply.bytes, device, kind) {
          return Some(reply.bytes);
        }
      }
      return None;
    }

    /** Ask which program is selected. */
    method QueryCurrentRig() returns (current: Option<Slot>)
      modifies this`requests, this`replies
      ensures (current, replies) == AskedRig(world, device, old(requests), old(replies))
      ensures requests == old(requests) + 1
    {
      hide IsObject, Awaited;
      requests := requests + 1;
      if !world.request(requests - 1) {
        return None;
      }
      var response := WaitForObject(CURRENT_RIG);
      if response.None? || |response.value| < 9 {
        return None;
      }
      return Some(Slot(response.value[6], response.value[7]));
    }

    /** Ask for the edit buffer. */
    method QueryEditBuffer() returns (dump: Option<seq<Byte>>)
      requires Valid() && State().begun && !State().restored
      modifies this`log, this`requests, this`replies
      ensures Valid()
      ensures (dump, requests, replies) == AskedDump(world, device, old(requests), old(replies), DUMP_ATTEMPTS)
      ensures dump.Some? ==> State() == old(State()).(seen := old(State()).seen.(dumped := dump))
      ensures dump.Some? ==> |dump.value| > MINIMUM
      ensures dump.None? ==> State() == old(State())
    {
      hide Replay, Trace, IsObject, Awaited;
      for attempt := 0 to DUMP_ATTEMPTS
        invariant Valid() && State() == old(State())
        invariant AskedDump(world, device, old(requests), old(replies), DUMP_ATTEMPTS)
               == AskedDump(world, device, requests, replies, DUMP_ATTEMPTS - attempt)
      {
        requests := requests + 1;
        if world.request(requests - 1) {
          dump := WaitForObject(EDIT_BUFFER);
          if dump.Some? && |dump.value| > MINIMUM {
            Note(Dumped(dump.value));
            return;
          }
        }
      }
      dump := None;
    }

    /** Write a capture beside its final name and move it there. A write that goes wrong leaves the final name alone
        and nothing beside it. */
    method SaveCapture(slot: Slot, bytes: seq<Byte>) returns (ok: bool)
      requires Valid() && State().begun && !State().restored
      requires State().seen == Seen(Some(slot), Some(slot), Some(bytes)) && !Captured(disk, slot) && |bytes| > MINIMUM
      modifies this`disk, this`log, this`stores
      ensures Valid() && State() == old(State()).(disk := disk) && disk.record == old(disk).record
      ensures ok == Storable(world, slot, old(stores), |bytes|)
      ensures disk.captures == if ok then old(disk).captures[slot := bytes] else old(disk).captures
      ensures disk.partials == if PartialPathFits(world, slot) && world.store(old(stores)).created
                               then old(disk).partials - {slot} else old(disk).partials
    {
      hide Replay, Trace, IsObject, Complete, MaySend;
      var answer := world.store(stores);
      stores := stores + 1;
      if !PartialPathFits(world, slot) || !answer.created {
        return false;
      }
      var written := if answer.written < |bytes| then answer.written else |bytes|;
      disk := disk.(partials := disk.partials[slot := bytes[..written]]);
      Note(Partial(slot, bytes[..written]));
      if written != |bytes| || !answer.closed || !answer.moved {
        disk := disk.(partials := disk.partials - {slot});
        Note(Discarded(slot));
        return false;
      }
      assert bytes[..written] == bytes;
      disk := Moved(disk, slot);
      Note(Renamed(slot));
      return true;
    }

    /** Ask until the device names the slot. */
    method VerifySelected(slot: Slot) returns (verified: bool)
      requires Valid() && State().begun && !State().restored
      modifies this`log, this`now, this`ticks, this`requests, this`replies
      ensures Valid() && now >= old(now)
      ensures State() == old(State()).(seen := State().seen) && State().seen.sent == old(State()).seen.sent
      ensures verified ==> State().seen.reported == Some(slot)
      ensures (verified, requests, replies)
           == Verified(world, device, slot, old(requests), old(replies), VERIFY_ATTEMPTS)
    {
      hide Replay, Trace, Allowed, AskedRig;
      verified := false;
      for attempt := 0 to VERIFY_ATTEMPTS
        invariant Valid() && now >= old(now)
        invariant State() == old(State()).(seen := State().seen) && State().seen.sent == old(State()).seen.sent
        invariant Verified(world, device, slot, old(requests), old(replies), VERIFY_ATTEMPTS)
               == Verified(world, device, slot, requests, replies, VERIFY_ATTEMPTS - attempt)
      {
        var current := QueryCurrentRig();
        if current.Some? {
          MayNote(Reported(current.value));
          Note(Reported(current.value));
          if current.value == slot {
            return true;
          }
        }
        Pass(0);
      }
    }

    /** Read back the slot just selected and save it. */
    method CaptureSelected(slot: Slot) returns (ok: bool)
      requires Valid() && State().begun && !State().restored && State().seen.sent == Some(slot) && !Captured(disk, slot)
      modifies this`disk, this`log, this`now, this`ticks, this`requests, this`replies, this`stores
      ensures Valid() && now >= old(now)
      ensures State() == old(State()).(disk := disk, seen := State().seen) && State().seen.sent == Some(slot)
      ensures disk.record == old(disk).record
      ensures forall s :: s != slot ==> (Captured(old(disk), s) <==> Captured(disk, s))
      ensures ok == Captured(disk, slot) == Capturable(world, device, slot, old(requests), old(replies), old(stores))
    {
      hide Replay, Trace, Allowed, AskedDump, Storable, Verified;
      Pass(0); // a signal may cut the settling time short
      var verified := VerifySelected(slot);
      if !verified {
        return false;
      }
      var dump := QueryEditBuffer();
      if dump.None? {
        return false;
      }
      ok := SaveCapture(slot, dump.value);
    }

    /** Find the program to restore, recording it on the first run. */
    method FindOriginal() returns (original: Option<Slot>)
      requires Valid() && log == [] && disk == start && requests == replies == 0
      modifies this`disk, this`log, this`requests, this`replies
      ensures Valid() && disk.captures == start.captures
      ensures var current := AskedRig(world, device, 0, 0).0;
        && original == State().original == Original(start.record, current)
        && disk.record == RecordLeft(world, start.record, current)
      ensures State() == Begin(start, begun).(begun := true, original := original, disk := disk, interrupted := stop)
    {
      assert State() == Begin(start, begun);
      hide Replay, Trace, AskedRig;
      var current := QueryCurrentRig();
      Note(Began(current));
      original := current;
      if disk.record.Readable? && InRange(disk.record.bank, disk.record.rig) {
        original := Some(Slot(disk.record.bank, disk.record.rig));
      } else if disk.record.Absent? && current.Some? && world.recordCreated {
        disk := disk.(record := Unreadable);
        Note(Opened);
        if world.recordWritten {
          disk := disk.(record := Readable(current.value.bank, current.value.rig));
          Note(Recorded(current.value));
        }
      }
    }

    /** Between program changes: the time kept is no earlier than the last one, and its slot is captured. */
    ghost predicate Ready(last: Option<nat>)
      reads this
    {
      && Kept(last) && Settled(State())
    }

    ghost predicate Kept(last: Option<nat>)
      reads this
    {
      && Valid() && State().begun && !State().restored
      && (last.None? <==> State().lastSend.None?)
      && (last.Some? ==> State().lastSend.value <= last.value <= now)
    }

    ghost function Here(): Milestone
      reads this
    {
      Milestone(State().original, disk.record, stop, State().refused, naps)
    }

    /**
     * Select one slot and capture it, unless there is a capture already. It is missed only if the device does not
     * accept the change or the slot is not capturable, and given up only for a signal or a failed sleep.
     */
    method VisitSlot(slot: Slot, last: Option<nat>) returns (outcome: Visit, last': Option<nat>)
      requires Ready(last) && InRange(slot.bank, slot.rig)
      modifies this`disk, this`stop, this`log, this`now, this`looks, this`ticks, this`naps, this`sends, this`requests,
               this`replies, this`stores
      ensures Kept(last') && Onward(world, old(Here()), Here()) && (Settled(State()) <==> !outcome.Missed?)
      ensures forall s :: s != slot ==> (Captured(old(disk), s) <==> Captured(disk, s))
      ensures outcome.Counted? <==> Captured(disk, slot)
      ensures outcome.Missed? && world.accepts(old(sends)) ==>
                !Capturable(world, device, slot, old(requests), old(replies), old(stores))
      ensures (outcome.GaveUp? ==> stop || State().refused) && (old(State()).refused ==> State().refused)
    {
      hide Replay, Trace, Capturable;
      last' := last;
      if Captured(disk, slot) {
        return Counted, last';
      }
      var open := WaitForSwitchWindow(last);
      if !open {
        return GaveUp, last';
      }
      Note(Sent(slot, now));
      Pass(0);
      last' := Some(now);
      sends := sends + 1;
      if !world.accepts(sends - 1) {
        return Missed, last';
      }
      var ok := CaptureSelected(slot);
      return if ok then Counted else Missed, last';
    }

    /** Visit the slots in order: the run goes on until one is missed or a signal comes in. */
    method CaptureAll() returns (finished: bool, completed: nat, last: Option<nat>)
      requires Ready(None)
      modifies this`disk, this`stop, this`log, this`now, this`looks, this`ticks, this`naps, this`sends, this`requests,
               this`replies, this`stores
      ensures Kept(last) && Onward(world, old(Here()), Here()) && finished == Settled(State())
      ensures finished && !stop ==> completed <= ALL_RIGS && (completed == ALL_RIGS <==> Complete(disk))
      ensures finished && !stop ==> Complete(disk) || State().refused
      ensures !finished ==> !Complete(disk)
    {
      hide Replay, Trace, Kept, Settled, Captured, CapturedUpTo, Onward, Counts;
      ghost var at := Here();
      OnwardNot(world, at);
      NoneCounted();
      completed, last := 0, None;
      var bankIndex := 0;
      while bankIndex < BANKS && !stop
        invariant bankIndex <= BANKS && Kept(last) && Settled(State()) && Onward(world, at, Here())
        invariant !stop ==> Counts(disk, completed, bankIndex * RIGS)
        invariant !stop ==> completed == bankIndex * RIGS || State().refused
      {
        var bank: Byte := if bankIndex == 0 then 1 else 0;
        var rig := 0;
        while rig < RIGS && !stop
          invariant rig <= RIGS && Kept(last) && Settled(State()) && Onward(world, at, Here())
          invariant !stop ==> Counts(disk, completed, bankIndex * RIGS + rig)
          invariant !stop ==> completed == bankIndex * RIGS + rig || State().refused
        {
          ghost var before, here := disk, Here();
          NumberOf(bankIndex, rig);
          var outcome, time := VisitSlot(Slot(bank, rig), last);
          last := time;
          OnwardFurther(world, at, here, Here());
          if outcome.Missed? {
            MissedOne(disk, bankIndex * RIGS + rig);
            return false, completed, last;
          }
          if outcome.GaveUp? {
            if !stop {
              CountedGap(before, disk, completed, bankIndex * RIGS + rig, bankIndex * RIGS + RIGS);
            }
            break;
          }
          if !stop {
            CountedOneMore(before, disk, completed, bankIndex * RIGS + rig);
          }
          completed := completed + 1;
          rig := rig + 1;
          here := Here();
          Look(last);
          OnwardFurther(world, at, here, Here());
        }
        bankIndex := bankIndex + 1;
      }
      AllCounted(disk, completed);
      return true, completed, last;
    }

    /** Between two steps a signal may come in. */
    method Look(last: Option<nat>)
      requires Kept(last)
      modifies this`stop, this`log, this`looks
      ensures Kept(last) && Onward(world, old(Here()), Here()) && (old(stop) ==> stop)
      ensures (Settled(State()) <==> old(Settled(State()))) && (State().refused <==> old(State()).refused)
    {
      hide Replay, Trace;
      Poll();
    }

    /** Go back to the original program, if there is one, anything was changed, and the wait is granted. */
    method RestoreOriginal(original: Option<Slot>, last: Option<nat>) returns (ghost granted: bool)
      requires Ready(last) && State().original == original && (stop || Complete(disk) || State().refused)
      modifies this`stop, this`log, this`now, this`looks, this`ticks, this`naps, this`sends
      ensures Valid() && State().begun && State().original == original && Settled(State())
      ensures State().restored <==> original.Some? && last.Some? && granted
      ensures State().lastSend.Some? <==> last.Some?
      ensures original.Some? && last.Some? && !granted ==> stop || NapFailed(world, old(naps), naps)
      ensures (old(stop) ==> stop) && naps >= old(naps)
    {
      hide Replay, Trace, Complete;
      granted := false;
      if original.None? || last.None? {
        return;
      }
      var open := WaitForSwitchWindow(last);
      if open {
        Note(Restored(original.value, now));
        sends := sends + 1;
        Pass(0);
        granted := true;
      }
    }

    /**
     * One run of the program. A run that reaches the device finds the original, records it on a first run, and
     * restores it exactly when there is one, something was selected, everything selected was captured and the wait was
     * granted. Its status is 0 exactly when all 208 slots are captured and no signal came in.
     */
    method Run() returns (status: nat, ghost granted: bool)
      requires Valid() && log == [] && disk == start && requests == replies == naps == 0
      modifies this`disk, this`stop, this`log, this`now, this`looks, this`ticks, this`naps, this`sends, this`requests,
               this`replies, this`stores
      ensures Valid() && (State().begun <==> world.connected && RecordPathFits(world))
      ensures !State().begun ==> status == 1 && disk == start
      ensures State().begun ==>
                var current := AskedRig(world, device, 0, 0).0;
                && State().original == Original(start.record, current)
                && disk.record == RecordLeft(world, start.record, current)
      ensures State().original.Some? && EndsRestoring(log, State().original.value) <==>
                State().begun && State().original.Some? && State().lastSend.Some? && Settled(State()) && granted
      ensures State().begun && State().original.Some? && State().lastSend.Some? && Settled(State()) && !granted ==>
                stop || NapFailed(world, 0, naps)
      ensures status == 0 <==> State().begun && Complete(disk) && !stop
      ensures status == 130 <==> State().begun && Settled(State()) && stop
    {
      assert State() == Begin(start, begun);
      hide Replay, Trace, Captured, Complete, AskedRig, EndsRestoring;
      granted := false;
      if !world.connected || !RecordPathFits(world) {
        RestoredIff(start, begun, device, log);
        return 1, granted;
      }
      var original := FindOriginal();
      Poll();
      var finished, completed, last := CaptureAll();
      if !finished {
        RestoredIff(start, begun, device, log);
        return 1, granted;
      }
      granted := RestoreOriginal(original, last);
      Poll();
      RestoredIff(start, begun, device, log);
      if !stop && completed == ALL_RIGS {
        return 0, granted;
      }
      return if stop then 130 else 1, granted;
    }
  }

  lemma NumberOf(bankIndex: nat, rig: nat)
    requires bankIndex < BANKS && rig < RIGS
    ensures bankIndex * RIGS + rig < ALL_RIGS
    ensures SlotAt(bankIndex * RIGS + rig) == Slot(if bankIndex == 0 then 1 else 0, rig)
  {
  }

  lemma NoneCounted()
    ensures forall disk :: Counts(disk, 0, 0)
  {
  }

  lemma MissedOne(disk: Disk, n: nat)
    requires n < ALL_RIGS && !Captured(disk, SlotAt(n))
    ensures !Complete(disk)
  {
  }

  lemma AllCounted(disk: Disk, completed: nat)
    ensures Counts(disk, completed, ALL_RIGS) ==> completed <= ALL_RIGS && (completed == ALL_RIGS <==> Complete(disk))
  {
  }
}
