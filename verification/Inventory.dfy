/**
 * The resumable inventory, as the traces it may leave behind. A run can be cut off after any action, so every rule
 * is one that each prefix of a trace obeys; what many runs leave on the disk follows from the rules.
 */
module Inventory {
  import opened Words
  import opened Options
  import UsbMidi
  import SysexTransfer

  const RIGS: nat := 104
  const BANKS: nat := 2
  const ALL_RIGS: nat := 208
  const INTERVAL: nat := 15_000_000_000
  const MINIMUM: nat := 100
  const CURRENT_RIG: Byte := 0x02
  const EDIT_BUFFER: Byte := 0x01

  datatype Slot = Slot(bank: Byte, rig: Byte)

  /** The file with the program that was selected before the first run. */
  datatype Record = Absent | Unreadable | Readable(bank: nat, rig: nat)

  /** What is on the disk: finished captures, captures being written, and the record. */
  datatype Disk = Disk(captures: map<Slot, seq<Byte>>, partials: map<Slot, seq<Byte>>, record: Record)

  /** What happens, in the order it happens. Times are in nanoseconds. */
  datatype Action =
    | Began(current: Option<Slot>)
    | Opened
    | Recorded(slot: Slot)
    | Interrupted
    | Refused
    | Sent(slot: Slot, time: nat)
    | Reported(slot: Slot)
    | Dumped(bytes: seq<Byte>)
    | Partial(slot: Slot, bytes: seq<Byte>)
    | Discarded(slot: Slot)
    | Renamed(slot: Slot)
    | Restored(slot: Slot, time: nat)

  /** What the device said since the last slot was selected. */
  datatype Seen = Seen(sent: Option<Slot>, reported: Option<Slot>, dumped: Option<seq<Byte>>)

  /** A run that started at time `at` with the record `start`; `refused` says that a sleep failed. */
  datatype Run = Run(
    at: nat, start: Record, disk: Disk, begun: bool, original: Option<Slot>, interrupted: bool, refused: bool,
    restored: bool, lastSend: Option<nat>, seen: Seen)

  predicate InRange(bank: nat, rig: nat) {
    bank <= 1 && rig < RIGS
  }

  /** An answer to a get request, by the object it is about. */
  predicate IsObject(m: seq<Byte>, device: Byte, kind: Byte) {
    && |m| >= 8 && m[0] == 0xF0 && m[1] == 0x13 && m[2] == 0x0B && m[3] == device && m[5] == kind
    && m[|m| - 1] == 0xF7 && (m[4] == 0x12 || (kind != EDIT_BUFFER && m[4] == 0x02))
  }

  /** A capture that a later run will not take again. */
  predicate Captured(disk: Disk, slot: Slot) {
    slot in disk.captures && |disk.captures[slot]| > MINIMUM
  }

  /** The slot visited as number n: the factory bank first. */
  function SlotAt(n: nat): Slot
    requires n < ALL_RIGS
  {
    Slot(if n < RIGS then 1 else 0, n % RIGS)
  }

  predicate CapturedUpTo(disk: Disk, n: nat) {
    forall k :: 0 <= k < n && k < ALL_RIGS ==> Captured(disk, SlotAt(k))
  }

  /** All slots visited are captured. */
  predicate Complete(disk: Disk) {
    CapturedUpTo(disk, ALL_RIGS)
  }

  /** The visiting order leaves none of the two banks' 104 slots out. */
  lemma AllVisited(disk: Disk)
    ensures Complete(disk) <==> forall slot: Slot :: slot.bank <= 1 && slot.rig < 104 ==> Captured(disk, slot)
  {
    if Complete(disk) {
      forall slot: Slot | slot.bank <= 1 && slot.rig < 104
        ensures Captured(disk, slot)
      {
        assert SlotAt(if slot.bank == 1 then slot.rig as int else RIGS + slot.rig) == slot;
      }
    }
  }

  /** The program to restore: the recorded one if the record makes sense, else the one selected now. */
  function Original(record: Record, current: Option<Slot>): Option<Slot> {
    if record.Readable? && InRange(record.bank, record.rig) then Some(Slot(record.bank, record.rig)) else current
  }

  predicate Spaced(last: Option<nat>, time: nat) {
    last.Some? ==> time >= last.value + INTERVAL
  }

  /** The slot selected last is captured. */
  predicate Settled(r: Run) {
    r.seen.sent.Some? ==> Captured(r.disk, r.seen.sent.value)
  }

  /** A program may be selected: no signal came in, the slot selected last is captured, and the time has come. */
  predicate MaySend(r: Run, time: nat) {
    !r.interrupted && Settled(r) && time >= r.at && Spaced(r.lastSend, time)
  }

  predicate Allowed(r: Run, device: Byte, a: Action) {
    && (r.restored ==> a.Interrupted?)
    && (a.Interrupted? || (a.Began? <==> !r.begun))
    && match a
       case Began(current) => true
       case Opened => r.start.Absent? && r.disk.record.Absent? && r.original.Some? && r.lastSend.None?
       case Recorded(slot) =>
         r.start.Absent? && r.disk.record.Unreadable? && r.original == Some(slot) && r.lastSend.None?
       case Interrupted => true
       case Refused => true
       case Sent(slot, time) => InRange(slot.bank, slot.rig) && !Captured(r.disk, slot) && MaySend(r, time)
       case Reported(slot) => true
       case Dumped(bytes) => |bytes| > MINIMUM && IsObject(bytes, device, EDIT_BUFFER)
       case Partial(slot, bytes) =>
         && r.seen.sent == r.seen.reported == Some(slot) && !Captured(r.disk, slot)
         && r.seen.dumped.Some? && bytes <= r.seen.dumped.value
       case Discarded(slot) => true
       case Renamed(slot) =>
         && r.seen.sent == r.seen.reported == Some(slot) && !Captured(r.disk, slot)
         && slot in r.disk.partials && r.seen.dumped == Some(r.disk.partials[slot])
       case Restored(slot, time) =>
         && r.original == Some(slot) && r.lastSend.Some? && MaySend(r, time) && (Complete(r.disk) || r.refused)
  }

  function After(r: Run, a: Action): Run {
    match a
    case Began(current) => r.(begun := true, original := Original(r.start, current))
    case Opened => r.(disk := r.disk.(record := Unreadable))
    case Recorded(slot) => r.(disk := r.disk.(record := Readable(slot.bank, slot.rig)))
    case Interrupted => r.(interrupted := true)
    case Refused => r.(refused := true)
    case Sent(slot, time) => r.(lastSend := Some(time), seen := Seen(Some(slot), None, None))
    case Reported(slot) => r.(seen := Seen(r.seen.sent, Some(slot), None))
    case Dumped(bytes) => r.(seen := r.seen.(dumped := Some(bytes)))
    case Partial(slot, bytes) => r.(disk := r.disk.(partials := r.disk.partials[slot := bytes]))
    case Discarded(slot) => r.(disk := r.disk.(partials := r.disk.partials - {slot}))
    case Renamed(slot) => r.(disk := Moved(r.disk, slot))
    case Restored(slot, time) => r.(lastSend := Some(time), restored := true)
  }

  /** A finished file takes its final name, all at once. */
  function Moved(disk: Disk, slot: Slot): Disk {
    if slot !in disk.partials then disk
    else disk.(captures := disk.captures[slot := disk.partials[slot]], partials := disk.partials - {slot})
  }

  function Begin(disk: Disk, at: nat): Run {
    Run(at, disk.record, disk, false, None, false, false, false, None, Seen(None, None, None))
  }

  function Replay(r: Run, log: seq<Action>): Run {
    if log == [] then r else After(Replay(r, log[..|log| - 1]), log[|log| - 1])
  }

  /** A trace that a run from this state may leave. */
  predicate Trace(r: Run, device: Byte, log: seq<Action>) {
    log == []
    || (Trace(r, device, log[..|log| - 1]) && Allowed(Replay(r, log[..|log| - 1]), device, log[|log| - 1]))
  }

  lemma TraceNext(r: Run, device: Byte, log: seq<Action>, a: Action)
    requires Trace(r, device, log) && Allowed(Replay(r, log), device, a)
    ensures Trace(r, device, log + [a]) && Replay(r, log + [a]) == After(Replay(r, log), a)
  {
    hide Allowed, After;
    assert (log + [a])[..|log|] == log;
  }

  lemma TraceStep(r: Run, device: Byte, log: seq<Action>)
    requires Trace(r, device, log) && log != []
    ensures var n := |log| - 1;
      && Trace(r, device, log[..n]) && Allowed(Replay(r, log[..n]), device, log[n])
      && Replay(r, log) == After(Replay(r, log[..n]), log[n])
  {
    hide Allowed, After;
  }

  lemma ReplayStep(r: Run, log: seq<Action>)
    ensures log == [] ==> Replay(r, log) == r
    ensures log != [] ==> Replay(r, log) == After(Replay(r, log[..|log| - 1]), log[|log| - 1])
  {
    hide After;
  }

  /** A run cut off anywhere has left a trace too. */
  lemma {:induction false} CutOff(r: Run, device: Byte, log: seq<Action>, k: nat)
    requires Trace(r, device, log) && k <= |log|
    ensures Trace(r, device, log[..k])
    ensures k < |log| ==> Allowed(Replay(r, log[..k]), device, log[k])
  {
    hide Allowed, After;
    if k < |log| {
      var init := log[..|log| - 1];
      CutOff(r, device, init, k);
      assert init[..k] == log[..k];
    } else {
      assert log[..k] == log;
    }
  }

  predicate Sends(a: Action) {
    a.Sent? || a.Restored?
  }

  predicate NoneSelected(log: seq<Action>, from: nat) {
    forall i :: from <= i < |log| ==> !log[i].Sent?
  }

  // What the device said.

  lemma {:induction false} LastSent(disk: Disk, at: nat, log: seq<Action>) returns (h: nat)
    requires Replay(Begin(disk, at), log).seen.sent.Some?
    ensures h < |log| && log[h].Sent? && log[h].slot == Replay(Begin(disk, at), log).seen.sent.value
    ensures NoneSelected(log, h + 1)
  {
    hide Replay;
    ReplayStep(Begin(disk, at), log);
    var n := |log| - 1;
    if log[n].Sent? {
      h := n;
    } else {
      h := LastSent(disk, at, log[..n]);
    }
  }

  lemma {:induction false} LastReported(disk: Disk, at: nat, log: seq<Action>) returns (i: nat)
    requires Replay(Begin(disk, at), log).seen.reported.Some?
    ensures i < |log| && log[i] == Reported(Replay(Begin(disk, at), log).seen.reported.value)
    ensures NoneSelected(log, i)
  {
    hide Replay;
    ReplayStep(Begin(disk, at), log);
    var n := |log| - 1;
    if log[n].Reported? {
      i := n;
    } else {
      i := LastReported(disk, at, log[..n]);
    }
  }

  lemma {:induction false} LastDumped(disk: Disk, at: nat, log: seq<Action>) returns (j: nat)
    requires Replay(Begin(disk, at), log).seen.dumped.Some?
    ensures j < |log| && log[j] == Dumped(Replay(Begin(disk, at), log).seen.dumped.value)
    ensures forall k :: j < k < |log| ==> !log[k].Reported?
  {
    hide Replay;
    ReplayStep(Begin(disk, at), log);
    var n := |log| - 1;
    if log[n].Dumped? {
      j := n;
    } else {
      j := LastDumped(disk, at, log[..n]);
    }
  }

  /** The trace shows the program change, then the device naming the slot, then the device sending these bytes,
      with no other program change from the first on. */
  ghost predicate FromDevice(log: seq<Action>, device: Byte, slot: Slot, bytes: seq<Byte>) {
    && |bytes| > MINIMUM && IsObject(bytes, device, EDIT_BUFFER)
    && exists h, i, j ::
         && 0 <= h < i < j < |log| && log[h].Sent? && log[h].slot == slot && log[i] == Reported(slot)
         && log[j] == Dumped(bytes) && forall k :: h < k < |log| ==> !Sends(log[k])
  }

  lemma {:induction false} RestoredIsLast(disk: Disk, at: nat, device: Byte, log: seq<Action>, k: nat)
    requires Trace(Begin(disk, at), device, log) && k < |log| && log[k].Restored?
    ensures Replay(Begin(disk, at), log).restored
    ensures forall j :: k < j < |log| ==> log[j].Interrupted?
  {
    hide Trace, Replay;
    TraceStep(Begin(disk, at), device, log);
    if k < |log| - 1 {
      RestoredIsLast(disk, at, device, log[..|log| - 1], k);
    }
  }

  /** A file only gets its final name with bytes that came, whole, from the device for that slot. */
  lemma RenamedIsFromDevice(disk: Disk, at: nat, device: Byte, log: seq<Action>, k: nat)
    requires Trace(Begin(disk, at), device, log) && k < |log| && log[k].Renamed?
    ensures var slot, r := log[k].slot, Replay(Begin(disk, at), log[..k + 1]);
      slot in r.disk.captures && FromDevice(log[..k], device, slot, r.disk.captures[slot])
  {
    hide Trace, Replay, Allowed;
    var before, slot := log[..k], log[k].slot;
    CutOff(Begin(disk, at), device, log, k);
    RenameAllowed(Replay(Begin(disk, at), before), device, slot);
    ReplayNext(Begin(disk, at), log, k);
    var h := LastSent(disk, at, before);
    var i := LastReported(disk, at, before);
    var j := LastDumped(disk, at, before);
    forall m | 0 <= m < k
      ensures !before[m].Restored?
    {
      if before[m].Restored? {
        RestoredIsLast(disk, at, device, log, m);
        assert false;
      }
    }
    assert h < i && i < j;
    CutOff(Begin(disk, at), device, log, j);
    assert log[j] == before[j];
    DumpAllowed(Replay(Begin(disk, at), log[..j]), device, log[j]);
  }

  lemma ReplayNext(r: Run, log: seq<Action>, k: nat)
    requires k < |log|
    ensures Replay(r, log[..k + 1]) == After(Replay(r, log[..k]), log[k])
  {
    hide After;
    assert log[..k + 1][..k] == log[..k];
  }

  lemma RenameAllowed(r: Run, device: Byte, slot: Slot)
    requires Allowed(r, device, Renamed(slot))
    ensures r.seen.sent == r.seen.reported == Some(slot) && slot in r.disk.partials && !r.restored
    ensures r.seen.dumped == Some(r.disk.partials[slot])
  {
  }

  lemma DumpAllowed(r: Run, device: Byte, a: Action)
    requires Allowed(r, device, a) && a.Dumped?
    ensures |a.bytes| > MINIMUM && IsObject(a.bytes, device, EDIT_BUFFER)
  {
  }

  // Captures, within a run.

  /** A capture on the disk is never replaced. */
  lemma {:induction false} CaptureKept(r: Run, device: Byte, log: seq<Action>, slot: Slot)
    requires Trace(r, device, log) && Captured(r.disk, slot)
    ensures var d := Replay(r, log).disk; Captured(d, slot) && d.captures[slot] == r.disk.captures[slot]
  {
    hide Trace, Replay, IsObject, Complete;
    if log == [] {
      ReplayNothing(r);
    } else {
      TraceStep(r, device, log);
      CaptureKept(r, device, log[..|log| - 1], slot);
    }
  }

  /** A file that was not there before, or is not the same, came from the device. */
  lemma {:induction false} NewCapture(disk: Disk, at: nat, device: Byte, log: seq<Action>, slot: Slot)
    requires Trace(Begin(disk, at), device, log)
    requires slot in Replay(Begin(disk, at), log).disk.captures
    ensures var bytes := Replay(Begin(disk, at), log).disk.captures[slot];
      || (slot in disk.captures && disk.captures[slot] == bytes)
      || exists k :: 0 <= k <= |log| && FromDevice(log[..k], device, slot, bytes)
  {
    hide Trace, Replay, Allowed, FromDevice;
    if log == [] {
      ReplayNothing(Begin(disk, at));
    } else {
      var n := |log| - 1;
      CutOff(Begin(disk, at), device, log, n);
      ReplayNext(Begin(disk, at), log, n);
      assert log[..n + 1] == log;
      if log[n] == Renamed(slot) {
        RenamedIsFromDevice(disk, at, device, log, n);
      } else {
        NewCapture(disk, at, device, log[..n], slot);
        forall k | 0 <= k <= n
          ensures log[..n][..k] == log[..k]
        {
        }
      }
    }
  }

  lemma ReplayNothing(r: Run)
    ensures Replay(r, []) == r
  {
  }

  // Pacing, within a run.

  lemma {:induction false} LastSendIsLatest(disk: Disk, at: nat, device: Byte, log: seq<Action>, i: nat)
    requires Trace(Begin(disk, at), device, log) && i < |log| && Sends(log[i])
    ensures var last := Replay(Begin(disk, at), log).lastSend; last.Some? && at <= log[i].time <= last.value
  {
    hide Trace, Replay, IsObject, Complete, Settled;
    TraceStep(Begin(disk, at), device, log);
    StartStays(disk, at, log[..|log| - 1]);
    if i < |log| - 1 {
      LastSendIsLatest(disk, at, device, log[..|log| - 1], i);
    }
  }

  lemma {:induction false} StartStays(disk: Disk, at: nat, log: seq<Action>)
    ensures Replay(Begin(disk, at), log).at == at && Replay(Begin(disk, at), log).start == disk.record
  {
    hide Replay;
    ReplayStep(Begin(disk, at), log);
    if log != [] {
      StartStays(disk, at, log[..|log| - 1]);
    }
  }

  /** Within a run, program changes are at least fifteen seconds apart. */
  lemma SendsAreSpaced(disk: Disk, at: nat, device: Byte, log: seq<Action>, i: nat, j: nat)
    requires Trace(Begin(disk, at), device, log) && i < j < |log| && Sends(log[i]) && Sends(log[j])
    ensures log[j].time >= log[i].time + 15_000_000_000
  {
    hide Trace, Replay;
    CutOff(Begin(disk, at), device, log, j);
    LastSendIsLatest(disk, at, device, log[..j], i);
  }

  // Restoring, within a run.

  /** Once a signal has been seen, no more program changes are sent: an interrupted run restores nothing. */
  lemma NothingSentAfterInterrupt(disk: Disk, at: nat, device: Byte, log: seq<Action>, i: nat, j: nat)
    requires Trace(Begin(disk, at), device, log) && i < j < |log| && log[i].Interrupted?
    ensures !Sends(log[j])
  {
    hide Trace, Replay;
    CutOff(Begin(disk, at), device, log, j);
    StaysInterrupted(disk, at, log[..j], i);
  }

  lemma {:induction false} StaysInterrupted(disk: Disk, at: nat, log: seq<Action>, i: nat)
    requires i < |log| && log[i].Interrupted?
    ensures Replay(Begin(disk, at), log).interrupted
  {
    hide Replay;
    ReplayStep(Begin(disk, at), log);
    if i < |log| - 1 {
      StaysInterrupted(disk, at, log[..|log| - 1], i);
    }
  }

  lemma CapturedStays(r: Run, device: Byte, a: Action, slot: Slot)
    requires Allowed(r, device, a) && Captured(r.disk, slot)
    ensures Captured(After(r, a).disk, slot)
  {
    hide IsObject, Complete;
  }

  lemma {:induction false} SelectedBefore(disk: Disk, at: nat, device: Byte, log: seq<Action>, i: nat)
    requires Trace(Begin(disk, at), device, log) && i < |log| && log[i].Sent?
    ensures var r := Replay(Begin(disk, at), log); Captured(r.disk, log[i].slot) || r.seen.sent == Some(log[i].slot)
  {
    hide Trace, Replay, IsObject, Complete;
    TraceStep(Begin(disk, at), device, log);
    if i < |log| - 1 {
      SelectedBefore(disk, at, device, log[..|log| - 1], i);
      if Captured(Replay(Begin(disk, at), log[..|log| - 1]).disk, log[i].slot) {
        CapturedStays(Replay(Begin(disk, at), log[..|log| - 1]), device, log[|log| - 1], log[i].slot);
      }
    }
  }

  /** A slot that was selected but not captured, for whatever reason, is the last: nothing is selected or restored
      after it. */
  lemma NothingSentAfterFailure(disk: Disk, at: nat, device: Byte, log: seq<Action>, i: nat, j: nat)
    requires Trace(Begin(disk, at), device, log) && i < j < |log|
    requires log[i].Sent? && !Captured(Replay(Begin(disk, at), log).disk, log[i].slot)
    ensures !Sends(log[j])
  {
    hide Trace, Replay;
    CutOff(Begin(disk, at), device, log, j);
    if Sends(log[j]) {
      SelectedBefore(disk, at, device, log[..j], i);
      Continued(Begin(disk, at), device, log, j);
      CaptureKept(Replay(Begin(disk, at), log[..j]), device, log[j..], log[i].slot);
      assert false;
    }
  }

  /** A trace is a trace from where its beginning leads. */
  lemma {:induction false} Continued(r: Run, device: Byte, log: seq<Action>, k: nat)
    requires Trace(r, device, log) && k <= |log|
    ensures Trace(Replay(r, log[..k]), device, log[k..]) && Replay(Replay(r, log[..k]), log[k..]) == Replay(r, log)
  {
    hide Allowed, After;
    if k < |log| {
      var n := |log| - 1;
      Continued(r, device, log[..n], k);
      assert log[..n][..k] == log[..k] && log[..n][k..] == log[k..][..n - k] && log[k..][n - k] == log[n];
    } else {
      assert log[..k] == log && log[k..] == [];
    }
  }

  /** The trace ends with going back to a program; only signals may come in after it. */
  ghost predicate EndsRestoring(log: seq<Action>, slot: Slot) {
    exists k :: 0 <= k < |log| && log[k].Restored? && log[k].slot == slot
                && forall j :: k < j < |log| ==> log[j].Interrupted?
  }

  lemma {:induction false} RestoredIff(disk: Disk, at: nat, device: Byte, log: seq<Action>)
    requires Trace(Begin(disk, at), device, log)
    ensures var r := Replay(Begin(disk, at), log);
      r.restored <==> r.original.Some? && EndsRestoring(log, r.original.value)
  {
    hide Trace, Replay, IsObject, Complete, MaySend;
    if log == [] {
      ReplayNothing(Begin(disk, at));
    } else {
      var n := |log| - 1;
      TraceStep(Begin(disk, at), device, log);
      RestoredIff(disk, at, device, log[..n]);
      var r, before := Replay(Begin(disk, at), log), Replay(Begin(disk, at), log[..n]);
      if r.restored && !log[n].Restored? {
        var k :| 0 <= k < n && log[..n][k].Restored? && log[..n][k].slot == before.original.value
                 && forall j :: k < j < n ==> log[..n][j].Interrupted?;
        assert forall j :: k < j < n ==> log[j] == log[..n][j];
        assert log[k].Restored?;
      }
      if r.original.Some? && EndsRestoring(log, r.original.value) {
        var k :| 0 <= k < |log| && log[k].Restored?;
        RestoredIsLast(disk, at, device, log, k);
      }
    }
  }

  /** A restore ends the run's actions; it comes after everything selected was captured, and, unless a sleep failed,
      only once all 208 slots are captured. */
  lemma RestoreEndsTheRun(disk: Disk, at: nat, device: Byte, log: seq<Action>, k: nat)
    requires Trace(Begin(disk, at), device, log) && k < |log| && log[k].Restored?
    ensures forall j :: k < j < |log| ==> log[j].Interrupted?
    ensures var d := Replay(Begin(disk, at), log[..k]).disk;
      && (forall i :: 0 <= i < k && log[i].Sent? ==> Captured(d, log[i].slot))
      && (Complete(d) || Refused in log[..k])
  {
    hide Trace, Replay, Complete;
    RestoredIsLast(disk, at, device, log, k);
    CutOff(Begin(disk, at), device, log, k);
    RefusedIsNoted(disk, at, log[..k]);
    forall i | 0 <= i < k && log[i].Sent?
      ensures Captured(Replay(Begin(disk, at), log[..k]).disk, log[i].slot)
    {
      SelectedBefore(disk, at, device, log[..k], i);
    }
  }

  lemma {:induction false} RefusedIsNoted(disk: Disk, at: nat, log: seq<Action>)
    ensures Replay(Begin(disk, at), log).refused <==> Refused in log
  {
    hide Replay;
    ReplayStep(Begin(disk, at), log);
    if log != [] {
      RefusedIsNoted(disk, at, log[..|log| - 1]);
      assert log == log[..|log| - 1] + [log[|log| - 1]];
    }
  }

  // The record and the program to restore, within a run.

  /** The program that was selected when the run began. */
  function Selected(log: seq<Action>): Option<Slot> {
    if log == [] then None
    else if log[|log| - 1].Began? then log[|log| - 1].current
    else Selected(log[..|log| - 1])
  }

  /** What the run does to the record: it only ever writes one that was absent, and writes the program selected. */
  lemma {:induction false} RecordIs(disk: Disk, at: nat, device: Byte, log: seq<Action>)
    requires Trace(Begin(disk, at), device, log)
    ensures var r := Replay(Begin(disk, at), log);
      && r.start == disk.record
      && r.original == (if r.begun then Original(disk.record, Selected(log)) else None)
      && (!r.begun ==> r.disk.record == disk.record && forall s :: Recorded(s) !in log)
      && (!disk.record.Absent? ==> r.disk.record == disk.record && forall s :: Recorded(s) !in log)
      && (disk.record.Absent? ==> forall s :: Recorded(s) in log <==> r.disk.record == Readable(s.bank, s.rig))
      && (disk.record.Absent? && r.disk.record.Readable? ==>
            r.original.Some? && r.disk.record == Readable(r.original.value.bank, r.original.value.rig))
  {
    hide Trace, Replay, IsObject, Complete, Original, MaySend;
    if log == [] {
      ReplayNothing(Begin(disk, at));
    } else {
      var init, last := log[..|log| - 1], log[|log| - 1];
      TraceStep(Begin(disk, at), device, log);
      RecordIs(disk, at, device, init);
      assert log == init + [last];
    }
  }

  /** Every restore of a run goes to its original: the recorded program, or else the one selected when it began. */
  lemma RestoresOriginal(disk: Disk, at: nat, device: Byte, log: seq<Action>, k: nat)
    requires Trace(Begin(disk, at), device, log) && k < |log| && log[k].Restored?
    ensures Some(log[k].slot) == Original(disk.record, Selected(log[..k]))
  {
    hide Trace, Replay;
    CutOff(Begin(disk, at), device, log, k);
    RecordIs(disk, at, device, log[..k]);
    OriginalNeedsBegun(Replay(Begin(disk, at), log[..k]), device, log[k]);
  }

  lemma OriginalNeedsBegun(r: Run, device: Byte, a: Action)
    requires Allowed(r, device, a) && a.Restored?
    ensures r.begun && r.original == Some(a.slot)
  {
  }

  /** The first run goes back to the program it found selected, and records no other. */
  lemma FirstRunRestoresWhatItRecords(disk: Disk, at: nat, device: Byte, log: seq<Action>, k: nat)
    requires Trace(Begin(disk, at), device, log) && disk.record.Absent? && k < |log| && log[k].Restored?
    ensures Selected(log) == Some(log[k].slot)
    ensures var record := Replay(Begin(disk, at), log).disk.record;
      record.Readable? ==> record == Readable(log[k].slot.bank, log[k].slot.rig)
  {
    hide Trace, Replay, Selected;
    RestoresOriginal(disk, at, device, log, k);
    RestoredIsLast(disk, at, device, log, k);
    SelectedStays(log, k);
    RecordIs(disk, at, device, log);
    RestoredBegan(disk, at, device, log);
  }

  lemma {:induction false} SelectedStays(log: seq<Action>, k: nat)
    requires k <= |log| && forall j :: k <= j < |log| ==> !log[j].Began?
    ensures Selected(log) == Selected(log[..k])
  {
    if k < |log| {
      SelectedStays(log[..|log| - 1], k);
      assert log[..|log| - 1][..k] == log[..k];
    } else {
      assert log[..k] == log;
    }
  }

  lemma {:induction false} RestoredBegan(disk: Disk, at: nat, device: Byte, log: seq<Action>)
    requires Trace(Begin(disk, at), device, log)
    ensures Replay(Begin(disk, at), log).restored ==> Replay(Begin(disk, at), log).begun
  {
    hide Replay, Trace, IsObject, Complete;
    if log == [] {
      ReplayNothing(Begin(disk, at));
    } else {
      TraceStep(Begin(disk, at), device, log);
      RestoredBegan(disk, at, device, log[..|log| - 1]);
    }
  }

  // Many runs.

  /** A run that started at a time and left a trace. */
  datatype Session = Session(at: nat, log: seq<Action>)

  function DiskAfter(disk: Disk, runs: seq<Session>): Disk {
    if runs == [] then disk
    else
      var n := |runs| - 1;
      Replay(Begin(DiskAfter(disk, runs[..n]), runs[n].at), runs[n].log).disk
  }

  /** The time of the last program change of a trace. */
  function LastSend(log: seq<Action>): Option<nat> {
    if log == [] then None
    else if Sends(log[|log| - 1]) then Some(log[|log| - 1].time)
    else LastSend(log[..|log| - 1])
  }

  /** The time of the last program change of all runs. */
  function Latest(runs: seq<Session>): Option<nat> {
    if runs == [] then None
    else
      var n := |runs| - 1;
      if LastSend(runs[n].log).Some? then LastSend(runs[n].log) else Latest(runs[..n])
  }

  predicate Follows(latest: Option<nat>, at: nat) {
    latest.Some? ==> at >= latest.value
  }

  /** Each run, complete or cut off, comes after the ones before it and starts from the disk they left. */
  predicate Runs(disk: Disk, device: Byte, runs: seq<Session>) {
    runs == []
    || var n := |runs| - 1;
       && Runs(disk, device, runs[..n]) && Follows(Latest(runs[..n]), runs[n].at)
       && Trace(Begin(DiskAfter(disk, runs[..n]), runs[n].at), device, runs[n].log)
  }

  lemma {:induction false} RunAt(disk: Disk, device: Byte, runs: seq<Session>, n: nat)
    requires Runs(disk, device, runs) && n < |runs|
    ensures Runs(disk, device, runs[..n])
    ensures Trace(Begin(DiskAfter(disk, runs[..n]), runs[n].at), device, runs[n].log)
  {
    hide Trace;
    var last := |runs| - 1;
    if n < last {
      RunAt(disk, device, runs[..last], n);
      assert runs[..last][..n] == runs[..n];
    }
  }

  /** However often the inventory is interrupted and resumed, every capture file is one that was there at first or
      holds, whole, what the device sent after naming that very slot. */
  lemma {:induction false} EveryCaptureIsFromDevice(disk: Disk, device: Byte, runs: seq<Session>, slot: Slot)
    requires Runs(disk, device, runs) && slot in DiskAfter(disk, runs).captures
    ensures var bytes := DiskAfter(disk, runs).captures[slot];
      || (slot in disk.captures && disk.captures[slot] == bytes)
      || exists n, k :: 0 <= n < |runs| && 0 <= k <= |runs[n].log| && FromDevice(runs[n].log[..k], device, slot, bytes)
  {
    hide Trace, Replay, FromDevice;
    if runs != [] {
      var n := |runs| - 1;
      var init := runs[..n];
      NewCapture(DiskAfter(disk, init), runs[n].at, device, runs[n].log, slot);
      if slot in DiskAfter(disk, init).captures {
        EveryCaptureIsFromDevice(disk, device, init, slot);
      }
    }
  }

  /** No run ever replaces a capture. */
  lemma {:induction false} CapturesAreKept(disk: Disk, device: Byte, runs: seq<Session>, slot: Slot)
    requires Runs(disk, device, runs) && Captured(disk, slot)
    ensures var d := DiskAfter(disk, runs); Captured(d, slot) && d.captures[slot] == disk.captures[slot]
  {
    hide Trace, Replay;
    if runs != [] {
      var n := |runs| - 1;
      CapturesAreKept(disk, device, runs[..n], slot);
      CaptureKept(Begin(DiskAfter(disk, runs[..n]), runs[n].at), device, runs[n].log, slot);
    }
  }

  // Pacing, over many runs.

  function History(runs: seq<Session>): seq<Action> {
    if runs == [] then [] else History(runs[..|runs| - 1]) + runs[|runs| - 1].log
  }

  predicate Paced(log: seq<Action>) {
    forall i, j :: 0 <= i < j < |log| && Sends(log[i]) && Sends(log[j]) ==> log[j].time - log[i].time >= 15_000_000_000
  }

  lemma TraceIsPaced(disk: Disk, at: nat, device: Byte, log: seq<Action>)
    requires Trace(Begin(disk, at), device, log)
    ensures Paced(log)
  {
    hide Trace;
    forall i, j | 0 <= i < j < |log| && Sends(log[i]) && Sends(log[j])
      ensures log[j].time >= log[i].time + INTERVAL
    {
      SendsAreSpaced(disk, at, device, log, i, j);
    }
  }

  lemma {:induction false} LastSendIs(disk: Disk, at: nat, log: seq<Action>)
    ensures Replay(Begin(disk, at), log).lastSend == LastSend(log)
  {
    hide Replay;
    ReplayStep(Begin(disk, at), log);
    if log != [] {
      LastSendIs(disk, at, log[..|log| - 1]);
    }
  }

  lemma {:induction false} LatestIsLatest(disk: Disk, device: Byte, runs: seq<Session>, i: nat)
    requires Runs(disk, device, runs) && i < |History(runs)| && Sends(History(runs)[i])
    ensures Latest(runs).Some? && History(runs)[i].time <= Latest(runs).value
  {
    hide Trace, Replay, LastSend;
    var n := |runs| - 1;
    var before, log := History(runs[..n]), runs[n].log;
    var start := DiskAfter(disk, runs[..n]);
    LastSendIs(start, runs[n].at, log);
    if i < |before| {
      LatestIsLatest(disk, device, runs[..n], i);
      if LastSend(log).Some? {
        var k := LastSendAt(log);
        LastSendIsLatest(start, runs[n].at, device, log, k);
      }
    } else {
      LastSendIsLatest(start, runs[n].at, device, log, i - |before|);
    }
  }

  lemma {:induction false} LastSendAt(log: seq<Action>) returns (k: nat)
    requires LastSend(log).Some?
    ensures k < |log| && Sends(log[k]) && log[k].time == LastSend(log).value
  {
    var n := |log| - 1;
    if Sends(log[n]) {
      k := n;
    } else {
      k := LastSendAt(log[..n]);
    }
  }

  lemma {:induction false} LatestAt(runs: seq<Session>) returns (i: nat)
    requires Latest(runs).Some?
    ensures i < |History(runs)| && Sends(History(runs)[i]) && History(runs)[i].time == Latest(runs).value
  {
    var n := |runs| - 1;
    if LastSend(runs[n].log).Some? {
      i := LastSendAt(runs[n].log);
      i := |History(runs[..n])| + i;
    } else {
      i := LatestAt(runs[..n]);
    }
  }

  /** With every slot captured a run sends nothing. */
  lemma {:induction false} CompleteSendsNothing(disk: Disk, at: nat, device: Byte, log: seq<Action>)
    requires Trace(Begin(disk, at), device, log) && Complete(disk)
    ensures Replay(Begin(disk, at), log).lastSend.None?
    ensures forall i :: 0 <= i < |log| ==> !Sends(log[i])
  {
    hide Captured, Complete, Trace, Replay, IsObject, Settled;
    if log == [] {
      ReplayNothing(Begin(disk, at));
    } else {
      var n := |log| - 1;
      TraceStep(Begin(disk, at), device, log);
      CompleteSendsNothing(disk, at, device, log[..n]);
      if log[n].Sent? {
        AllVisited(disk);
        CaptureKept(Begin(disk, at), device, log[..n], log[n].slot);
      }
    }
  }

  lemma JoinPaced(a: seq<Action>, b: seq<Action>, latest: Option<nat>, at: nat)
    requires Paced(a) && Paced(b) && (latest.Some? ==> at >= latest.value + INTERVAL)
    requires forall i :: 0 <= i < |a| && Sends(a[i]) ==> latest.Some? && a[i].time <= latest.value
    requires forall j :: 0 <= j < |b| && Sends(b[j]) ==> b[j].time >= at
    ensures Paced(a + b)
  {
    forall i, j | 0 <= i < j < |a + b| && Sends((a + b)[i]) && Sends((a + b)[j])
      ensures (a + b)[j].time >= (a + b)[i].time + INTERVAL
    {
      if j < |a| {
        assert a[j].time >= a[i].time + INTERVAL;
      } else if i >= |a| {
        assert b[j - |a|].time >= b[i - |a|].time + INTERVAL;
      } else {
        assert b[j - |a|].time >= at && a[i].time <= latest.value;
      }
    }
  }

  /** A run started at such a time keeps the pace of the runs before it: nothing was sent yet, fifteen seconds have
      passed since the last program change, or nothing is left to capture. */
  predicate MayStart(disk: Disk, runs: seq<Session>, at: nat) {
    Latest(runs).None? || at >= Latest(runs).value + INTERVAL || Complete(DiskAfter(disk, runs))
  }

  lemma StartedInTime(disk: Disk, device: Byte, runs: seq<Session>, at: nat, log: seq<Action>)
    requires Runs(disk, device, runs) && Paced(History(runs)) && MayStart(disk, runs, at)
    requires Trace(Begin(DiskAfter(disk, runs), at), device, log)
    ensures Paced(History(runs) + log)
  {
    hide Trace, Replay, Latest, History, Complete, Runs, Paced;
    var start, latest := DiskAfter(disk, runs), Latest(runs);
    TraceIsPaced(start, at, device, log);
    forall i | 0 <= i < |History(runs)| && Sends(History(runs)[i])
      ensures latest.Some? && History(runs)[i].time <= latest.value
    {
      LatestIsLatest(disk, device, runs, i);
    }
    if Complete(start) {
      CompleteSendsNothing(start, at, device, log);
      JoinPaced(History(runs), log, latest, if latest.Some? then latest.value + INTERVAL else 0);
    } else {
      forall j | 0 <= j < |log| && Sends(log[j])
        ensures log[j].time >= at
      {
        LastSendIsLatest(start, at, device, log, j);
      }
      JoinPaced(History(runs), log, latest, at);
    }
  }

  lemma {:induction false} FirstMissing(disk: Disk, n: nat) returns (k: nat)
    requires n <= ALL_RIGS && !CapturedUpTo(disk, n)
    ensures k < n && CapturedUpTo(disk, k) && !Captured(disk, SlotAt(k))
  {
    if CapturedUpTo(disk, n - 1) {
      k := n - 1;
    } else {
      k := FirstMissing(disk, n - 1);
    }
  }

  /** A run that selects the first slot not captured, at once. */
  lemma SendingTrace(disk: Disk, at: nat, device: Byte, current: Option<Slot>) returns (log: seq<Action>)
    requires !Complete(disk)
    ensures Trace(Begin(disk, at), device, log)
    ensures |log| == 2 && log[0] == Began(current) && log[1].Sent? && log[1].time == at
  {
    var k := FirstMissing(disk, ALL_RIGS);
    TraceNext(Begin(disk, at), device, [], Began(current));
    TraceNext(Begin(disk, at), device, [Began(current)], Sent(SlotAt(k), at));
    log := [Began(current), Sent(SlotAt(k), at)];
    assert [] + [Began(current)] == [Began(current)] && [Began(current)] + [Sent(SlotAt(k), at)] == log;
  }

  /** Whatever a run started at that time does, the pace is kept: exactly when it may start. */
  lemma StaysPacedIff(disk: Disk, device: Byte, runs: seq<Session>, at: nat)
    requires Runs(disk, device, runs) && Paced(History(runs)) && Follows(Latest(runs), at)
    ensures (forall log :: Trace(Begin(DiskAfter(disk, runs), at), device, log) ==> Paced(History(runs) + log))
       <==> MayStart(disk, runs, at)
  {
    hide Trace, Replay, Latest, History, Complete, Runs;
    var start := DiskAfter(disk, runs);
    if MayStart(disk, runs, at) {
      forall log | Trace(Begin(start, at), device, log)
        ensures Paced(History(runs) + log)
      {
        StartedInTime(disk, device, runs, at, log);
      }
    } else {
      var log := SendingTrace(start, at, device, None);
      var i := LatestAt(runs);
      var all := History(runs) + log;
      assert all[i] == History(runs)[i] && all[|History(runs)| + 1] == log[1];
      assert !Paced(all);
    }
  }

  /** When every run starts in time, all program changes of all runs are fifteen seconds apart. */
  lemma {:induction false} EveryRunPaced(disk: Disk, device: Byte, runs: seq<Session>)
    requires Runs(disk, device, runs)
    requires forall n :: 0 <= n < |runs| ==> MayStart(disk, runs[..n], runs[n].at)
    ensures Paced(History(runs))
  {
    hide Trace, Replay, Latest, MayStart;
    if runs != [] {
      var n := |runs| - 1;
      forall m | 0 <= m < n
        ensures MayStart(disk, runs[..n][..m], runs[..n][m].at)
      {
        assert runs[..n][..m] == runs[..m];
      }
      EveryRunPaced(disk, device, runs[..n]);
      StartedInTime(disk, device, runs[..n], runs[n].at, runs[n].log);
    }
  }

  /** The tool started again at once may change the program twice at the same moment. */
  lemma RestartBreaksPacing(device: Byte) returns (runs: seq<Session>)
    ensures Runs(Disk(map[], map[], Absent), device, runs) && |runs| == 2 && runs[0].at == runs[1].at == 0
    ensures !Paced(History(runs))
  {
    hide Trace, Replay, Paced, Runs, History, DiskAfter, Latest, Complete;
    var empty := Disk(map[], map[], Absent);
    NothingCaptured(empty);
    NoRuns(empty, device);
    var a := SendingTrace(empty, 0, device, None);
    AfterSending(empty, 0, a);
    TraceIsPaced(empty, 0, device, a);
    RunsNext(empty, device, [], Session(0, a));
    var first := [Session(0, a)];
    assert [] + [Session(0, a)] == first && [] + a == a;
    StaysPacedIff(empty, device, first, 0);
    var b :| Trace(Begin(DiskAfter(empty, first), 0), device, b) && !Paced(History(first) + b);
    RunsNext(empty, device, first, Session(0, b));
    runs := first + [Session(0, b)];
  }

  lemma NothingCaptured(disk: Disk)
    requires disk.captures == map[]
    ensures !Complete(disk) && !Captured(disk, SlotAt(0))
  {
    assert !Captured(disk, SlotAt(0));
  }

  lemma NoRuns(disk: Disk, device: Byte)
    ensures Runs(disk, device, []) && DiskAfter(disk, []) == disk && Latest([]) == None && History([]) == []
  {
  }

  lemma RunsNext(disk: Disk, device: Byte, runs: seq<Session>, s: Session)
    requires Runs(disk, device, runs) && Follows(Latest(runs), s.at)
    requires Trace(Begin(DiskAfter(disk, runs), s.at), device, s.log)
    ensures Runs(disk, device, runs + [s]) && History(runs + [s]) == History(runs) + s.log
    ensures DiskAfter(disk, runs + [s]) == Replay(Begin(DiskAfter(disk, runs), s.at), s.log).disk
    ensures Latest(runs + [s]) == if LastSend(s.log).Some? then LastSend(s.log) else Latest(runs)
  {
    hide Trace, Replay, LastSend;
    assert (runs + [s])[..|runs|] == runs;
  }

  /** Such a run has captured nothing yet. */
  lemma AfterSending(disk: Disk, at: nat, log: seq<Action>)
    requires |log| == 2 && log[0].Began? && log[1].Sent?
    ensures Replay(Begin(disk, at), log).disk == disk && LastSend(log) == Some(log[1].time)
  {
    hide Replay, After;
    var r, one := Begin(disk, at), log[..1];
    assert one[..0] == [] && log[..|log| - 1] == one;
    ReplayStep(r, []);
    ReplayStep(r, one);
    ReplayStep(r, log);
    SameDisk(r, log[0]);
    SameDisk(After(r, log[0]), log[1]);
  }

  lemma SameDisk(r: Run, a: Action)
    requires a.Began? || a.Sent?
    ensures After(r, a).disk == r.disk
  {
  }

  // Restoring, over many runs.

  ghost predicate WasRecorded(runs: seq<Session>, p: Slot) {
    exists n :: 0 <= n < |runs| && Recorded(p) in runs[n].log
  }

  /** From an absent record, the record afterwards is the program that some run got as far as recording. */
  lemma {:induction false} RecordAfterRuns(disk: Disk, device: Byte, runs: seq<Session>, p: Slot)
    requires Runs(disk, device, runs) && disk.record.Absent?
    ensures DiskAfter(disk, runs).record == Readable(p.bank, p.rig) <==> WasRecorded(runs, p)
  {
    hide Trace, Replay;
    if runs != [] {
      var n := |runs| - 1;
      RecordAfterRuns(disk, device, runs[..n], p);
      RecordIs(DiskAfter(disk, runs[..n]), runs[n].at, device, runs[n].log);
      assert WasRecorded(runs, p) <==> WasRecorded(runs[..n], p) || Recorded(p) in runs[n].log;
    }
  }

  /** Which program a restore selects, in every run of every sequence: the one of the 208 that an earlier run
      recorded, and when none did, the one that was selected as this run began. */
  lemma RestoreSelects(disk: Disk, device: Byte, runs: seq<Session>, n: nat, k: nat)
    requires Runs(disk, device, runs) && disk.record.Absent?
    requires n < |runs| && k < |runs[n].log| && runs[n].log[k].Restored?
    ensures forall p: Slot :: InRange(p.bank, p.rig) && WasRecorded(runs[..n], p) ==> runs[n].log[k].slot == p
    ensures (forall p: Slot :: InRange(p.bank, p.rig) ==> !WasRecorded(runs[..n], p)) ==>
              Selected(runs[n].log[..k]) == Some(runs[n].log[k].slot)
  {
    hide Trace, Replay, WasRecorded, Selected;
    RunAt(disk, device, runs, n);
    var start := DiskAfter(disk, runs[..n]);
    RestoresOriginal(start, runs[n].at, device, runs[n].log, k);
    forall p: Slot
      ensures start.record == Readable(p.bank, p.rig) <==> WasRecorded(runs[..n], p)
    {
      RecordAfterRuns(disk, device, runs[..n], p);
    }
    if start.record.Readable? && InRange(start.record.bank, start.record.rig) {
      var p := Slot(start.record.bank, start.record.rig);
      assert start.record == Readable(p.bank, p.rig);
    }
  }

  /** A record of one of the 208 programs is kept and is what every restore of every run goes back to. */
  lemma {:induction false} EveryRestoreIsTheRecord(disk: Disk, device: Byte, runs: seq<Session>)
    requires Runs(disk, device, runs) && disk.record.Readable? && InRange(disk.record.bank, disk.record.rig)
    ensures forall n, k :: 0 <= n < |runs| && 0 <= k < |runs[n].log| && runs[n].log[k].Restored? ==>
              runs[n].log[k].slot == Slot(disk.record.bank, disk.record.rig)
    ensures DiskAfter(disk, runs).record == disk.record
  {
    hide Trace, Replay;
    if runs != [] {
      var last := |runs| - 1;
      var start := DiskAfter(disk, runs[..last]);
      EveryRestoreIsTheRecord(disk, device, runs[..last]);
      RecordIs(start, runs[last].at, device, runs[last].log);
      forall k | 0 <= k < |runs[last].log| && runs[last].log[k].Restored?
        ensures runs[last].log[k].slot == Slot(disk.record.bank, disk.record.rig)
      {
        RestoresOriginal(start, runs[last].at, device, runs[last].log, k);
      }
    }
  }

  /** Every restore of every run from this disk goes to p. */
  ghost predicate RestoresOnly(disk: Disk, at: nat, device: Byte, p: Slot) {
    forall log: seq<Action>, k ::
      Trace(Begin(disk, at), device, log) && 0 <= k < |log| && log[k].Restored? ==> log[k].slot == p
  }

  /**
   * After any runs from an absent record, whatever is selected when the next one begins and whatever it meets, its
   * restore goes to p: exactly when p is one of the 208 and some run got as far as recording it, or nothing is left
   * to capture, so that nothing is changed or restored.
   */
  lemma NextRestoresIff(disk: Disk, device: Byte, runs: seq<Session>, at: nat, p: Slot)
    requires Runs(disk, device, runs) && disk.record.Absent?
    ensures RestoresOnly(DiskAfter(disk, runs), at, device, p)
       <==> Complete(DiskAfter(disk, runs)) || (InRange(p.bank, p.rig) && WasRecorded(runs, p))
  {
    hide Trace, Replay, Complete, WasRecorded, Runs;
    var start := DiskAfter(disk, runs);
    RecordAfterRuns(disk, device, runs, p);
    if Complete(start) || (InRange(p.bank, p.rig) && WasRecorded(runs, p)) {
      forall log: seq<Action>, k | Trace(Begin(start, at), device, log) && 0 <= k < |log| && log[k].Restored?
        ensures log[k].slot == p
      {
        if Complete(start) {
          CompleteSendsNothing(start, at, device, log);
        } else {
          RestoresOriginal(start, at, device, log, k);
        }
      }
    } else {
      var other := if p == SlotAt(0) then SlotAt(1) else SlotAt(0);
      var log := RestoringTrace(start, at, device, Some(other));
      assert log[|log| - 1].slot != p;
    }
  }

  // Runs that go all the way.

  /** A dump that is long enough. */
  function SomeDump(device: Byte): (b: seq<Byte>)
    ensures |b| > MINIMUM && IsObject(b, device, EDIT_BUFFER)
  {
    [0xF0, 0x13, 0x0B, device, 0x12, 0x01] + seq(MINIMUM, _ => 0) + [0xF7]
  }

  /** A run that can go on. */
  predicate Able(r: Run) {
    r.begun && !r.interrupted && !r.restored && Settled(r)
  }

  function NextTime(r: Run): nat {
    if r.lastSend.Some? && r.lastSend.value + INTERVAL > r.at then r.lastSend.value + INTERVAL else r.at
  }

  /** Selecting and capturing one slot, when everything goes well. */
  lemma CaptureOne(r: Run, device: Byte, log: seq<Action>, slot: Slot) returns (log': seq<Action>)
    requires Trace(r, device, log) && Able(Replay(r, log))
    requires InRange(slot.bank, slot.rig) && !Captured(Replay(r, log).disk, slot)
    ensures log <= log' && Trace(r, device, log') && Able(Replay(r, log'))
    ensures var s, s' := Replay(r, log), Replay(r, log');
      && s'.original == s.original && s'.lastSend.Some? && Captured(s'.disk, slot)
      && forall t :: Captured(s.disk, t) ==> Captured(s'.disk, t)
  {
    hide Replay, Trace, IsObject, SomeDump;
    var s, bytes := Replay(r, log), SomeDump(device);
    TraceNext(r, device, log, Sent(slot, NextTime(s)));
    log' := log + [Sent(slot, NextTime(s))];
    TraceNext(r, device, log', Reported(slot));
    log' := log' + [Reported(slot)];
    TraceNext(r, device, log', Dumped(bytes));
    log' := log' + [Dumped(bytes)];
    TraceNext(r, device, log', Partial(slot, bytes));
    log' := log' + [Partial(slot, bytes)];
    TraceNext(r, device, log', Renamed(slot));
    log' := log' + [Renamed(slot)];
  }

  /** The slots from n on are captured, one after the other. */
  lemma {:induction false} CaptureRest(r: Run, device: Byte, log: seq<Action>, n: nat) returns (log': seq<Action>)
    requires Trace(r, device, log) && Able(Replay(r, log)) && n <= ALL_RIGS && CapturedUpTo(Replay(r, log).disk, n)
    requires Replay(r, log).lastSend.Some? || !Complete(Replay(r, log).disk)
    ensures log <= log' && Trace(r, device, log') && Able(Replay(r, log')) && Complete(Replay(r, log').disk)
    ensures Replay(r, log').original == Replay(r, log).original && Replay(r, log').lastSend.Some?
    decreases ALL_RIGS - n
  {
    hide Replay, Trace, Able, Captured;
    if n == ALL_RIGS {
      log' := log;
    } else if Captured(Replay(r, log).disk, SlotAt(n)) {
      log' := CaptureRest(r, device, log, n + 1);
    } else {
      log' := CaptureOne(r, device, log, SlotAt(n));
      log' := CaptureRest(r, device, log', n + 1);
    }
  }

  /** A run with something left to capture can go all the way to restoring its original. */
  lemma RestoringTrace(disk: Disk, at: nat, device: Byte, current: Option<Slot>) returns (log: seq<Action>)
    requires !Complete(disk) && Original(disk.record, current).Some?
    ensures Trace(Begin(disk, at), device, log) && log != [] && log[0] == Began(current)
    ensures log[|log| - 1].Restored? && Some(log[|log| - 1].slot) == Original(disk.record, current)
  {
    hide Complete, Replay, Trace;
    var r, p := Begin(disk, at), Original(disk.record, current).value;
    ReplayNothing(r);
    NoTrace(r, device);
    TraceNext(r, device, [], Began(current));
    log := [] + [Began(current)];
    log := CaptureRest(r, device, log, 0);
    var time := NextTime(Replay(r, log));
    TraceNext(r, device, log, Restored(p, time));
    log := log + [Restored(p, time)];
  }

  lemma NoTrace(r: Run, device: Byte)
    ensures Trace(r, device, [])
  {
  }

  /**
   * The original is lost: a first run opens the record but is cut off before the program is in it, having selected a
   * slot; the next run takes that slot for the original, and restores it.
   */
  lemma CutOffRunLosesTheOriginal(device: Byte, p: Slot) returns (runs: seq<Session>)
    requires p != SlotAt(0)
    ensures Runs(Disk(map[], map[], Absent), device, runs) && |runs| == 2
    ensures runs[0].log == [Began(Some(p)), Opened, Sent(SlotAt(0), 0)]
    ensures var log := runs[1].log;
      && log != [] && log[0] == Began(Some(SlotAt(0)))
      && log[|log| - 1].Restored? && log[|log| - 1].slot == SlotAt(0) != p
  {
    hide Trace, Replay, Runs, DiskAfter, Latest, History, LastSend, Complete;
    var empty := Disk(map[], map[], Absent);
    var first := [Began(Some(p)), Opened, Sent(SlotAt(0), 0)];
    NothingCaptured(empty);
    NoRuns(empty, device);
    OpenedOnly(empty, device, p);
    RunsNext(empty, device, [], Session(0, first));
    var one := [Session(0, first)];
    assert [] + [Session(0, first)] == one;
    var start := DiskAfter(empty, one);
    NothingCaptured(start);
    var second := RestoringTrace(start, 0, device, Some(SlotAt(0)));
    RunsNext(empty, device, one, Session(0, second));
    runs := one + [Session(0, second)];
  }

  lemma OpenedOnly(disk: Disk, device: Byte, p: Slot)
    requires disk.record.Absent? && !Captured(disk, SlotAt(0))
    ensures var log := [Began(Some(p)), Opened, Sent(SlotAt(0), 0)];
      && Trace(Begin(disk, 0), device, log) && LastSend(log) == Some(0)
      && Replay(Begin(disk, 0), log).disk == disk.(record := Unreadable)
  {
    var r := Begin(disk, 0);
    var log := [Began(Some(p)), Opened, Sent(SlotAt(0), 0)];
    TraceNext(r, device, [], Began(Some(p)));
    TraceNext(r, device, [Began(Some(p))], Opened);
    TraceNext(r, device, [Began(Some(p)), Opened], Sent(SlotAt(0), 0));
    assert [] + [Began(Some(p))] == [Began(Some(p))] && [Began(Some(p))] + [Opened] == [Began(Some(p)), Opened];
    assert [Began(Some(p)), Opened] + [Sent(SlotAt(0), 0)] == log;
  }

  // The requests on the wire.

  function ChangeRequest(device: Byte, slot: Slot): seq<Byte> {
    [0x04, 0xF0, 0x13, 0x0B, 0x04, device, 0x00, 0x02, 0x07, slot.bank, slot.rig, 0xF7]
  }

  function GetRequest(device: Byte, kind: Byte): seq<Byte> {
    [0x04, 0xF0, 0x13, 0x0B, 0x04, device, 0x01, kind, 0x05, 0xF7, 0x00, 0x00]
  }

  function ChangeMessage(device: Byte, slot: Slot): seq<Byte> {
    [0xF0, 0x13, 0x0B, device, 0x00, 0x02, slot.bank, slot.rig, 0xF7]
  }

  function GetMessage(device: Byte, kind: Byte): seq<Byte> {
    [0xF0, 0x13, 0x0B, device, 0x01, kind, 0xF7]
  }

  /** The program-change request is its SysEx message, packed for the rig's cable. */
  lemma ChangeRequestIsPacked(device: Byte, slot: Slot)
    ensures ChangeRequest(device, slot) == UsbMidi.Bytes(SysexTransfer.SysexGroups(ChangeMessage(device, slot)))
  {
    hide SysexTransfer.SysexGroups;
    var m := ChangeMessage(device, slot);
    var second, third := [device, 0x00, 0x02, slot.bank, slot.rig, 0xF7], [slot.bank, slot.rig, 0xF7];
    assert m[3..] == second && second[3..] == third;
    SysexTransfer.GroupsStep(m);
    SysexTransfer.GroupsStep(second);
    SysexTransfer.GroupsStep(third);
    SysexTransfer.GroupsOfNone(third[3..]);
    var e1 := UsbMidi.Event(0, 4, 0xF0, 0x13, 0x0B);
    var e2, e3 := UsbMidi.Event(0, 4, device, 0x00, 0x02), UsbMidi.Event(0, 7, slot.bank, slot.rig, 0xF7);
    assert SysexTransfer.SysexGroups(m) == [e1, e2, e3];
    ThreeEvents(e1, e2, e3);
  }

  lemma ThreeEvents(a: UsbMidi.Event, b: UsbMidi.Event, c: UsbMidi.Event)
    ensures UsbMidi.Bytes([a, b, c]) == UsbMidi.EventBytes(a) + UsbMidi.EventBytes(b) + UsbMidi.EventBytes(c)
  {
    hide UsbMidi.EventBytes, UsbMidi.Bytes;
    SysexTransfer.BytesOfNone();
    SysexTransfer.BytesOfNext([], a);
    SysexTransfer.BytesOfNext([a], b);
    SysexTransfer.BytesOfNext([a, b], c);
    assert [] + [a] == [a] && [a] + [b] == [a, b] && [a, b] + [c] == [a, b, c];
    assert [] + UsbMidi.EventBytes(a) == UsbMidi.EventBytes(a);
  }

  /** So is the get request; its last event holds the end byte alone. */
  lemma GetRequestIsPacked(device: Byte, kind: Byte)
    requires kind == CURRENT_RIG || kind == EDIT_BUFFER
    ensures GetRequest(device, kind) == UsbMidi.Bytes(SysexTransfer.SysexGroups(GetMessage(device, kind)))
  {
    hide SysexTransfer.SysexGroups;
    var m := GetMessage(device, kind);
    var second, third: seq<Byte> := [device, 0x01, kind, 0xF7], [0xF7];
    assert m[3..] == second && second[3..] == third;
    SysexTransfer.GroupsStep(m);
    SysexTransfer.GroupsStep(second);
    SysexTransfer.GroupsStep(third);
    SysexTransfer.GroupsOfNone(third[1..]);
    var e1 := UsbMidi.Event(0, 4, 0xF0, 0x13, 0x0B);
    var e2, e3 := UsbMidi.Event(0, 4, device, 0x01, kind), UsbMidi.Event(0, 5, 0xF7, 0, 0);
    assert SysexTransfer.SysexGroups(m) == [e1, e2, e3];
    ThreeEvents(e1, e2, e3);
  }
}
