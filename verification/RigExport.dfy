/**
 * The exporter: a captured edit-buffer dump becomes one table row per setting, and the whole inventory becomes
 * one table.
 */
module RigExport {
  import opened Words
  import opened Options
  import opened SeptetPacking
  import opened RigDump
  import opened Csv
  import UsbMidi
  import SysexTransfer

  const FIRST_SLOT: Byte := 0x43
  const LAST_SLOT: Byte := 0x4C
  const TOC_ID: Byte := 0x41
  const SLOTS: nat := 10
  const AMP: Int32 := 12
  const GLOBAL_CATEGORY: Int32 := 16

  const EFFECT: seq<Byte> := [0x57, 0x6F, 0x72]
  const CATEGORY: seq<Byte> := [0x57, 0x73, 0x74]
  const BYPASS: Key := [0x62, 0x79, 0x70, 0x61]
  const AMP_BYPASS: Key := [0x73, 0x6C, 0x64, 0x35]
  const AMP_MODEL: Key := [0x73, 0x6C, 0x64, 0x36]

  /** What a dump says. */
  datatype Rig = Rig(name: seq<Byte>, toc: Section, sections: seq<Section>)

  /** The lookups from codes to display text. */
  datatype Names = Names(
    category: Int32 -> string, effect: Int32 -> string, global: Key -> string,
    parameter: (Int32, Int32, Key) -> string, display: (Int32, Key, Int32) -> string,
    unit: (Int32, Key) -> string, range: (Int32, Key) -> string, curve: (Int32, Key) -> string)

  datatype Place = Place(bank: string, program: string)

  function Letters(b: seq<Byte>): (s: string) {
    seq(|b|, i requires 0 <= i < |b| => b[i] as char)
  }

  predicate IsSlot(id: Byte) {
    FIRST_SLOT <= id <= LAST_SLOT
  }

  /** The value of the last table-of-contents entry for a slot, 0 when there is none. */
  function LastValue(toc: seq<Setting>, prefix: seq<Byte>, slot: Byte): Int32 {
    if toc == [] then 0
    else
      var n := |toc| - 1;
      if toc[n].key == prefix + [slot] then toc[n].value else LastValue(toc[..n], prefix, slot)
  }

  /** Entry i decides when no later entry has its key. */
  lemma {:induction false} LastValueIsLast(toc: seq<Setting>, prefix: seq<Byte>, slot: Byte, i: nat)
    requires i < |toc| && toc[i].key == prefix + [slot]
    requires forall j :: i < j < |toc| ==> toc[j].key != prefix + [slot]
    ensures LastValue(toc, prefix, slot) == toc[i].value
  {
    if i < |toc| - 1 {
      LastValueIsLast(toc[..|toc| - 1], prefix, slot, i);
    }
  }

  function GlobalRow(place: Place, name: seq<Byte>, names: Names, s: Setting): Row {
    Row(place.bank, place.program, Letters(name), "Global", Some(GLOBAL_CATEGORY), names.category(GLOBAL_CATEGORY),
        None, "", None, Letters(s.key), names.global(s.key), s.value,
        names.display(-1, s.key, s.value), names.unit(0, s.key), names.range(0, s.key), names.curve(0, s.key))
  }

  /** Whether a slot is on: its bypass setting, or for the amplifier its own. */
  function Bypass(settings: seq<Setting>, effect: Int32): Option<Int32> {
    var general := FirstValue(settings, BYPASS);
    if general.None? && effect == AMP then FirstValue(settings, AMP_BYPASS) else general
  }

  function Enabled(bypass: Option<Int32>): Option<bool> {
    match bypass
    case None => None
    case Some(v) => Some(v == 0)
  }

  function AmpModel(settings: seq<Setting>): Int32 {
    var model := FirstValue(settings, AMP_MODEL);
    if model.Some? then model.value else 0
  }

  datatype SlotInfo = SlotInfo(id: Byte, category: Int32, effect: Int32, amp: Int32, enabled: Option<bool>)

  function SlotOf(toc: seq<Setting>, id: Byte, settings: seq<Setting>): SlotInfo {
    var effect := LastValue(toc, EFFECT, id);
    SlotInfo(id, LastValue(toc, CATEGORY, id), effect, AmpModel(settings), Enabled(Bypass(settings, effect)))
  }

  function SlotRow(place: Place, name: seq<Byte>, names: Names, slot: SlotInfo, s: Setting): Row {
    Row(place.bank, place.program, Letters(name), Letters([slot.id]), Some(slot.category),
        names.category(slot.category), Some(slot.effect), names.effect(slot.effect), slot.enabled, Letters(s.key),
        names.parameter(slot.effect, slot.amp, s.key), s.value, names.display(slot.effect, s.key, s.value),
        names.unit(slot.effect, s.key), names.range(slot.effect, s.key), names.curve(slot.effect, s.key))
  }

  function GlobalRows(place: Place, name: seq<Byte>, names: Names, toc: seq<Setting>): (rows: seq<Row>)
    ensures |rows| == |toc|
  {
    seq(|toc|, i requires 0 <= i < |toc| => GlobalRow(place, name, names, toc[i]))
  }

  function SectionRows(place: Place, name: seq<Byte>, names: Names, slot: SlotInfo, settings: seq<Setting>):
      (rows: seq<Row>)
    ensures |rows| == |settings|
  {
    seq(|settings|, i requires 0 <= i < |settings| => SlotRow(place, name, names, slot, settings[i]))
  }

  function SlotRows(place: Place, name: seq<Byte>, names: Names, toc: seq<Setting>, sections: seq<Section>): seq<Row> {
    if sections == [] then []
    else
      var s := sections[0];
      (if IsSlot(s.id) then SectionRows(place, name, names, SlotOf(toc, s.id, s.settings), s.settings) else [])
      + SlotRows(place, name, names, toc, sections[1..])
  }

  function RigRows(place: Place, names: Names, rig: Rig): seq<Row> {
    GlobalRows(place, rig.name, names, rig.toc.settings)
    + SlotRows(place, rig.name, names, rig.toc.settings, rig.sections)
  }

  /** Rows that the sections before section j account for. */
  function RowsBefore(sections: seq<Section>, j: nat): nat
    requires j <= |sections|
  {
    if j == 0 then 0
    else RowsBefore(sections, j - 1) + if IsSlot(sections[j - 1].id) then |sections[j - 1].settings| else 0
  }

  lemma {:induction false} RowsBeforeRest(sections: seq<Section>, j: nat)
    requires 0 < j <= |sections|
    ensures RowsBefore(sections, j)
         == (if IsSlot(sections[0].id) then |sections[0].settings| else 0) + RowsBefore(sections[1..], j - 1)
  {
    if j > 1 {
      RowsBeforeRest(sections, j - 1);
    }
  }

  lemma {:induction false} SlotRowAt(place: Place, name: seq<Byte>, names: Names, toc: seq<Setting>,
                                     sections: seq<Section>, j: nat, k: nat)
    requires j < |sections| && IsSlot(sections[j].id) && k < |sections[j].settings|
    ensures RowsBefore(sections, j) + k < |SlotRows(place, name, names, toc, sections)|
    ensures SlotRows(place, name, names, toc, sections)[RowsBefore(sections, j) + k]
         == SlotRow(place, name, names, SlotOf(toc, sections[j].id, sections[j].settings), sections[j].settings[k])
  {
    hide SlotRow, SlotOf;
    if j > 0 {
      RowsBeforeRest(sections, j);
      SlotRowAt(place, name, names, toc, sections[1..], j - 1, k);
    }
  }

  lemma {:induction false} SlotRowCount(place: Place, name: seq<Byte>, names: Names, toc: seq<Setting>,
                                        sections: seq<Section>)
    ensures |SlotRows(place, name, names, toc, sections)| == RowsBefore(sections, |sections|)
  {
    hide SlotRow, SlotOf;
    if sections != [] {
      RowsBeforeRest(sections, |sections|);
      SlotRowCount(place, name, names, toc, sections[1..]);
    }
  }

  /** One row per table-of-contents setting, in order, and one per setting of sections C to L. */
  lemma RowCount(place: Place, names: Names, rig: Rig)
    ensures |RigRows(place, names, rig)| == |rig.toc.settings| + RowsBefore(rig.sections, |rig.sections|)
    ensures forall i :: 0 <= i < |rig.toc.settings| ==>
              var row, s := RigRows(place, names, rig)[i], rig.toc.settings[i];
              && row.bank == place.bank && row.program == place.program && row.rigName == Letters(rig.name)
              && row.slot == "Global" && row.category == Some(16) && row.categoryName == names.category(16)
              && row.effect.None? && row.effectName == "" && row.enabled.None?
              && row.key == Letters(s.key) && row.parameter == names.global(s.key) && row.value == s.value
              && row.display == names.display(-1, s.key, s.value) && row.unit == names.unit(0, s.key)
              && row.range == names.range(0, s.key) && row.curve == names.curve(0, s.key)
  {
    SlotRowCount(place, rig.name, names, rig.toc.settings, rig.sections);
  }

  /** The row of a slot's setting, column by column: "Wor" and "Wst" with the slot's letter give effect and category,
      "bypa" or the amplifier's "sld5" whether it is on, and "sld6" the amplifier's model. */
  predicate RowShows(row: Row, place: Place, names: Names, rig: Rig, section: Section, s: Setting) {
    var effect := LastValue(rig.toc.settings, [0x57, 0x6F, 0x72], section.id);
    var category := LastValue(rig.toc.settings, [0x57, 0x73, 0x74], section.id);
    var own := FirstValue(section.settings, [0x62, 0x79, 0x70, 0x61]);
    var amp := FirstValue(section.settings, [0x73, 0x6C, 0x64, 0x35]);
    var model := FirstValue(section.settings, [0x73, 0x6C, 0x64, 0x36]);
    && row.bank == place.bank && row.program == place.program && row.rigName == Letters(rig.name)
    && row.slot == [section.id as char]
    && row.category == Some(category) && row.categoryName == names.category(category)
    && row.effect == Some(effect) && row.effectName == names.effect(effect)
    && row.enabled == (if own.Some? then Some(own.value == 0)
                       else if effect == 12 && amp.Some? then Some(amp.value == 0) else None)
    && row.key == Letters(s.key) && row.value == s.value
    && row.parameter == names.parameter(effect, if model.Some? then model.value else 0, s.key)
    && row.display == names.display(effect, s.key, s.value) && row.unit == names.unit(effect, s.key)
    && row.range == names.range(effect, s.key) && row.curve == names.curve(effect, s.key)
  }

  /** Setting k of slot section j has its own row, and every column of that row is what the dump says. */
  lemma RowOfSetting(place: Place, names: Names, rig: Rig, j: nat, k: nat)
    requires j < |rig.sections| && 'C' <= rig.sections[j].id as char <= 'L' && k < |rig.sections[j].settings|
    ensures var section := rig.sections[j];
      var at := |rig.toc.settings| + RowsBefore(rig.sections, j) + k;
      && at < |RigRows(place, names, rig)|
      && RowShows(RigRows(place, names, rig)[at], place, names, rig, section, section.settings[k])
  {
    hide LastValue, FirstValue, SlotRows, GlobalRows, RowsBefore;
    SlotRowAt(place, rig.name, names, rig.toc.settings, rig.sections, j, k);
    var before := GlobalRows(place, rig.name, names, rig.toc.settings);
    var after := SlotRows(place, rig.name, names, rig.toc.settings, rig.sections);
    assert (before + after)[|before| + (RowsBefore(rig.sections, j) + k)] == after[RowsBefore(rig.sections, j) + k];
  }

  // Reading a captured dump.

  predicate IsRigMessage(sysex: seq<Byte>) {
    && |sysex| >= 8 && sysex[0] == 0xF0 && sysex[1] == 0x13 && sysex[2] == 0x0B
    && sysex[4] == 0x12 && sysex[5] == 0x01 && sysex[|sysex| - 1] == 0xF7
  }

  function DecodeRaw(raw: seq<Byte>): Option<Rig> {
    match ParseSection(raw, TOC_OFFSET)
    case None => None
    case Some(toc) =>
      if toc.id != TOC_ID then None
      else Some(Rig(RigName(raw), SectionAt(raw, TOC_OFFSET).value, Walk(raw, toc.end)))
  }

  function DecodeRig(sysex: seq<Byte>): Option<Rig> {
    if !IsRigMessage(sysex) then None else DecodeRaw(Unpacked(sysex[6..|sysex| - 1]))
  }

  /** What the layout has room for. */
  predicate Representable(header: seq<Byte>, rig: Rig) {
    && |header| == 8 && |rig.name| <= 28
    && |rig.toc.settings| <= MAX_SETTINGS && Storable(rig.sections)
  }

  /** What the reader understands: a printable name, the right table letter, no empty section at the end. */
  predicate Readable(rig: Rig) {
    && (forall i :: 0 <= i < |rig.name| ==> Printable(rig.name[i]))
    && rig.toc.id == 'A' as int
    && (rig.sections == [] || rig.sections[|rig.sections| - 1].settings != [])
  }

  /** Whatever decodes is a message of the rig's family that answers a request for the edit buffer. */
  lemma OnlyRigMessagesDecode(sysex: seq<Byte>)
    requires DecodeRig(sysex).Some?
    ensures |sysex| >= 8 && sysex[..3] == [0xF0, 0x13, 0x0B] && sysex[4..6] == [0x12, 0x01]
    ensures sysex[|sysex| - 1] == 0xF7 && DecodeRig(sysex).value.toc.id == 'A' as int
  {
    hide Walk, Unpacked, RigName;
  }

  /** A rig in the documented layout. */
  function RigBytes(header: seq<Byte>, rig: Rig): seq<Byte>
    requires Representable(header, rig)
  {
    header + NameField(rig.name) + SectionBytes(rig.toc) + Serialize(rig.sections)
  }

  function RigMessage(device: Byte, raw: seq<Byte>): seq<Byte> {
    [0xF0, 0x13, 0x0B, device, 0x12, 0x01] + Pack(raw) + [0xF7]
  }

  lemma RigLayout(header: seq<Byte>, rig: Rig)
    requires Representable(header, rig)
    ensures var raw := RigBytes(header, rig); var end := TOC_OFFSET + |SectionBytes(rig.toc)|;
      && end <= |raw| && raw[HEADER_BYTES..TOC_OFFSET] == NameField(rig.name)
      && raw[TOC_OFFSET..end] == SectionBytes(rig.toc) && raw == raw[..end] + Serialize(rig.sections)
  {
    hide NameField, SectionBytes, Serialize;
    var raw := RigBytes(header, rig);
    assert raw[..TOC_OFFSET] == header + NameField(rig.name);
    assert raw[HEADER_BYTES..TOC_OFFSET] == raw[..TOC_OFFSET][HEADER_BYTES..];
    assert raw[..TOC_OFFSET + |SectionBytes(rig.toc)|] == header + NameField(rig.name) + SectionBytes(rig.toc);
  }

  /** A rig's message decodes to that rig exactly when its name is printable, its table of contents has the
      right letter, and its section list does not end in an empty section. */
  lemma DecodeUndoesEncodeIff(device: Byte, header: seq<Byte>, rig: Rig)
    requires Representable(header, rig)
    ensures DecodeRig(RigMessage(device, RigBytes(header, rig))) == Some(rig)
       <==> Readable(rig)
  {
    hide RigBytes, Walk, SectionBytes, Serialize, NameField, RigName;
    var raw := RigBytes(header, rig);
    RigLayout(header, rig);
    MessageCarries(device, raw);
    NameRoundTripIff(rig.name, raw);
    TocParsed(raw, rig.toc);
    var end := TOC_OFFSET + |SectionBytes(rig.toc)|;
    WalkRecoversIff(raw[..end], rig.sections);
    hide DecodeRig, SectionAt, ParseSection;
  }

  lemma TocParsed(raw: seq<Byte>, toc: Section)
    requires |toc.settings| <= MAX_SETTINGS && TOC_OFFSET + |SectionBytes(toc)| <= |raw|
    requires raw[TOC_OFFSET..TOC_OFFSET + |SectionBytes(toc)|] == SectionBytes(toc)
    ensures SectionAt(raw, TOC_OFFSET) == Some(toc)
    ensures var e := ParseSection(raw, TOC_OFFSET);
      e.Some? && e.value.id == toc.id && e.value.end == TOC_OFFSET + |SectionBytes(toc)|
  {
    hide SectionBytes, Settings;
    SectionStoredIff(raw, TOC_OFFSET, toc);
  }

  lemma MessageCarries(device: Byte, raw: seq<Byte>)
    requires |raw| > 0
    ensures DecodeRig(RigMessage(device, raw)) == DecodeRaw(raw)
  {
    hide DecodeRaw, Pack, Unpacked;
    var m := RigMessage(device, raw);
    UnpackUndoesPack(raw);
    assert m[6..|m| - 1] == Pack(raw);
    assert |Pack(raw)| > 0 by {
      UnpackedSize(Pack(raw));
    }
  }

  lemma UnpackedSize(packed: seq<Byte>)
    ensures |Unpacked(packed)| == 7 * |packed| / 8
  {
  }

  /** From the wire to the rig: however the message's events are cut into reads and whatever surrounds them, the
      dump that arrives decodes to the rig that was sent. */
  lemma RigArrives(device: Byte, header: seq<Byte>, rig: Rig, noise: seq<UsbMidi.Event>, tail: seq<UsbMidi.Event>,
                   events: seq<UsbMidi.Event>, results: seq<SysexTransfer.Read>, capacity: nat)
    requires Representable(header, rig)
    requires Readable(rig) && device != UsbMidi.SYSEX_END
    requires UsbMidi.SYSEX_START !in UsbMidi.Decode(noise, SysexTransfer.RIG_CABLE)
    requires var m := RigMessage(device, RigBytes(header, rig));
      && |m| <= capacity
      && SysexTransfer.OnCable(events, SysexTransfer.RIG_CABLE) == noise + SysexTransfer.SysexGroups(m) + tail
    requires SysexTransfer.CutInto(events, results)
    ensures var heard := SysexTransfer.Listen(SysexTransfer.Heard(results), [], capacity);
      heard.Complete? && DecodeRig(heard.message) == Some(rig)
  {
    hide RigBytes, DecodeRig, RigMessage;
    var raw := RigBytes(header, rig);
    var m := RigMessage(device, raw);
    RigMessageIsSysex(device, raw);
    SysexTransfer.PackedMessageIsRead(m, noise, tail, events, results, capacity);
    DecodeUndoesEncodeIff(device, header, rig);
  }

  lemma RigMessageIsSysex(device: Byte, raw: seq<Byte>)
    requires device != UsbMidi.SYSEX_END
    ensures SysexTransfer.IsSysex(RigMessage(device, raw))
  {
    hide Pack;
    var m, packed := RigMessage(device, raw), Pack(raw);
    forall k | 0 <= k < |m| - 1
      ensures m[k] != UsbMidi.SYSEX_END
    {
      if 6 <= k {
        assert m[k] == packed[k - 6];
      }
    }
  }

  // The exporting methods.

  /** Write the global rows, collecting each slot's effect and category on the way. */
  method ExportGlobals(file: CsvFile, place: Place, names: Names, name: seq<Byte>, raw: seq<Byte>, toc: Extent,
                       effects: array<Int32>, categories: array<Int32>, ghost before: string)
    requires toc.pairs + 8 * toc.count <= |raw| && effects.Length == categories.Length == SLOTS
    requires effects != categories && file.text == before
    requires forall s :: 0 <= s < SLOTS ==> effects[s] == 0 && categories[s] == 0
    modifies file, effects, categories
    ensures var settings := Settings(raw, toc.pairs, toc.count);
      && file.text == before + RowsText(GlobalRows(place, name, names, settings))
      && SlotTable(settings, EFFECT, effects[..]) && SlotTable(settings, CATEGORY, categories[..])
  {
    hide SettingAt, GlobalRow, GlobalRows, RowsText, RecordText, Fields, SlotTable, Settings;
    ghost var settings := Settings(raw, toc.pairs, toc.count);
    ghost var rows: seq<Row> := [];
    SlotTableStart(EFFECT, effects[..]);
    SlotTableStart(CATEGORY, categories[..]);
    NoRowsText();
    for index := 0 to toc.count
      modifies file, effects, categories
      invariant rows == GlobalRows(place, name, names, settings[..index])
      invariant file.text == before + RowsText(rows)
      invariant SlotTable(settings[..index], EFFECT, effects[..])
      invariant SlotTable(settings[..index], CATEGORY, categories[..])
    {
      var setting := SettingAt(raw, toc.pairs, index);
      SettingsAt(raw, toc, index);
      assert settings[..index + 1] == settings[..index] + [setting];
      NoteSlot(effects, EFFECT, setting, settings[..index]);
      NoteSlot(categories, CATEGORY, setting, settings[..index]);
      file.WriteRow(GlobalRow(place, name, names, setting));
      RowsTextNext(rows, GlobalRow(place, name, names, setting));
      GlobalRowsNext(place, name, names, settings[..index], setting);
      rows := rows + [GlobalRow(place, name, names, setting)];
    }
    assert settings[..toc.count] == settings;
  }

  lemma GlobalRowsNext(place: Place, name: seq<Byte>, names: Names, toc: seq<Setting>, s: Setting)
    ensures GlobalRows(place, name, names, toc + [s])
         == GlobalRows(place, name, names, toc) + [GlobalRow(place, name, names, s)]
  {
    hide GlobalRow;
  }

  lemma SectionRowsNext(place: Place, name: seq<Byte>, names: Names, slot: SlotInfo, settings: seq<Setting>, s: Setting)
    ensures SectionRows(place, name, names, slot, settings + [s])
         == SectionRows(place, name, names, slot, settings) + [SlotRow(place, name, names, slot, s)]
  {
    hide SlotRow;
  }

  /** Keep a slot-indexed table up to date with one more entry. */
  method NoteSlot(table: array<Int32>, prefix: seq<Byte>, setting: Setting, ghost toc: seq<Setting>)
    requires table.Length == SLOTS && |prefix| == 3 && SlotTable(toc, prefix, table[..])
    modifies table
    ensures SlotTable(toc + [setting], prefix, table[..])
  {
    hide SlotTable;
    SlotTableNext(toc, setting, prefix, table[..]);
    ghost var before := table[..];
    if setting.key[..3] == prefix && FIRST_SLOT <= setting.key[3] <= LAST_SLOT {
      table[setting.key[3] - FIRST_SLOT] := setting.value;
      assert table[..] == before[setting.key[3] - FIRST_SLOT := setting.value];
    }
  }

  lemma SettingsAt(raw: seq<Byte>, section: Extent, index: nat)
    requires section.pairs + 8 * section.count <= |raw| && index < section.count
    ensures Settings(raw, section.pairs, section.count)[index] == SettingAt(raw, section.pairs, index)
  {
  }

  /** A slot-indexed table holds each slot's last value. */
  predicate SlotTable(toc: seq<Setting>, prefix: seq<Byte>, t: seq<Int32>) {
    |t| == SLOTS && forall s :: 0 <= s < SLOTS ==> t[s] == LastValue(toc, prefix, FIRST_SLOT + s)
  }

  lemma SlotTableStart(prefix: seq<Byte>, t: seq<Int32>)
    requires |t| == SLOTS && forall s :: 0 <= s < SLOTS ==> t[s] == 0
    ensures SlotTable([], prefix, t)
  {
  }

  lemma SlotTableNext(toc: seq<Setting>, setting: Setting, prefix: seq<Byte>, t: seq<Int32>)
    requires SlotTable(toc, prefix, t) && |prefix| == 3
    ensures var named := setting.key[..3] == prefix && FIRST_SLOT <= setting.key[3] <= LAST_SLOT;
      SlotTable(toc + [setting], prefix, if named then t[setting.key[3] - FIRST_SLOT := setting.value] else t)
  {
    hide LastValue;
    var named := setting.key[..3] == prefix && FIRST_SLOT <= setting.key[3] <= LAST_SLOT;
    var t' := if named then t[setting.key[3] - FIRST_SLOT := setting.value] else t;
    forall s | 0 <= s < SLOTS
      ensures t'[s] == LastValue(toc + [setting], prefix, FIRST_SLOT + s)
    {
      LastValueNext(toc, setting, prefix, FIRST_SLOT + s);
    }
  }

  lemma LastValueNext(toc: seq<Setting>, setting: Setting, prefix: seq<Byte>, slot: Byte)
    requires |prefix| == 3
    ensures LastValue(toc + [setting], prefix, slot)
         == if setting.key[..3] == prefix && setting.key[3] == slot then setting.value else LastValue(toc, prefix, slot)
  {
    assert (toc + [setting])[..|toc|] == toc;
    assert setting.key == setting.key[..3] + [setting.key[3]];
    assert (prefix + [slot])[..3] == prefix;
  }

  /** Write the rows of one slot section. */
  method ExportSection(file: CsvFile, place: Place, names: Names, name: seq<Byte>, raw: seq<Byte>, section: Extent,
                       category: Int32, effect: Int32)
    requires section.pairs + 8 * section.count <= |raw|
    modifies file
    ensures var settings := Settings(raw, section.pairs, section.count);
      var slot := SlotInfo(section.id, category, effect, AmpModel(settings), Enabled(Bypass(settings, effect)));
      file.text == old(file.text) + RowsText(SectionRows(place, name, names, slot, settings))
  {
    hide SettingAt, SlotRow, SectionRows, RowsText, RecordText, Fields, FirstValue, Settings;
    var found, amp := FindSetting(raw, section, AMP_MODEL, 0);
    var haveEnabled, bypass := FindSetting(raw, section, BYPASS, 0);
    if !haveEnabled && effect == AMP {
      haveEnabled, bypass := FindSetting(raw, section, AMP_BYPASS, 0);
    }
    var slot := SlotInfo(section.id, category, effect, amp, if haveEnabled then Some(bypass == 0) else None);
    ghost var settings := Settings(raw, section.pairs, section.count);
    ghost var rows: seq<Row> := [];
    NoRowsText();
    for index := 0 to section.count
      invariant rows == SectionRows(place, name, names, slot, settings[..index])
      invariant file.text == old(file.text) + RowsText(rows)
    {
      var setting := SettingAt(raw, section.pairs, index);
      SettingsAt(raw, section, index);
      assert settings[..index + 1] == settings[..index] + [setting];
      file.WriteRow(SlotRow(place, name, names, slot, setting));
      RowsTextNext(rows, SlotRow(place, name, names, slot, setting));
      SectionRowsNext(place, name, names, slot, settings[..index], setting);
      rows := rows + [SlotRow(place, name, names, slot, setting)];
    }
    assert settings[..section.count] == settings;
  }

  /** The rows from an offset on are those of the section read there, then those from its end on. */
  lemma SectionsStep(place: Place, name: seq<Byte>, names: Names, toc: seq<Setting>, raw: seq<Byte>, offset: nat)
    ensures var all, parsed := SlotRows(place, name, names, toc, Walk(raw, offset)), ParseSection(raw, offset);
      if offset + 12 > |raw| || parsed.None? then all == []
      else
        var e := parsed.value;
        var settings := Settings(raw, e.pairs, e.count);
        all == (if IsSlot(e.id) then SectionRows(place, name, names, SlotOf(toc, e.id, settings), settings) else [])
               + SlotRows(place, name, names, toc, Walk(raw, e.end))
  {
    hide ParseSection, Settings, LastValue, FirstValue, SectionRows;
  }

  lemma SlotTableAt(toc: seq<Setting>, prefix: seq<Byte>, t: seq<Int32>, id: Byte)
    requires SlotTable(toc, prefix, t) && IsSlot(id)
    ensures t[id - FIRST_SLOT] == LastValue(toc, prefix, id)
  {
  }

  /** Walk the sections after the table of contents and write the slots' rows. */
  method ExportSections(file: CsvFile, place: Place, names: Names, name: seq<Byte>, raw: seq<Byte>, start: nat,
                        ghost toc: seq<Setting>, effects: array<Int32>, categories: array<Int32>)
    requires effects.Length == categories.Length == SLOTS
    requires SlotTable(toc, EFFECT, effects[..]) && SlotTable(toc, CATEGORY, categories[..])
    modifies file
    ensures file.text == old(file.text) + RowsText(SlotRows(place, name, names, toc, Walk(raw, start)))
  {
    hide RowsText, SectionRows, Walk, SlotRows, ParseSection, SlotTable, LastValue, Settings, FirstValue;
    ghost var all := SlotRows(place, name, names, toc, Walk(raw, start));
    ghost var rows: seq<Row> := [];
    NoRowsText();
    var offset := start;
    while offset + 12 <= |raw|
      invariant rows + SlotRows(place, name, names, toc, Walk(raw, offset)) == all
      invariant file.text == old(file.text) + RowsText(rows)
      decreases |raw| - offset
    {
      SectionsStep(place, name, names, toc, raw, offset);
      var parsed := ParseSection(raw, offset);
      if parsed.None? {
        break;
      }
      var section := parsed.value;
      offset := section.end;
      if section.id < FIRST_SLOT || section.id > LAST_SLOT {
        continue;
      }
      var slot := section.id - FIRST_SLOT;
      SlotTableAt(toc, EFFECT, effects[..], section.id);
      SlotTableAt(toc, CATEGORY, categories[..], section.id);
      ExportSection(file, place, names, name, raw, section, categories[slot], effects[slot]);
      ghost var settings := Settings(raw, section.pairs, section.count);
      ghost var more := SectionRows(place, name, names, SlotOf(toc, section.id, settings), settings);
      RowsTextJoin(rows, more);
      rows := rows + more;
    }
    SectionsStep(place, name, names, toc, raw, offset);
    assert rows + [] == rows;
  }

  /** Export one captured dump; anything that is not a rig dump leaves the table as it was. */
  method ExportRig(file: CsvFile, place: Place, names: Names, sysex: seq<Byte>) returns (ok: bool)
    modifies file
    ensures ok == DecodeRig(sysex).Some?
    ensures file.text == old(file.text) + if ok then RowsText(RigRows(place, names, DecodeRig(sysex).value)) else ""
  {
    hide RowsText, Walk, SlotRows, ParseSection, SlotTable, LastValue, Settings, Unpacked, RigName, GlobalRows;
    if |sysex| < 8 || sysex[0] != 0xF0 || sysex[1] != 0x13 || sysex[2] != 0x0B || sysex[4] != 0x12 || sysex[5] != 0x01
       || sysex[|sysex| - 1] != 0xF7 {
      return false;
    }
    var packed := sysex[6..|sysex| - 1];
    var buffer := new Byte[|packed| * 7 / 8 + 1];
    var used := Unpack7Bit(packed, buffer);
    var raw := buffer[..used];
    assert raw == Unpacked(packed);
    var name := ExtractName(raw);
    var toc := ParseSection(raw, TOC_OFFSET);
    if toc.None? || toc.value.id != TOC_ID {
      return false;
    }
    ghost var settings := Settings(raw, toc.value.pairs, toc.value.count);
    var effects := new Int32[SLOTS](_ => 0);
    var categories := new Int32[SLOTS](_ => 0);
    ghost var before := file.text;
    ExportGlobals(file, place, names, name, raw, toc.value, effects, categories, before);
    ExportSections(file, place, names, name, raw, toc.value.end, settings, effects, categories);
    RowsTextJoin(GlobalRows(place, name, names, settings),
                 SlotRows(place, name, names, settings, Walk(raw, toc.value.end)));
    return true;
  }

  // The inventory.

  const BANKS: nat := 2
  const RIGS: nat := 104
  const ALL_RIGS: nat := 208

  /** The rig's label: a two-digit number and a letter. */
  function Label(rig: nat): string
    requires rig < RIGS
  {
    var n := rig / 4 + 1;
    [Digit(n / 10), Digit(n % 10), 'A' + (rig % 4) as char]
  }

  /** Four rigs to a number from 01 on, lettered A to D. */
  lemma LabelReads(rig: nat)
    requires rig < 104
    ensures var l := Label(rig);
      && |l| == 3 && '0' <= l[0] <= '9' && '0' <= l[1] <= '9' && 'A' <= l[2] <= 'D'
      && 4 * (10 * (l[0] - '0') as int + (l[1] - '0') as int - 1) + (l[2] - 'A') as int == rig
  {
  }

  /** No two rigs of a bank share a label. */
  lemma LabelsAreDistinct(a: nat, b: nat)
    requires a < RIGS && b < RIGS && Label(a) == Label(b)
    ensures a == b
  {
    DigitReadsBack((a / 4 + 1) / 10);
    DigitReadsBack((b / 4 + 1) / 10);
    DigitReadsBack((a / 4 + 1) % 10);
    DigitReadsBack((b / 4 + 1) % 10);
    assert Label(a)[0] == Label(b)[0] && Label(a)[1] == Label(b)[1] && Label(a)[2] == Label(b)[2];
  }

  /** Rig number n of the inventory, bank by bank. */
  function PlaceOf(n: nat): Place
    requires n < ALL_RIGS
  {
    Place(if n < RIGS then "factory" else "user", Label(n % RIGS))
  }

  /** The capture files: what reading the file of rig n gives, None when it cannot be read. */
  type Files = nat -> Option<seq<Byte>>

  function RigIn(bytes: Option<seq<Byte>>): Option<Rig> {
    if bytes.None? then None else DecodeRig(bytes.value)
  }

  function Saved(files: Files, n: nat): Option<Rig> {
    RigIn(files(n))
  }

  /** The rows of the first n rigs. */
  function InventoryRows(files: Files, names: Names, n: nat): seq<Row>
    requires n <= ALL_RIGS
  {
    if n == 0 then []
    else
      InventoryRows(files, names, n - 1)
      + match Saved(files, n - 1)
        case None => []
        case Some(rig) => RigRows(PlaceOf(n - 1), names, rig)
  }

  /** Rigs among the first n whose file holds a dump. */
  function Exported(files: Files, n: nat): (k: nat)
    ensures k <= n
  {
    if n == 0 then 0 else Exported(files, n - 1) + if Saved(files, n - 1).Some? then 1 else 0
  }

  lemma {:induction false} AllExportedIff(files: Files, n: nat)
    ensures Exported(files, n) == n <==> forall i :: 0 <= i < n ==> Saved(files, i).Some?
  {
    hide Saved;
    if n > 0 {
      AllExportedIff(files, n - 1);
    }
  }

  const COLUMNS: seq<string> :=
    [ "bank", "program", "rig_name", "slot", "category_id", "category", "effect_id", "effect", "enabled", "key",
      "parameter", "raw", "hex", "display", "unit", "range", "curve" ]

  /** The first line of the table. */
  function Header(): string {
    RecordText(HeaderFields())
  }

  function HeaderFields(): seq<Field> {
    seq(|COLUMNS|, i requires 0 <= i < |COLUMNS| => Bare(COLUMNS[i]))
  }

  /** Export every capture. The status is 1 when the file cannot be opened or closed, else 0 exactly when all 208 were
      exported. */
  method ExportInventory(names: Names, files: Files, openable: bool, closable: bool)
      returns (file: CsvFile, exported: nat, missing: nat, status: nat)
    ensures !openable ==> file.text == "" && exported == missing == 0
    ensures openable ==>
              && file.text == Header() + RowsText(InventoryRows(files, names, ALL_RIGS))
              && exported == Exported(files, ALL_RIGS) && exported + missing == ALL_RIGS
    ensures status == 1 <==> !openable || !closable
    ensures status == 0 <==> openable && closable && forall n :: 0 <= n < ALL_RIGS ==> Saved(files, n).Some?
    ensures status <= 2
  {
    hide RowsText, RigRows, InventoryRows, Exported, RigIn, PlaceOf, Label, Header;
    file := new CsvFile();
    exported, missing := 0, 0;
    if !openable {
      status := 1;
      return;
    }
    file.Put(Header());
    NoneExported(files, names);
    for bank := 0 to BANKS
      invariant exported + missing == bank * RIGS && exported == Exported(files, bank * RIGS)
      invariant file.text == Header() + RowsText(InventoryRows(files, names, bank * RIGS))
    {
      for rig := 0 to RIGS
        invariant exported + missing == bank * RIGS + rig && exported == Exported(files, bank * RIGS + rig)
        invariant file.text == Header() + RowsText(InventoryRows(files, names, bank * RIGS + rig))
      {
        ghost var n := bank * RIGS + rig;
        PlaceIs(bank, rig);
        InventoryStep(files, names, n);
        var place := Place(if bank == 0 then "factory" else "user", Label(rig));
        var ok := ExportFile(file, place, names, files(bank * RIGS + rig));
        if ok {
          exported := exported + 1;
        } else {
          missing := missing + 1;
        }
      }
    }
    AllExportedIff(files, ALL_RIGS);
    status := if !closable then 1 else if missing == 0 then 0 else 2;
  }

  method ExportFile(file: CsvFile, place: Place, names: Names, bytes: Option<seq<Byte>>) returns (ok: bool)
    modifies file
    ensures ok == RigIn(bytes).Some?
    ensures file.text == old(file.text) + RowsText(if ok then RigRows(place, names, RigIn(bytes).value) else [])
  {
    hide RowsText, RigRows, DecodeRig;
    NoRowsText();
    ok := false;
    if bytes.Some? {
      ok := ExportRig(file, place, names, bytes.value);
    }
  }

  /** The first 104 rigs are the factory's, the other 104 the user's. */
  lemma PlaceIs(bank: nat, rig: nat)
    requires bank < 2 && rig < 104
    ensures bank * 104 + rig < 208 == ALL_RIGS
    ensures PlaceOf(bank * 104 + rig) == Place(if bank == 0 then "factory" else "user", Label(rig))
  {
    hide Label;
    assert (bank * RIGS + rig) % RIGS == rig by {
      if bank == 0 { assert bank * RIGS == 0; } else { assert bank * RIGS == RIGS; }
    }
  }

  lemma NoneExported(files: Files, names: Names)
    ensures RowsText(InventoryRows(files, names, 0)) == "" && Exported(files, 0) == 0
  {
    NoRowsText();
  }

  lemma InventoryStep(files: Files, names: Names, n: nat)
    requires n < ALL_RIGS
    ensures RowsText(InventoryRows(files, names, n + 1))
         == RowsText(InventoryRows(files, names, n))
            + RowsText(if Saved(files, n).Some? then RigRows(PlaceOf(n), names, Saved(files, n).value) else [])
    ensures Exported(files, n + 1) == Exported(files, n) + if Saved(files, n).Some? then 1 else 0
  {
    hide RowsText, RigRows, Saved;
    var saved := Saved(files, n);
    RowsTextJoin(InventoryRows(files, names, n), if saved.Some? then RigRows(PlaceOf(n), names, saved.value) else []);
  }

  lemma {:induction false} InventoryGrows(files: Files, names: Names, n: nat, m: nat)
    requires n <= m <= ALL_RIGS
    ensures InventoryRows(files, names, n) <= InventoryRows(files, names, m)
  {
    hide RigRows, Saved, PlaceOf;
    if n < m {
      InventoryGrows(files, names, n, m - 1);
    }
  }

  /** Row i of rig n stands behind the rows of the rigs before it. */
  lemma RigInInventory(files: Files, names: Names, n: nat, saved: Rig, i: nat)
    requires n < ALL_RIGS && Saved(files, n) == Some(saved) && i < |RigRows(PlaceOf(n), names, saved)|
    ensures var rows, at := InventoryRows(files, names, ALL_RIGS), |InventoryRows(files, names, n)| + i;
      at < |rows| && rows[at] == RigRows(PlaceOf(n), names, saved)[i]
  {
    hide RigRows, Saved, PlaceOf;
    var before, upTo := InventoryRows(files, names, n), InventoryRows(files, names, n + 1);
    assert upTo == before + RigRows(PlaceOf(n), names, saved);
    InventoryGrows(files, names, n + 1, ALL_RIGS);
    assert upTo[|before| + i] == InventoryRows(files, names, ALL_RIGS)[|before| + i];
  }

  /** Line `at` behind the first of a table holds the row, in column c under that column's name. */
  predicate LineHolds(table: Option<seq<seq<string>>>, at: nat, c: nat, row: Row)
    requires c < 17
  {
    && table.Some? && 1 + at < |table.value| && |table.value[0]| == |table.value[1 + at]| == 17
    && table.value[1 + at][c] == Column(row, table.value[0][c])
  }

  lemma TableLine(files: Files, names: Names, at: nat, c: nat)
    requires at < |InventoryRows(files, names, ALL_RIGS)| && c < 17
    ensures var rows := InventoryRows(files, names, ALL_RIGS);
      LineHolds(ReadTable(Header() + RowsText(rows)), at, c, rows[at])
  {
    hide InventoryRows, RowsText, ReadTable, Column, Fields, Header;
    InventoryReadsBack(files, names);
    ColumnsAreNamed(InventoryRows(files, names, ALL_RIGS)[at], c);
  }

  /** The line of setting k of section j of a saved rig, behind the first. */
  function LineOf(before: seq<Row>, saved: Rig, j: nat, k: nat): nat
    requires j <= |saved.sections|
  {
    |before| + |saved.toc.settings| + RowsBefore(saved.sections, j) + k
  }

  /** Every slot setting of every saved rig can be looked up in the exported table: its line holds, under each column's
      name, what that rig's dump says. */
  lemma SettingInTable(files: Files, names: Names, n: nat, saved: Rig, j: nat, k: nat, c: nat)
    requires n < ALL_RIGS && Saved(files, n) == Some(saved) && c < 17
    requires j < |saved.sections| && IsSlot(saved.sections[j].id) && k < |saved.sections[j].settings|
    ensures var rows := InventoryRows(files, names, ALL_RIGS);
      var at := LineOf(InventoryRows(files, names, n), saved, j, k);
      && at < |rows| && LineHolds(ReadTable(Header() + RowsText(rows)), at, c, rows[at])
      && RowShows(rows[at], PlaceOf(n), names, saved, saved.sections[j], saved.sections[j].settings[k])
  {
    hide InventoryRows, RowsText, ReadTable, Saved, RigRows, RowShows, RowsBefore, LineHolds, PlaceOf, Header;
    var i := |saved.toc.settings| + RowsBefore(saved.sections, j) + k;
    RowOfSetting(PlaceOf(n), names, saved, j, k);
    RigInInventory(files, names, n, saved, i);
    TableLine(files, names, |InventoryRows(files, names, n)| + i, c);
  }

  lemma ColumnsAreNamed(row: Row, c: nat)
    requires c < 17
    ensures |COLUMNS| == |Values(Fields(row))| == 17 && Values(Fields(row))[c] == Column(row, COLUMNS[c])
  {
    hide CString, Decimal, Hex, NumberOrNothing;
    if c < 9 {
      PlaceColumnsAreNamed(row, c);
    } else {
      SettingColumnsAreNamed(row, c);
    }
  }

  lemma PlaceColumnsAreNamed(row: Row, c: nat)
    requires c < 9
    ensures Values(Fields(row))[c] == Column(row, COLUMNS[c])
  {
    hide CString, Decimal, Hex, NumberOrNothing, SettingFields;
  }

  lemma SettingColumnsAreNamed(row: Row, c: nat)
    requires 9 <= c < 17
    ensures Values(Fields(row))[c] == Column(row, COLUMNS[c])
  {
    hide CString, Decimal, Hex, NumberOrNothing, PlaceFields;
    assert Fields(row)[c] == SettingFields(row)[c - 9];
  }

  /** The whole exported table reads back as the column names and then the fields of every row. */
  lemma InventoryReadsBack(files: Files, names: Names)
    ensures var rows := InventoryRows(files, names, ALL_RIGS);
      ReadTable(Header() + RowsText(rows)) == Some([COLUMNS] + TableValues(Records(rows)))
  {
    hide InventoryRows, RowsText, ReadTable, TableValues, ReadRecord;
    var rows := InventoryRows(files, names, ALL_RIGS);
    RowsReadBack(rows);
    HeaderReadsBack(RowsText(rows));
    ReadTableStep(Header() + RowsText(rows));
  }

  lemma HeaderReadsBack(tail: string)
    ensures ReadRecord(Header() + tail) == Some((COLUMNS, tail))
  {
    hide ReadRecord, RecordText, Plain;
    forall i | 0 <= i < |COLUMNS|
      ensures Plain(COLUMNS[i])
    {
      if i < 9 { PlaceColumnsArePlain(); } else { SettingColumnsArePlain(); }
    }
    RecordReadsBack(HeaderFields(), tail);
    assert Values(HeaderFields()) == COLUMNS;
  }

  lemma PlaceColumnsArePlain()
    ensures Plain("bank") && Plain("program") && Plain("rig_name") && Plain("slot") && Plain("category_id")
    ensures Plain("category") && Plain("effect_id") && Plain("effect") && Plain("enabled")
  {
  }

  lemma SettingColumnsArePlain()
    ensures Plain("key") && Plain("parameter") && Plain("raw") && Plain("hex")
    ensures Plain("display") && Plain("unit") && Plain("range") && Plain("curve")
  {
  }
}
