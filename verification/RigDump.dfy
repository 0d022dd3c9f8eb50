/**
 * The rig dump: a header, the rig's name, a table of contents and a run of length-prefixed sections of
 * key/value settings. The reader is the code's; the writer is the documented layout.
 */
module RigDump {
  import opened Words
  import opened Options

  const MAX_SETTINGS: nat := 8191
  const HEADER_BYTES: nat := 8
  const NAME_BYTES: nat := 28
  const TOC_OFFSET: nat := 36

  type Key = k: seq<Byte> | |k| == 4 witness [0, 0, 0, 0]

  datatype Setting = Setting(key: Key, value: Int32)

  /** A section; the third byte of its header carries no known meaning. */
  datatype Section = Section(spare: Byte, id: Byte, settings: seq<Setting>)

  /** Where a section's settings lie in the dump. */
  datatype Extent = Extent(id: Byte, count: nat, pairs: nat, end: nat)

  function ParseSection(raw: seq<Byte>, offset: nat): (r: Option<Extent>)
    ensures r.Some? ==>
      var e := r.value; e.pairs == offset + 4 && e.end == e.pairs + 8 * e.count && e.end <= |raw|
  {
    if offset + 4 > |raw| then None
    else
      var size := raw[offset] as int + raw[offset + 1] as int * 0x100;
      if size % 8 != 0 || offset + 4 + size > |raw| then None
      else Some(Extent(raw[offset + 3], size / 8, offset + 4, offset + 4 + size))
  }

  function SettingAt(raw: seq<Byte>, pairs: nat, index: nat): Setting
    requires pairs + 8 * index + 8 <= |raw|
  {
    var at := pairs + 8 * index;
    Setting([raw[at + 3], raw[at + 2], raw[at + 1], raw[at]], Le32(raw, at + 4))
  }

  function Settings(raw: seq<Byte>, pairs: nat, count: nat): (s: seq<Setting>)
    requires pairs + 8 * count <= |raw|
    ensures |s| == count
  {
    seq(count, i requires 0 <= i < count => SettingAt(raw, pairs, i))
  }

  function SectionAt(raw: seq<Byte>, offset: nat): Option<Section> {
    match ParseSection(raw, offset)
    case None => None
    case Some(e) => Some(Section(raw[offset + 2], e.id, Settings(raw, e.pairs, e.count)))
  }

  /** The sections from an offset on, while twelve bytes remain and a section parses. */
  function Walk(raw: seq<Byte>, offset: nat): seq<Section>
    decreases |raw| - offset
  {
    if offset + 12 > |raw| then []
    else
      match ParseSection(raw, offset)
      case None => []
      case Some(e) => [SectionAt(raw, offset).value] + Walk(raw, e.end)
  }

  /** Little-endian bytes of a signed word. */
  function WordBytes(v: Int32): (b: seq<Byte>)
    ensures |b| == 4
  {
    var u := if v < 0 then v + U32 else v;
    [u % 0x100, u / 0x100 % 0x100, u / 0x1_0000 % 0x100, u / 0x100_0000]
  }

  function SettingBytes(s: Setting): (b: seq<Byte>)
    ensures |b| == 8
  {
    [s.key[3], s.key[2], s.key[1], s.key[0]] + WordBytes(s.value)
  }

  function SettingsBytes(settings: seq<Setting>): (b: seq<Byte>)
    ensures |b| == 8 * |settings|
  {
    if settings == [] then []
    else SettingsBytes(settings[..|settings| - 1]) + SettingBytes(settings[|settings| - 1])
  }

  /** A section as it is stored: its size in bytes, a spare byte, its letter, its settings. */
  function SectionBytes(s: Section): (b: seq<Byte>)
    requires |s.settings| <= MAX_SETTINGS
    ensures |b| == 4 + 8 * |s.settings|
  {
    var size := 8 * |s.settings|;
    [size % 0x100, size / 0x100, s.spare, s.id] + SettingsBytes(s.settings)
  }

  predicate Storable(sections: seq<Section>) {
    forall i :: 0 <= i < |sections| ==> |sections[i].settings| <= MAX_SETTINGS
  }

  function Serialize(sections: seq<Section>): seq<Byte>
    requires Storable(sections)
  {
    if sections == [] then []
    else SectionBytes(sections[0]) + Serialize(sections[1..])
  }

  lemma WordRoundTrip(v: Int32)
    ensures Le32(WordBytes(v), 0) == v
  {
    var u := if v < 0 then v + U32 else v;
    DigitsRebuild(u);
  }

  lemma DigitsRebuild(u: Word32)
    ensures u % 0x100 + u / 0x100 % 0x100 * 0x100 + u / 0x1_0000 % 0x100 * 0x1_0000 + u / 0x100_0000 * 0x100_0000 == u
  {
    assert u / 0x1_0000 == u / 0x100 / 0x100 && u / 0x100_0000 == u / 0x1_0000 / 0x100;
  }

  lemma DigitUnique(x: Byte, y: nat, x': Byte, y': nat)
    requires x as int + 0x100 * y == x' as int + 0x100 * y'
    ensures x == x' && y == y'
  {
  }

  /** Little-endian digits are unique. */
  lemma DigitsUnique(b: seq<Byte>, c: seq<Byte>)
    requires |b| == |c| == 4 && Le32(b, 0) == Le32(c, 0)
    ensures b == c
  {
    DigitUnique(b[0], b[1] as int + b[2] as int * 0x100 + b[3] as int * 0x1_0000,
                c[0], c[1] as int + c[2] as int * 0x100 + c[3] as int * 0x1_0000);
    DigitUnique(b[1], b[2] as int + b[3] as int * 0x100, c[1], c[2] as int + c[3] as int * 0x100);
    DigitUnique(b[2], b[3], c[2], c[3]);
  }

  /** A setting reads as s exactly where s is stored. */
  lemma SettingStored(raw: seq<Byte>, pairs: nat, index: nat, s: Setting)
    requires pairs + 8 * index + 8 <= |raw|
    ensures SettingAt(raw, pairs, index) == s <==> raw[pairs + 8 * index..pairs + 8 * index + 8] == SettingBytes(s)
  {
    hide Le32, WordBytes;
    var at := pairs + 8 * index;
    var stored := raw[at..at + 8];
    var value := raw[at + 4..at + 8];
    assert stored == [raw[at], raw[at + 1], raw[at + 2], raw[at + 3]] + value;
    SameWord(raw, at + 4);
    WordRoundTrip(s.value);
    if SettingAt(raw, pairs, index) == s {
      DigitsUnique(value, WordBytes(s.value));
    }
    if stored == SettingBytes(s) {
      assert stored[0] == s.key[3] && stored[1] == s.key[2] && stored[2] == s.key[1] && stored[3] == s.key[0];
      assert stored[4..] == WordBytes(s.value);
      assert value == stored[4..];
      assert s.key == [s.key[0], s.key[1], s.key[2], s.key[3]];
    }
  }

  lemma SameWord(raw: seq<Byte>, at: nat)
    requires at + 4 <= |raw|
    ensures Le32(raw, at) == Le32(raw[at..at + 4], 0)
  {
  }

  lemma {:induction false} SettingsStored(raw: seq<Byte>, pairs: nat, settings: seq<Setting>)
    requires pairs + 8 * |settings| <= |raw|
    ensures Settings(raw, pairs, |settings|) == settings
       <==> raw[pairs..pairs + 8 * |settings|] == SettingsBytes(settings)
  {
    hide SettingAt, SettingBytes;
    if settings != [] {
      var n := |settings| - 1;
      var init, last := settings[..n], settings[n];
      SettingsStored(raw, pairs, init);
      SettingStored(raw, pairs, n, last);
      var read := Settings(raw, pairs, n + 1);
      assert read == Settings(raw, pairs, n) + [SettingAt(raw, pairs, n)];
      assert settings == init + [last];
      var stored := raw[pairs..pairs + 8 * (n + 1)];
      assert stored == raw[pairs..pairs + 8 * n] + raw[pairs + 8 * n..pairs + 8 * n + 8];
      assert stored[..8 * n] == raw[pairs..pairs + 8 * n];
      assert SettingsBytes(settings)[..8 * n] == SettingsBytes(init);
    }
  }

  /** A section parses as s exactly where s is stored: the reader accepts all that the layout allows, no more. */
  lemma SectionStoredIff(raw: seq<Byte>, offset: nat, s: Section)
    ensures SectionAt(raw, offset) == Some(s)
       <==> |s.settings| <= MAX_SETTINGS && offset + |SectionBytes(s)| <= |raw|
            && raw[offset..offset + |SectionBytes(s)|] == SectionBytes(s)
  {
    hide Settings, SettingsBytes, Le32;
    var n := |s.settings|;
    if offset + 4 + 8 * n <= |raw| && n <= MAX_SETTINGS {
      var stored, b := raw[offset..offset + 4 + 8 * n], SectionBytes(s);
      SettingsStored(raw, offset + 4, s.settings);
      HeadAndTail(stored, b);
      assert b[4..] == SettingsBytes(s.settings) && stored[4..] == raw[offset + 4..offset + 4 + 8 * n];
      SizeStored(raw[offset], raw[offset + 1], n);
    }
  }

  /** The two size bytes say n settings exactly when they are the digits of 8n. */
  lemma SizeStored(low: Byte, high: Byte, n: nat)
    requires n <= MAX_SETTINGS
    ensures low as int + high as int * 0x100 == 8 * n <==> low == 8 * n % 0x100 && high == 8 * n / 0x100
  {
  }

  lemma HeadAndTail(a: seq<Byte>, b: seq<Byte>)
    requires |a| == |b| >= 4
    ensures a == b <==> a[0] == b[0] && a[1] == b[1] && a[2] == b[2] && a[3] == b[3] && a[4..] == b[4..]
  {
    assert a == [a[0], a[1], a[2], a[3]] + a[4..];
    assert b == [b[0], b[1], b[2], b[3]] + b[4..];
  }

  lemma WalkStep(raw: seq<Byte>, offset: nat)
    ensures Walk(raw, offset) ==
      if offset + 12 > |raw| || SectionAt(raw, offset).None? then []
      else [SectionAt(raw, offset).value] + Walk(raw, ParseSection(raw, offset).value.end)
    ensures SectionAt(raw, offset).Some? ==>
      var s := SectionAt(raw, offset).value;
      ParseSection(raw, offset).Some? && |s.settings| <= MAX_SETTINGS
      && ParseSection(raw, offset).value.end == offset + |SectionBytes(s)| <= |raw|
  {
    hide Settings, SectionBytes;
  }

  /** Every full walk returns sections stored one after the other, and stops where none can be read. */
  lemma {:induction false} WalkReadsStored(raw: seq<Byte>, offset: nat)
    requires offset <= |raw|
    ensures var sections := Walk(raw, offset);
      && Storable(sections)
      && var end := offset + |Serialize(sections)|;
      && end <= |raw| && raw[offset..end] == Serialize(sections)
      && (end + 12 > |raw| || SectionAt(raw, end).None?)
    decreases |raw| - offset
  {
    hide SectionBytes, Walk, SectionAt, ParseSection;
    WalkStep(raw, offset);
    var sections := Walk(raw, offset);
    if sections != [] {
      var s, next := sections[0], ParseSection(raw, offset).value.end;
      SectionStoredIff(raw, offset, s);
      WalkReadsStored(raw, next);
      assert sections[1..] == Walk(raw, next);
      var end := next + |Serialize(sections[1..])|;
      assert raw[offset..end] == raw[offset..next] + raw[next..end];
    }
  }

  /** Walking a dump returns the stored sections exactly when there are none or the last one has a setting. */
  lemma {:induction false} WalkRecoversIff(prefix: seq<Byte>, sections: seq<Section>)
    requires Storable(sections)
    ensures Walk(prefix + Serialize(sections), |prefix|) == sections
       <==> sections == [] || sections[|sections| - 1].settings != []
    decreases |sections|
  {
    hide SectionBytes, Walk, SectionAt, ParseSection, Serialize;
    var raw := prefix + Serialize(sections);
    WalkStep(raw, |prefix|);
    SerializeStep(sections);
    if sections != [] {
      var s, rest := sections[0], sections[1..];
      var b := SectionBytes(s);
      assert raw[|prefix|..|prefix| + |b|] == b;
      SectionStoredIff(raw, |prefix|, s);
      assert raw == (prefix + b) + Serialize(rest);
      WalkRecoversIff(prefix + b, rest);
      SerializedLength(sections);
      assert sections == [s] + rest;
      if rest != [] {
        assert rest[|rest| - 1] == sections[|sections| - 1];
      } else {
        SerializeStep(rest);
      }
    }
  }

  lemma SerializeStep(sections: seq<Section>)
    requires Storable(sections)
    ensures Serialize(sections) == if sections == [] then [] else SectionBytes(sections[0]) + Serialize(sections[1..])
  {
  }

  lemma {:induction false} SerializedLength(sections: seq<Section>)
    requires Storable(sections)
    ensures sections != [] && sections[|sections| - 1].settings != [] ==> |Serialize(sections)| >= 12
  {
    hide SectionBytes;
    if |sections| > 1 {
      SerializedLength(sections[1..]);
    }
  }

  predicate Printable(c: Byte) {
    0x20 <= c <= 0x7E
  }

  /** The stored position of character i of the name: four-byte words, each reversed. */
  function NameByte(i: nat): (at: nat)
    requires i < NAME_BYTES
    ensures HEADER_BYTES <= at < TOC_OFFSET
  {
    HEADER_BYTES + 4 * (i / 4) + 3 - i % 4
  }

  function NameFrom(raw: seq<Byte>, i: nat): (name: seq<Byte>)
    requires i <= NAME_BYTES && |raw| >= TOC_OFFSET
    ensures |name| <= NAME_BYTES - i && forall k :: 0 <= k < |name| ==> Printable(name[k])
    decreases NAME_BYTES - i
  {
    if i == NAME_BYTES || !Printable(raw[NameByte(i)]) then []
    else [raw[NameByte(i)]] + NameFrom(raw, i + 1)
  }

  function RigName(raw: seq<Byte>): seq<Byte> {
    if |raw| < TOC_OFFSET then [] else NameFrom(raw, 0)
  }

  /** Whatever the dump holds, its name is the longest printable start of the 28 bytes from byte 8 on, read word by word
      from each word's last byte to its first; a dump too short for them has none. */
  lemma NameIsLongest(raw: seq<Byte>)
    ensures |raw| < 36 ==> RigName(raw) == []
    ensures |raw| >= 36 ==>
      var name := RigName(raw);
      && |name| <= 28
      && (forall i :: 0 <= i < |name| ==> name[i] == raw[8 + 4 * (i / 4) + 3 - i % 4] && 0x20 <= name[i] <= 0x7E)
      && (|name| < 28 ==> var next := raw[8 + 4 * (|name| / 4) + 3 - |name| % 4]; next < 0x20 || next > 0x7E)
  {
    if |raw| >= 36 {
      NameFromIsLongest(raw, 0);
    }
  }

  lemma {:induction false} NameFromIsLongest(raw: seq<Byte>, from: nat)
    requires |raw| >= TOC_OFFSET && from <= NAME_BYTES
    ensures var name := NameFrom(raw, from);
      && from + |name| <= NAME_BYTES
      && (forall i :: 0 <= i < |name| ==> name[i] == raw[NameByte(from + i)] && Printable(name[i]))
      && (from + |name| < NAME_BYTES ==> !Printable(raw[NameByte(from + |name|)]))
    decreases NAME_BYTES - from
  {
    hide NameByte;
    if from < NAME_BYTES && Printable(raw[NameByte(from)]) {
      NameFromIsLongest(raw, from + 1);
    }
  }

  /** The name field: NUL padded, each word reversed. */
  function NameField(name: seq<Byte>): (b: seq<Byte>)
    requires |name| <= NAME_BYTES
    ensures |b| == NAME_BYTES
  {
    seq(NAME_BYTES, j requires 0 <= j < NAME_BYTES =>
      var i := 4 * (j / 4) + 3 - j % 4; if i < |name| then name[i] else 0)
  }

  lemma NameFieldAt(name: seq<Byte>, raw: seq<Byte>, i: nat)
    requires |name| <= NAME_BYTES && |raw| >= TOC_OFFSET && i < NAME_BYTES
    requires raw[HEADER_BYTES..TOC_OFFSET] == NameField(name)
    ensures raw[NameByte(i)] == if i < |name| then name[i] else 0
  {
    var j := NameByte(i) - HEADER_BYTES;
    assert raw[HEADER_BYTES..TOC_OFFSET][j] == raw[NameByte(i)];
    assert j / 4 == i / 4 && j % 4 == 3 - i % 4;
  }

  /** A stored name reads back exactly when all of it is printable. */
  lemma NameRoundTripIff(name: seq<Byte>, raw: seq<Byte>)
    requires |name| <= NAME_BYTES && |raw| >= TOC_OFFSET
    requires raw[HEADER_BYTES..TOC_OFFSET] == NameField(name)
    ensures RigName(raw) == name <==> forall i :: 0 <= i < |name| ==> Printable(name[i])
  {
    NameFromRoundTrip(name, raw, 0);
    assert name[0..] == name;
  }

  lemma {:induction false} NameFromRoundTrip(name: seq<Byte>, raw: seq<Byte>, i: nat)
    requires i <= |name| <= NAME_BYTES && |raw| >= TOC_OFFSET
    requires raw[HEADER_BYTES..TOC_OFFSET] == NameField(name)
    ensures NameFrom(raw, i) == name[i..] <==> forall k :: i <= k < |name| ==> Printable(name[k])
    decreases |name| - i
  {
    hide NameField, NameByte;
    if i < |name| {
      NameFieldAt(name, raw, i);
      NameFromRoundTrip(name, raw, i + 1);
      assert name[i..] == [name[i]] + name[i + 1..];
    } else if i < NAME_BYTES {
      NameFieldAt(name, raw, i);
    }
  }

  /** Read the name character by character. */
  method ExtractName(raw: seq<Byte>) returns (name: seq<Byte>)
    ensures name == RigName(raw)
  {
    hide NameByte, NameFrom;
    name := [];
    if |raw| < TOC_OFFSET {
      return;
    }
    ghost var whole := NameFrom(raw, 0);
    var word := 0;
    while word < NAME_BYTES && |name| < NAME_BYTES
      invariant word % 4 == 0 && |name| == word <= NAME_BYTES
      invariant whole == name + NameFrom(raw, word)
    {
      var index := 3;
      while index >= 0
        invariant -1 <= index <= 3 && |name| == word + 3 - index
        invariant whole == name + NameFrom(raw, |name|)
      {
        NameByteIs(word, index);
        NameStep(raw, |name|, name);
        var c := raw[HEADER_BYTES + word + index];
        if c == 0 || c < 0x20 || c > 0x7E {
          return;
        }
        name := name + [c];
        index := index - 1;
      }
      word := word + 4;
    }
    assert NameFrom(raw, NAME_BYTES) == [] by {
      NameStep(raw, NAME_BYTES, []);
    }
  }

  lemma NameStep(raw: seq<Byte>, i: nat, before: seq<Byte>)
    requires i <= NAME_BYTES && |raw| >= TOC_OFFSET
    ensures i == NAME_BYTES || !Printable(raw[NameByte(i)]) ==> NameFrom(raw, i) == []
    ensures i < NAME_BYTES && Printable(raw[NameByte(i)]) ==>
      before + NameFrom(raw, i) == before + [raw[NameByte(i)]] + NameFrom(raw, i + 1)
  {
    hide NameByte;
  }

  lemma NameByteIs(word: nat, index: nat)
    requires word % 4 == 0 && index <= 3 && word < NAME_BYTES
    ensures word <= NAME_BYTES - 4
    ensures NameByte(word + 3 - index) == HEADER_BYTES + word + index
  {
    var i := word + 3 - index;
    assert i / 4 == word / 4 && i % 4 == 3 - index;
  }

  /** The value of the first setting with a key. */
  function FirstValue(settings: seq<Setting>, key: Key): (r: Option<Int32>)
    ensures r.None? <==> forall i :: 0 <= i < |settings| ==> settings[i].key != key
    ensures r.Some? ==> exists i :: 0 <= i < |settings| && settings[i] == Setting(key, r.value)
                          && forall j :: 0 <= j < i ==> settings[j].key != key
  {
    if settings == [] then None
    else
      var n := |settings| - 1;
      var r := FirstValue(settings[..n], key);
      if r.None? && settings[n].key == key then Some(settings[n].value) else r
  }

  /** Look a key up in a section; the value stays as it was when the key is absent. */
  method FindSetting(raw: seq<Byte>, section: Extent, key: Key, value: Int32) returns (found: bool, result: Int32)
    requires section.pairs + 8 * section.count <= |raw|
    ensures FirstValue(Settings(raw, section.pairs, section.count), key) == if found then Some(result) else None
    ensures !found ==> result == value
  {
    hide SettingAt;
    ghost var all := Settings(raw, section.pairs, section.count);
    for index := 0 to section.count
      invariant forall i :: 0 <= i < index ==> all[i].key != key
    {
      var setting := SettingAt(raw, section.pairs, index);
      assert all[index] == setting;
      if setting.key == key {
        return true, setting.value;
      }
    }
    return false, value;
  }
}
