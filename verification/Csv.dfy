/**
 * The settings table as comma-separated text: the writer puts every text field in quotes and doubles the quotes
 * inside it. The reader follows section 2 of RFC 4180, with a line feed as the record end.
 */
module Csv {
  import opened Words
  import opened Options

  /** A field as it is written: in quotes, or bare. */
  datatype Field = Quoted(text: string) | Bare(text: string)

  function Doubled(text: string): string {
    if text == "" then ""
    else (if text[0] == '"' then "\"\"" else [text[0]]) + Doubled(text[1..])
  }

  function FieldText(f: Field): string {
    match f
    case Quoted(text) => "\"" + Doubled(text) + "\""
    case Bare(text) => text
  }

  function RecordText(fields: seq<Field>): string {
    if fields == [] then ""
    else FieldText(fields[0]) + (if |fields| == 1 then "\n" else ",") + RecordText(fields[1..])
  }

  function TableText(records: seq<seq<Field>>): string {
    if records == [] then "" else TableText(records[..|records| - 1]) + RecordText(records[|records| - 1])
  }

  /** Characters that only a quoted field may hold. */
  predicate Special(c: char) {
    c == '"' || c == ',' || c == '\n' || c == '\r'
  }

  predicate Plain(text: string) {
    forall i :: 0 <= i < |text| ==> !Special(text[i])
  }

  predicate Writable(fields: seq<Field>) {
    fields != [] && forall i :: 0 <= i < |fields| ==> fields[i].Bare? ==> Plain(fields[i].text)
  }

  function Values(fields: seq<Field>): seq<string> {
    seq(|fields|, i requires 0 <= i < |fields| => fields[i].text)
  }

  function TableValues(records: seq<seq<Field>>): seq<seq<string>> {
    seq(|records|, i requires 0 <= i < |records| => Values(records[i]))
  }

  // The reader.

  /** A quoted field after its opening quote: a doubled quote is one quote, a single quote ends the field. */
  function ReadQuoted(s: string): (r: Option<(string, string)>)
    ensures r.Some? ==> |r.value.1| < |s|
  {
    if s == "" then None
    else if s[0] != '"' then Prepend(s[0], ReadQuoted(s[1..]))
    else if |s| > 1 && s[1] == '"' then Prepend('"', ReadQuoted(s[2..]))
    else Some(("", s[1..]))
  }

  function Prepend(c: char, r: Option<(string, string)>): Option<(string, string)> {
    match r
    case None => None
    case Some((text, rest)) => Some(([c] + text, rest))
  }

  function ReadBare(s: string): (r: (string, string))
    ensures |r.1| <= |s|
  {
    if s == "" || Special(s[0]) then ("", s)
    else var (text, rest) := ReadBare(s[1..]); ([s[0]] + text, rest)
  }

  function ReadField(s: string): (r: Option<(string, string)>)
    ensures r.Some? ==> |r.value.1| <= |s|
  {
    if s != "" && s[0] == '"' then ReadQuoted(s[1..]) else Some(ReadBare(s))
  }

  function ReadRecord(s: string): (r: Option<(seq<string>, string)>)
    ensures r.Some? ==> |r.value.1| < |s| || r.value.1 == ""
    decreases |s|
  {
    match ReadField(s)
    case None => None
    case Some((text, rest)) =>
      if rest == "" then Some(([text], ""))
      else if rest[0] == '\n' then Some(([text], rest[1..]))
      else if rest[0] != ',' then None
      else
        match ReadRecord(rest[1..])
        case None => None
        case Some((texts, after)) => Some(([text] + texts, after))
  }

  function ReadTable(s: string): Option<seq<seq<string>>>
    decreases |s|
  {
    if s == "" then Some([])
    else
      match ReadRecord(s)
      case None => None
      case Some((record, rest)) =>
        match ReadTable(rest)
        case None => None
        case Some(records) => Some([record] + records)
  }

  lemma {:induction false} QuotedReadsBack(text: string, tail: string)
    requires tail == "" || tail[0] != '"'
    ensures ReadQuoted(Doubled(text) + ("\"" + tail)) == Some((text, tail))
  {
    var s := Doubled(text) + ("\"" + tail);
    if text == "" {
      assert s == "\"" + tail && s[1..] == tail;
    } else {
      QuotedReadsBack(text[1..], tail);
      var rest := Doubled(text[1..]) + ("\"" + tail);
      assert text == [text[0]] + text[1..];
      if text[0] == '"' {
        assert s == "\"\"" + rest && s[2..] == rest;
      } else {
        assert s == [text[0]] + rest && s[1..] == rest;
      }
    }
  }

  lemma {:induction false} BareReadsBack(text: string, tail: string)
    requires Plain(text) && (tail == "" || Special(tail[0]))
    ensures ReadBare(text + tail) == (text, tail)
  {
    if text == "" {
      assert text + tail == tail;
    } else {
      BareReadsBack(text[1..], tail);
      assert text == [text[0]] + text[1..];
      assert (text + tail)[1..] == text[1..] + tail;
    }
  }

  lemma FieldReadsBack(f: Field, tail: string)
    requires f.Bare? ==> Plain(f.text)
    requires tail != "" && (tail[0] == ',' || tail[0] == '\n')
    ensures ReadField(FieldText(f) + tail) == Some((f.text, tail))
  {
    hide ReadQuoted, ReadBare, Doubled;
    var s := FieldText(f) + tail;
    if f.Quoted? {
      QuotedReadsBack(f.text, tail);
      assert s == "\"" + (Doubled(f.text) + ("\"" + tail));
      assert s[0] == '"' && s[1..] == Doubled(f.text) + ("\"" + tail);
    } else {
      BareReadsBack(f.text, tail);
      assert s[0] == if f.text == "" then tail[0] else f.text[0];
    }
  }

  lemma {:induction false} RecordReadsBack(fields: seq<Field>, tail: string)
    requires Writable(fields)
    ensures ReadRecord(RecordText(fields) + tail) == Some((Values(fields), tail))
  {
    hide FieldText, ReadField;
    var f, rest := fields[0], fields[1..];
    if |fields| == 1 {
      FieldReadsBack(f, "\n" + tail);
      assert RecordText(rest) == "";
      assert RecordText(fields) + tail == FieldText(f) + ("\n" + tail);
      assert Values(fields) == [f.text];
    } else {
      RecordReadsBack(rest, tail);
      var after := "," + (RecordText(rest) + tail);
      FieldReadsBack(f, after);
      assert RecordText(fields) + tail == FieldText(f) + after;
      assert Values(fields) == [f.text] + Values(rest);
    }
  }

  predicate AllWritable(records: seq<seq<Field>>) {
    forall i :: 0 <= i < |records| ==> Writable(records[i])
  }

  /** A written table reads back as exactly the texts of its fields, whatever characters they hold. */
  lemma TableReadsBack(records: seq<seq<Field>>)
    requires AllWritable(records)
    ensures ReadTable(TableText(records)) == Some(TableValues(records))
  {
    assert TableText(records) + "" == TableText(records);
    assert TableValues(records) + [] == TableValues(records);
    TableReadsBackBefore(records, "", []);
  }

  lemma ReadTableStep(s: string)
    ensures s != "" && ReadRecord(s).Some? && ReadTable(ReadRecord(s).value.1).Some? ==>
      ReadTable(s) == Some([ReadRecord(s).value.0] + ReadTable(ReadRecord(s).value.1).value)
  {
  }

  lemma {:induction false} TableReadsBackBefore(records: seq<seq<Field>>, tail: string, after: seq<seq<string>>)
    requires AllWritable(records) && ReadTable(tail) == Some(after)
    ensures ReadTable(TableText(records) + tail) == Some(TableValues(records) + after)
  {
    hide RecordText, ReadRecord, Values, Writable, ReadTable;
    if records == [] {
      assert TableText(records) + tail == tail;
      assert TableValues(records) + after == after;
    } else {
      var init, last := records[..|records| - 1], records[|records| - 1];
      RecordReadsBack(last, tail);
      RecordNotEmpty(last);
      ReadTableStep(RecordText(last) + tail);
      TableReadsBackBefore(init, RecordText(last) + tail, [Values(last)] + after);
      assert TableText(records) + tail == TableText(init) + (RecordText(last) + tail);
      assert TableValues(records) + after == TableValues(init) + ([Values(last)] + after);
    }
  }

  lemma RecordNotEmpty(fields: seq<Field>)
    requires Writable(fields)
    ensures RecordText(fields) != ""
  {
  }

  /** A text splits into records in one way only. */
  lemma TableSplitsUniquely(a: seq<seq<Field>>, b: seq<seq<Field>>)
    requires AllWritable(a) && AllWritable(b) && TableText(a) == TableText(b)
    ensures TableValues(a) == TableValues(b)
  {
    TableReadsBack(a);
    TableReadsBack(b);
  }

  // Numbers.

  function Digit(d: nat): (c: char)
    requires d < 16
  {
    "0123456789ABCDEF"[d]
  }

  function DigitValue(c: char): nat {
    if '0' <= c <= '9' then (c - '0') as nat else if 'A' <= c <= 'F' then (c - 'A') as nat + 10 else 0
  }

  type Base = b: nat | b == 10 || b == 16 witness 10

  function Last(n: nat, base: Base): (d: nat)
    ensures d < base && d < 16
  {
    if base == 10 then n % 10 else n % 16
  }

  function Rest(n: nat, base: Base): (q: nat)
    ensures q <= n && (n >= base ==> q < n) && n == Joined(q, Last(n, base), base)
    ensures n < base ==> q == 0
  {
    if base == 10 then n / 10 else n / 16
  }

  function Joined(q: nat, d: nat, base: Base): nat {
    if base == 10 then 10 * q + d else 16 * q + d
  }

  /** Digits of a number in a base, at least `width` of them. */
  function Numeral(n: nat, base: Base, width: nat): (s: string)
    requires width > 0
    decreases n + width
  {
    if n < base && width == 1 then [Digit(n)]
    else Numeral(Rest(n, base), base, if width > 1 then width - 1 else 1) + [Digit(Last(n, base))]
  }

  function Number(s: string, base: Base): nat {
    if s == "" then 0 else Joined(Number(s[..|s| - 1], base), DigitValue(s[|s| - 1]), base)
  }

  function Decimal(v: Int32): string {
    if v < 0 then "-" + Numeral(-(v as int), 10, 1) else Numeral(v, 10, 1)
  }

  function Hex(v: Int32): string {
    "0x" + Numeral(if v < 0 then v + U32 else v, 16, 8)
  }

  function ReadDecimal(s: string): int {
    if s != "" && s[0] == '-' then -(Number(s[1..], 10) as int) else Number(s, 10)
  }

  lemma DigitReadsBack(d: nat)
    requires d < 16
    ensures DigitValue(Digit(d)) == d && !Special(Digit(d)) && Digit(d) != '-'
  {
  }

  lemma {:induction false} NumeralReadsBack(n: nat, base: Base, width: nat)
    requires width > 0
    ensures Number(Numeral(n, base, width), base) == n
    ensures var s := Numeral(n, base, width); |s| > 0 && s[0] != '-' && Plain(s)
    decreases n + width
  {
    hide Digit, DigitValue, Special, Last, Rest, Number;
    var s := Numeral(n, base, width);
    if n < base && width == 1 {
      DigitReadsBack(n);
      NumberStep("", Digit(n), base);
      assert s == "" + [Digit(n)];
    } else {
      var w := if width > 1 then width - 1 else 1;
      var init, c := Numeral(Rest(n, base), base, w), Digit(Last(n, base));
      DigitReadsBack(Last(n, base));
      NumeralReadsBack(Rest(n, base), base, w);
      NumberStep(init, c, base);
      assert s == init + [c];
    }
  }

  /** The least number that does not fit in so many hexadecimal digits. */
  function HexRange(width: nat): (n: nat)
    ensures n > 0
  {
    if width == 0 then 1 else 16 * HexRange(width - 1)
  }

  /** The digits are those of the base, and the width is exceeded only to hold the number. */
  lemma {:induction false} NumeralShape(n: nat, base: Base, width: nat)
    requires width > 0
    ensures var s := Numeral(n, base, width);
      && |s| >= width && (|s| > width ==> s[0] != '0')
      && (base == 16 && n < HexRange(width) ==> |s| == width)
      && forall i :: 0 <= i < |s| ==> '0' <= s[i] <= '9' || (base == 16 && 'A' <= s[i] <= 'F')
    decreases n + width
  {
    hide Digit, Rest, Last;
    var w, q := if width > 1 then width - 1 else 1, Rest(n, base);
    if n < base && width == 1 {
      DigitShape(n, base);
    } else {
      NumeralShape(q, base, w);
      DigitShape(Last(n, base), base);
      if base == 16 {
        RestFits(n, width);
      }
      if width == 1 {
        NumeralLeads(q, base);
      }
    }
  }

  lemma DigitShape(d: nat, base: Base)
    requires d < base && d < 16
    ensures '0' <= Digit(d) <= '9' || (base == 16 && 'A' <= Digit(d) <= 'F')
  {
  }

  lemma RestFits(n: nat, width: nat)
    requires width > 0
    ensures n < HexRange(width) <==> Rest(n, 16) < HexRange(width - 1)
  {
  }

  /** A number with no fixed width has no leading zero. */
  lemma {:induction false} NumeralLeads(n: nat, base: Base)
    requires n > 0
    ensures Numeral(n, base, 1)[0] != '0'
  {
    if n >= base {
      NumeralLeads(Rest(n, base), base);
    }
  }

  /** The hexadecimal column is 0x and eight digits, the decimal one a minus sign for negatives and digits that do not
      start with a superfluous zero. */
  lemma ValueColumnsLookLikeNumbers(v: Int32)
    ensures |Hex(v)| == 10 && Hex(v)[..2] == "0x"
    ensures forall i :: 2 <= i < 10 ==> '0' <= Hex(v)[i] <= '9' || 'A' <= Hex(v)[i] <= 'F'
    ensures (v < 0 <==> Decimal(v)[..1] == "-") && (v != 0 ==> Decimal(v)[if v < 0 then 1 else 0] != '0')
    ensures v == 0 ==> Decimal(v) == "0"
  {
    hide Numeral, Digit;
    var magnitude, pattern := if v < 0 then -(v as int) else v, if v < 0 then v + U32 else v;
    NumeralShape(pattern, 16, 8);
    NumeralShape(magnitude, 10, 1);
    AfterPrefix("0x", Numeral(pattern, 16, 8));
    EightDigits();
    var digits := Numeral(magnitude, 10, 1);
    if v != 0 {
      NumeralLeads(magnitude, 10);
    } else {
      NumeralOfZero();
    }
    assert Decimal(v)[..1] == [Decimal(v)[0]];
  }

  lemma EightDigits()
    ensures HexRange(8) == U32
  {
    assert HexRange(4) == 0x1_0000;
  }

  lemma NumeralOfZero()
    ensures Numeral(0, 10, 1) == "0"
  {
  }

  lemma NumberStep(init: string, c: char, base: Base)
    ensures Number("", base) == 0
    ensures Number(init + [c], base) == Joined(Number(init, base), DigitValue(c), base)
  {
    assert (init + [c])[..|init|] == init;
  }

  /** The decimal and the hexadecimal column each determine the setting's value. */
  lemma ValueColumnsReadBack(v: Int32)
    ensures Plain(Decimal(v)) && ReadDecimal(Decimal(v)) == v
    ensures Plain(Hex(v)) && Signed32(Number(Hex(v)[2..], 16) % U32) == v
  {
    hide Numeral, Number, Special, Digit;
    var magnitude, pattern := if v < 0 then -(v as int) else v, if v < 0 then v + U32 else v;
    NumeralReadsBack(magnitude, 10, 1);
    NumeralReadsBack(pattern, 16, 8);
    var digits, hex := Numeral(magnitude, 10, 1), Numeral(pattern, 16, 8);
    AfterPrefix("0x", hex);
    AfterPrefix("-", digits);
    assert !Special('-') && !Special('0') && !Special('x') by {
      SignsArePlain();
    }
  }

  lemma SignsArePlain()
    ensures !Special('-') && !Special('0') && !Special('x')
  {
  }

  lemma AfterPrefix(prefix: string, s: string)
    ensures (prefix + s)[|prefix|..] == s && (prefix + s)[..|prefix|] == prefix
  {
  }

  // The rows of the settings table.

  datatype Row = Row(
    bank: string, program: string, rigName: string, slot: string,
    category: Option<Int32>, categoryName: string, effect: Option<Int32>, effectName: string,
    enabled: Option<bool>, key: string, parameter: string, value: Int32,
    display: string, unit: string, range: string, curve: string)

  /** A C string: what precedes the first NUL. */
  function CString(s: string): (t: string)
    ensures |t| <= |s| && t == s[..|t|] && (|t| < |s| ==> s[|t|] == '\0')
    ensures forall i :: 0 <= i < |t| ==> t[i] != '\0'
  {
    if s == "" || s[0] == '\0' then "" else [s[0]] + CString(s[1..])
  }

  function NumberOrNothing(v: Option<Int32>): string {
    if v.Some? then Decimal(v.value) else ""
  }

  /** Where a setting is. */
  function PlaceFields(row: Row): (f: seq<Field>)
    ensures |f| == 9
  {
    [ Quoted(CString(row.bank)), Quoted(CString(row.program)), Quoted(CString(row.rigName)), Quoted(CString(row.slot)),
      Bare(NumberOrNothing(row.category)), Quoted(CString(row.categoryName)),
      Bare(NumberOrNothing(row.effect)), Quoted(CString(row.effectName)),
      Bare(if row.enabled.None? then "" else if row.enabled.value then "1" else "0") ]
  }

  /** The setting itself. */
  function SettingFields(row: Row): (f: seq<Field>)
    ensures |f| == 8
  {
    [ Quoted(CString(row.key)), Quoted(CString(row.parameter)), Bare(Decimal(row.value)), Bare(Hex(row.value)),
      Quoted(CString(row.display)), Quoted(CString(row.unit)), Quoted(CString(row.range)), Quoted(CString(row.curve)) ]
  }

  function Fields(row: Row): (f: seq<Field>)
    ensures |f| == 17
  {
    PlaceFields(row) + SettingFields(row)
  }

  /** What a row shows under a column's name. */
  function Column(row: Row, name: string): string {
    if name == "bank" then CString(row.bank)
    else if name == "program" then CString(row.program)
    else if name == "rig_name" then CString(row.rigName)
    else if name == "slot" then CString(row.slot)
    else if name == "category_id" then NumberOrNothing(row.category)
    else if name == "category" then CString(row.categoryName)
    else if name == "effect_id" then NumberOrNothing(row.effect)
    else if name == "effect" then CString(row.effectName)
    else if name == "enabled" then
      (if row.enabled == Some(true) then "1" else if row.enabled == Some(false) then "0" else "")
    else if name == "key" then CString(row.key)
    else if name == "parameter" then CString(row.parameter)
    else if name == "raw" then Decimal(row.value)
    else if name == "hex" then Hex(row.value)
    else if name == "display" then CString(row.display)
    else if name == "unit" then CString(row.unit)
    else if name == "range" then CString(row.range)
    else if name == "curve" then CString(row.curve)
    else ""
  }

  function Records(rows: seq<Row>): seq<seq<Field>> {
    seq(|rows|, i requires 0 <= i < |rows| => Fields(rows[i]))
  }

  /** The text of rows written one after another. */
  function RowsText(rows: seq<Row>): string {
    TableText(Records(rows))
  }

  lemma NoRowsText()
    ensures RowsText([]) == ""
  {
  }

  lemma RowsTextNext(rows: seq<Row>, row: Row)
    ensures RowsText(rows + [row]) == RowsText(rows) + RecordText(Fields(row))
  {
    hide Fields, RecordText;
    assert Records(rows + [row])[..|rows|] == Records(rows);
  }

  lemma {:induction false} RowsTextJoin(a: seq<Row>, b: seq<Row>)
    ensures RowsText(a + b) == RowsText(a) + RowsText(b)
  {
    hide RowsText, Fields, RecordText;
    if b == [] {
      NoRowsText();
      assert a + b == a;
    } else {
      var init, last := b[..|b| - 1], b[|b| - 1];
      RowsTextJoin(a, init);
      RowsTextNext(a + init, last);
      RowsTextNext(init, last);
      assert a + b == (a + init) + [last] && b == init + [last];
    }
  }

  lemma FieldsAreWritable(row: Row)
    ensures Writable(Fields(row))
  {
    hide Decimal, Hex, CString, Plain;
    NothingIsPlain();
    ValueColumnsReadBack(row.value);
    if row.category.Some? {
      ValueColumnsReadBack(row.category.value);
    }
    if row.effect.Some? {
      ValueColumnsReadBack(row.effect.value);
    }
  }

  lemma NothingIsPlain()
    ensures Plain("") && Plain("0") && Plain("1")
  {
  }

  /** Rows written one after another read back as their seventeen fields each. */
  lemma RowsReadBack(rows: seq<Row>)
    ensures ReadTable(RowsText(rows)) == Some(TableValues(Records(rows)))
  {
    hide Fields, Writable;
    forall i | 0 <= i < |rows|
      ensures Writable(Records(rows)[i])
    {
      FieldsAreWritable(rows[i]);
    }
    TableReadsBack(Records(rows));
  }

  /** A row as far as its file can show it: texts end at their NUL. */
  function Shown(row: Row): Row {
    Row(CString(row.bank), CString(row.program), CString(row.rigName), CString(row.slot),
        row.category, CString(row.categoryName), row.effect, CString(row.effectName),
        row.enabled, CString(row.key), CString(row.parameter), row.value,
        CString(row.display), CString(row.unit), CString(row.range), CString(row.curve))
  }

  lemma NumbersDiffer(a: Option<Int32>, b: Option<Int32>)
    ensures NumberOrNothing(a) == NumberOrNothing(b) <==> a == b
  {
    if a.Some? {
      ValueColumnsReadBack(a.value);
    }
    if b.Some? {
      ValueColumnsReadBack(b.value);
    }
  }

  /** The first nine columns determine where a setting is. */
  lemma PlaceColumns(a: Row, b: Row)
    requires Values(PlaceFields(a)) == Values(PlaceFields(b))
    ensures CString(a.bank) == CString(b.bank) && CString(a.program) == CString(b.program)
    ensures CString(a.rigName) == CString(b.rigName) && CString(a.slot) == CString(b.slot)
    ensures a.category == b.category && CString(a.categoryName) == CString(b.categoryName)
    ensures a.effect == b.effect && CString(a.effectName) == CString(b.effectName) && a.enabled == b.enabled
  {
    hide CString, NumberOrNothing;
    var v, w := Values(PlaceFields(a)), Values(PlaceFields(b));
    assert v[0] == w[0] && v[1] == w[1] && v[2] == w[2] && v[3] == w[3] && v[4] == w[4];
    assert v[5] == w[5] && v[6] == w[6] && v[7] == w[7] && v[8] == w[8];
    NumbersDiffer(a.category, b.category);
    NumbersDiffer(a.effect, b.effect);
  }

  /** The last eight columns determine the setting. */
  lemma SettingColumns(a: Row, b: Row)
    requires Values(SettingFields(a)) == Values(SettingFields(b))
    ensures CString(a.key) == CString(b.key) && CString(a.parameter) == CString(b.parameter) && a.value == b.value
    ensures CString(a.display) == CString(b.display) && CString(a.unit) == CString(b.unit)
    ensures CString(a.range) == CString(b.range) && CString(a.curve) == CString(b.curve)
  {
    hide CString, Decimal, Hex;
    var v, w := Values(SettingFields(a)), Values(SettingFields(b));
    assert v[0] == w[0] && v[1] == w[1] && v[2] == w[2] && v[3] == w[3];
    assert v[4] == w[4] && v[5] == w[5] && v[6] == w[6] && v[7] == w[7];
    ValueColumnsReadBack(a.value);
    ValueColumnsReadBack(b.value);
  }

  lemma FieldsDetermineRow(a: Row, b: Row)
    requires Values(Fields(a)) == Values(Fields(b))
    ensures Shown(a) == Shown(b)
  {
    hide CString, PlaceFields, SettingFields;
    ColumnsSplit(a);
    ColumnsSplit(b);
    PlaceColumns(a, b);
    SettingColumns(a, b);
  }

  lemma ColumnsSplit(row: Row)
    ensures Values(Fields(row))[..9] == Values(PlaceFields(row))
    ensures Values(Fields(row))[9..] == Values(SettingFields(row))
  {
    hide PlaceFields, SettingFields;
  }

  /** Two tables with the same text hold the same rows. */
  lemma TextDeterminesRows(a: seq<Row>, b: seq<Row>)
    requires RowsText(a) == RowsText(b)
    ensures |a| == |b| && forall i :: 0 <= i < |a| ==> Shown(a[i]) == Shown(b[i])
  {
    hide RowsText, ReadTable, Fields, Shown;
    RowsReadBack(a);
    RowsReadBack(b);
    var read := TableValues(Records(a));
    assert read == TableValues(Records(b));
    forall i | 0 <= i < |a|
      ensures Shown(a[i]) == Shown(b[i])
    {
      assert read[i] == Values(Fields(a[i])) == Values(Fields(b[i]));
      FieldsDetermineRow(a[i], b[i]);
    }
  }

  /** The output stream. */
  class CsvFile {
    var text: string

    constructor ()
      ensures text == ""
    {
      text := "";
    }

    method Put(s: string)
      modifies this
      ensures text == old(text) + s
    {
      text := text + s;
    }

    /** Write a text field, character by character up to the NUL. */
    method Text(s: string)
      modifies this
      ensures text == old(text) + FieldText(Quoted(CString(s)))
    {
      hide CString, Doubled;
      ghost var whole := text + ("\"" + Doubled(CString(s)) + "\"");
      Put("\"");
      var i := 0;
      assert s[0..] == s;
      while i < |s| && s[i] != '\0'
        invariant i <= |s| && Closing(s[i..]) == whole
      {
        ClosingStep(s[i..]);
        assert s[i..][1..] == s[i + 1..];
        PutCharacter(s[i]);
        i := i + 1;
      }
      DoubledStep(s[i..]);
      Put("\"");
    }

    /** The text once the rest of a quoted field is written. */
    ghost function Closing(rest: string): string
      reads this
    {
      text + (Doubled(CString(rest)) + "\"")
    }

    lemma ClosingStep(s: string)
      requires s != "" && s[0] != '\0'
      ensures Closing(s) == text + (if s[0] == '"' then "\"\"" else [s[0]]) + (Doubled(CString(s[1..])) + "\"")
    {
      hide CString, Doubled;
      DoubledStep(s);
    }

    /** Write one character of a quoted field. */
    method PutCharacter(c: char)
      modifies this
      ensures text == old(text) + if c == '"' then "\"\"" else [c]
    {
      if c == '"' {
        Put("\"");
      }
      Put([c]);
    }

    lemma DoubledStep(s: string)
      ensures Doubled(CString(s)) ==
        if s == "" || s[0] == '\0' then ""
        else (if s[0] == '"' then "\"\"" else [s[0]]) + Doubled(CString(s[1..]))
    {
    }

    /** Writing the fields from k on would complete the text to `whole`. */
    ghost predicate Pending(fields: seq<Field>, k: nat, whole: string)
      requires k <= |fields|
      reads this
    {
      text + RecordText(fields[k..]) == whole
    }

    /** Write field k of a record, and the comma or line feed that follows it. */
    method Cell(s: string, quoted: bool, end: string, ghost fields: seq<Field>, ghost k: nat, ghost whole: string)
      requires k < |fields| && fields[k] == (if quoted then Quoted(CString(s)) else Bare(s))
      requires end == if k == |fields| - 1 then "\n" else ","
      requires Pending(fields, k, whole)
      modifies this
      ensures Pending(fields, k + 1, whole)
    {
      hide CString, Doubled;
      assert fields[k..][1..] == fields[k + 1..];
      if quoted {
        Text(s);
      } else {
        Put(s);
      }
      Put(end);
    }

    /** Write one row of seventeen fields. */
    method WriteRow(row: Row)
      modifies this
      ensures text == old(text) + RecordText(Fields(row))
    {
      ghost var f := Fields(row);
      ghost var whole := text + RecordText(f);
      AllPending(f);
      FieldList(row);
      SettingFieldList(row);
      hide CString, Decimal, Hex, RecordText, NumberOrNothing, Fields, Pending;
      var enabled := if row.enabled.None? then "" else if row.enabled.value then "1" else "0";
      Cell(row.bank, true, ",", f, 0, whole);
      Cell(row.program, true, ",", f, 1, whole);
      Cell(row.rigName, true, ",", f, 2, whole);
      Cell(row.slot, true, ",", f, 3, whole);
      Cell(NumberOrNothing(row.category), false, ",", f, 4, whole);
      Cell(row.categoryName, true, ",", f, 5, whole);
      Cell(NumberOrNothing(row.effect), false, ",", f, 6, whole);
      Cell(row.effectName, true, ",", f, 7, whole);
      Cell(enabled, false, ",", f, 8, whole);
      Cell(row.key, true, ",", f, 9, whole);
      Cell(row.parameter, true, ",", f, 10, whole);
      Cell(Decimal(row.value), false, ",", f, 11, whole);
      Cell(Hex(row.value), false, ",", f, 12, whole);
      Cell(row.display, true, ",", f, 13, whole);
      Cell(row.unit, true, ",", f, 14, whole);
      Cell(row.range, true, ",", f, 15, whole);
      Cell(row.curve, true, "\n", f, 16, whole);
      NothingPending(f, whole);
    }

    lemma FieldList(row: Row)
      ensures var f := Fields(row);
        && f[0] == Quoted(CString(row.bank)) && f[1] == Quoted(CString(row.program))
        && f[2] == Quoted(CString(row.rigName)) && f[3] == Quoted(CString(row.slot))
        && f[4] == Bare(NumberOrNothing(row.category)) && f[5] == Quoted(CString(row.categoryName))
        && f[6] == Bare(NumberOrNothing(row.effect)) && f[7] == Quoted(CString(row.effectName))
        && f[8] == Bare(if row.enabled.None? then "" else if row.enabled.value then "1" else "0")
    {
      hide CString, NumberOrNothing, SettingFields;
    }

    lemma SettingFieldList(row: Row)
      ensures var f := Fields(row);
        && f[9] == Quoted(CString(row.key)) && f[10] == Quoted(CString(row.parameter))
        && f[11] == Bare(Decimal(row.value)) && f[12] == Bare(Hex(row.value))
        && f[13] == Quoted(CString(row.display)) && f[14] == Quoted(CString(row.unit))
        && f[15] == Quoted(CString(row.range)) && f[16] == Quoted(CString(row.curve))
    {
      hide CString, Decimal, Hex, PlaceFields;
      assert forall k :: 0 <= k < 8 ==> Fields(row)[9 + k] == SettingFields(row)[k];
    }

    lemma AllPending(fields: seq<Field>)
      ensures Pending(fields, 0, text + RecordText(fields))
    {
      assert fields[0..] == fields;
    }

    lemma NothingPending(fields: seq<Field>, whole: string)
      requires Pending(fields, |fields|, whole)
      ensures text == whole
    {
    }
  }
}
