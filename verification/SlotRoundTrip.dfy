/** A Lua reading of a printed slot payload returns the envelope. */
module SlotRoundTrip {
  import opened Wrappers
  import opened Texts
  import opened SlotPayload
  import opened LuaReader

  lemma DecimalEscapeRead(c: Octet, rest: Text)
    ensures ReadDigits([DigitOf(c as int / 100), DigitOf(c as int / 10 % 10), DigitOf(c as int % 10)] + rest, 0, 3)
            == (c as int, rest)
  {
    var d := [DigitOf(c as int / 100), DigitOf(c as int / 10 % 10), DigitOf(c as int % 10)];
    ReadDigitsOver(d, rest, 0, 3);
    assert d[..2][..1] == [d[0]] && d[..2][..1][..0] == [];
    assert DigitsFrom(d[..1], 0) == c as int / 100;
    assert d[..2][..1] == d[..1];
    assert DigitsFrom(d[..2], 0) == c as int / 10;
  }

  lemma ReadEscape(c: Octet, rest: Text)
    ensures (EscapeOctet(c) + rest)[0] != '"'
    ensures ReadOctet(EscapeOctet(c) + rest) == Some((c, rest))
  {
    var t := EscapeOctet(c) + rest;
    if c == '"' || c == '\\' {
      assert t[1] == c && t[2..] == rest;
    } else if c as int < 32 || c as int > 126 {
      DecimalEscapeRead(c, rest);
      assert t[1..] == [DigitOf(c as int / 100), DigitOf(c as int / 10 % 10), DigitOf(c as int % 10)] + rest;
    } else {
      assert t[0] == c && t[1..] == rest;
    }
  }

  /** Every octet string survives quoting: delimiters, control bytes and non-ASCII included. */
  lemma {:induction false} ReadQuoted(s: Text, rest: Text)
    ensures ReadString(Escaped(s) + ['"'] + rest, '"') == Some((s, rest))
  {
    var t := Escaped(s) + ['"'] + rest;
    if s == [] {
      assert t[0] == '"' && t[1..] == rest;
    } else {
      var tail := Escaped(s[1..]) + ['"'] + rest;
      assert t == EscapeOctet(s[0]) + tail;
      ReadEscape(s[0], tail);
      ReadQuoted(s[1..], rest);
      assert [s[0]] + s[1..] == s;
    }
  }

  lemma ReadQuotedValue(s: Text, rest: Text)
    ensures ReadValue(Quoted(s) + rest) == Some((LuaString(s), rest))
  {
    ReadQuoted(s, rest);
    var t := Quoted(s) + rest;
    assert t[0] == '"' && t[1..] == Escaped(s) + ['"'] + rest;
  }

  lemma AfterName(value: Text)
    ensures SkipSpace(" = " + value) == "= " + value
    ensures SkipSpace(("= " + value)[1..]) == SkipSpace(value)
  {
    var beforeEqual: Text := "= " + value;
    assert " = " + value == " " + beforeEqual;
    SkipSpaceOver(" ", beforeEqual);
    assert beforeEqual[1..] == " " + value;
    SkipSpaceOver(" ", value);
  }

  /** One printed field is read, whatever its value text, once the value text is. */
  lemma FieldRead(name: Text, valueText: Text, value: LuaValue, rest: Text)
    requires Name(name)
    requires valueText != [] && !Space(valueText[0])
    requires ReadValue(valueText + ("," + rest)) == Some((value, "," + rest))
    ensures ReadField(name + " = " + valueText + "," + rest) == Some(((name, value), rest))
  {
    var separator: Text := "," + rest;
    var value' := valueText + separator;
    var afterName: Text := " = " + value';
    assert name + " = " + valueText + "," + rest == name + afterName;
    ReadNameOver(name, afterName);
    AfterName(value');
    assert value'[0] == valueText[0];
    assert SkipSpace(value') == value';
    assert SkipSpace(separator) == separator && separator[1..] == rest;
  }

  /** The fields in front of a tail, and then the fields of the tail. */
  ghost predicate ReadsAs(t: Text, fields: seq<Field>, tail: Text) {
    ReadFields(tail).Some? &&
    ReadFields(t) == Some((fields + ReadFields(tail).value.0, ReadFields(tail).value.1))
  }

  lemma ReadsAsStep(blank: Text, t: Text, field: Field, rest: Text, fields: seq<Field>, tail: Text)
    requires Blank(blank)
    requires t != [] && NameOctet(t[0])
    requires ReadField(t) == Some((field, rest))
    requires ReadsAs(rest, fields, tail)
    ensures ReadsAs(blank + t, [field] + fields, tail)
  {
    SkipSpaceOver(blank, t);
    assert SkipSpace(t) == t;
    var after := ReadFields(tail).value.0;
    assert [field] + fields + after == [field] + (fields + after);
  }

  function StringValues(fs: seq<(Text, Text)>): seq<Field> {
    if fs == [] then [] else [StringValue(fs[0])] + StringValues(fs[1..])
  }

  function NumberValues(fs: seq<(Text, int)>): seq<Field> {
    if fs == [] then [] else [(fs[0].0, LuaNumber(fs[0].1))] + NumberValues(fs[1..])
  }

  function StringItem(f: (Text, Text), rest: Text): Text {
    f.0 + " = " + Quoted(f.1) + "," + rest
  }

  function StringValue(f: (Text, Text)): Field {
    (f.0, LuaReader.LuaString(f.1))
  }

  lemma NumberStep(f: (Text, int), rest: Text)
    requires Name(f.0)
    ensures ReadField(f.0 + " = " + Decimal(f.1) + "," + rest) == Some(((f.0, LuaNumber(f.1)), rest))
  {
    ReadDecimal(f.1, "," + rest);
    FieldRead(f.0, Decimal(f.1), LuaNumber(f.1), rest);
  }

  lemma StringStep(f: (Text, Text), rest: Text)
    requires Name(f.0)
    ensures StringItem(f, rest) != [] && NameOctet(StringItem(f, rest)[0])
    ensures ReadField(StringItem(f, rest)) == Some((StringValue(f), rest))
  {
    ReadQuotedValue(f.1, "," + rest);
    FieldRead(f.0, Quoted(f.1), LuaReader.LuaString(f.1), rest);
  }

  lemma {:induction false} NumbersRead(fs: seq<(Text, int)>, tail: Text)
    requires forall i :: 0 <= i < |fs| ==> Name(fs[i].0)
    requires ReadFields(tail).Some?
    ensures ReadsAs(NumberText(fs) + tail, NumberValues(fs), tail)
  {
    if fs == [] {
      assert NumberText(fs) + tail == tail;
      assert [] + ReadFields(tail).value.0 == ReadFields(tail).value.0;
    } else {
      var rest := NumberText(fs[1..]) + tail;
      NumbersRead(fs[1..], tail);
      NumberStep(fs[0], rest);
      var t := fs[0].0 + " = " + Decimal(fs[0].1) + "," + rest;
      assert t[0] == fs[0].0[0];
      ReadsAsStep(" ", t, (fs[0].0, LuaNumber(fs[0].1)), rest, NumberValues(fs[1..]), tail);
      NumberTextHead(fs, tail);
    }
  }

  lemma NumberTextHead(fs: seq<(Text, int)>, tail: Text)
    requires fs != []
    ensures NumberText(fs) + tail == " " + (fs[0].0 + " = " + Decimal(fs[0].1) + "," + (NumberText(fs[1..]) + tail))
  {
  }

  lemma StringTextHead(fs: seq<(Text, Text)>, blank: Text, tail: Text)
    requires fs != []
    ensures blank + Unlines(FieldLines(fs)) + tail ==
            blank + "  " + StringItem(fs[0], "\n" + Unlines(FieldLines(fs[1..])) + tail)
  {
    var more := Unlines(FieldLines(fs[1..]));
    assert FieldLines(fs)[1..] == FieldLines(fs[1..]);
    assert Unlines(FieldLines(fs)) == FieldLine(fs[0]) + "\n" + more;
    Regroup(blank, fs[0].0 + " = " + Quoted(fs[0].1), more, tail);
  }

  lemma Regroup(blank: Text, body: Text, more: Text, tail: Text)
    ensures blank + ("  " + body + "," + "\n" + more) + tail ==
            blank + "  " + (body + "," + ("\n" + more + tail))
  {
  }

  lemma Nothing(blank: Text, tail: Text)
    requires Blank(blank) && ReadFields(tail).Some?
    ensures ReadsAs(blank + [] + tail, [], tail)
  {
    assert blank + [] + tail == blank + tail;
    SkipSpaceOver(blank, tail);
    assert [] + ReadFields(tail).value.0 == ReadFields(tail).value.0;
  }

  lemma {:induction false} StringsRead(fs: seq<(Text, Text)>, blank: Text, tail: Text)
    requires Blank(blank)
    requires forall i :: 0 <= i < |fs| ==> Name(fs[i].0)
    requires ReadFields(tail).Some?
    ensures ReadsAs(blank + Unlines(FieldLines(fs)) + tail, StringValues(fs), tail)
    decreases |fs|
  {
    if fs == [] {
      Nothing(blank, tail);
    } else {
      var rest := "\n" + Unlines(FieldLines(fs[1..])) + tail;
      StringsRead(fs[1..], "\n", tail);
      StringStep(fs[0], rest);
      ReadsAsStep(blank + "  ", StringItem(fs[0], rest), StringValue(fs[0]), rest, StringValues(fs[1..]), tail);
      StringTextHead(fs, blank, tail);
    }
  }

  // ------------------------------------------------------- the whole payload

  function StartValues(e: SlotEnvelope): seq<Field> {
    if e.startSlot == 0 then [] else [("startSlot", LuaNumber(e.startSlot))]
  }

  /** The table a payload assigns: startSlot is absent when it is zero. */
  function TableOf(e: SlotEnvelope): seq<Field> {
    StartValues(e) + StringValues(StringFields(e)) + NumberValues(NumberFields(e))
  }

  lemma NumberFieldNames(e: SlotEnvelope)
    ensures forall i :: 0 <= i < |NumberFields(e)| ==> Name(NumberFields(e)[i].0)
  {
  }

  lemma StringFieldNames(e: SlotEnvelope)
    ensures forall i :: 0 <= i < |StringFields(e)| ==> Name(StringFields(e)[i].0)
  {
  }

  const END: Text := "\n}\n"

  lemma EndRead()
    ensures ReadFields(END) == Some(([], "\n"))
  {
    SkipSpaceOver("\n", "}\n");
    assert END == "\n" + "}\n";
    assert SkipSpace("}\n") == "}\n";
    assert ("}\n")[1..] == "\n";
  }

  lemma BlankReadsAs(blank: Text, t: Text, fields: seq<Field>, tail: Text)
    requires Blank(blank) && ReadsAs(t, fields, tail)
    ensures ReadsAs(blank + t, fields, tail)
  {
    SkipSpaceOver(blank, t);
  }

  /** The last line and the closing brace. */
  lemma TrailerRead(e: SlotEnvelope)
    ensures ReadFields(LastLine(e) + END) == Some((NumberValues(NumberFields(e)), "\n"))
  {
    EndRead();
    NumberFieldNames(e);
    NumbersRead(NumberFields(e), END);
    BlankReadsAs(" ", NumberText(NumberFields(e)) + END, NumberValues(NumberFields(e)), END);
    assert LastLine(e) + END == " " + (NumberText(NumberFields(e)) + END);
    assert NumberValues(NumberFields(e)) + [] == NumberValues(NumberFields(e));
  }

  function BodyText(e: SlotEnvelope): Text {
    Unlines(FieldLines(StringFields(e))) + (LastLine(e) + END)
  }

  lemma BodyRead(e: SlotEnvelope)
    ensures ReadFields("\n" + BodyText(e)) ==
            Some((StringValues(StringFields(e)) + NumberValues(NumberFields(e)), "\n"))
  {
    TrailerRead(e);
    StringFieldNames(e);
    var fs, tail := StringFields(e), LastLine(e) + END;
    StringsRead(fs, "\n", tail);
    Regrouped("\n", Unlines(FieldLines(fs)), tail);
  }

  lemma NoStart(b: Text, fields: seq<Field>, more: seq<Field>)
    ensures "\n" + [] + b == "\n" + b
    ensures [] + fields + more == fields + more
  {
  }

  lemma StartRead(e: SlotEnvelope)
    ensures ReadFields("\n" + Unlines(StartLines(e)) + BodyText(e)) == Some((TableOf(e), "\n"))
  {
    var rest := "\n" + BodyText(e);
    var strings, numbers := StringValues(StringFields(e)), NumberValues(NumberFields(e));
    BodyRead(e);
    if e.startSlot == 0 {
      NoStart(BodyText(e), strings, numbers);
    } else {
      StartStep(e, rest);
      StartText(e);
      RegroupedFields(StartValues(e), strings, numbers);
    }
  }

  lemma RegroupedFields(a: seq<Field>, b: seq<Field>, c: seq<Field>)
    ensures a + b + c == a + (b + c)
  {
  }

  /** One printed number is read as one field. */
  lemma NumberAlone(blank: Text, f: (Text, int), rest: Text)
    requires Blank(blank) && Name(f.0) && f.0 != [] && NameOctet(f.0[0]) && ReadFields(rest).Some?
    ensures ReadsAs(blank + (f.0 + " = " + Decimal(f.1) + "," + rest), [(f.0, LuaNumber(f.1))], rest)
  {
    var t := f.0 + " = " + Decimal(f.1) + "," + rest;
    var field: Field := (f.0, LuaNumber(f.1));
    NumberStep(f, rest);
    assert t[0] == f.0[0];
    assert [] + ReadFields(rest).value.0 == ReadFields(rest).value.0;
    ReadsAsStep(blank, t, field, rest, [], rest);
    assert [field] + [] == [field];
  }

  lemma StartStep(e: SlotEnvelope, rest: Text)
    requires e.startSlot != 0 && ReadFields(rest).Some?
    ensures ReadsAs("\n  " + ("startSlot" + " = " + Decimal(e.startSlot) + "," + rest), StartValues(e), rest)
  {
    NumberAlone("\n  ", ("startSlot", e.startSlot), rest);
  }

  lemma StartText(e: SlotEnvelope)
    requires e.startSlot != 0
    ensures "\n" + Unlines(StartLines(e)) + BodyText(e) ==
            "\n  " + ("startSlot" + " = " + Decimal(e.startSlot) + "," + ("\n" + BodyText(e)))
  {
    var line := StartLines(e)[0];
    assert Unlines([line]) == line + "\n";
    assert line == "  " + ("startSlot" + " = " + Decimal(e.startSlot)) + ",";
    Regroup("\n", "startSlot" + " = " + Decimal(e.startSlot), [], BodyText(e));
    assert "\n" + Unlines(StartLines(e)) + BodyText(e) == "\n" + (line + "\n" + []) + BodyText(e);
    assert "\n" + [] + BodyText(e) == "\n" + BodyText(e);
  }

  lemma AssignmentRead(name: Text, rest: Text)
    requires Name(name)
    requires ReadFields(rest).Some? && SkipSpace(ReadFields(rest).value.1) == []
    ensures ReadChunk(name + (" = {" + rest)) == Some((name, ReadFields(rest).value.0))
  {
    var t := name + (" = {" + rest);
    assert t[0] == name[0];
    assert SkipSpace(t) == t;
    ReadNameOver(name, " = {" + rest);
    assert " = {" + rest == " " + ("= {" + rest);
    SkipSpaceOver(" ", "= {" + rest);
    assert ("= {" + rest)[1..] == " " + ("{" + rest);
    SkipSpaceOver(" ", "{" + rest);
    assert ("{" + rest)[1..] == rest;
  }

  const VARIABLE: Text := "LycheeDevSlotEnvelope"

  lemma HeaderRead(rest: Text)
    requires ReadFields(rest).Some? && SkipSpace(ReadFields(rest).value.1) == []
    ensures ReadChunk(OPENING + rest) == Some((VARIABLE, ReadFields(rest).value.0))
  {
    var name, brace: Text := VARIABLE, " = {";
    assert OPENING == name + brace;
    Regrouped(name, brace, rest);
    AssignmentRead(name, rest);
  }

  lemma Regrouped(a: Text, b: Text, c: Text)
    ensures a + b + c == a + (b + c)
  {
  }

  lemma Regrouped5(a: Text, b: Text, c: Text, d: Text, e: Text)
    ensures a + b + c + d + e == a + (b + c + (d + e))
  {
  }

  lemma LastText(e: SlotEnvelope)
    ensures LastLine(e) + "\n" + (CLOSING + "\n") == LastLine(e) + END
  {
    var last := LastLine(e);
    assert END == "\n" + (CLOSING + "\n");
    Regrouped(last, "\n", CLOSING + "\n");
  }

  lemma PayloadSplit(e: SlotEnvelope)
    ensures PayloadText(e) == OPENING + ("\n" + Unlines(StartLines(e)) + BodyText(e))
  {
    PayloadTextParts(e);
    LastText(e);
    Regrouped5(OPENING, "\n", Unlines(StartLines(e)), Unlines(FieldLines(StringFields(e))), LastLine(e) + END);
  }

  /** The printed text is one Lua assignment whose table holds exactly the envelope. */
  lemma PayloadRead(e: SlotEnvelope)
    ensures ReadChunk(PayloadText(e)) == Some((VARIABLE, TableOf(e)))
  {
    PayloadSplit(e);
    StartRead(e);
    assert SkipSpace("\n") == [];
    HeaderRead("\n" + Unlines(StartLines(e)) + BodyText(e));
  }

  // ----------------------------------------------------- back to an envelope

  function TextAt(table: seq<Field>, name: Text): Text {
    match Lookup(table, name)
    case Some(LuaString(s)) => s
    case _ => []
  }

  function NumberAt(table: seq<Field>, name: Text): int {
    match Lookup(table, name)
    case Some(LuaNumber(n)) => n
    case _ => 0
  }

  function EnvelopeOf(t: seq<Field>): SlotEnvelope {
    SlotEnvelope(
      TextAt(t, "schema"), NumberAt(t, "index"), NumberAt(t, "startSlot"), TextAt(t, "runtime"),
      TextAt(t, "owner"), NumberAt(t, "fence"), TextAt(t, "nonce"), TextAt(t, "ticket"),
      TextAt(t, "action"), TextAt(t, "guid"), TextAt(t, "build"), TextAt(t, "code"),
      NumberAt(t, "codeBytes"), NumberAt(t, "codeChecksum"), NumberAt(t, "budget"),
      TextAt(t, "challenge"), TextAt(t, "preparedNonce"), NumberAt(t, "reportBytes"),
      NumberAt(t, "reportChecksum"))
  }

  /** What a Lua 5.1 client sees after running a payload file. */
  function ReadEnvelope(t: Text): Option<SlotEnvelope> {
    match ReadChunk(t)
    case Some((name, table)) => if name == VARIABLE then Some(EnvelopeOf(table)) else None
    case None => None
  }

  /** Tells the printed names apart. */
  function Signature(name: Text): int {
    if |name| < 2 then 0 else |name| * 65536 + name[0] as int * 256 + name[1] as int
  }

  lemma {:induction false} LookupSigned(table: seq<Field>, i: nat)
    requires i < |table|
    requires forall j :: i < j < |table| ==> Signature(table[j].0) != Signature(table[i].0)
    ensures Lookup(table, table[i].0) == Some(table[i].1)
    decreases |table|
  {
    if i < |table| - 1 {
      var front := table[..|table| - 1];
      assert front[i] == table[i];
      LookupSigned(front, i);
      assert Signature(table[|table| - 1].0) != Signature(table[i].0);
    }
  }

  lemma {:induction false} LookupAbsent(table: seq<Field>, name: Text)
    requires forall j :: 0 <= j < |table| ==> Signature(table[j].0) != Signature(name)
    ensures Lookup(table, name) == None
  {
    if table != [] {
      LookupAbsent(table[..|table| - 1], name);
      assert Signature(table[|table| - 1].0) != Signature(name);
    }
  }

  const SIGNATURES: seq<int> := [
    SigOf(6, 's', 'c'), SigOf(7, 'r', 'u'), SigOf(5, 'o', 'w'), SigOf(5, 'n', 'o'), SigOf(6, 't', 'i'),
    SigOf(6, 'a', 'c'), SigOf(4, 'g', 'u'), SigOf(5, 'b', 'u'), SigOf(4, 'c', 'o'), SigOf(9, 'c', 'h'),
    SigOf(13, 'p', 'r'), SigOf(5, 'i', 'n'), SigOf(5, 'f', 'e'), SigOf(9, 'c', 'o'), SigOf(12, 'c', 'o'),
    SigOf(6, 'b', 'u'), SigOf(11, 'r', 'e'), SigOf(14, 'r', 'e')]

  function SigOf(length: nat, first: char, second: char): int {
    length * 65536 + first as int * 256 + second as int
  }

  function Values(e: SlotEnvelope): seq<Field> {
    StringValues(StringFields(e)) + NumberValues(NumberFields(e))
  }

  lemma ValueSignatures(e: SlotEnvelope)
    ensures |Values(e)| == 18
    ensures forall i :: 0 <= i < 18 ==> Signature(Values(e)[i].0) == SIGNATURES[i]
  {
    StringValuesAre(StringFields(e));
    NumberValuesAre(NumberFields(e));
  }

  lemma {:induction false} StringValuesAre(fs: seq<(Text, Text)>)
    ensures |StringValues(fs)| == |fs|
    ensures forall i :: 0 <= i < |fs| ==> StringValues(fs)[i] == StringValue(fs[i])
  {
    if fs != [] { StringValuesAre(fs[1..]); }
  }

  lemma {:induction false} NumberValuesAre(fs: seq<(Text, int)>)
    ensures |NumberValues(fs)| == |fs|
    ensures forall i :: 0 <= i < |fs| ==> NumberValues(fs)[i] == (fs[i].0, LuaNumber(fs[i].1))
  {
    if fs != [] { NumberValuesAre(fs[1..]); }
  }

  lemma SignaturesDistinct()
    ensures forall i, j :: 0 <= i < j < 18 ==> SIGNATURES[i] != SIGNATURES[j]
  {
  }

  lemma TableLookup(e: SlotEnvelope, i: nat)
    requires i < 18
    ensures |Values(e)| == 18
    ensures Lookup(TableOf(e), Values(e)[i].0) == Some(Values(e)[i].1)
  {
    ValueSignatures(e);
    SignaturesDistinct();
    var start := StartValues(e);
    var table := start + Values(e);
    RegroupedFields(start, StringValues(StringFields(e)), NumberValues(NumberFields(e)));
    assert table[|start| + i] == Values(e)[i];
    forall j | |start| + i < j < |table|
      ensures Signature(table[j].0) != Signature(table[|start| + i].0)
    {
      assert table[j] == Values(e)[j - |start|];
    }
    LookupSigned(table, |start| + i);
  }

  lemma TextLookup(e: SlotEnvelope, i: nat)
    requires i < 11
    ensures TextAt(TableOf(e), StringFields(e)[i].0) == StringFields(e)[i].1
  {
    TableLookup(e, i);
    StringValuesAre(StringFields(e));
    assert Values(e)[i] == StringValue(StringFields(e)[i]);
  }

  lemma NumberLookup(e: SlotEnvelope, i: nat)
    requires i < 7
    ensures NumberAt(TableOf(e), NumberFields(e)[i].0) == NumberFields(e)[i].1
  {
    TableLookup(e, 11 + i);
    StringValuesAre(StringFields(e));
    NumberValuesAre(NumberFields(e));
    assert Values(e)[11 + i] == NumberValues(NumberFields(e))[i];
  }

  lemma StartLookup(e: SlotEnvelope)
    ensures NumberAt(TableOf(e), "startSlot") == e.startSlot
  {
    ValueSignatures(e);
    var start := StartValues(e);
    var table := start + Values(e);
    RegroupedFields(start, StringValues(StringFields(e)), NumberValues(NumberFields(e)));
    assert Signature("startSlot") == SigOf(9, 's', 't');
    forall j | |start| <= j < |table|
      ensures Signature(table[j].0) != Signature("startSlot")
    {
      assert table[j] == Values(e)[j - |start|];
    }
    if e.startSlot == 0 {
      LookupAbsent(table, "startSlot");
    } else {
      assert table[0] == ("startSlot", LuaNumber(e.startSlot));
      LookupSigned(table, 0);
    }
  }

  lemma EnvelopeTexts(e: SlotEnvelope)
    ensures var r := EnvelopeOf(TableOf(e));
            r.schema == e.schema && r.runtime == e.runtime && r.owner == e.owner && r.nonce == e.nonce &&
            r.ticket == e.ticket && r.action == e.action && r.guid == e.guid && r.build == e.build &&
            r.code == e.code && r.challenge == e.challenge && r.preparedNonce == e.preparedNonce
  {
    TextLookup(e, 0); TextLookup(e, 1); TextLookup(e, 2); TextLookup(e, 3); TextLookup(e, 4); TextLookup(e, 5);
    TextLookup(e, 6); TextLookup(e, 7); TextLookup(e, 8); TextLookup(e, 9); TextLookup(e, 10);
  }

  lemma EnvelopeNumbers(e: SlotEnvelope)
    ensures var r := EnvelopeOf(TableOf(e));
            r.index == e.index && r.fence == e.fence && r.codeBytes == e.codeBytes &&
            r.codeChecksum == e.codeChecksum && r.budget == e.budget && r.reportBytes == e.reportBytes &&
            r.reportChecksum == e.reportChecksum && r.startSlot == e.startSlot
  {
    NumberLookup(e, 0); NumberLookup(e, 1); NumberLookup(e, 2); NumberLookup(e, 3);
    NumberLookup(e, 4); NumberLookup(e, 5); NumberLookup(e, 6);
    StartLookup(e);
  }

  /** Whatever octets the fields hold, a Lua reading of the printed payload is the
      envelope with its code length and checksum derived. */
  lemma RoundTrip(e: SlotEnvelope)
    requires Payload(e).Ok?
    ensures ReadEnvelope(Payload(e).value) == Some(Derived(e))
  {
    PayloadRead(Derived(e));
    EnvelopeTexts(Derived(e));
    EnvelopeNumbers(Derived(e));
  }

  /** Two admissible envelopes print the same bytes exactly when they agree once
      code length and checksum are derived from non-empty code. */
  lemma PrintingInjective(e: SlotEnvelope, f: SlotEnvelope)
    requires Payload(e).Ok? && Payload(f).Ok?
    ensures Payload(e) == Payload(f) <==> Derived(e) == Derived(f)
  {
    RoundTrip(e);
    RoundTrip(f);
  }
}
