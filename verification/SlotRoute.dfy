/** The route check over the bytes of intermediate slots (internal/delivery/slot_route.go). */
module SlotRoute {
  import opened Wrappers
  import opened Texts
  import opened SlotPayload

  const ACTIONS: seq<Text> := ["bind", "prepare", "commit", "confirm", "release", "unbind"]

  datatype RouteResult = Clear | InvalidRoute | Unreadable(slot: nat) | Blocked(slot: nat)

  // ------------------------------------------------ the two line expressions

  const RUNTIME_HEAD: Text := "  runtime = \""
  const LINE_TAIL: Text := "\","

  /** (?m)^  runtime = "([0-9a-f]{32})",$ on one line: the capture. */
  function RuntimeCapture(line: Text): Option<Text> {
    if |line| == |RUNTIME_HEAD| + 34 && line[..|RUNTIME_HEAD|] == RUNTIME_HEAD &&
       Token(line[|RUNTIME_HEAD|..|RUNTIME_HEAD| + 32]) && line[|RUNTIME_HEAD| + 32..] == LINE_TAIL
    then Some(line[|RUNTIME_HEAD|..|RUNTIME_HEAD| + 32])
    else None
  }

  /** All captures, in order. */
  function RuntimeCaptures(lines: seq<Text>): seq<Text> {
    if lines == [] then []
    else
      (match RuntimeCapture(lines[0]) case Some(r) => [r] case None => []) + RuntimeCaptures(lines[1..])
  }

  function ActionText(action: Text): Text {
    "  action = \"" + action + LINE_TAIL
  }

  /** (?m)^  action = "(bind|...|unbind)",$ on some line. */
  predicate ActionMatches(lines: seq<Text>) {
    exists i, a :: 0 <= i < |lines| && 0 <= a < |ACTIONS| && lines[i] == ActionText(ACTIONS[a])
  }

  function SchemaNeedle(): Text {
    "  schema = \"" + SLOT_SCHEMA + "\",\n"
  }

  function IndexNeedle(slot: nat): Text {
    "  index = " + Decimal(slot) + ", fence = "
  }

  /** The file is neither inert nor a recognised payload of another runtime. */
  predicate BlocksRoute(b: Text, slot: nat, runtime: Text) {
    var captures := RuntimeCaptures(Lines(b));
    b != INERT &&
    (|captures| != 1 || captures[0] == runtime || !Contains(b, SchemaNeedle()) ||
     !Contains(b, IndexNeedle(slot)) || !ActionMatches(Lines(b)))
  }

  function StartOf(e: SlotEnvelope): int {
    if e.startSlot == 0 then e.index else e.startSlot
  }

  predicate RouteShape(e: SlotEnvelope) {
    1 <= StartOf(e) <= e.index <= SLOT_COUNT && (StartOf(e) == e.index || e.schema == SLOT_SCHEMA)
  }

  /** None for an unreadable file, otherwise whether it blocks the route. */
  function Verdict(payload: Option<Text>, slot: nat, runtime: Text): Option<bool> {
    match payload
    case None => None
    case Some(b) => Some(BlocksRoute(b, slot, runtime))
  }

  /** Slot i's payload file is payloads[i - 1]. */
  function Verdicts(payloads: seq<Option<Text>>, runtime: Text): (v: seq<Option<bool>>)
    ensures |v| == |payloads|
    ensures forall k :: 0 <= k < |v| ==> v[k] == Verdict(payloads[k], k + 1, runtime)
  {
    seq(|payloads|, k requires 0 <= k < |payloads| => Verdict(payloads[k], k + 1, runtime))
  }

  function FirstProblem(verdicts: seq<Option<bool>>, i: nat, end: int): RouteResult
    requires 1 <= i && end <= |verdicts|
    decreases end - i
  {
    if i >= end then Clear
    else
      match verdicts[i - 1]
      case None => Unreadable(i)
      case Some(blocks) => if blocks then Blocked(i) else FirstProblem(verdicts, i + 1, end)
  }

  function Route(payloads: seq<Option<Text>>, e: SlotEnvelope): RouteResult
    requires |payloads| == SLOT_COUNT
  {
    if !RouteShape(e) then InvalidRoute
    else FirstProblem(Verdicts(payloads, e.runtime), StartOf(e), e.index)
  }

  method VerifySlotRoute(payloads: seq<Option<Text>>, e: SlotEnvelope) returns (r: RouteResult)
    requires |payloads| == SLOT_COUNT
    ensures r == Route(payloads, e)
  {
    var start := e.startSlot;
    if start == 0 {
      start := e.index;
    }
    if start < 1 || start > e.index || e.index > SLOT_COUNT || (start != e.index && e.schema != SLOT_SCHEMA) {
      return InvalidRoute;
    }
    ghost var verdicts := Verdicts(payloads, e.runtime);
    for i := start to e.index
      invariant Route(payloads, e) == FirstProblem(verdicts, i, e.index)
    {
      assert verdicts[i - 1] == Verdict(payloads[i - 1], i, e.runtime);
      if payloads[i - 1].None? {
        return Unreadable(i);
      }
      var b := payloads[i - 1].value;
      if b == INERT {
        continue;
      }
      var lines := Lines(b);
      var matches := RuntimeCaptures(lines);
      if |matches| != 1 || matches[0] == e.runtime || !Contains(b, SchemaNeedle()) ||
         !Contains(b, IndexNeedle(i)) || !ActionMatches(lines) {
        return Blocked(i);
      }
    }
    return Clear;
  }

  // ---------------------------------------------------------- printed lines

  lemma {:induction false} NumeralPlain(n: nat)
    ensures '\n' !in Numeral(n)
  {
    if n >= 10 { NumeralPlain(n / 10); }
  }

  lemma {:induction false} NumberTextPlain(fs: seq<(Text, int)>)
    requires forall i :: 0 <= i < |fs| ==> '\n' !in fs[i].0
    ensures '\n' !in NumberText(fs)
  {
    if fs != [] {
      if fs[0].1 < 0 { NumeralPlain(-fs[0].1); } else { NumeralPlain(fs[0].1); }
      NumberTextPlain(fs[1..]);
    }
  }

  lemma FieldLinePlain(f: (Text, Text))
    requires '\n' !in f.0
    ensures '\n' !in FieldLine(f)
  {
  }

  lemma StringNamesPlain(e: SlotEnvelope)
    ensures forall i :: 0 <= i < |StringFields(e)| ==> '\n' !in StringFields(e)[i].0
  {
  }

  lemma NumberNamesPlain(e: SlotEnvelope)
    ensures forall i :: 0 <= i < |NumberFields(e)| ==> '\n' !in NumberFields(e)[i].0
  {
  }

  ghost predicate Plain(lines: seq<Text>) {
    forall i :: 0 <= i < |lines| ==> '\n' !in lines[i]
  }

  lemma StringLinesPlain(e: SlotEnvelope)
    ensures Plain(FieldLines(StringFields(e)))
  {
    StringNamesPlain(e);
    var fs := StringFields(e);
    forall i | 0 <= i < |fs|
      ensures '\n' !in FieldLines(fs)[i]
    {
      FieldLinePlain(fs[i]);
    }
  }

  lemma StartLinesPlain(e: SlotEnvelope)
    ensures Plain(StartLines(e))
  {
    if e.startSlot < 0 { NumeralPlain(-e.startSlot); } else { NumeralPlain(e.startSlot); }
  }

  lemma LastLinesPlain(e: SlotEnvelope)
    ensures Plain([LastLine(e), CLOSING])
  {
    NumberNamesPlain(e);
    NumberTextPlain(NumberFields(e));
  }

  /** No field value can open a new line. */
  lemma PayloadLinesPlain(e: SlotEnvelope)
    ensures Plain(PayloadLines(e))
  {
    StringLinesPlain(e);
    StartLinesPlain(e);
    LastLinesPlain(e);
    var strings, starts, last := FieldLines(StringFields(e)), StartLines(e), [LastLine(e), CLOSING];
    assert Plain([OPENING]);
    PlainParts([OPENING], starts, strings, last);
  }

  lemma PlainParts(a: seq<Text>, b: seq<Text>, c: seq<Text>, d: seq<Text>)
    requires Plain(a) && Plain(b) && Plain(c) && Plain(d)
    ensures Plain(a + b + c + d)
  {
  }

  // ----------------------------------------------------- one runtime line

  lemma {:induction false} CapturesAppend(a: seq<Text>, b: seq<Text>)
    ensures RuntimeCaptures(a + b) == RuntimeCaptures(a) + RuntimeCaptures(b)
  {
    if a == [] {
      assert a + b == b;
    } else {
      assert (a + b)[1..] == a[1..] + b;
      CapturesAppend(a[1..], b);
    }
  }

  lemma CapturedThird(line: Text)
    ensures RuntimeCapture(line).Some? ==> |line| > 2 && line[2] == 'r'
  {
    if RuntimeCapture(line).Some? {
      assert RUNTIME_HEAD[2] == line[..|RUNTIME_HEAD|][2] == line[2];
    }
  }

  lemma {:induction false} NoCapture(lines: seq<Text>)
    requires forall i :: 0 <= i < |lines| ==> |lines[i]| <= 2 || lines[i][2] != 'r'
    ensures RuntimeCaptures(lines) == []
  {
    if lines != [] {
      NoCapture(lines[1..]);
      CapturedThird(lines[0]);
    }
  }

  lemma {:induction false} HexEscapes(s: Text)
    requires forall i :: 0 <= i < |s| ==> HexDigit(s[i])
    ensures Escaped(s) == s
  {
    if s != [] { HexEscapes(s[1..]); }
  }

  lemma CaptureBetween(runtime: Text)
    requires Token(runtime)
    ensures RuntimeCapture(RUNTIME_HEAD + runtime + LINE_TAIL) == Some(runtime)
  {
    var line := RUNTIME_HEAD + runtime + LINE_TAIL;
    assert line[..|RUNTIME_HEAD|] == RUNTIME_HEAD;
    assert line[|RUNTIME_HEAD|..|RUNTIME_HEAD| + 32] == runtime;
    assert line[|RUNTIME_HEAD| + 32..] == LINE_TAIL;
  }

  /** A line whose value needs no escapes is the name and value between quotes. */
  lemma HexFieldLine(name: Text, value: Text)
    requires Escaped(value) == value
    ensures FieldLine((name, value)) == "  " + name + " = \"" + value + LINE_TAIL
  {
  }

  lemma RuntimeLineCaptured(runtime: Text)
    requires Token(runtime)
    ensures RuntimeCapture(FieldLine(("runtime", runtime))) == Some(runtime)
  {
    HexEscapes(runtime);
    HexFieldLine("runtime", runtime);
    assert "  " + "runtime" + " = \"" == RUNTIME_HEAD;
    CaptureBetween(runtime);
  }

  lemma FieldLineInitial(f: (Text, Text))
    requires f.0 != []
    ensures |FieldLine(f)| > 2 && FieldLine(f)[2] == f.0[0]
  {
  }

  lemma {:induction false} NamedLinesCaptured(fs: seq<(Text, Text)>)
    requires forall i :: 0 <= i < |fs| ==> fs[i].0 != [] && fs[i].0[0] != 'r'
    ensures RuntimeCaptures(FieldLines(fs)) == []
  {
    var ls := FieldLines(fs);
    forall i | 0 <= i < |ls|
      ensures |ls[i]| > 2 && ls[i][2] != 'r'
    {
      FieldLineInitial(fs[i]);
    }
    NoCapture(ls);
  }

  lemma CaptureInMiddle(a: seq<Text>, line: Text, c: seq<Text>, runtime: Text)
    requires RuntimeCaptures(a) == [] && RuntimeCaptures(c) == []
    requires RuntimeCapture(line) == Some(runtime)
    ensures RuntimeCaptures(a + ([line] + c)) == [runtime]
  {
    CapturesAppend(a, [line] + c);
    assert ([line] + c)[1..] == c;
  }

  lemma StringLinesParts(e: SlotEnvelope)
    ensures var fs := StringFields(e);
            FieldLines(fs) == FieldLines(fs[..1]) + ([FieldLine(("runtime", e.runtime))] + FieldLines(fs[2..]))
  {
    var fs := StringFields(e);
    assert fs[1] == ("runtime", e.runtime);
  }

  lemma StringLinesCaptured(e: SlotEnvelope)
    requires Token(e.runtime)
    ensures RuntimeCaptures(FieldLines(StringFields(e))) == [e.runtime]
  {
    var fs := StringFields(e);
    NamedLinesCaptured(fs[..1]);
    NamedLinesCaptured(fs[2..]);
    RuntimeLineCaptured(e.runtime);
    StringLinesParts(e);
    CaptureInMiddle(FieldLines(fs[..1]), FieldLine(("runtime", e.runtime)), FieldLines(fs[2..]), e.runtime);
  }

  lemma EdgeLines(e: SlotEnvelope)
    ensures RuntimeCaptures([OPENING] + StartLines(e)) == []
    ensures RuntimeCaptures([LastLine(e), CLOSING, []]) == []
  {
    assert OPENING[2] == 'c';
    if e.startSlot != 0 {
      assert StartLines(e)[0][2] == 's';
    }
    NoCapture([OPENING] + StartLines(e));
    assert NumberFields(e)[0].0[0] == 'i';
    assert NumberText(NumberFields(e))[1] == 'i';
    assert LastLine(e)[2] == 'i';
    NoCapture([LastLine(e), CLOSING, []]);
  }

  /** A printed payload has exactly one line the runtime expression matches, and it
      captures the envelope's runtime, whatever code or other fields hold. */
  lemma OneRuntimeLine(e: SlotEnvelope)
    requires Token(e.runtime)
    ensures RuntimeCaptures(Lines(PayloadText(e))) == [e.runtime]
  {
    PayloadLinesPlain(e);
    LinesOfUnlines(PayloadLines(e));
    var head, strings, last := [OPENING] + StartLines(e), FieldLines(StringFields(e)), [LastLine(e), CLOSING, []];
    assert PayloadLines(e) + [[]] == head + (strings + last);
    CapturesAppend(head, strings + last);
    CapturesAppend(strings, last);
    StringLinesCaptured(e);
    EdgeLines(e);
  }

  // ------------------------------------------------------- the other checks

  lemma {:induction false} LineInside(lines: seq<Text>, i: nat)
    requires i < |lines|
    ensures Contains(Unlines(lines), lines[i] + "\n")
  {
    var before, after := Unlines(lines[..i]), Unlines(lines[i + 1..]);
    UnlinesAppend(lines[..i + 1], lines[i + 1..]);
    UnlinesNext(lines, i);
    assert lines[..i + 1] + lines[i + 1..] == lines;
    ContainsMiddle(before, lines[i] + "\n", after);
  }

  lemma LineEnd(head: Text, value: Text)
    ensures head + value + LINE_TAIL + "\n" == head + value + "\",\n"
  {
    assert LINE_TAIL + "\n" == "\",\n";
    assert head + value + LINE_TAIL + "\n" == head + value + (LINE_TAIL + "\n");
  }

  lemma SchemaLine(schema: Text)
    requires Escaped(schema) == schema
    ensures FieldLine(("schema", schema)) + "\n" == "  schema = \"" + schema + "\",\n"
  {
    HexFieldLine("schema", schema);
    var head: Text := "  schema = \"";
    assert "  " + "schema" + " = \"" == head;
    LineEnd(head, schema);
  }

  lemma {:induction false} PrintableEscapes(s: Text)
    requires forall i :: 0 <= i < |s| ==> 32 <= s[i] as int <= 126 && s[i] != '"' && s[i] != '\\'
    ensures Escaped(s) == s
  {
    if s != [] { PrintableEscapes(s[1..]); }
  }

  lemma SchemaPlain()
    ensures Escaped(SLOT_SCHEMA) == SLOT_SCHEMA
  {
    PrintableEscapes(SLOT_SCHEMA);
  }

  lemma FieldPosition(e: SlotEnvelope, i: nat)
    requires i < 11
    ensures |PayloadLines(e)| == |StartLines(e)| + 14
    ensures PayloadLines(e)[|StartLines(e)| + 1 + i] == FieldLine(StringFields(e)[i])
    ensures PayloadLines(e)[|StartLines(e)| + 12] == LastLine(e)
  {
  }

  lemma FieldInside(e: SlotEnvelope, i: nat)
    requires i < 11
    ensures Contains(PayloadText(e), FieldLine(StringFields(e)[i]) + "\n")
  {
    FieldPosition(e, i);
    LineInside(PayloadLines(e), |StartLines(e)| + 1 + i);
  }

  lemma SchemaFound(e: SlotEnvelope)
    requires e.schema == SLOT_SCHEMA
    ensures Contains(PayloadText(e), SchemaNeedle())
  {
    FieldInside(e, 0);
    SchemaPlain();
    SchemaLine(e.schema);
  }

  lemma LastLineText(e: SlotEnvelope)
    ensures LastLine(e) ==
            " " + (" " + "index" + " = " + Decimal(e.index) + "," +
                   (" " + "fence" + " = " + Decimal(e.fence) + "," + NumberText(NumberFields(e)[2..])))
  {
    var fs := NumberFields(e);
    assert fs[1..][1..] == fs[2..];
    assert NumberText(fs[1..]) == " " + "fence" + " = " + Decimal(e.fence) + "," + NumberText(fs[1..][1..]);
  }

  lemma IndexLine(e: SlotEnvelope)
    requires e.index >= 0
    ensures Contains(LastLine(e) + "\n", IndexNeedle(e.index))
  {
    LastLineText(e);
    var rest := NumberText(NumberFields(e)[2..]);
    var more: Text := Decimal(e.fence) + "," + rest + "\n";
    IndexText(Decimal(e.index), Decimal(e.fence), rest);
    PrefixContained(IndexNeedle(e.index), more);
  }

  lemma PrefixContained(needle: Text, more: Text)
    ensures Contains(needle + more, needle)
  {
    ContainsMiddle([], needle, more);
    assert [] + needle + more == needle + more;
  }

  lemma IndexText(index: Text, fence: Text, rest: Text)
    ensures " " + (" " + "index" + " = " + index + "," + (" " + "fence" + " = " + fence + "," + rest)) + "\n" ==
            "  index = " + index + ", fence = " + (fence + "," + rest + "\n")
  {
  }

  lemma IndexFound(e: SlotEnvelope)
    requires e.index >= 0
    ensures Contains(PayloadText(e), IndexNeedle(e.index))
  {
    FieldPosition(e, 0);
    var ls, i := PayloadLines(e), |StartLines(e)| + 12;
    UnlinesAppend(ls[..i + 1], ls[i + 1..]);
    UnlinesNext(ls, i);
    assert ls[..i + 1] + ls[i + 1..] == ls;
    IndexLine(e);
    ContainsMore(Unlines(ls[..i]), LastLine(e) + "\n", Unlines(ls[i + 1..]), IndexNeedle(e.index));
  }

  lemma ActionsPlain(a: nat)
    requires a < |ACTIONS|
    ensures Escaped(ACTIONS[a]) == ACTIONS[a]
  {
    PrintableEscapes(ACTIONS[a]);
  }

  lemma ActionLine(a: nat)
    requires a < |ACTIONS|
    ensures FieldLine(("action", ACTIONS[a])) == ActionText(ACTIONS[a])
  {
    ActionsPlain(a);
    KnownActionLine(ACTIONS[a]);
  }

  lemma KnownActionLine(action: Text)
    requires Escaped(action) == action
    ensures FieldLine(("action", action)) == ActionText(action)
  {
    HexFieldLine("action", action);
    assert "  " + "action" + " = \"" == "  action = \"";
  }

  lemma ActionFound(e: SlotEnvelope)
    requires e.action in ACTIONS
    ensures ActionMatches(Lines(PayloadText(e)))
  {
    var a :| 0 <= a < |ACTIONS| && ACTIONS[a] == e.action;
    ActionLine(a);
    var ls := PayloadLines(e);
    PayloadLinesPlain(e);
    LinesOfUnlines(ls);
    ActionPosition(e);
    assert (ls + [[]])[|StartLines(e)| + 6] == ActionText(ACTIONS[a]);
  }

  lemma ActionPosition(e: SlotEnvelope)
    ensures |PayloadLines(e)| == |StartLines(e)| + 14
    ensures PayloadLines(e)[|StartLines(e)| + 6] == FieldLine(("action", e.action))
  {
    FieldPosition(e, 5);
  }

  lemma NeverInert(e: SlotEnvelope)
    ensures PayloadText(e) != INERT
  {
    assert PayloadText(e) == OPENING + "\n" + Unlines(PayloadLines(e)[1..]);
    assert PayloadText(e)[24] == OPENING[24] == '{';
    assert INERT[24] == 'n';
  }

  /** A printed payload of a known action blocks exactly the runtime it carries. */
  lemma PrintedBlocks(e: SlotEnvelope, runtime: Text)
    requires Payload(e).Ok? && e.action in ACTIONS
    ensures BlocksRoute(Payload(e).value, e.index, runtime) <==> e.runtime == runtime
  {
    var d := Derived(e);
    OneRuntimeLine(d);
    SchemaFound(d);
    IndexFound(d);
    ActionFound(d);
    NeverInert(d);
  }

  /** Every file before the destination is inert or the printed payload of a known action. */
  ghost predicate RouteOfPrinted(payloads: seq<Option<Text>>, start: int, end: int, printed: map<int, SlotEnvelope>)
    requires |payloads| == SLOT_COUNT
  {
    forall i :: 1 <= start <= i < end <= SLOT_COUNT ==>
      if i in printed then
        Payload(printed[i]).Ok? && printed[i].index == i && printed[i].action in ACTIONS &&
        payloads[i - 1] == Some(Payload(printed[i]).value)
      else payloads[i - 1] == Some(INERT)
  }

  ghost predicate Open(verdicts: seq<Option<bool>>, slot: int)
    requires 1 <= slot <= |verdicts|
  {
    verdicts[slot - 1] == Some(false)
  }

  /** The loop succeeds exactly when every intermediate slot passes. */
  lemma {:induction false} ClearExact(verdicts: seq<Option<bool>>, i: nat, end: int)
    requires 1 <= i && end <= |verdicts|
    ensures FirstProblem(verdicts, i, end) == Clear <==> forall k :: i <= k < end ==> Open(verdicts, k)
    decreases end - i
  {
    if i < end {
      ClearExact(verdicts, i + 1, end);
      assert !Open(verdicts, i) ==> FirstProblem(verdicts, i, end) != Clear;
    }
  }

  lemma VerdictExact(payloads: seq<Option<Text>>, start: int, end: int, k: int, runtime: Text,
                     printed: map<int, SlotEnvelope>)
    requires |payloads| == SLOT_COUNT && 1 <= start <= k < end <= SLOT_COUNT
    requires RouteOfPrinted(payloads, start, end, printed)
    ensures Verdicts(payloads, runtime)[k - 1] == Some(k in printed && printed[k].runtime == runtime)
  {
    if k in printed {
      PrintedBlocks(printed[k], runtime);
    }
  }

  /** Over inert and printed slots the check succeeds exactly when no intermediate
      slot carries the caller's runtime. */
  lemma RouteExact(payloads: seq<Option<Text>>, e: SlotEnvelope, printed: map<int, SlotEnvelope>)
    requires |payloads| == SLOT_COUNT && RouteShape(e)
    requires RouteOfPrinted(payloads, StartOf(e), e.index, printed)
    ensures Route(payloads, e) == Clear <==>
            forall k :: StartOf(e) <= k < e.index && k in printed ==> printed[k].runtime != e.runtime
  {
    var verdicts := Verdicts(payloads, e.runtime);
    ClearExact(verdicts, StartOf(e), e.index);
    forall k | StartOf(e) <= k < e.index
      ensures Open(verdicts, k) <==> !(k in printed && printed[k].runtime == e.runtime)
    {
      VerdictExact(payloads, StartOf(e), e.index, k, e.runtime, printed);
    }
  }
}
