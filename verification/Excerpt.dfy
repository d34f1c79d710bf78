/** Numbered source lines and the resumable excerpt over them
    (internal/codebase/document_lines.go and contextExcerpt in context.go). */
module Excerpt {
  import opened Wrappers
  import opened Texts
  import opened Utf8

  // ------------------------------------------------------------------ line index

  function LineEnd(data: Text, starts: seq<nat>, k: nat): int
    requires k < |starts|
  {
    if k + 1 < |starts| then starts[k + 1] - 1 else |data|
  }

  /** The k-th entry delimits the k-th line. */
  predicate EntryIndexed(data: Text, starts: seq<nat>, k: nat)
    requires k < |starts| && |starts| == |Lines(data)|
  {
    starts[k] <= LineEnd(data, starts, k) <= |data| && data[starts[k]..LineEnd(data, starts, k)] == Lines(data)[k]
  }

  predicate Indexed(data: Text, starts: seq<nat>) {
    |starts| == |Lines(data)| && forall k :: 0 <= k < |starts| ==> EntryIndexed(data, starts, k)
  }

  lemma EndsLonger(a: Octet, rest: seq<Text>, c: Octet)
    requires rest != []
    ensures var n := |rest|;
            var longer := rest[..n - 1] + [rest[n - 1] + [c]];
            var broken, ended := [[]] + rest, [[a] + rest[0]] + rest[1..];
            && [[]] + longer == broken[..n] + [broken[n] + [c]]
            && [[a] + longer[0]] + longer[1..] == ended[..n - 1] + [ended[n - 1] + [c]]
  {
    if |rest| == 1 {
      assert [a] + (rest[0] + [c]) == ([a] + rest[0]) + [c];
    }
  }

  lemma {:induction false} LinesAppend(s: Text, c: Octet)
    ensures var lines, n := Lines(s), |Lines(s)|;
            Lines(s + [c]) == if c == '\n' then lines + [[]] else lines[..n - 1] + [lines[n - 1] + [c]]
    decreases |s|
  {
    if s == [] {
      assert s + [c] == [c] && [c][1..] == [] && Lines([]) == [[]];
      assert [c] + [] == [c] && [] + [c] == [c];
    } else {
      assert (s + [c])[0] == s[0] && (s + [c])[1..] == s[1..] + [c];
      LinesAppend(s[1..], c);
      var rest, n := Lines(s[1..]), |Lines(s[1..])|;
      if c == '\n' {
        assert [[]] + (rest + [[]]) == ([[]] + rest) + [[]];
        assert (rest + [[]])[0] == rest[0] && (rest + [[]])[1..] == rest[1..] + [[]];
        assert [[s[0]] + rest[0]] + (rest[1..] + [[]]) == ([[s[0]] + rest[0]] + rest[1..]) + [[]];
      } else {
        EndsLonger(s[0], rest, c);
      }
    }
  }

  lemma IndexNext(data: Text, starts: seq<nat>, c: Octet)
    requires Indexed(data, starts)
    ensures Indexed(data + [c], if c == '\n' then starts + [|data| + 1] else starts)
  {
    var next := if c == '\n' then starts + [|data| + 1] else starts;
    var whole := data + [c];
    LinesAppend(data, c);
    forall k | 0 <= k < |next|
      ensures EntryIndexed(whole, next, k)
    {
      if k < |starts| {
        assert EntryIndexed(data, starts, k);
        assert whole[starts[k]..LineEnd(data, starts, k)] == data[starts[k]..LineEnd(data, starts, k)];
        if k == |starts| - 1 && c != '\n' {
          assert whole[starts[k]..|whole|] == data[starts[k]..|data|] + [c];
        }
      }
    }
  }

  method DocumentLineStarts(data: Text) returns (starts: seq<nat>)
    ensures Indexed(data, starts)
  {
    starts := [0];
    assert Lines([]) == [[]];
    for i := 0 to |data|
      invariant Indexed(data[..i], starts)
    {
      IndexNext(data[..i], starts, data[i]);
      assert data[..i + 1] == data[..i] + [data[i]];
      if data[i] == '\n' {
        starts := starts + [i + 1];
      }
    }
    assert data[..|data|] == data;
  }

  // -------------------------------------------------------------- numbered lines

  const REPLACEMENT: Text := [0xEF as char, 0xBF as char, 0xBD as char]

  function TrimCR(s: Text): Text {
    if s != [] && s[|s| - 1] == '\r' then s[..|s| - 1] else s
  }

  function Labelled(n: nat, s: Text): Text {
    Numeral(n) + ": " + s
  }

  lemma TrimSlice(data: Text, first: nat, last: nat)
    requires first <= last <= |data|
    ensures TrimCR(data[first..last]) ==
            if last > first && data[last - 1] == '\r' then data[first..last - 1] else data[first..last]
  {
    if last > first { assert data[first..last][last - first - 1] == data[last - 1]; }
  }

  lemma LabelledValid(n: nat, s: Text)
    requires Valid(s)
    ensures Valid(Labelled(n, s)) && Labelled(n, s) != [] && Digit(Labelled(n, s)[0])
  {
    AsciiValid(Numeral(n) + ": ");
    ValidTogether(Numeral(n) + ": ", s);
  }

  /** A line as it is shown: a terminated line may drop one CR before and one after invalid
      octets are replaced, the last line only one after. */
  function Shown(lines: seq<Text>, n: nat): Text
    requires 1 <= n <= |lines|
  {
    Labelled(n, TrimCR(ToValid(if n < |lines| then TrimCR(lines[n - 1]) else lines[n - 1], REPLACEMENT)))
  }

  /** The octets of a line that are displayed. */
  method DisplayedOctets(data: Text, starts: seq<nat>, line: nat) returns (raw: Text)
    requires Indexed(data, starts) && 1 <= line <= |starts|
    ensures raw == if line < |starts| then TrimCR(Lines(data)[line - 1]) else Lines(data)[line - 1]
  {
    assert EntryIndexed(data, starts, line - 1);
    var first, last := starts[line - 1], |data|;
    if line < |starts| {
      last := starts[line] - 1;
      TrimSlice(data, first, last);
      if last > first && data[last - 1] == '\r' {
        last := last - 1;
      }
    }
    raw := data[first..last];
  }

  method NumberedDocumentLine(data: Text, starts: seq<nat>, line: nat) returns (s: Text)
    requires Indexed(data, starts) && 1 <= line <= |starts|
    ensures s == Shown(Lines(data), line)
  {
    var raw := DisplayedOctets(data, starts, line);
    s := Labelled(line, TrimCR(ToValid(raw, REPLACEMENT)));
  }

  lemma ReplacementValid()
    ensures Valid(REPLACEMENT)
  {
    assert RuneLength(REPLACEMENT) == 3 && REPLACEMENT[3..] == [];
  }

  lemma TrimCRValid(s: Text)
    requires Valid(s)
    ensures Valid(TrimCR(s))
  {
    if s != [] && s[|s| - 1] == '\r' {
      assert s == s[..|s| - 1] + ['\r'];
      DropAscii(s[..|s| - 1], '\r');
    }
  }

  /** Every shown line is whole UTF-8, whatever the document holds, and starts with a digit. */
  lemma ShownValid(lines: seq<Text>, n: nat)
    requires 1 <= n <= |lines|
    ensures Valid(Shown(lines, n)) && Shown(lines, n) != [] && Digit(Shown(lines, n)[0])
  {
    var raw := if n < |lines| then TrimCR(lines[n - 1]) else lines[n - 1];
    ReplacementValid();
    ToValidIsValid(raw, REPLACEMENT, false);
    TrimCRValid(ToValid(raw, REPLACEMENT));
    LabelledValid(n, TrimCR(ToValid(raw, REPLACEMENT)));
  }

  /** A valid document without carriage returns is shown octet for octet. */
  lemma ShownKeeps(lines: seq<Text>, n: nat)
    requires 1 <= n <= |lines| && Valid(lines[n - 1]) && '\r' !in lines[n - 1]
    ensures Shown(lines, n) == Labelled(n, lines[n - 1])
  {
    ToValidKeeps(lines[n - 1], REPLACEMENT);
  }

  // -------------------------------------------------------------------- excerpts

  datatype Page = Page(text: Text, lastOutput: int, line: nat, byteAt: nat, complete: bool)

  datatype Failure = InvalidCursor | SourceBudget

  const BREAK: Text := "\n"

  /** The shown lines of a document up to the last one asked for. */
  function Visible(lines: seq<Text>, last: int): (r: seq<Text>)
    ensures |r| == if last < 0 then 0 else if last < |lines| then last else |lines|
    ensures forall n :: 1 <= n <= |r| ==> r[n - 1] == Shown(lines, n)
  {
    seq(if last < 0 then 0 else if last < |lines| then last else |lines|,
        k requires 0 <= k < |lines| => Shown(lines, k + 1))
  }

  ghost predicate Whole(shown: seq<Text>) {
    forall k :: 0 <= k < |shown| ==> WholeLine(shown[k])
  }

  function Tail(s: Text, byteAt: nat): Text {
    if byteAt <= |s| then s[byteAt..] else []
  }

  /** The shown lines from a position on, joined by newlines. */
  function Remaining(shown: seq<Text>, line: nat, byteAt: nat): Text
    requires line >= 1
    decreases |shown| - line, 0
  {
    if line > |shown| then [] else Tail(shown[line - 1], byteAt) + Later(shown, line + 1)
  }

  function Later(shown: seq<Text>, line: nat): Text
    requires line >= 1
    decreases |shown| - line, 1
  {
    if line > |shown| then [] else BREAK + Remaining(shown, line, 0)
  }

  /** A position that a fresh request or a returned page gives. */
  predicate Position(shown: seq<Text>, line: nat, byteAt: nat) {
    line >= 1 && (byteAt == 0 || (line <= |shown| && byteAt < |shown[line - 1]| && Valid(shown[line - 1][byteAt..])))
  }

  /** What resuming at the returned position adds: a newline exactly where the octet is zero. */
  function Resumed(shown: seq<Text>, p: Page): Text
    requires p.line >= 1
  {
    if p.complete then [] else if p.byteAt == 0 then Later(shown, p.line) else Remaining(shown, p.line, p.byteAt)
  }

  /** The longest prefix of whole code points within the limit. */
  method Cut(part: Text, available: nat) returns (cut: nat)
    requires available < |part|
    ensures cut <= available && (cut > 0 ==> Valid(part[..cut]))
    ensures forall j :: cut < j <= available ==> !Valid(part[..j])
  {
    cut := available;
    while cut > 0 && !Valid(part[..cut])
      invariant cut <= available && forall j :: cut < j <= available ==> !Valid(part[..j])
    {
      cut := cut - 1;
    }
  }

  lemma Regrouped(a: Text, b: Text, c: Text)
    ensures a + (b + c) == (a + b) + c
  {
  }

  /** A line cut in two is what is before the cut and what is after it. */
  lemma CutApart(s: Text, byteAt: nat, cut: nat)
    requires byteAt + cut <= |s|
    ensures Tail(s, byteAt)[..cut] + Tail(s, byteAt + cut) == Tail(s, byteAt)
  {
  }

  /** A cut inside a line leaves whole code points on both sides. */
  lemma CutPosition(s: Text, byteAt: nat, cut: nat)
    requires byteAt + cut < |s| && Valid(s[byteAt..]) && Valid(s[byteAt..][..cut])
    ensures Valid(s[byteAt + cut..])
  {
    var part := s[byteAt..];
    assert part == part[..cut] + part[cut..];
    ValidRest(part[..cut], part[cut..]);
    assert s[byteAt + cut..] == part[cut..];
  }

  lemma NoCut(part: Text, available: int)
    requires 0 < available < |part| && Valid(part) && forall j :: 0 < j <= available ==> !Valid(part[..j])
    ensures RuneLength(part) > available
  {
    RuneIsValid(part);
  }

  /** The text of a page so far, with what a line adds to it. */
  function Extended(out: Text, part: Text): Text {
    if out == [] then part else out + BREAK + part
  }

  lemma ExtendedLength(out: Text, part: Text)
    ensures |Extended(out, part)| == |out| + (if out == [] then 0 else 1) + |part|
  {
  }

  lemma ExtendedValid(out: Text, part: Text)
    requires Valid(out) && Valid(part)
    ensures Valid(Extended(out, part))
  {
    AsciiValid(BREAK);
    ValidTogether(out, BREAK);
    ValidTogether(out + BREAK, part);
  }

  /** What has been written, and what is still to come before the given line. */
  ghost predicate Written(shown: seq<Text>, asked: Text, out: Text, line: nat, byteAt: nat)
    requires line >= 1
  {
    if out == [] then asked == Remaining(shown, line, byteAt) else asked == out + Later(shown, line)
  }

  lemma WrittenLine(shown: seq<Text>, asked: Text, out: Text, line: nat, byteAt: nat)
    requires 1 <= line <= |shown| && Written(shown, asked, out, line, byteAt) && (out != [] ==> byteAt == 0)
    requires Tail(shown[line - 1], byteAt) != []
    ensures Written(shown, asked, Extended(out, Tail(shown[line - 1], byteAt)), line + 1, 0)
  {
    var part, later := Tail(shown[line - 1], byteAt), Later(shown, line + 1);
    assert Remaining(shown, line, byteAt) == part + later;
    assert Later(shown, line) == BREAK + Remaining(shown, line, 0);
    if out != [] {
      Regrouped(BREAK, part, later);
      Regrouped(out, BREAK + part, later);
      Regrouped(out, BREAK, part);
    }
  }

  lemma WrittenCut(shown: seq<Text>, asked: Text, out: Text, line: nat, byteAt: nat, cut: nat)
    requires 1 <= line <= |shown| && Written(shown, asked, out, line, byteAt) && (out != [] ==> byteAt == 0)
    requires byteAt + cut <= |shown[line - 1]|
    ensures asked == Extended(out, Tail(shown[line - 1], byteAt)[..cut]) + Remaining(shown, line, byteAt + cut)
  {
    var s, later := shown[line - 1], Later(shown, line + 1);
    var part, rest := Tail(s, byteAt)[..cut], Tail(s, byteAt + cut);
    CutApart(s, byteAt, cut);
    Regrouped(part, rest, later);
    assert Remaining(shown, line, byteAt) == Tail(s, byteAt) + later;
    assert Later(shown, line) == BREAK + Remaining(shown, line, 0);
    if out != [] {
      Regrouped(BREAK, part, rest + later);
      Regrouped(out, BREAK + part, rest + later);
      Regrouped(out, BREAK, part);
    }
  }

  /** What a page is asked for: the lines to show, where to start and the two budgets. */
  datatype Request = Request(shown: seq<Text>, first: nat, startByte: nat, maxBytes: int, maxLines: int)

  /** From a fresh or returned position, with budgets that allow anything at all. */
  ghost predicate Proper(q: Request) {
    Position(q.shown, q.first, q.startByte) && q.maxBytes >= 1 && q.maxLines >= 1
  }

  function Asked(q: Request): Text
    requires q.first >= 1
  {
    Remaining(q.shown, q.first, q.startByte)
  }

  /** What a page promises to a caller that starts at a proper position. */
  ghost predicate PageKeeps(q: Request, p: Page)
    requires q.first >= 1
  {
    && Position(q.shown, p.line, p.byteAt) && Valid(p.text) && |p.text| <= q.maxBytes
    && p.line - q.first + (if p.byteAt > 0 then 1 else 0) <= q.maxLines
    && Asked(q) == p.text + Resumed(q.shown, p)
    && (p.text == [] ==> p.complete) && (p.complete <==> p.line > |q.shown|)
  }

  predicate WholeLine(s: Text) {
    Valid(s) && s != [] && RuneLength(s) == 1
  }

  lemma VisibleWhole(lines: seq<Text>, last: int)
    ensures Whole(Visible(lines, last))
  {
    var shown := Visible(lines, last);
    forall k | 0 <= k < |shown|
      ensures WholeLine(shown[k])
    {
      ShownValid(lines, k + 1);
      assert shown[k + 1 - 1] == Shown(lines, k + 1);
    }
  }

  lemma TailValid(shown: seq<Text>, line: nat, byteAt: nat)
    requires Whole(shown) && Position(shown, line, byteAt) && line <= |shown|
    ensures Valid(Tail(shown[line - 1], byteAt)) && Tail(shown[line - 1], byteAt) != []
    ensures byteAt == 0 ==> Tail(shown[line - 1], byteAt) == shown[line - 1]
  {
  }

  /** What the loop keeps for a caller that started at a proper position. */
  ghost predicate Filling(q: Request, out: Text, line: nat, byteAt: nat)
    requires q.first >= 1
  {
    && q.first <= line && line - q.first <= q.maxLines && Valid(out) && |out| <= q.maxBytes
    && (out == [] <==> line == q.first)
    && Position(q.shown, line, byteAt) && (line > q.first ==> byteAt == 0) &&
        (line == q.first ==> byteAt == q.startByte)
    && Written(q.shown, Asked(q), out, line, byteAt)
  }

  lemma LineFills(q: Request, out: Text, line: nat, byteAt: nat)
    requires Whole(q.shown) && Proper(q) && Filling(q, out, line, byteAt) && line <= |q.shown| &&
             line - q.first < q.maxLines
    requires |Tail(q.shown[line - 1], byteAt)| <= Room(out, q.maxBytes)
    ensures Filling(q, Extended(out, Tail(q.shown[line - 1], byteAt)), line + 1, 0)
  {
    TailValid(q.shown, line, byteAt);
    ExtendedLength(out, Tail(q.shown[line - 1], byteAt));
    WrittenLine(q.shown, Asked(q), out, line, byteAt);
    ExtendedValid(out, Tail(q.shown[line - 1], byteAt));
  }

  /** What the cut line adds, and where the page resumes. */
  lemma CutText(shown: seq<Text>, asked: Text, out: Text, line: nat, byteAt: nat, cut: nat)
    requires 1 <= line <= |shown| && Whole(shown) && Position(shown, line, byteAt) && (out != [] ==> byteAt == 0)
    requires Written(shown, asked, out, line, byteAt) && Valid(out)
    requires 0 < cut < |Tail(shown[line - 1], byteAt)| && Valid(Tail(shown[line - 1], byteAt)[..cut])
    ensures var text := Extended(out, Tail(shown[line - 1], byteAt)[..cut]);
            && Valid(text) && text != [] && asked == text + Remaining(shown, line, byteAt + cut)
            && Position(shown, line, byteAt + cut)
  {
    TailValid(shown, line, byteAt);
    WrittenCut(shown, asked, out, line, byteAt, cut);
    CutPosition(shown[line - 1], byteAt, cut);
    ExtendedValid(out, Tail(shown[line - 1], byteAt)[..cut]);
  }

  lemma CutPage(q: Request, p: Page)
    requires 1 <= q.first <= p.line <= |q.shown| && p.line - q.first < q.maxLines && p.byteAt > 0 && !p.complete
    requires Valid(p.text) && p.text != [] && |p.text| <= q.maxBytes && Position(q.shown, p.line, p.byteAt)
    requires Asked(q) == p.text + Remaining(q.shown, p.line, p.byteAt)
    ensures PageKeeps(q, p)
  {
  }

  lemma CutFills(q: Request, out: Text, line: nat, byteAt: nat, cut: nat, p: Page)
    requires Whole(q.shown) && Proper(q) && Filling(q, out, line, byteAt)
    requires line <= |q.shown| && line - q.first < q.maxLines
    requires 0 < cut < |Tail(q.shown[line - 1], byteAt)| && |p.text| <= q.maxBytes
    requires Valid(Tail(q.shown[line - 1], byteAt)[..cut])
    requires p.text == Extended(out, Tail(q.shown[line - 1], byteAt)[..cut])
    requires p.line == line && p.byteAt == byteAt + cut && !p.complete
    ensures PageKeeps(q, p)
  {
    CutText(q.shown, Asked(q), out, line, byteAt, cut);
    CutPage(q, p);
  }

  lemma LoopEnds(q: Request, out: Text, p: Page)
    requires q.first >= 1 && Filling(q, out, p.line, 0) && out != []
    requires p.text == out && p.byteAt == 0 && (p.complete <==> p.line > |q.shown|)
    ensures PageKeeps(q, p)
  {
    assert out + [] == out;
  }

  /** With four octets of room the first code point of a line always fits, and afterwards each line
      starts with a digit. */
  lemma SomethingFits(q: Request, out: Text, line: nat, byteAt: nat)
    requires Whole(q.shown) && Proper(q) && Filling(q, out, line, byteAt) && line <= |q.shown| && q.maxBytes >= 4
    requires Room(out, q.maxBytes) > 0
    ensures RuneLength(Tail(q.shown[line - 1], byteAt)) <= Room(out, q.maxBytes)
  {
    TailValid(q.shown, line, byteAt);
  }

  /** What one line does to a page: no room left, no whole code point fits, cut, or added. */
  datatype Fit = NoRoom | NothingFits | CutAt(cut: nat, text: Text) | Added(text: Text)

  function Room(out: Text, maxBytes: int): int {
    maxBytes - |out| - (if out == [] then 0 else 1)
  }

  /** What the four answers mean. */
  ghost predicate Fits(out: Text, part: Text, maxBytes: int, f: Fit) {
    match f
    case NoRoom => Room(out, maxBytes) <= 0
    case NothingFits => Room(out, maxBytes) > 0 && (Valid(part) ==> RuneLength(part) > Room(out, maxBytes))
    case CutAt(cut, text) =>
      0 < cut <= Room(out, maxBytes) && cut < |part| && Valid(part[..cut]) && text == Extended(out, part[..cut])
    case Added(text) => |part| <= Room(out, maxBytes) && Room(out, maxBytes) > 0 && text == Extended(out, part)
  }

  method FitLine(out: Text, part: Text, maxBytes: int) returns (f: Fit)
    ensures Fits(out, part, maxBytes, f)
  {
    var separator := if |out| > 0 then 1 else 0;
    var available := maxBytes - |out| - separator;
    if available <= 0 {
      return NoRoom;
    }
    var text := if separator > 0 then out + BREAK else out;
    if |part| > available {
      var cut := Cut(part, available);
      if cut == 0 {
        if Valid(part) { NoCut(part, available); }
        return NothingFits;
      }
      assert [] + part[..cut] == part[..cut];
      return CutAt(cut, text + part[..cut]);
    }
    assert [] + part == part;
    return Added(text + part);
  }

  /** A proper request gets a page that keeps its promises. */
  ghost predicate Answered(q: Request, p: Page)
    requires q.first >= 1
  {
    Proper(q) ==> PageKeeps(q, p)
  }

  /** The page under way, if the request was proper. */
  ghost predicate UnderWay(q: Request, out: Text, line: nat, byteAt: nat)
    requires q.first >= 1
  {
    q.first <= line <= |q.shown| + 1 && (Proper(q) ==> Filling(q, out, line, byteAt))
  }

  lemma NothingAsked(q: Request)
    requires q.first > |q.shown|
    ensures Answered(q, Page([], q.first - 1, q.first, 0, true))
  {
    if Proper(q) { assert [] + [] == Asked(q); }
  }

  lemma Starting(q: Request)
    requires 1 <= q.first <= |q.shown|
    ensures UnderWay(q, [], q.first, q.startByte)
  {
  }

  lemma CursorInside(q: Request, out: Text, line: nat, byteAt: nat)
    requires q.first >= 1 && UnderWay(q, out, line, byteAt) && line <= |q.shown| && byteAt > |q.shown[line - 1]|
    ensures !Proper(q)
  {
  }

  /** What contextExcerpt answers: a page that keeps its promises, and no failure when asked properly
      with room for one code point. */
  ghost predicate Answers(q: Request, r: Result<Page, Failure>)
    requires q.first >= 1
  {
    (r.Ok? ==> Answered(q, r.value)) && (Proper(q) && q.maxBytes >= 4 ==> r.Ok?)
  }

  lemma LineAdded(q: Request, out: Text, line: nat, byteAt: nat, text: Text)
    requires q.first >= 1 && Whole(q.shown) && UnderWay(q, out, line, byteAt)
    requires line <= |q.shown| && line - q.first < q.maxLines
    requires |Tail(q.shown[line - 1], byteAt)| <= Room(out, q.maxBytes)
    requires text == Extended(out, Tail(q.shown[line - 1], byteAt))
    ensures UnderWay(q, text, line + 1, 0)
  {
    if Proper(q) { LineFills(q, out, line, byteAt); }
  }

  lemma LineCut(q: Request, out: Text, line: nat, byteAt: nat, cut: nat, p: Page)
    requires q.first >= 1 && Whole(q.shown) && UnderWay(q, out, line, byteAt)
    requires line <= |q.shown| && line - q.first < q.maxLines
    requires 0 < cut < |Tail(q.shown[line - 1], byteAt)| && cut <= Room(out, q.maxBytes)
    requires Valid(Tail(q.shown[line - 1], byteAt)[..cut])
    requires p.text == Extended(out, Tail(q.shown[line - 1], byteAt)[..cut])
    requires p.line == line && p.byteAt == byteAt + cut && !p.complete
    ensures Answered(q, p)
  {
    ExtendedLength(out, Tail(q.shown[line - 1], byteAt)[..cut]);
    if Proper(q) { CutFills(q, out, line, byteAt, cut, p); }
  }

  lemma LineNotFitting(q: Request, out: Text, line: nat, byteAt: nat)
    requires q.first >= 1 && Whole(q.shown) && UnderWay(q, out, line, byteAt)
    requires line <= |q.shown| && line - q.first < q.maxLines && Room(out, q.maxBytes) > 0
    requires Valid(Tail(q.shown[line - 1], byteAt)) ==>
               RuneLength(Tail(q.shown[line - 1], byteAt)) > Room(out, q.maxBytes)
    ensures Proper(q) ==> q.maxBytes < 4
  {
    if Proper(q) && q.maxBytes >= 4 {
      TailValid(q.shown, line, byteAt);
      SomethingFits(q, out, line, byteAt);
    }
  }

  /** What one line does to the page under way: there is no room, the page is over, or it goes on. */
  datatype Turn = Full | Over(r: Result<Page, Failure>) | Next(text: Text)

  method TakeLine(whole: Text, out: Text, line: nat, byteAt: nat, maxBytes: int, ghost q: Request) returns (t: Turn)
    requires q.first >= 1 && Whole(q.shown) && UnderWay(q, out, line, byteAt) && maxBytes == q.maxBytes
    requires line <= |q.shown| && line - q.first < q.maxLines && whole == q.shown[line - 1]
    ensures t.Full? ==> Room(out, maxBytes) <= 0
    ensures t.Over? ==> Answers(q, t.r)
    ensures t.Next? ==> UnderWay(q, t.text, line + 1, 0)
  {
    if byteAt > |whole| {
      CursorInside(q, out, line, byteAt);
      return Over(Err(InvalidCursor));
    }
    var part := whole[byteAt..];
    var fit := FitLine(out, part, maxBytes);
    match fit {
      case NoRoom => return Full;
      case NothingFits =>
        LineNotFitting(q, out, line, byteAt);
        return Over(Err(SourceBudget));
      case CutAt(cut, text) =>
        var page := Page(text, line, line, byteAt + cut, false);
        LineCut(q, out, line, byteAt, cut, page);
        return Over(Ok(page));
      case Added(text) =>
        LineAdded(q, out, line, byteAt, text);
        return Next(text);
    }
  }

  lemma PageEnds(q: Request, out: Text, byteAt: nat, p: Page)
    requires q.first >= 1 && UnderWay(q, out, p.line, byteAt)
    requires p.line > |q.shown| || p.line - q.first >= q.maxLines || Room(out, q.maxBytes) <= 0
    requires q.first <= |q.shown| && p.text == out && p.byteAt == 0 && (p.complete <==> p.line > |q.shown|)
    ensures Answered(q, p)
  {
    if Proper(q) { LoopEnds(q, out, p); }
  }

  /** contextExcerpt. From a fresh or returned position and with room for one code point and
      one line a page never fails; it keeps both budgets, holds whole code points only, and with
      what resuming adds it is exactly what remained. */
  method ContextExcerpt(data: Text, starts: seq<nat>, first: nat, last: int, startByte: nat, maxBytes: int,
      maxLines: int)
    returns (r: Result<Page, Failure>)
    requires Indexed(data, starts) && first >= 1
    ensures Answers(Request(Visible(Lines(data), last), first, startByte, maxBytes, maxLines), r)
  {
    ghost var q := Request(Visible(Lines(data), last), first, startByte, maxBytes, maxLines);
    if first > last || first > |starts| {
      NothingAsked(q);
      return Ok(Page([], first - 1, first, 0, true));
    }
    VisibleWhole(Lines(data), last);
    Starting(q);
    var out: Text := [];
    var lastOutput: int, line: nat, byteAt: nat := first - 1, first, startByte;
    assert |q.shown| == if last < |starts| then last else |starts|;
    while line <= last && line <= |starts| && line - first < maxLines
      invariant UnderWay(q, out, line, byteAt) && (line == first || byteAt == 0)
    {
      var whole := NumberedDocumentLine(data, starts, line);
      var turn := TakeLine(whole, out, line, byteAt, maxBytes, q);
      match turn {
        case Full => break;
        case Over(answer) => return answer;
        case Next(text) => out := text;
      }
      lastOutput := line;
      line := line + 1;
      byteAt := 0;
    }
    var page := Page(out, lastOutput, line, 0, line > last || line > |starts|);
    PageEnds(q, out, byteAt, page);
    return Ok(page);
  }

  lemma ResumedLength(shown: seq<Text>, p: Page)
    requires p.line >= 1 && !p.complete && p.line <= |shown|
    ensures Resumed(shown, p) == (if p.byteAt == 0 then BREAK else []) + Remaining(shown, p.line, p.byteAt)
  {
    assert [] + Remaining(shown, p.line, p.byteAt) == Remaining(shown, p.line, p.byteAt);
  }

  /** Following the returned positions ends, and puts the numbered lines together again, with
      a newline exactly where the resume octet is zero. */
  method FollowExcerpts(data: Text, starts: seq<nat>, first: nat, last: int, maxBytes: int, maxLines: int)
    returns (text: Text, pages: nat)
    requires Indexed(data, starts) && first >= 1 && maxBytes >= 4 && maxLines >= 1
    ensures text == Remaining(Visible(Lines(data), last), first, 0)
    ensures pages <= |text| + 1
  {
    ghost var shown := Visible(Lines(data), last);
    ghost var asked := Remaining(shown, first, 0);
    var r := ContextExcerpt(data, starts, first, last, 0, maxBytes, maxLines);
    var p := r.value;
    text := p.text;
    pages := 1;
    while !p.complete
      invariant Position(shown, p.line, p.byteAt) && (p.complete <==> p.line > |shown|)
      invariant asked == text + Resumed(shown, p)
      invariant pages <= |text| + 1 && (!p.complete ==> pages <= |text|)
      decreases |asked| - |text|, if p.complete then 0 else 1
    {
      ResumedLength(shown, p);
      ghost var rest := Remaining(shown, p.line, p.byteAt);
      Regrouped(text, if p.byteAt == 0 then BREAK else [], rest);
      r := ContextExcerpt(data, starts, p.line, last, p.byteAt, maxBytes, maxLines);
      if p.byteAt == 0 {
        text := text + BREAK;
      }
      p := r.value;
      Regrouped(text, p.text, Resumed(shown, p));
      text := text + p.text;
      pages := pages + 1;
    }
    assert text + [] == text;
  }
}
