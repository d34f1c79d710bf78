/** The Lua slot payload printer (internal/bridge/slot.go) and a reader for the
    Lua 5.1 table it prints. */
module SlotPayload {
  import opened Wrappers
  import opened Texts
  import Adler32

  const SLOT_COUNT := 500
  const INERT: Text := "LycheeDevSlotEnvelope = nil\n"
  const SLOT_SCHEMA: Text := "Lycheedev mailbox protocol v1"
  const MAX_CODE := 262144
  const MAX_FENCE := 9007199254740991

  datatype SlotEnvelope = SlotEnvelope(
    schema: Text, index: int, startSlot: int, runtime: Text, owner: Text, fence: int,
    nonce: Text, ticket: Text, action: Text, guid: Text, build: Text, code: Text,
    codeBytes: int, codeChecksum: int, budget: int, challenge: Text, preparedNonce: Text,
    reportBytes: int, reportChecksum: int)

  datatype PayloadError = InvalidEnvelope | InvalidToken

  // ---------------------------------------------------------------- printing

  /** One octet of a quoted string: quote and backslash are escaped, everything
      outside printable ASCII becomes a three-digit decimal escape. */
  function EscapeOctet(c: Octet): (s: Text)
    ensures |s| > 0 && '\n' !in s
  {
    if c == '"' || c == '\\' then ['\\', c]
    else if c as int < 32 || c as int > 126 then
      var n := c as int;
      ['\\', DigitOf(n / 100), DigitOf(n / 10 % 10), DigitOf(n % 10)]
    else [c]
  }

  function Escaped(s: Text): (r: Text)
    ensures '\n' !in r
  {
    if s == [] then [] else EscapeOctet(s[0]) + Escaped(s[1..])
  }

  function Quoted(s: Text): Text {
    ['"'] + Escaped(s) + ['"']
  }

  lemma {:induction false} EscapedAppend(s: Text, c: Octet)
    ensures Escaped(s + [c]) == Escaped(s) + EscapeOctet(c)
  {
    if s == [] {
      assert s + [c] == [c];
    } else {
      assert (s + [c])[1..] == s[1..] + [c];
      EscapedAppend(s[1..], c);
    }
  }

  lemma EscapedNext(s: Text, i: nat)
    requires i < |s|
    ensures Escaped(s[..i + 1]) == Escaped(s[..i]) + EscapeOctet(s[i])
  {
    assert s[..i + 1] == s[..i] + [s[i]];
    EscapedAppend(s[..i], s[i]);
  }

  lemma EscapedMore(s: Text, i: nat, b: Text, more: Text)
    requires i < |s| && b == ['"'] + Escaped(s[..i]) && more == EscapeOctet(s[i])
    ensures b + more == ['"'] + Escaped(s[..i + 1])
  {
    EscapedNext(s, i);
  }

  /** luaString, octet by octet. */
  method LuaString(s: Text) returns (b: Text)
    ensures b == Quoted(s)
  {
    b := ['"'];
    for i := 0 to |s|
      invariant b == ['"'] + Escaped(s[..i])
    {
      var c := s[i];
      EscapedMore(s, i, b, EscapeOctet(c));
      if c == '"' || c == '\\' {
        b := b + ['\\', c];
      } else if c as int < 32 || c as int > 126 {
        var n := c as int;
        b := b + ['\\', DigitOf(n / 100), DigitOf(n / 10 % 10), DigitOf(n % 10)];
      } else {
        b := b + [c];
      }
    }
    assert s[..|s|] == s;
    b := b + ['"'];
  }

  predicate Token(s: Text) {
    |s| == 32 && forall i :: 0 <= i < |s| ==> HexDigit(s[i])
  }

  predicate Admissible(e: SlotEnvelope) {
    && e.schema == SLOT_SCHEMA
    && 1 <= e.index <= SLOT_COUNT
    && 0 <= e.startSlot <= e.index
    && |e.code| <= MAX_CODE
    && 1 <= e.fence <= MAX_FENCE
  }

  predicate TokensValid(e: SlotEnvelope) {
    Token(e.runtime) && Token(e.owner) && Token(e.nonce) && Token(e.ticket)
  }

  /** Code length and checksum are always derived from non-empty code. */
  function Derived(e: SlotEnvelope): SlotEnvelope {
    if e.code == [] then e
    else e.(codeBytes := |e.code|, codeChecksum := Adler32.Sum(e.code))
  }

  function StringFields(e: SlotEnvelope): seq<(Text, Text)> {
    [("schema", e.schema), ("runtime", e.runtime), ("owner", e.owner), ("nonce", e.nonce),
     ("ticket", e.ticket), ("action", e.action), ("guid", e.guid), ("build", e.build),
     ("code", e.code), ("challenge", e.challenge), ("preparedNonce", e.preparedNonce)]
  }

  function NumberFields(e: SlotEnvelope): seq<(Text, int)> {
    [("index", e.index), ("fence", e.fence), ("codeBytes", e.codeBytes),
     ("codeChecksum", e.codeChecksum), ("budget", e.budget), ("reportBytes", e.reportBytes),
     ("reportChecksum", e.reportChecksum)]
  }

  function FieldText(name: Text, quoted: Text): Text {
    "  " + (name + " = " + quoted) + ","
  }

  function FieldLine(f: (Text, Text)): Text {
    FieldText(f.0, Quoted(f.1))
  }

  function FieldLines(fs: seq<(Text, Text)>): (ls: seq<Text>)
    ensures |ls| == |fs| && forall i :: 0 <= i < |fs| ==> ls[i] == FieldLine(fs[i])
  {
    if fs == [] then [] else [FieldLine(fs[0])] + FieldLines(fs[1..])
  }

  function NumberText(fs: seq<(Text, int)>): Text {
    if fs == [] then [] else " " + fs[0].0 + " = " + Decimal(fs[0].1) + "," + NumberText(fs[1..])
  }

  function StartLines(e: SlotEnvelope): seq<Text> {
    if e.startSlot == 0 then [] else ["  startSlot = " + Decimal(e.startSlot) + ","]
  }

  /** The printed lines of an envelope whose derived fields are filled. */
  function PayloadLines(e: SlotEnvelope): seq<Text> {
    [OPENING] + StartLines(e) + FieldLines(StringFields(e)) + [LastLine(e), CLOSING]
  }

  function PayloadText(e: SlotEnvelope): Text {
    Unlines(PayloadLines(e))
  }

  function Payload(e: SlotEnvelope): Result<Text, PayloadError> {
    if !Admissible(e) then Err(InvalidEnvelope)
    else if !TokensValid(e) then Err(InvalidToken)
    else Ok(PayloadText(Derived(e)))
  }

  const OPENING: Text := "LycheeDevSlotEnvelope = {"
  const CLOSING: Text := "}"

  function LastLine(e: SlotEnvelope): Text {
    " " + NumberText(NumberFields(e))
  }

  lemma PayloadTextParts(e: SlotEnvelope)
    ensures PayloadText(e) ==
            OPENING + "\n" + Unlines(StartLines(e)) + Unlines(FieldLines(StringFields(e))) +
            (LastLine(e) + "\n" + (CLOSING + "\n"))
  {
    var starts, strings, last := StartLines(e), FieldLines(StringFields(e)), [LastLine(e), CLOSING];
    UnlinesAppend([OPENING] + starts + strings, last);
    UnlinesAppend([OPENING] + starts, strings);
    UnlinesAppend([OPENING], starts);
    assert last[1..] == [CLOSING];
    assert Unlines([CLOSING]) == CLOSING + "\n" + Unlines([]);
  }

  method PrintField(f: (Text, Text)) returns (line: Text)
    ensures line == FieldLine(f)
  {
    var q := LuaString(f.1);
    line := FieldText(f.0, q);
  }

  lemma LineAppended(b0: Text, ls: seq<Text>, i: nat)
    requires i < |ls|
    ensures b0 + Unlines(ls[..i + 1]) == b0 + Unlines(ls[..i]) + (ls[i] + "\n")
  {
    UnlinesNext(ls, i);
  }

  method AppendFields(b0: Text, fields: seq<(Text, Text)>) returns (b: Text)
    ensures b == b0 + Unlines(FieldLines(fields))
  {
    b := b0;
    ghost var ls := FieldLines(fields);
    for i := 0 to |fields|
      invariant b == b0 + Unlines(ls[..i])
    {
      var line := PrintField(fields[i]);
      LineAppended(b0, ls, i);
      b := b + (line + "\n");
    }
    assert ls[..|fields|] == ls;
  }

  method TokensOk(e: SlotEnvelope) returns (ok: bool)
    ensures ok == TokensValid(e)
  {
    var tokens := [e.runtime, e.owner, e.nonce, e.ticket];
    for i := 0 to 4
      invariant forall k :: 0 <= k < i ==> Token(tokens[k])
    {
      if !Token(tokens[i]) {
        return false;
      }
    }
    assert Token(tokens[0]) && Token(tokens[1]) && Token(tokens[2]) && Token(tokens[3]);
    return true;
  }

  method AppendStart(b0: Text, e: SlotEnvelope) returns (b: Text)
    ensures b == b0 + Unlines(StartLines(e))
  {
    b := b0;
    if e.startSlot != 0 {
      var line := StartLines(e)[0];
      b := b + (line + "\n");
      assert Unlines([line]) == line + "\n";
    }
  }

  method PrintDerived(d: SlotEnvelope) returns (b: Text)
    ensures b == PayloadText(d)
  {
    PayloadTextParts(d);
    b := AppendStart(OPENING + "\n", d);
    b := AppendFields(b, StringFields(d));
    b := b + (LastLine(d) + "\n" + (CLOSING + "\n"));
  }

  /** The checks, the derived fields and the appends, in source order. */
  method PrintSlot(e: SlotEnvelope) returns (r: Result<Text, PayloadError>)
    ensures r == Payload(e)
  {
    if !Admissible(e) {
      return Err(InvalidEnvelope);
    }
    var ok := TokensOk(e);
    if !ok {
      return Err(InvalidToken);
    }
    var b := PrintDerived(Derived(e));
    return Ok(b);
  }
}
