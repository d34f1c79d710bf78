/** Reading a Lua 5.1 chunk of the form  Name = { name = value, ... }  with string
    and integer values: section 2.1 (lexical conventions) and section 2.5.7 (table
    constructors) of the Lua 5.1 Reference Manual. */
module LuaReader {
  import opened Wrappers
  import opened Texts

  datatype LuaValue = LuaString(text: Text) | LuaNumber(value: int)

  type Field = (Text, LuaValue)

  predicate Space(c: Octet) {
    c == ' ' || c == '\n' || c == '\t' || c == '\r' || c as int == 11 || c as int == 12
  }

  predicate NameOctet(c: Octet) {
    'a' <= c <= 'z' || 'A' <= c <= 'Z' || Digit(c) || c == '_'
  }

  function DigitValue(c: Octet): (n: nat)
    requires Digit(c)
    ensures n < 10
  {
    c as int - '0' as int
  }

  function SkipSpace(t: Text): (r: Text)
    ensures |r| <= |t|
  {
    if t != [] && Space(t[0]) then SkipSpace(t[1..]) else t
  }

  /** The longest name at the front of the text. */
  function ReadName(t: Text): (r: (Text, Text))
    ensures |r.0| + |r.1| == |t|
  {
    if t != [] && NameOctet(t[0]) then
      var (name, rest) := ReadName(t[1..]);
      ([t[0]] + name, rest)
    else ([], t)
  }

  /** The value of at most `limit` leading decimal digits, continuing from `acc`. */
  function ReadDigits(t: Text, acc: nat, limit: nat): (r: (nat, Text))
    ensures |r.1| <= |t|
  {
    if limit > 0 && t != [] && Digit(t[0]) then
      ReadDigits(t[1..], acc * 10 + DigitValue(t[0]), limit - 1)
    else (acc, t)
  }

  /** One octet of a string literal: a plain octet or an escape sequence. */
  function ReadOctet(t: Text): (r: Option<(Octet, Text)>)
    requires t != []
    ensures r.Some? ==> |r.value.1| < |t|
  {
    if t[0] == '\n' then None
    else if t[0] != '\\' then Some((t[0], t[1..]))
    else if |t| == 1 then None
    else if Digit(t[1]) then
      var (n, rest) := ReadDigits(t[1..], 0, 3);
      if n < 256 then Some((n as char, rest)) else None
    else
      var plain: Octet :=
        match t[1]
        case 'a' => 7 as char
        case 'b' => 8 as char
        case 'f' => 12 as char
        case 'n' => 10 as char
        case 'r' => 13 as char
        case 't' => 9 as char
        case 'v' => 11 as char
        case other => other;
      Some((plain, t[2..]))
  }

  /** The rest of a string literal whose opening delimiter has been read. */
  function ReadString(t: Text, delimiter: Octet): (r: Option<(Text, Text)>)
    ensures r.Some? ==> |r.value.1| < |t|
    decreases |t|
  {
    if t == [] then None
    else if t[0] == delimiter then Some(([], t[1..]))
    else
      match ReadOctet(t)
      case None => None
      case Some((c, rest)) =>
        match ReadString(rest, delimiter)
        case None => None
        case Some((s, after)) => Some(([c] + s, after))
  }

  function ReadNumber(t: Text): (r: Option<(LuaValue, Text)>)
    requires t != []
    ensures r.Some? ==> |r.value.1| < |t|
  {
    if Digit(t[0]) then
      var (n, rest) := ReadDigits(t, 0, |t|);
      Some((LuaNumber(n), rest))
    else if t[0] == '-' && |t| > 1 && Digit(t[1]) then
      var (n, rest) := ReadDigits(t[1..], 0, |t| - 1);
      Some((LuaNumber(0 - n), rest))
    else None
  }

  function ReadValue(t: Text): (r: Option<(LuaValue, Text)>)
    ensures r.Some? ==> |r.value.1| < |t|
  {
    if t == [] then None
    else if t[0] == '"' || t[0] == '\'' then
      match ReadString(t[1..], t[0])
      case None => None
      case Some((s, rest)) => Some((LuaString(s), rest))
    else ReadNumber(t)
  }

  /** One  name = value  pair, up to and including its separator comma. */
  function ReadField(t: Text): (r: Option<(Field, Text)>)
    ensures r.Some? ==> |r.value.1| < |t|
  {
    var (name, afterName) := ReadName(t);
    var beforeEqual := SkipSpace(afterName);
    if name == [] || beforeEqual == [] || beforeEqual[0] != '=' then None
    else
      match ReadValue(SkipSpace(beforeEqual[1..]))
      case None => None
      case Some((value, rest)) =>
        var separator := SkipSpace(rest);
        if separator == [] || separator[0] != ',' then None
        else Some(((name, value), separator[1..]))
  }

  /** The fields up to the closing brace, and what follows it. */
  function ReadFields(t: Text): (r: Option<(seq<Field>, Text)>)
    decreases |t|
  {
    var start := SkipSpace(t);
    if start == [] then None
    else if start[0] == '}' then Some(([], start[1..]))
    else
      match ReadField(start)
      case None => None
      case Some((field, rest)) =>
        match ReadFields(rest)
        case None => None
        case Some((fields, after)) => Some(([field] + fields, after))
  }

  /** The assigned name and the fields of a whole chunk. */
  function ReadChunk(t: Text): Option<(Text, seq<Field>)> {
    var (name, afterName) := ReadName(SkipSpace(t));
    var equal := SkipSpace(afterName);
    if name == [] || equal == [] || equal[0] != '=' then None
    else
      var brace := SkipSpace(equal[1..]);
      if brace == [] || brace[0] != '{' then None
      else
        match ReadFields(brace[1..])
        case None => None
        case Some((fields, after)) =>
          if SkipSpace(after) == [] then Some((name, fields)) else None
  }

  /** The value a table holds under a name: the last assignment wins. */
  function Lookup(fields: seq<Field>, name: Text): Option<LuaValue> {
    if fields == [] then None
    else if fields[|fields| - 1].0 == name then Some(fields[|fields| - 1].1)
    else Lookup(fields[..|fields| - 1], name)
  }

  // ------------------------------------------------- reading what was written

  ghost predicate Blank(s: Text) {
    forall i :: 0 <= i < |s| ==> Space(s[i])
  }

  ghost predicate Name(s: Text) {
    |s| > 0 && forall i :: 0 <= i < |s| ==> NameOctet(s[i])
  }

  lemma {:induction false} SkipSpaceOver(s: Text, t: Text)
    requires Blank(s)
    ensures SkipSpace(s + t) == SkipSpace(t)
  {
    if s == [] {
      assert s + t == t;
    } else {
      assert (s + t)[1..] == s[1..] + t;
      SkipSpaceOver(s[1..], t);
    }
  }

  lemma {:induction false} ReadNameOver(s: Text, t: Text)
    requires forall i :: 0 <= i < |s| ==> NameOctet(s[i])
    requires t == [] || !NameOctet(t[0])
    ensures ReadName(s + t) == (s, t)
  {
    if s == [] {
      assert s + t == t;
    } else {
      assert (s + t)[1..] == s[1..] + t;
      ReadNameOver(s[1..], t);
      assert [s[0]] + s[1..] == s;
    }
  }

  /** Folding the digits of a numeral from an accumulator. */
  function DigitsFrom(s: Text, acc: nat): nat
    requires forall i :: 0 <= i < |s| ==> Digit(s[i])
  {
    if s == [] then acc else DigitsFrom(s[..|s| - 1], acc) * 10 + DigitValue(s[|s| - 1])
  }

  lemma {:induction false} DigitsFromFront(s: Text, acc: nat)
    requires |s| > 0 && forall i :: 0 <= i < |s| ==> Digit(s[i])
    ensures DigitsFrom(s, acc) == DigitsFrom(s[1..], acc * 10 + DigitValue(s[0]))
  {
    if |s| > 1 {
      var front := s[..|s| - 1];
      DigitsFromFront(front, acc);
      assert s[1..][..|s| - 2] == front[1..];
    } else {
      assert s[..0] == [] && s[1..] == [];
    }
  }

  lemma {:induction false} ReadDigitsOver(s: Text, t: Text, acc: nat, limit: nat)
    requires forall i :: 0 <= i < |s| ==> Digit(s[i])
    requires |s| <= limit
    requires |s| == limit || t == [] || !Digit(t[0])
    ensures ReadDigits(s + t, acc, limit) == (DigitsFrom(s, acc), t)
    decreases |s|
  {
    if s == [] {
      assert s + t == t;
    } else {
      assert (s + t)[1..] == s[1..] + t;
      DigitsFromFront(s, acc);
      ReadDigitsOver(s[1..], t, acc * 10 + DigitValue(s[0]), limit - 1);
    }
  }

  lemma {:induction false} NumeralValue(n: nat)
    ensures DigitsFrom(Numeral(n), 0) == n
  {
    var s := Numeral(n);
    if n < 10 {
      assert s[..0] == [];
    } else {
      NumeralValue(n / 10);
      assert s[..|s| - 1] == Numeral(n / 10);
    }
  }

  lemma NumeralRead(n: nat, rest: Text)
    requires rest != [] && !Digit(rest[0])
    ensures ReadDigits(Numeral(n) + rest, 0, |Numeral(n) + rest|) == (n, rest)
  {
    ReadDigitsOver(Numeral(n), rest, 0, |Numeral(n) + rest|);
    NumeralValue(n);
  }

  lemma NegativeRead(u: Text, n: nat, rest: Text)
    requires u != [] && Digit(u[0])
    requires ReadDigits(u, 0, |u|) == (n, rest)
    ensures ReadNumber(['-'] + u) == Some((LuaNumber(0 - n), rest))
  {
    var t := ['-'] + u;
    assert t[1..] == u;
  }

  /** A printed integer is read back. */
  lemma ReadDecimal(n: int, rest: Text)
    requires rest != [] && !Digit(rest[0])
    ensures ReadValue(Decimal(n) + rest) == Some((LuaNumber(n), rest))
  {
    if n < 0 {
      var u := Numeral(-n) + rest;
      NumeralRead(-n, rest);
      NegativeRead(u, -n, rest);
      assert Decimal(n) + rest == ['-'] + u;
    } else {
      NumeralRead(n, rest);
    }
  }
}
