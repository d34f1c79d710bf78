/** Byte strings, decimal numerals and line splitting, as the Go standard library
    defines them. A Go string is a sequence of octets. */
module Texts {

  type Octet = c: char | c as int < 256 witness 'a'

  type Text = seq<Octet>

  predicate Digit(c: char) {
    '0' <= c <= '9'
  }

  predicate HexDigit(c: char) {
    '0' <= c <= '9' || 'a' <= c <= 'f'
  }

  /** The digit character of a value below ten. */
  function DigitOf(n: nat): (c: Octet)
    requires n < 10
    ensures Digit(c) && c as int - '0' as int == n
  {
    (n + 48) as char
  }

  /** Decimal numeral without leading zeros, as printed by %d. */
  function Numeral(n: nat): (s: Text)
    ensures |s| > 0 && forall i :: 0 <= i < |s| ==> Digit(s[i])
  {
    if n < 10 then [DigitOf(n)] else Numeral(n / 10) + [DigitOf(n % 10)]
  }

  function Decimal(n: int): Text {
    if n < 0 then "-" + Numeral(-n) else Numeral(n)
  }

  predicate OccursAt(s: Text, needle: Text, i: nat) {
    i + |needle| <= |s| && s[i..i + |needle|] == needle
  }

  predicate Contains(s: Text, needle: Text) {
    exists i :: 0 <= i <= |s| && OccursAt(s, needle, i)
  }

  /** A needle placed between any two texts is contained in the whole. */
  lemma ContainsMiddle(before: Text, needle: Text, after: Text)
    ensures Contains(before + needle + after, needle)
  {
    assert OccursAt(before + needle + after, needle, |before|);
  }

  lemma ContainsMore(before: Text, s: Text, after: Text, needle: Text)
    requires Contains(s, needle)
    ensures Contains(before + s + after, needle)
  {
    var i :| 0 <= i <= |s| && OccursAt(s, needle, i);
    assert OccursAt(before + s + after, needle, |before| + i);
  }

  /** Every line followed by a newline. */
  function Unlines(lines: seq<Text>): Text {
    if lines == [] then [] else lines[0] + "\n" + Unlines(lines[1..])
  }

  lemma {:induction false} UnlinesAppend(a: seq<Text>, b: seq<Text>)
    ensures Unlines(a + b) == Unlines(a) + Unlines(b)
  {
    if a == [] {
      assert a + b == b;
    } else {
      assert (a + b)[1..] == a[1..] + b;
      UnlinesAppend(a[1..], b);
    }
  }

  lemma UnlinesNext(lines: seq<Text>, i: nat)
    requires i < |lines|
    ensures Unlines(lines[..i + 1]) == Unlines(lines[..i]) + (lines[i] + "\n")
  {
    assert lines[..i + 1] == lines[..i] + [lines[i]];
    UnlinesAppend(lines[..i], [lines[i]]);
    assert Unlines([lines[i]]) == lines[i] + "\n" + Unlines([]);
  }

  /** The maximal newline-free pieces of a text: what (?m)^...$ ranges over. */
  function Lines(s: Text): (r: seq<Text>)
    ensures |r| > 0
  {
    if s == [] then [[]]
    else
      var rest := Lines(s[1..]);
      if s[0] == '\n' then [[]] + rest
      else [[s[0]] + rest[0]] + rest[1..]
  }

  lemma {:induction false} LinesOfLine(line: Text, rest: Text)
    requires '\n' !in line
    ensures Lines(line + "\n" + rest) == [line] + Lines(rest)
  {
    var whole := line + "\n" + rest;
    if line == [] {
      assert whole[0] == '\n' && whole[1..] == rest;
    } else {
      assert whole[0] == line[0] && whole[1..] == line[1..] + "\n" + rest;
      LinesOfLine(line[1..], rest);
      assert [line[0]] + line[1..] == line;
    }
  }

  /** Splitting undoes joining: the lines come back, with the empty piece after the last newline. */
  lemma {:induction false} LinesOfUnlines(lines: seq<Text>)
    requires forall i :: 0 <= i < |lines| ==> '\n' !in lines[i]
    ensures Lines(Unlines(lines)) == lines + [[]]
  {
    if lines != [] {
      LinesOfLine(lines[0], Unlines(lines[1..]));
      LinesOfUnlines(lines[1..]);
      assert [lines[0]] + (lines[1..] + [[]]) == lines + [[]];
    }
  }
}
