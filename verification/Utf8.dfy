/** UTF-8 as section 4 of RFC 3629 defines it, and Go's replacement of invalid bytes. */
module Utf8 {
  import opened Texts

  predicate Tail(c: Octet) {
    0x80 as char <= c <= 0xBF as char
  }

  predicate Within(c: Octet, low: Octet, high: Octet) {
    low <= c <= high
  }

  /** The length of the well-formed code point a text starts with, or 0. */
  function RuneLength(s: Text): (n: nat)
    ensures n <= 4 && n <= |s|
  {
    if s == [] then 0
    else
      var c := s[0];
      if c < 0x80 as char then 1
      else if |s| >= 2 && Within(c, 0xC2 as char, 0xDF as char) && Tail(s[1]) then 2
      else if |s| >= 3 && ThreeHead(c, s[1]) && Tail(s[2]) then 3
      else if |s| >= 4 && FourHead(c, s[1]) && Tail(s[2]) && Tail(s[3]) then 4
      else 0
  }

  predicate ThreeHead(c: Octet, d: Octet) {
    (c == 0xE0 as char && Within(d, 0xA0 as char, 0xBF as char)) ||
    (Within(c, 0xE1 as char, 0xEC as char) && Tail(d)) ||
    (c == 0xED as char && Within(d, 0x80 as char, 0x9F as char)) ||
    (Within(c, 0xEE as char, 0xEF as char) && Tail(d))
  }

  predicate FourHead(c: Octet, d: Octet) {
    (c == 0xF0 as char && Within(d, 0x90 as char, 0xBF as char)) ||
    (Within(c, 0xF1 as char, 0xF3 as char) && Tail(d)) ||
    (c == 0xF4 as char && Within(d, 0x80 as char, 0x8F as char))
  }

  predicate Valid(s: Text)
    decreases |s|
  {
    s == [] || (RuneLength(s) > 0 && Valid(s[RuneLength(s)..]))
  }

  /** A code point's length depends on no octet after it. */
  lemma RuneOfMore(s: Text, t: Text)
    requires RuneLength(s) > 0
    ensures RuneLength(s + t) == RuneLength(s)
  {
    assert forall i :: 0 <= i < |s| ==> (s + t)[i] == s[i];
  }

  lemma {:induction false} ValidTogether(s: Text, t: Text)
    requires Valid(s) && Valid(t)
    ensures Valid(s + t)
    decreases |s|
  {
    if s == [] {
      assert s + t == t;
    } else {
      var n := RuneLength(s);
      RuneOfMore(s, t);
      assert (s + t)[n..] == s[n..] + t;
      ValidTogether(s[n..], t);
    }
  }

  /** What follows a whole number of code points is whole as well. */
  lemma {:induction false} ValidRest(s: Text, t: Text)
    requires Valid(s) && Valid(s + t)
    ensures Valid(t)
    decreases |s|
  {
    if s == [] {
      assert s + t == t;
    } else {
      var n := RuneLength(s);
      RuneOfMore(s, t);
      assert (s + t)[n..] == s[n..] + t;
      ValidRest(s[n..], t);
    }
  }

  lemma {:induction false} AsciiValid(s: Text)
    requires forall i :: 0 <= i < |s| ==> s[i] < 0x80 as char
    ensures Valid(s)
    decreases |s|
  {
    if s != [] { AsciiValid(s[1..]); }
  }

  /** The first code point fits any valid text with room for its octets. */
  lemma RuneIsValid(s: Text)
    requires RuneLength(s) > 0
    ensures Valid(s[..RuneLength(s)])
  {
    var n := RuneLength(s);
    var r := s[..n];
    assert RuneLength(r) == n;
    assert r[n..] == [];
  }

  /** strings.ToValidUTF8: each run of invalid octets becomes one replacement. */
  function ToValidFrom(s: Text, replacement: Text, invalid: bool): Text
    decreases |s|
  {
    if s == [] then []
    else if RuneLength(s) == 0 then (if invalid then [] else replacement) + ToValidFrom(s[1..], replacement, true)
    else s[..RuneLength(s)] + ToValidFrom(s[RuneLength(s)..], replacement, false)
  }

  function ToValid(s: Text, replacement: Text): Text {
    ToValidFrom(s, replacement, false)
  }

  lemma {:induction false} ToValidIsValid(s: Text, replacement: Text, invalid: bool)
    requires Valid(replacement)
    ensures Valid(ToValidFrom(s, replacement, invalid))
    decreases |s|
  {
    if s != [] {
      if RuneLength(s) == 0 {
        ToValidIsValid(s[1..], replacement, true);
        ValidTogether(if invalid then [] else replacement, ToValidFrom(s[1..], replacement, true));
      } else {
        var n := RuneLength(s);
        RuneIsValid(s);
        ToValidIsValid(s[n..], replacement, false);
        ValidTogether(s[..n], ToValidFrom(s[n..], replacement, false));
      }
    }
  }

  /** Valid text is displayed as it is. */
  lemma {:induction false} ToValidKeeps(s: Text, replacement: Text)
    requires Valid(s)
    ensures ToValid(s, replacement) == s
    decreases |s|
  {
    if s != [] {
      var n := RuneLength(s);
      ToValidKeeps(s[n..], replacement);
      assert s == s[..n] + s[n..];
    }
  }

  /** Dropping an ASCII octet from the end keeps the text whole. */
  lemma {:induction false} DropAscii(s: Text, c: Octet)
    requires Valid(s + [c]) && c < 0x80 as char
    ensures Valid(s)
    decreases |s|
  {
    if s != [] {
      var n := RuneLength(s + [c]);
      assert forall i :: 0 <= i < |s| ==> (s + [c])[i] == s[i];
      assert (s + [c])[|s|] == c;
      assert n <= |s|;
      assert RuneLength(s) == n;
      assert (s + [c])[n..] == s[n..] + [c];
      DropAscii(s[n..], c);
    }
  }
}
