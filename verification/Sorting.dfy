/** What sort.Ints, sort.Strings and slices.Compact return: the distinct elements in order. */
module Sorting {
  import opened Texts

  ghost predicate Increasing(s: seq<nat>) {
    forall i, j :: 0 <= i < j < |s| ==> s[i] < s[j]
  }

  /** Inserting into an increasing sequence, dropping a duplicate. */
  function Insert(s: seq<nat>, x: nat): (r: seq<nat>) {
    if s == [] then [x]
    else if x < s[0] then [x] + s
    else if x == s[0] then s
    else [s[0]] + Insert(s[1..], x)
  }

  lemma {:induction false} InsertMembers(s: seq<nat>, x: nat)
    ensures forall y :: y in Insert(s, x) <==> y in s || y == x
  {
    if s == [] {
    } else if x < s[0] {
      assert forall y :: y in [x] + s <==> y in s || y == x;
    } else if x != s[0] {
      InsertMembers(s[1..], x);
      assert forall y :: y in s <==> y == s[0] || y in s[1..];
      assert forall y :: y in Insert(s, x) <==> y == s[0] || y in Insert(s[1..], x);
    }
  }

  lemma {:induction false} InsertIncreasing(s: seq<nat>, x: nat)
    requires Increasing(s)
    ensures Increasing(Insert(s, x))
  {
    if s != [] && x > s[0] {
      InsertIncreasing(s[1..], x);
      InsertMembers(s[1..], x);
      var rest := Insert(s[1..], x);
      forall j | 0 <= j < |rest|
        ensures s[0] < rest[j]
      {
        assert rest[j] in rest;
        if rest[j] != x {
          var m :| 0 <= m < |s[1..]| && s[1..][m] == rest[j];
          assert s[m + 1] == rest[j];
        }
      }
    }
  }

  function SortedDistinct(s: seq<nat>): (r: seq<nat>)
    ensures Increasing(r)
    ensures forall y :: y in r <==> y in s
  {
    if s == [] then []
    else
      var rest := SortedDistinct(s[1..]);
      InsertIncreasing(rest, s[0]);
      InsertMembers(rest, s[0]);
      assert forall y :: y in s <==> y == s[0] || y in s[1..];
      Insert(rest, s[0])
  }

  /** An increasing sequence is determined by its elements. */
  lemma {:induction false} IncreasingUnique(a: seq<nat>, b: seq<nat>)
    requires Increasing(a) && Increasing(b)
    requires forall x :: x in a <==> x in b
    ensures a == b
    decreases |a|
  {
    if b != [] {
      assert b[0] in b;
    }
    if a != [] {
      assert a[0] in a && a[0] in b;
      assert b[0] in a;
      assert a[0] == b[0];
      forall x
        ensures x in a[1..] <==> x in b[1..]
      {
        TailMember(a, x);
        TailMember(b, x);
      }
      IncreasingUnique(a[1..], b[1..]);
      assert a == [a[0]] + a[1..] && b == [b[0]] + b[1..];
    }
  }

  lemma TailMember(a: seq<nat>, x: nat)
    requires Increasing(a) && a != []
    ensures x in a[1..] <==> x in a && x != a[0]
  {
    assert a == [a[0]] + a[1..];
  }

  // ------------------------------------------------------ byte-wise text order

  /** The order of Go strings. */
  predicate Below(a: Text, b: Text) {
    if b == [] then false
    else if a == [] then true
    else a[0] < b[0] || (a[0] == b[0] && Below(a[1..], b[1..]))
  }

  predicate Prefix(p: Text, s: Text) {
    |p| <= |s| && s[..|p|] == p
  }

  lemma {:induction false} BelowIrreflexive(a: Text)
    ensures !Below(a, a)
  {
    if a != [] { BelowIrreflexive(a[1..]); }
  }

  lemma {:induction false} BelowTransitive(a: Text, b: Text, c: Text)
    requires Below(a, b) && Below(b, c)
    ensures Below(a, c)
  {
    if a != [] && a[0] == b[0] == c[0] {
      BelowTransitive(a[1..], b[1..], c[1..]);
    }
  }

  lemma {:induction false} BelowTotal(a: Text, b: Text)
    ensures a == b || Below(a, b) || Below(b, a)
  {
    if a != [] && b != [] && a[0] == b[0] {
      BelowTotal(a[1..], b[1..]);
      assert a == [a[0]] + a[1..] && b == [b[0]] + b[1..];
    }
  }

  lemma {:induction false} PrefixStep(p: Text, s: Text)
    requires p != []
    ensures Prefix(p, s) <==> s != [] && p[0] == s[0] && Prefix(p[1..], s[1..])
  {
    if |p| <= |s| {
      assert s[..|p|] == [s[0]] + s[1..][..|p| - 1];
      assert p == [p[0]] + p[1..];
    }
  }

  /** A text is not below any of its prefixes. */
  lemma {:induction false} PrefixNotAbove(p: Text, s: Text)
    requires Prefix(p, s)
    ensures !Below(s, p)
  {
    if p != [] {
      PrefixStep(p, s);
      PrefixNotAbove(p[1..], s[1..]);
    }
  }

  /** Past the end of a prefix range there is no later member: the range is contiguous. */
  lemma {:induction false} PrefixRangeEnds(p: Text, x: Text, y: Text)
    requires !Below(x, p) && !Prefix(p, x) && (x == y || Below(x, y))
    ensures !Prefix(p, y)
  {
    assert x[..0] == [];
    if p != [] && y != [] {
      PrefixStep(p, x);
      PrefixStep(p, y);
      if x != [] && p[0] == x[0] && x[0] == y[0] {
        PrefixRangeEnds(p[1..], x[1..], y[1..]);
      }
    }
  }

  ghost predicate Ordered(s: seq<Text>) {
    forall i, j :: 0 <= i < j < |s| ==> Below(s[i], s[j])
  }

  function InsertText(s: seq<Text>, x: Text): (r: seq<Text>) {
    if s == [] then [x]
    else if Below(x, s[0]) then [x] + s
    else if x == s[0] then s
    else [s[0]] + InsertText(s[1..], x)
  }

  /** sort.Strings followed by slices.Compact. */
  function SortedTexts(s: seq<Text>): (r: seq<Text>) {
    if s == [] then [] else InsertText(SortedTexts(s[1..]), s[0])
  }

  lemma {:induction false} InsertTextMembers(s: seq<Text>, x: Text)
    ensures forall y :: y in InsertText(s, x) <==> y in s || y == x
  {
    if s == [] {
    } else if Below(x, s[0]) {
      assert forall y :: y in [x] + s <==> y in s || y == x;
    } else if x != s[0] {
      InsertTextMembers(s[1..], x);
      assert forall y :: y in s <==> y == s[0] || y in s[1..];
      assert forall y :: y in InsertText(s, x) <==> y == s[0] || y in InsertText(s[1..], x);
    }
  }

  lemma {:induction false} InsertTextOrdered(s: seq<Text>, x: Text)
    requires Ordered(s)
    ensures Ordered(InsertText(s, x))
  {
    if s == [] {
    } else if Below(x, s[0]) {
      forall j | 0 <= j < |s|
        ensures Below(x, s[j])
      {
        if j > 0 { BelowTransitive(x, s[0], s[j]); }
      }
    } else if x != s[0] {
      BelowTotal(x, s[0]);
      InsertTextOrdered(s[1..], x);
      InsertTextMembers(s[1..], x);
      var rest := InsertText(s[1..], x);
      forall j | 0 <= j < |rest|
        ensures Below(s[0], rest[j])
      {
        assert rest[j] in rest;
        if rest[j] != x {
          var m :| 0 <= m < |s[1..]| && s[1..][m] == rest[j];
          assert s[m + 1] == rest[j];
        }
      }
    }
  }

  lemma {:induction false} SortedTextsProperties(s: seq<Text>)
    ensures Ordered(SortedTexts(s))
    ensures forall y :: y in SortedTexts(s) <==> y in s
  {
    if s != [] {
      SortedTextsProperties(s[1..]);
      InsertTextOrdered(SortedTexts(s[1..]), s[0]);
      InsertTextMembers(SortedTexts(s[1..]), s[0]);
      assert forall y :: y in s <==> y == s[0] || y in s[1..];
    }
  }
}
