/** When the order decides in which the two tokens of a load target are visited
    (internal/addoncheck/load_context.go, target: a loop over a map of two entries). */
module TokenOrder {
  import opened Texts
  import opened LoadContext

  /** The two substitutions, one after the other. */
  function Twice(s: Text, token: Text, value: Text, other: Text, second: Text): Text
    requires token != [] && other != []
  {
    ReplaceAll(ReplaceAll(s, token, value), other, second)
  }

  /** A bracketed word of different letters. */
  predicate Token(t: Text) {
    && |t| > 2 && t[0] == '[' && t[|t| - 1] == ']'
    && (forall i :: 1 <= i < |t| - 1 ==> t[i] != '[' && t[i] != ']')
    && forall i, j :: 0 <= i < j < |t| ==> t[i] != t[j]
  }

  predicate Pair(token: Text, other: Text) {
    Token(token) && Token(other) && token[1] != other[1]
  }

  /** At the start of s the token stands where its value completes the other token. */
  predicate FormsWith(s: Text, token: Text, value: Text, other: Text, before: Text, after: Text) {
    before != [] && after != [] && other == before + value + after && before + token + after <= s
  }

  ghost predicate FormsHere(s: Text, token: Text, value: Text, other: Text) {
    exists before, after :: FormsWith(s, token, value, other, before, after)
  }

  /** Somewhere in s the value of the token completes the other token. */
  ghost predicate Forms(s: Text, token: Text, value: Text, other: Text) {
    exists k :: 0 <= k <= |s| && FormsHere(s[k..], token, value, other)
  }

  lemma FormsStep(s: Text, token: Text, value: Text, other: Text, n: nat)
    requires n <= |s| && forall k :: 0 <= k < n ==> !FormsHere(s[k..], token, value, other)
    ensures Forms(s, token, value, other) <==> Forms(s[n..], token, value, other)
  {
    if Forms(s, token, value, other) {
      var k :| 0 <= k <= |s| && FormsHere(s[k..], token, value, other);
      assert k >= n;
      assert s[n..][k - n..] == s[k..];
    }
    if Forms(s[n..], token, value, other) {
      var k :| 0 <= k <= |s[n..]| && FormsHere(s[n..][k..], token, value, other);
      assert s[n..][k..] == s[n + k..];
    }
  }

  lemma FormsShapeWith(s: Text, token: Text, value: Text, other: Text, before: Text, after: Text)
    requires Pair(token, other) && FormsWith(s, token, value, other, before, after)
    ensures |s| > 1 && s[0] == '[' && (s[1] == other[1] || token <= s[1..])
    ensures s[1] != token[1] && !(other <= s)
  {
    var whole := before + token + after;
    assert other[0] == before[0] && s[0] == whole[0] && s[1] == whole[1];
    assert s[|before|] == whole[|before|] == token[0];
    if |before| == 1 {
      assert whole[1..] == token + after;
      assert token <= whole[1..] <= s[1..];
    } else {
      assert other[1] == before[1];
    }
    assert |before| < |other| && other[|before|] != '[';
  }

  /** Only a bracket that is followed by a part of the other token, or by a token, can form it. */
  lemma FormsShape(s: Text, token: Text, value: Text, other: Text)
    requires Pair(token, other) && FormsHere(s, token, value, other)
    ensures |s| > 1 && s[0] == '[' && (s[1] == other[1] || token <= s[1..])
    ensures s[1] != token[1] && !(other <= s)
  {
    var before, after :| FormsWith(s, token, value, other, before, after);
    FormsShapeWith(s, token, value, other, before, after);
  }

  lemma NothingForms(s: Text, token: Text, value: Text, other: Text)
    requires Pair(token, other) && (s == [] || s[0] != '[' || token <= s || other <= s)
    ensures !FormsHere(s, token, value, other)
  {
    if FormsHere(s, token, value, other) { FormsShape(s, token, value, other); }
  }

  lemma WholeTokenFormsNothing(s: Text, start: Text, token: Text, value: Text, other: Text, k: nat)
    requires Pair(token, other) && (start == token || start == other) && start <= s && k < |start|
    ensures !FormsHere(s[k..], token, value, other)
  {
    assert s[k..][0] == s[k] == start[k];
    if k == 0 { assert s[0..] == s; }
    NothingForms(s[k..], token, value, other);
  }

  /** Text with no bracket is copied. */
  lemma {:induction false} Copied(plain: Text, s: Text, token: Text, value: Text)
    requires '[' !in plain && Token(token)
    ensures ReplaceAll(plain + s, token, value) == plain + ReplaceAll(s, token, value)
  {
    if plain == [] {
      assert plain + s == s && plain + ReplaceAll(s, token, value) == ReplaceAll(s, token, value);
    } else {
      assert (plain + s)[0] == plain[0] && (plain + s)[1..] == plain[1..] + s;
      Copied(plain[1..], s, token, value);
    }
  }

  /** A bracket that does not start the token is copied. */
  lemma BracketCopied(s: Text, token: Text, value: Text)
    requires token != [] && s != [] && !(token <= s)
    ensures ReplaceAll(s, token, value) == [s[0]] + ReplaceAll(s[1..], token, value)
  {
  }

  lemma Hit(token: Text, s: Text, value: Text)
    requires token != []
    ensures ReplaceAll(token + s, token, value) == value + ReplaceAll(s, token, value)
  {
    assert (token + s)[|token|..] == s;
  }

  lemma OtherCopied(s: Text, token: Text, value: Text, other: Text)
    requires Pair(token, other)
    ensures ReplaceAll(other + s, token, value) == other + ReplaceAll(s, token, value)
  {
    assert (other + s)[0] == '[' && (other + s)[1] == other[1] && (other + s)[1..] == other[1..] + s;
    BracketCopied(other + s, token, value);
    Copied(other[1..], s, token, value);
    assert ['['] + (other[1..] + ReplaceAll(s, token, value)) == other + ReplaceAll(s, token, value);
  }

  /** What a word read in the replaced text was: completed by one value. */
  predicate MadeWith(u: Text, token: Text, value: Text, word: Text, before: Text, after: Text) {
    after != [] && word == before + value + after && before + token + after <= u
  }

  /** A bracket-free ending, as in "Game]". */
  predicate Ending(w: Text) {
    w != [] && w[|w| - 1] == ']' && '[' !in w && forall i, j :: 0 <= i < j < |w| ==> w[i] != w[j]
  }

  lemma EndingRest(w: Text, n: nat)
    requires Ending(w) && n < |w|
    ensures Ending(w[n..])
  {
    assert forall c :: c in w[n..] ==> c in w;
  }

  /** Two values would repeat a letter. */
  lemma NotTwice(word: Text, value: Text, before: Text, after: Text)
    requires Ending(word) && value != []
    ensures word != value + (before + value + after)
  {
    var twice := value + (before + value + after);
    assert twice[0] == value[0] && twice[|value| + |before|] == value[0];
  }

  lemma ValueEndsInside(word: Text, value: Text, rest: Text)
    requires Ending(word) && !Bracketed(value) && word <= value + rest
    ensures |value| < |word| && word == value + word[|value|..] && word[|value|..] <= rest
  {
    var whole := value + rest;
    assert word[|word| - 1] == whole[|word| - 1];
    assert whole[|value|..] == rest;
    if |word| > |value| { assert word[..|value|] == whole[..|value|] == value; }
  }

  lemma ConsFirst(c: Octet, a: Text, b: Text, d: Text)
    ensures ([c] + a) + b + d == [c] + (a + b + d)
  {
  }

  lemma ConsPrefix(c: Octet, a: Text, b: Text)
    ensures [c] + a <= [c] + b <==> a <= b
  {
    assert ([c] + a)[1..] == a && ([c] + b)[1..] == b;
  }

  lemma HeadAndTail(s: Text)
    requires s != []
    ensures s == [s[0]] + s[1..]
  {
  }

  lemma {:induction false} Made(u: Text, token: Text, value: Text, word: Text) returns (before: Text, after: Text)
    requires Token(token) && Ending(word) && value != [] && !Bracketed(value)
    requires word <= ReplaceAll(u, token, value) && !(word <= u)
    ensures MadeWith(u, token, value, word, before, after)
    decreases |u|
  {
    if token <= u {
      var later := u[|token|..];
      ValueEndsInside(word, value, ReplaceAll(later, token, value));
      before, after := [], word[|value|..];
      EndingRest(word, |value|);
      if after <= later {
        assert u == token + later && before + token + after == token + after;
        assert before + value + after == value + after;
      } else {
        var b, a := Made(later, token, value, after);
        NotTwice(word, value, b, a);
      }
    } else {
      var c, later := u[0], u[1..];
      MadeCopied(u, token, value, word);
      EndingRest(word, 1);
      var b, a := Made(later, token, value, word[1..]);
      before, after := [c] + b, a;
      ConsFirst(c, b, token, after);
      ConsFirst(c, b, value, after);
      ConsPrefix(c, b + token + after, later);
    }
  }

  lemma MadeCopied(u: Text, token: Text, value: Text, word: Text)
    requires token != [] && !(token <= u) && Ending(word)
    requires word <= ReplaceAll(u, token, value) && !(word <= u)
    ensures u != [] && |word| > 1 && word == [u[0]] + word[1..]
    ensures word[1..] <= ReplaceAll(u[1..], token, value) && !(word[1..] <= u[1..])
  {
    BracketCopied(u, token, value);
    var whole := [u[0]] + ReplaceAll(u[1..], token, value);
    assert word[0] == whole[0] && whole[1..] == ReplaceAll(u[1..], token, value);
    assert u == [u[0]] + u[1..];
    HeadAndTail(word);
    if word[1..] == [] { assert false; }
  }

  lemma MadeAppears(u: Text, token: Text, value: Text, word: Text, before: Text, after: Text)
    requires Token(token) && Ending(word) && MadeWith(u, token, value, word, before, after)
    ensures word <= ReplaceAll(u, token, value)
  {
    var whole := before + token + after;
    var rest := u[|whole|..];
    assert u == before + (token + (after + rest));
    NoBracketIn(word, before, value, after);
    Copied(before, token + (after + rest), token, value);
    Hit(token, after + rest, value);
    Copied(after, rest, token, value);
    Reassociate(before, value, after, ReplaceAll(rest, token, value));
  }

  lemma NoBracketIn(word: Text, before: Text, value: Text, after: Text)
    requires '[' !in word && word == before + value + after
    ensures '[' !in before && '[' !in after
  {
    assert forall c :: c in before ==> c in word;
    assert forall c :: c in after ==> c in word;
  }

  lemma Reassociate(a: Text, b: Text, c: Text, d: Text)
    ensures a + (b + (c + d)) == (a + b + c) + d
  {
  }

  lemma EndingOf(other: Text)
    requires Token(other)
    ensures Ending(other[1..])
  {
    assert forall i :: 0 <= i < |other| - 1 ==> other[1..][i] == other[i + 1];
  }

  /** The first substitution makes the other token in front of this bracket. */
  lemma FormedIsMade(s: Text, token: Text, value: Text, other: Text)
    requires Pair(token, other) && s != [] && s[0] == '[' && !(token <= s)
    requires FormsHere(s, token, value, other)
    ensures other <= ReplaceAll(s, token, value)
  {
    var before, after :| FormsWith(s, token, value, other, before, after);
    FormedMade(s, token, value, other, before, after);
    EndingOf(other);
    MadeAppears(s[1..], token, value, other[1..], before[1..], after);
    BracketCopied(s, token, value);
    HeadAndTail(other);
    ConsPrefix('[', other[1..], ReplaceAll(s[1..], token, value));
  }

  /** Behind the bracket. */
  lemma FormedMade(s: Text, token: Text, value: Text, other: Text, before: Text, after: Text)
    requires Pair(token, other) && s != [] && s[0] == '[' && FormsWith(s, token, value, other, before, after)
    ensures before != [] && MadeWith(s[1..], token, value, other[1..], before[1..], after)
  {
    assert before[0] == other[0];
    HeadAndTail(before);
    HeadAndTail(s);
    ConsFirst('[', before[1..], token, after);
    ConsFirst('[', before[1..], value, after);
    ConsPrefix('[', before[1..] + token + after, s[1..]);
  }

  /** In front of a bracket that starts no token, the first substitution makes the other token
      exactly where its value completes it. */
  lemma FormedHere(s: Text, token: Text, value: Text, other: Text)
    requires Pair(token, other) && value != [] && !Bracketed(value)
    requires s != [] && s[0] == '[' && !(token <= s) && !(other <= s)
    ensures other <= ReplaceAll(s, token, value) <==> FormsHere(s, token, value, other)
  {
    if FormsHere(s, token, value, other) {
      FormedIsMade(s, token, value, other);
    }
    if other <= ReplaceAll(s, token, value) {
      var u, word := s[1..], other[1..];
      EndingOf(other);
      BracketCopied(s, token, value);
      HeadAndTail(other);
      HeadAndTail(s);
      ConsPrefix('[', word, ReplaceAll(u, token, value));
      ConsPrefix('[', word, u);
      var b, a := Made(u, token, value, word);
      ConsFirst('[', b, value, a);
      ConsFirst('[', b, token, a);
      ConsPrefix('[', b + token + a, u);
      assert FormsWith(s, token, value, other, ['['] + b, a);
    }
  }

  lemma TwiceAtToken(s: Text, token: Text, value: Text, other: Text, second: Text)
    requires Pair(token, other) && '[' !in value
    ensures Twice(token + s, token, value, other, second) == value + Twice(s, token, value, other, second)
  {
    Hit(token, s, value);
    Copied(value, ReplaceAll(s, token, value), other, second);
  }

  lemma TwiceAtOther(s: Text, token: Text, value: Text, other: Text, second: Text)
    requires Pair(token, other)
    ensures Twice(other + s, token, value, other, second) == second + Twice(s, token, value, other, second)
  {
    OtherCopied(s, token, value, other);
    Hit(other, ReplaceAll(s, token, value), second);
  }

  lemma TwiceAtLetter(s: Text, token: Text, value: Text, other: Text, second: Text)
    requires Pair(token, other) && s != [] && s[0] != '['
    ensures Twice(s, token, value, other, second) == [s[0]] + Twice(s[1..], token, value, other, second)
  {
    BracketCopied(s, token, value);
    BracketCopied(ReplaceAll(s, token, value), other, second);
  }

  /** A bracket that starts no token: copied, unless the value completes the other token there. */
  lemma TwiceAtBracket(s: Text, token: Text, value: Text, other: Text, second: Text)
    requires Pair(token, other) && value != [] && !Bracketed(value) && second != []
    requires s != [] && s[0] == '[' && !(token <= s) && !(other <= s)
    ensures !FormsHere(s, token, value, other) ==>
              Twice(s, token, value, other, second) == ['['] + Twice(s[1..], token, value, other, second)
    ensures FormsHere(s, token, value, other) ==>
              Twice(s, token, value, other, second) != [] && Twice(s, token, value, other, second)[0] == second[0]
  {
    FormedHere(s, token, value, other);
    BracketCopied(s, token, value);
    var r := ReplaceAll(s, token, value);
    if FormsHere(s, token, value, other) {
      assert r == other + r[|other|..];
      Hit(other, r[|other|..], second);
    } else {
      BracketCopied(r, other, second);
    }
  }

  /** One bracket cannot start a text that forms both tokens. */
  lemma NotBothForm(s: Text, token: Text, value: Text, other: Text, second: Text)
    requires Pair(token, other)
    ensures !(FormsHere(s, token, value, other) && FormsHere(s, other, second, token))
  {
    if FormsHere(s, token, value, other) && FormsHere(s, other, second, token) {
      FormsShape(s, token, value, other);
      FormsShape(s, other, second, token);
    }
  }

  lemma FormsHead(s: Text, token: Text, value: Text, other: Text)
    requires s != []
    ensures Forms(s, token, value, other) <==> FormsHere(s, token, value, other) || Forms(s[1..], token, value, other)
  {
    assert s[0..] == s;
    if FormsHere(s, token, value, other) {
    } else {
      FormsStep(s, token, value, other, 1);
    }
  }

  lemma SamePrefix(p: Text, a: Text, b: Text)
    ensures p + a == p + b <==> a == b
  {
    assert (p + a)[|p|..] == a && (p + b)[|p|..] == b;
  }

  lemma FormsAfterToken(start: Text, rest: Text, token: Text, value: Text, other: Text)
    requires Pair(token, other) && (start == token || start == other)
    ensures Forms(start + rest, token, value, other) <==> Forms(rest, token, value, other)
  {
    var s := start + rest;
    forall k | 0 <= k < |start|
      ensures !FormsHere(s[k..], token, value, other)
    {
      WholeTokenFormsNothing(s, start, token, value, other, k);
    }
    FormsStep(s, token, value, other, |start|);
    assert s[|start|..] == rest;
  }

  /** Both orders give the same text exactly when neither value completes the other token; when
      they differ one of the texts still holds a bracket. */
  lemma {:induction false} OrdersAgree(s: Text, token: Text, value: Text, other: Text, second: Text)
    requires Pair(token, other) && value != [] && second != [] && !Bracketed(value) && !Bracketed(second)
    ensures Twice(s, token, value, other, second) == Twice(s, other, second, token, value)
            <==> !Forms(s, token, value, other) && !Forms(s, other, second, token)
    ensures Twice(s, token, value, other, second) != Twice(s, other, second, token, value)
            ==> '[' in Twice(s, token, value, other, second) || '[' in Twice(s, other, second, token, value)
    decreases |s|, !(token <= s)
  {
    if s == [] {
      NothingForms([], token, value, other);
      NothingForms([], other, second, token);
    } else if token <= s {
      var rest := s[|token|..];
      assert s == token + rest;
      TwiceAtToken(rest, token, value, other, second);
      TwiceAtOther(rest, other, second, token, value);
      FormsAfterToken(token, rest, token, value, other);
      FormsAfterToken(token, rest, other, second, token);
      OrdersAgree(rest, token, value, other, second);
      SamePrefix(value, Twice(rest, token, value, other, second), Twice(rest, other, second, token, value));
    } else if other <= s {
      OrdersAgree(s, other, second, token, value);
    } else {
      FormsHead(s, token, value, other);
      FormsHead(s, other, second, token);
      OrdersAgree(s[1..], token, value, other, second);
      SamePrefix([s[0]], Twice(s[1..], token, value, other, second), Twice(s[1..], other, second, token, value));
      if s[0] != '[' {
        TwiceAtLetter(s, token, value, other, second);
        TwiceAtLetter(s, other, second, token, value);
        NothingForms(s, token, value, other);
        NothingForms(s, other, second, token);
      } else {
        TwiceAtBracket(s, token, value, other, second);
        TwiceAtBracket(s, other, second, token, value);
        NotBothForm(s, token, value, other, second);
      }
    }
  }

  // ------------------------------------------------------------------- whole answers

  /** Checkable before the call: the line is not excluded, both fields are set, and in the stripped
      path one token stands inside brackets that its value turns into the other token. */
  ghost predicate OrderDecides(c: Client, raw: Text) {
    var t := Strip(c, Target(TrimSpace(raw), true, true));
    && t.included && c.family != [] && c.game != []
    && (Forms(t.path, FAMILY, c.family, GAME) || Forms(t.path, GAME, c.game, FAMILY))
  }

  /** With one field empty the visiting order never matters. */
  lemma EmptyFieldAgrees(c: Client, t: Target)
    requires c.family == [] || c.game == []
    ensures FillTokens(c, t, true).path == FillTokens(c, t, false).path
    ensures !Bracketed(FillTokens(c, t, true).path) ==> FillTokens(c, t, true) == FillTokens(c, t, false)
  {
    var u := FillTokens(c, t, true).path;
    if !Bracketed(u) {
      UnbracketedHasNoToken(u, FAMILY);
      UnbracketedHasNoToken(u, GAME);
      if Contains(t.path, FAMILY) && c.family == [] {
        var i :| 0 <= i <= |t.path| && OccursAt(t.path, FAMILY, i);
        OtherTokenLeft(t.path, GAME, FAMILY, c.game, i);
      }
      if Contains(t.path, GAME) && c.game == [] {
        var i :| 0 <= i <= |t.path| && OccursAt(t.path, GAME, i);
        OtherTokenLeft(t.path, FAMILY, GAME, c.family, i);
      }
    }
  }

  lemma {:induction false} AbsentKept(s: Text, token: Text, value: Text)
    requires token != [] && !Contains(s, token)
    ensures ReplaceAll(s, token, value) == s
    decreases |s|
  {
    if s != [] {
      if token <= s { assert OccursAt(s, token, 0); }
      if Contains(s[1..], token) {
        var i :| 0 <= i <= |s[1..]| && OccursAt(s[1..], token, i);
        assert OccursAt(s, token, i + 1);
      }
      AbsentKept(s[1..], token, value);
    }
  }

  lemma FilledIsReplaced(t: Target, token: Text, value: Text)
    requires token != [] && value != []
    ensures Fill(t, token, value) == t.(path := ReplaceAll(t.path, token, value))
  {
    if !Contains(t.path, token) { AbsentKept(t.path, token, value); }
  }

  lemma FilledIsTwice(c: Client, t: Target)
    requires c.family != [] && c.game != []
    ensures FillTokens(c, t, true) == t.(path := Twice(t.path, FAMILY, c.family, GAME, c.game))
    ensures FillTokens(c, t, false) == t.(path := Twice(t.path, GAME, c.game, FAMILY, c.family))
  {
    FilledIsReplaced(t, FAMILY, c.family);
    FilledIsReplaced(Fill(t, FAMILY, c.family), GAME, c.game);
    FilledIsReplaced(t, GAME, c.game);
    FilledIsReplaced(Fill(t, GAME, c.game), FAMILY, c.family);
  }

  lemma TokensPair()
    ensures Pair(FAMILY, GAME)
  {
  }

  /** Both fields set. */
  lemma FillingsAgree(c: Client, t: Target)
    requires c.family != [] && c.game != [] && !Bracketed(c.family) && !Bracketed(c.game)
    ensures FillTokens(c, t, true) == FillTokens(c, t, false)
            <==> !Forms(t.path, FAMILY, c.family, GAME) && !Forms(t.path, GAME, c.game, FAMILY)
    ensures FillTokens(c, t, true) == FillTokens(c, t, false) || Bracketed(FillTokens(c, t, true).path)
            || Bracketed(FillTokens(c, t, false).path)
    ensures FillTokens(c, t, true).known == FillTokens(c, t, false).known == t.known
  {
    FilledIsTwice(c, t);
    TokensPair();
    OrdersAgree(t.path, FAMILY, c.family, GAME, c.game);
  }

  /** The whole answer is the same in both orders exactly when no token forms the other one; two
      known answers are always the same. */
  lemma AnswersAgree(c: Client, raw: Text)
    requires !Bracketed(c.family) && !Bracketed(c.game)
    ensures Resolve(c, raw, true) == Resolve(c, raw, false) <==> !OrderDecides(c, raw)
    ensures Resolve(c, raw, true).known && Resolve(c, raw, false).known
            ==> Resolve(c, raw, true) == Resolve(c, raw, false)
  {
    var t := Strip(c, Target(TrimSpace(raw), true, true));
    if t.included {
      if c.family != [] && c.game != [] {
        FillingsAgree(c, t);
      } else {
        EmptyFieldAgrees(c, t);
      }
    }
  }

  /** A value with a first letter that the other token lacks, or as long as its word, completes nothing. */
  lemma ForeignValue(s: Text, token: Text, value: Text, other: Text)
    requires |value| + 2 > |other| || (value != [] && value[0] !in other)
    ensures !Forms(s, token, value, other)
  {
    forall before: Text, after: Text | before != [] && after != []
      ensures other != before + value + after
    {
      var whole := before + value + after;
      if value != [] { assert whole[|before|] == value[0]; }
    }
  }

  predicate SourceFamily(family: Text) {
    family == [] || family == "Mainline" || family == "Classic"
  }

  predicate SourceGame(game: Text) {
    game == [] || game == "Standard" || game == "Mists" || game == "Vanilla" || game == "TBC" || game == "Camelot"
  }

  lemma FamilyForeign(family: Text)
    requires SourceFamily(family) && family != []
    ensures !Bracketed(family) && |family| + 2 > |GAME|
  {
  }

  lemma GameForeign(game: Text)
    requires SourceGame(game) && game != []
    ensures !Bracketed(game) && (|game| + 2 > |FAMILY| || game[0] !in FAMILY)
  {
  }

  /** The contexts that the repository itself selects never depend on the order. */
  lemma SourceContextsAgree(c: Client, raw: Text)
    requires SourceFamily(c.family) && SourceGame(c.game)
    ensures Resolve(c, raw, true) == Resolve(c, raw, false)
  {
    var path := Strip(c, Target(TrimSpace(raw), true, true)).path;
    if c.family != [] {
      FamilyForeign(c.family);
      ForeignValue(path, FAMILY, c.family, GAME);
    }
    if c.game != [] {
      GameForeign(c.game);
      ForeignValue(path, GAME, c.game, FAMILY);
    }
    AnswersAgree(c, raw);
  }

  // ------------------------------------------------------------------- an input that fails

  /** A value between two bracket-free ends, behind a bracket. */
  lemma FilledBetween(s: Text, token: Text, value: Text, other: Text, before: Text, after: Text)
    requires Pair(token, other) && other == before + value + after && before != [] && s == before + token + after
    ensures ReplaceAll(s, token, value) == other
  {
    assert before[0] == other[0] && '[' !in before[1..] && '[' !in after by {
      assert forall i :: 1 <= i < |before| ==> before[i] == other[i];
      assert forall i :: 0 <= i < |after| ==> after[i] == other[|before| + |value| + i];
    }
    var tail := before[1..] + (token + after);
    assert s == ['['] + tail;
    assert tail != [] && tail[0] != token[1];
    BracketCopied(s, token, value);
    Copied(before[1..], token + after, token, value);
    Hit(token, after, value);
    Copied(after, [], token, value);
    assert after + [] == after;
    assert before == ['['] + before[1..];
    Reassociate(['['], before[1..], value, after);
  }

  lemma WitnessParts(s: Text, before: Text, after: Text)
    requires s == "[Fa[Game]ly]" && before == "[Fa" && after == "ly]"
    ensures FAMILY == before + "mi" + after && s == before + GAME + after
  {
  }

  lemma WitnessTrimmed(s: Text)
    requires s == "[Fa[Game]ly]"
    ensures TrimSpace(s) == s
  {
    assert !IsSpace(s[0]) && !IsSpace(s[|s| - 1]);
  }

  /** Its last bracket is no condition: no space stands before it. */
  lemma WitnessStripped(c: Client, s: Text, t: Target)
    requires s == "[Fa[Game]ly]" && t.path == s
    ensures Strip(c, t) == t
  {
    LastBracketAt(s, 3);
  }

  lemma {:induction false} LastBracketAt(s: Text, k: nat)
    requires k < |s| && s[k] == '[' && forall i :: k < i < |s| ==> s[i] != '['
    ensures LastBracket(s) == k
  {
    if k < |s| - 1 { LastBracketAt(s[..|s| - 1], k); }
  }

  lemma WholeReplaced(token: Text, value: Text)
    requires token != []
    ensures ReplaceAll(token, token, value) == value
  {
    Hit(token, [], value);
    assert token + [] == token && value + [] == value;
  }

  /** The game completes the other token, and the family then fills it. */
  lemma FilledThrough(c: Client, t: Target, before: Text, after: Text)
    requires c.family != [] && c.game != [] && before != []
    requires FAMILY == before + c.game + after && t.path == before + GAME + after
    ensures FillTokens(c, t, false).path == c.family
  {
    FilledIsTwice(c, t);
    TokensPair();
    FilledBetween(t.path, GAME, c.game, FAMILY, before, after);
    WholeReplaced(FAMILY, c.family);
  }

  lemma WitnessForms(s: Text)
    requires s == "[Fa[Game]ly]"
    ensures Forms(s, GAME, "mi", FAMILY)
  {
    WitnessParts(s, "[Fa", "ly]");
    assert s[0..] == s;
    assert FormsWith(s, GAME, "mi", FAMILY, "[Fa", "ly]");
  }

  /** The visiting order decides whether this target is known. */
  lemma OrderMatters(c: Client, s: Text)
    requires c == Client("x", "mi") && s == "[Fa[Game]ly]"
    ensures Resolve(c, s, false) == Target("x", true, true) && !Resolve(c, s, true).known
  {
    var t := Target(s, true, true);
    WitnessTrimmed(s);
    WitnessStripped(c, s, t);
    WitnessParts(s, "[Fa", "ly]");
    FilledThrough(c, t, "[Fa", "ly]");
    WitnessForms(s);
    AnswersAgree(c, s);
  }
}
