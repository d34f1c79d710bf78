/** Load conditions and path tokens of one selected client (internal/addoncheck/load_context.go).
    Empty fields are unknown. White space and letter case are those of ASCII. */
module LoadContext {
  import opened Wrappers
  import opened Texts

  datatype Client = Client(family: Text, game: Text)

  // -------------------------------------------------------------- text functions

  predicate IsSpace(c: char) {
    c == ' ' || ('\t' <= c <= '\r')
  }

  /** unicode.IsSpace of one byte taken as a code point. */
  predicate IsSpaceByte(c: Octet) {
    IsSpace(c) || c == 0x85 as Octet || c == 0xA0 as Octet
  }

  function Lower(c: Octet): Octet {
    if 'A' <= c <= 'Z' then c + 32 as char else c
  }

  function ToLower(s: Text): Text {
    seq(|s|, i requires 0 <= i < |s| => Lower(s[i]))
  }

  predicate EqualFold(a: Text, b: Text) {
    ToLower(a) == ToLower(b)
  }

  function TrimLeft(s: Text): (r: Text)
    ensures |r| <= |s|
  {
    if s != [] && IsSpace(s[0]) then TrimLeft(s[1..]) else s
  }

  function TrimRight(s: Text): (r: Text)
    ensures |r| <= |s|
  {
    if s != [] && IsSpace(s[|s| - 1]) then TrimRight(s[..|s| - 1]) else s
  }

  function TrimSpace(s: Text): (r: Text)
    ensures |r| <= |s|
  {
    TrimRight(TrimLeft(s))
  }

  /** The maximal runs of octets that do not separate. */
  function FieldsFrom(s: Text, separates: Octet -> bool, run: Text): seq<Text>
    decreases |s|
  {
    if s == [] then (if run == [] then [] else [run])
    else if separates(s[0]) then (if run == [] then [] else [run]) + FieldsFrom(s[1..], separates, [])
    else FieldsFrom(s[1..], separates, run + [s[0]])
  }

  function Fields(s: Text): seq<Text> {
    FieldsFrom(s, (c: Octet) => IsSpace(c), [])
  }

  function Tags(s: Text): seq<Text> {
    FieldsFrom(ToLower(s), (c: Octet) => c == ',' || IsSpace(c), [])
  }

  function Joined(parts: seq<Text>): Text {
    if parts == [] then []
    else if |parts| == 1 then parts[0]
    else parts[0] + " " + Joined(parts[1..])
  }

  function TrimColon(s: Text): Text {
    if s != [] && s[|s| - 1] == ':' then s[..|s| - 1] else s
  }

  /** The position of the last '[', or -1. */
  function LastBracket(s: Text): (i: int)
    ensures -1 <= i < |s|
    ensures i >= 0 ==> s[i] == '['
  {
    if s == [] then -1 else if s[|s| - 1] == '[' then |s| - 1 else LastBracket(s[..|s| - 1])
  }

  function ReplaceAll(s: Text, token: Text, value: Text): Text
    requires token != []
    decreases |s|
  {
    if s == [] then []
    else if token <= s then value + ReplaceAll(s[|token|..], token, value)
    else [s[0]] + ReplaceAll(s[1..], token, value)
  }

  predicate Bracketed(s: Text) {
    '[' in s || ']' in s
  }

  // ------------------------------------------------------------------ conditions

  datatype Verdict = Verdict(included: bool, known: bool)

  datatype Match = Match(matched: bool, resolved: bool)

  function TagMatch(c: Client, tag: Text): Match {
    if tag == "mainline" || tag == "classic" then Match(EqualFold(c.family, tag), c.family != [])
    else if tag == "standard" then Match(c.game != [] && !EqualFold(c.game, "Camelot"), c.game != [])
    else if tag == "plunderstorm" || tag == "wowhack" then Match(false, true)
    else if tag == "vanilla" || tag == "tbc" || tag == "wrath" || tag == "cata" || tag == "mists" ||
        tag == "camelot" then
      Match(EqualFold(c.game, tag), c.game != [])
    else Match(false, false)
  }

  ghost predicate SomeMatches(c: Client, tags: seq<Text>) {
    exists i :: 0 <= i < |tags| && TagMatch(c, tags[i]) == Match(true, true)
  }

  ghost predicate AllResolved(c: Client, tags: seq<Text>) {
    forall i :: 0 <= i < |tags| ==> TagMatch(c, tags[i]).resolved
  }

  /** A list of game types: included and known at the first resolved match, otherwise known
      only when the list is not empty and every tag was resolved. */
  ghost function ListVerdict(c: Client, tags: seq<Text>): Verdict {
    if SomeMatches(c, tags) then Verdict(true, true) else Verdict(false, tags != [] && AllResolved(c, tags))
  }

  /** What condition answers. */
  ghost function Judge(c: Client, key: Text, value: Text): Verdict {
    var k := ToLower(key);
    if k == "allowload" then
      var phase := ToLower(TrimSpace(value));
      if phase == "game" || phase == "both" then Verdict(true, true)
      else if phase == "glue" then Verdict(false, true) else Verdict(false, false)
    else if k == "allowloadgametype" then ListVerdict(c, Tags(value))
    else if k == "excludeloadgametype" then
      var v := ListVerdict(c, Tags(value));
      Verdict(!v.included, v.known)
    else Verdict(false, false)
  }

  method Condition(c: Client, key: Text, value: Text) returns (v: Verdict)
    ensures v == Judge(c, key, value)
  {
    var k := ToLower(key);
    if k == "allowload" {
      var phase := ToLower(TrimSpace(value));
      if phase == "game" || phase == "both" {
        return Verdict(true, true);
      } else if phase == "glue" {
        return Verdict(false, true);
      }
      return Verdict(false, false);
    }
    if k != "allowloadgametype" && k != "excludeloadgametype" {
      return Verdict(false, false);
    }
    var tags := Tags(value);
    var included, known := false, |tags| > 0;
    var i := 0;
    while i < |tags|
      invariant 0 <= i <= |tags| && !included
      invariant forall j :: 0 <= j < i ==> TagMatch(c, tags[j]) != Match(true, true)
      invariant known <==> tags != [] && forall j :: 0 <= j < i ==> TagMatch(c, tags[j]).resolved
    {
      var m := TagMatch(c, tags[i]);
      if m.matched && m.resolved {
        included, known := true, true;
        break;
      }
      known := known && m.resolved;
      i := i + 1;
    }
    if i < |tags| {
      assert SomeMatches(c, tags);
    }
    if k == "excludeloadgametype" {
      included := !included;
    }
    return Verdict(included, known);
  }

  // -------------------------------------------------------------- targets of a load

  datatype Target = Target(path: Text, included: bool, known: bool)

  const FAMILY: Text := "[Family]"
  const GAME: Text := "[Game]"

  /** Where a trailing condition starts, or 0 when there is none. */
  function ConditionStart(target: Text): (i: nat)
    ensures i < |target| || (i == 0 && target == [])
    ensures i > 0 ==> target[|target| - 1] == ']' && target[i] == '[' && i < |target| - 1
  {
    if target == [] || target[|target| - 1] != ']' then 0
    else
      var start := LastBracket(target);
      if start <= 0 || !IsSpaceByte(target[start - 1]) then 0 else start
  }

  function ConditionFields(target: Text): seq<Text>
    requires ConditionStart(target) > 0
  {
    Fields(target[ConditionStart(target) + 1..|target| - 1])
  }

  ghost function FieldsVerdict(c: Client, fields: seq<Text>): Verdict {
    if fields == [] then Verdict(true, false) else Judge(c, TrimColon(fields[0]), Joined(fields[1..]))
  }

  /** The trailing conditions, last one first. */
  ghost function Strip(c: Client, t: Target): Target
    decreases |t.path|
  {
    var start := ConditionStart(t.path);
    if start == 0 then t
    else
      var v := FieldsVerdict(c, ConditionFields(t.path));
      Strip(c, Target(TrimSpace(t.path[..start]), t.included && !(v.known && !v.included), t.known && v.known))
  }

  /** One token of the path; an unknown value leaves the whole target unknown. */
  function Fill(t: Target, token: Text, value: Text): Target
    requires token != []
  {
    if !Contains(t.path, token) then t
    else if value == [] then t.(known := false)
    else t.(path := ReplaceAll(t.path, token, value))
  }

  /** The tokens in the order a map of two entries happens to be visited. */
  function FillTokens(c: Client, t: Target, familyFirst: bool): Target {
    if familyFirst then Fill(Fill(t, FAMILY, c.family), GAME, c.game)
    else Fill(Fill(t, GAME, c.game), FAMILY, c.family)
  }

  /** What target answers. */
  ghost function Resolve(c: Client, raw: Text, familyFirst: bool): Target {
    var t := Strip(c, Target(TrimSpace(raw), true, true));
    if !t.included then t.(known := true)
    else
      var u := FillTokens(c, t, familyFirst);
      if Bracketed(u.path) then u.(known := false) else u
  }

  method ResolveTarget(c: Client, raw: Text, familyFirst: bool) returns (t: Target)
    ensures t == Resolve(c, raw, familyFirst)
  {
    var target, included, known := TrimSpace(raw), true, true;
    var start := ConditionStart(target);
    while start > 0
      invariant start == ConditionStart(target)
      invariant Strip(c, Target(TrimSpace(raw), true, true)) == Strip(c, Target(target, included, known))
      decreases |target|
    {
      var fields := ConditionFields(target);
      if |fields| == 0 {
        known := false;
      } else {
        var v := Condition(c, TrimColon(fields[0]), Joined(fields[1..]));
        if v.known && !v.included {
          included := false;
        }
        known := known && v.known;
      }
      target := TrimSpace(target[..start]);
      start := ConditionStart(target);
    }
    if !included {
      return Target(target, false, true);
    }
    t := FillTokens(c, Target(target, included, known), familyFirst);
    if Bracketed(t.path) {
      t := t.(known := false);
    }
  }

  // -------------------------------------------------- answers do not depend on what is unknown

  /** The same client with empty fields possibly filled in. */
  predicate Completes(c: Client, d: Client) {
    (c.family != [] ==> d.family == c.family) && (c.game != [] ==> d.game == c.game)
  }

  lemma TagKept(c: Client, d: Client, tag: Text)
    requires Completes(c, d) && TagMatch(c, tag).resolved
    ensures TagMatch(d, tag) == TagMatch(c, tag)
  {
  }

  lemma ListKept(c: Client, d: Client, tags: seq<Text>)
    requires Completes(c, d) && ListVerdict(c, tags).known
    ensures ListVerdict(d, tags) == ListVerdict(c, tags)
  {
    if SomeMatches(c, tags) {
      var i :| 0 <= i < |tags| && TagMatch(c, tags[i]) == Match(true, true);
      TagKept(c, d, tags[i]);
    } else {
      forall i | 0 <= i < |tags|
        ensures TagMatch(d, tags[i]) == TagMatch(c, tags[i])
      {
        TagKept(c, d, tags[i]);
      }
    }
  }

  /** A known condition, allowing or excluding, keeps its answer. */
  lemma JudgementKept(c: Client, d: Client, key: Text, value: Text)
    requires Completes(c, d) && Judge(c, key, value).known
    ensures Judge(d, key, value) == Judge(c, key, value)
  {
    if ToLower(key) == "allowloadgametype" || ToLower(key) == "excludeloadgametype" {
      ListKept(c, d, Tags(value));
    }
  }

  lemma {:induction false} StripMonotone(c: Client, t: Target)
    ensures Strip(c, t).included ==> t.included
    ensures Strip(c, t).known ==> t.known
    decreases |t.path|
  {
    var start := ConditionStart(t.path);
    if start > 0 {
      var v := FieldsVerdict(c, ConditionFields(t.path));
      StripMonotone(c, Target(TrimSpace(t.path[..start]), t.included && !(v.known && !v.included), t.known && v.known));
    }
  }

  /** Every stack of trailing conditions: the stripped path never depends on the client, an
      exclusion stands, and a known inclusion stands. */
  lemma {:induction false} StripKept(c: Client, d: Client, t: Target, u: Target)
    requires Completes(c, d) && t.path == u.path && (!t.included ==> !u.included)
    requires t.known && t.included ==> u.known && u.included
    ensures Strip(d, u).path == Strip(c, t).path
    ensures !Strip(c, t).included ==> !Strip(d, u).included
    ensures Strip(c, t).known && Strip(c, t).included ==> Strip(d, u).known && Strip(d, u).included
    decreases |t.path|
  {
    var start := ConditionStart(t.path);
    if start > 0 {
      var fields := ConditionFields(t.path);
      var v, w := FieldsVerdict(c, fields), FieldsVerdict(d, fields);
      if fields != [] && v.known {
        JudgementKept(c, d, TrimColon(fields[0]), Joined(fields[1..]));
      }
      var rest := TrimSpace(t.path[..start]);
      StripKept(c, d, Target(rest, t.included && !(v.known && !v.included), t.known && v.known),
                Target(rest, u.included && !(w.known && !w.included), u.known && w.known));
    }
  }

  lemma OccursLater(s: Text, needle: Text, i: nat, k: nat)
    requires OccursAt(s, needle, i) && k <= i
    ensures OccursAt(s[k..], needle, i - k)
  {
  }

  /** Neither token can start inside the other. */
  predicate Apart(token: Text, other: Text) {
    |token| > 1 && |other| > 1 && other[0] == '[' && token[1] != other[1] &&
    forall j :: 1 <= j < |token| ==> token[j] != '['
  }

  /** Replacing one token leaves a bracket of every occurrence of the other. */
  lemma {:induction false} OtherTokenLeft(s: Text, token: Text, other: Text, value: Text, i: nat)
    requires Apart(token, other) && OccursAt(s, other, i)
    ensures '[' in ReplaceAll(s, token, value)
    decreases |s|
  {
    var n := |other|;
    assert s[i..i + n][0] == s[i] && s[i..i + n][1] == s[i + 1];
    if token <= s {
      assert forall j :: 0 <= j < |token| ==> s[j] == token[j];
      assert i >= |token|;
      OccursLater(s, other, i, |token|);
      OtherTokenLeft(s[|token|..], token, other, value, i - |token|);
    } else if i > 0 {
      OccursLater(s, other, i, 1);
      OtherTokenLeft(s[1..], token, other, value, i - 1);
    }
  }

  lemma UnbracketedHasNoToken(s: Text, token: Text)
    requires !Bracketed(s) && (token == FAMILY || token == GAME)
    ensures !Contains(s, token)
  {
    forall i | 0 <= i <= |s|
      ensures !OccursAt(s, token, i)
    {
      if i + |token| <= |s| { assert s[i..i + |token|][0] == s[i] && token[0] == '['; }
    }
  }

  /** The filling of tokens over a path whose result carries no bracket. */
  lemma FillKept(c: Client, d: Client, t: Target, first: bool, second: bool)
    requires Completes(c, d) && (c.family == [] || c.game == [])
    requires t.known && FillTokens(c, t, first).known && !Bracketed(FillTokens(c, t, first).path)
    ensures FillTokens(d, t, second) == FillTokens(c, t, first)
  {
    var u := FillTokens(c, t, first).path;
    UnbracketedHasNoToken(u, FAMILY);
    UnbracketedHasNoToken(u, GAME);
    if c.family == [] {
      if Contains(t.path, FAMILY) {
        var i :| 0 <= i <= |t.path| && OccursAt(t.path, FAMILY, i);
        OtherTokenLeft(t.path, GAME, FAMILY, c.game, i);
      }
    }
    if c.game == [] {
      if Contains(t.path, GAME) {
        var i :| 0 <= i <= |t.path| && OccursAt(t.path, GAME, i);
        OtherTokenLeft(t.path, FAMILY, GAME, c.family, i);
      }
    }
  }

  /** A known answer stands: filling an empty field with anything changes neither the decision
      nor the path, in whatever order either call visits the tokens. */
  lemma KnownTargetKept(c: Client, d: Client, raw: Text, first: bool, second: bool)
    requires Completes(c, d) && (c.family == [] || c.game == [])
    requires Resolve(c, raw, first).known
    ensures Resolve(d, raw, second) == Resolve(c, raw, first)
  {
    var start := Target(TrimSpace(raw), true, true);
    var t := Strip(c, start);
    StripKept(c, d, start, start);
    if t.included {
      FillKept(c, d, t, first, second);
    }
  }
}
