/** Staged candidate search over an opened snapshot (internal/codebase/search.go). */
module Search {
  import opened Texts
  import opened Sorting
  import opened RecordLookup

  const MAX_CANDIDATES := 10000

  /** A validated query: trimmed non-empty text, its lower-case fields, its normalised
      asset form, and the case folding and path normalisation in use. */
  datatype Query = Query(
    text: Text, topic: Text, broad: bool, limit: nat, tokens: seq<Text>, normalized: Text,
    lower: Text -> Text, normalize: Text -> Text)

  datatype Stage = ExactStage | PrefixStage | AllStage

  datatype Matched = ExactSymbol | ExactFact | SymbolPrefix | NamePrefix | IndexedText(count: nat)
      | AssetPath(whole: bool)

  datatype Candidate = Candidate(position: nat, matched: Matched)

  datatype Candidates = Candidates(
    exact: seq<Candidate>, prefix: seq<Candidate>, full: seq<Candidate>, assets: seq<Candidate>,
    relations: seq<nat>, cut: bool)

  const NO_CANDIDATES := Candidates([], [], [], [], [], false)

  predicate HasSuffix(s: Text, x: Text) {
    |x| <= |s| && s[|s| - |x|..] == x
  }

  function Dotted(text: Text): Text {
    ['.'] + text
  }

  // ------------------------------------------------------ metadata selection

  function TokenCount(tokens: seq<Text>, s: Text): nat {
    if tokens == [] then 0 else (if Contains(s, tokens[0]) then 1 else 0) + TokenCount(tokens[1..], s)
  }

  function SearchText(q: Query, e: RecordOffset): Text {
    q.lower(e.name + " " + e.target + " " + e.signature)
  }

  predicate TextMatch(q: Query, e: RecordOffset) {
    var count := TokenCount(q.tokens, SearchText(q, e));
    |q.tokens| > 0 && (if q.broad then count > 0 else count == |q.tokens|)
  }

  predicate TopicAdmits(q: Query, e: RecordOffset) {
    && (q.topic == "api" ==> Prefix("api-", e.category))
    && (q.topic == "lua" || q.topic == "xml" || q.topic == "toc" ==> HasSuffix(q.lower(e.path), Dotted(q.topic)))
  }

  predicate AssetMatch(q: Query, e: RecordOffset) {
    e.kind == "asset" && Contains(q.normalize(e.path), q.normalized)
  }

  predicate NameMatch(q: Query, e: RecordOffset) {
    e.name == q.text || e.target == q.text || HasSuffix(e.name, Dotted(q.text))
  }

  predicate BroadRelation(q: Query, e: RecordOffset) {
    Contains(q.lower(e.name), q.lower(q.text)) || Contains(q.lower(e.target), q.lower(q.text))
  }

  /** selectRecord: what a stage reads from disk. */
  predicate Selects(q: Query, stage: Stage, relations: bool, e: RecordOffset) {
    if q.topic == "asset" then AssetMatch(q, e)
    else if e.kind != "symbol" then false
    else if e.symbolKind == "relationship" then
      relations && (e.name == q.text || e.target == q.text || (q.broad && BroadRelation(q, e)))
    else if e.symbolKind != "declaration" && e.symbolKind != "header" then false
    else if !TopicAdmits(q, e) then false
    else
      match stage
      case ExactStage =>
        (e.symbolKind == "declaration" && NameMatch(q, e)) || (e.symbolKind == "header" && e.name == q.text)
      case PrefixStage =>
        Prefix(q.text, e.name) || (e.symbolKind == "declaration" && Contains(e.name, Dotted(q.text)))
      case AllStage =>
        NameMatch(q, e) || Prefix(q.text, e.name) || Contains(e.name, Dotted(q.text)) || TextMatch(q, e)
  }

  function ExactKeys(q: Query): seq<LookupKey> {
    [LookupKey(RecordSearchName, q.text), LookupKey(RecordName, q.text), LookupKey(RecordTarget, q.text)]
  }

  function PrefixKeys(q: Query): seq<LookupKey> {
    [LookupKey(RecordSearchPrefix, q.text)]
  }

  function KindKeys(kind: Text): seq<LookupKey> {
    [LookupKey(RecordKind, kind)]
  }

  // ------------------------------------------------------------ key coverage

  lemma DottedSuffixFound(name: Text, text: Text)
    requires HasSuffix(name, Dotted(text))
    ensures DottedSuffix(name, text)
  {
    var j := |name| - |text| - 1;
    assert name[j..] == Dotted(text);
    assert name[j] == Dotted(text)[0] && name[j + 1..] == name[j..][1..] == Dotted(text)[1..] == text;
    assert AfterDot(name, j, text);
  }

  lemma ExactCovered(loaded: PathResolver, q: Query, e: RecordOffset)
    requires q.text != [] && q.topic != "asset" && !q.broad
    requires Selects(q, ExactStage, true, e)
    ensures Listed(loaded, ExactKeys(q), e)
  {
    var keys := ExactKeys(q);
    if e.name == q.text {
      assert Hits(loaded, keys[1], e);
    } else if e.target == q.text && e.symbolKind != "header" {
      assert Hits(loaded, keys[2], e);
    } else {
      DottedSuffixFound(e.name, q.text);
      assert Hits(loaded, keys[0], e);
    }
  }

  lemma DottedPrefixFound(name: Text, text: Text)
    requires Contains(name, Dotted(text))
    ensures exists value :: DottedSuffix(name, value) && Prefix(text, value)
  {
    var j :| 0 <= j <= |name| && OccursAt(name, Dotted(text), j);
    var found := name[j..j + 1 + |text|];
    assert found == Dotted(text);
    assert name[j] == found[0] == '.' && found[1..] == Dotted(text)[1..] == text;
    var value := name[j + 1..];
    assert value[..|text|] == name[j + 1..j + 1 + |text|] == found[1..];
    assert AfterDot(name, j, value);
    assert DottedSuffix(name, value) && Prefix(text, value);
  }

  lemma PrefixCovered(loaded: PathResolver, q: Query, e: RecordOffset)
    requires q.text != [] && q.topic != "asset"
    requires Selects(q, PrefixStage, false, e)
    ensures Listed(loaded, PrefixKeys(q), e)
  {
    if Prefix(q.text, e.name) {
      assert Posted(loaded, LookupKey(RecordName, e.name), e);
    } else {
      DottedPrefixFound(e.name, q.text);
      var value :| DottedSuffix(e.name, value) && Prefix(q.text, value);
      assert Posted(loaded, LookupKey(RecordSearchName, value), e);
    }
    assert Hits(loaded, PrefixKeys(q)[0], e);
  }

  lemma KindCovered(loaded: PathResolver, q: Query, stage: Stage, relations: bool, e: RecordOffset)
    requires Selects(q, stage, relations, e)
    ensures Listed(loaded, KindKeys(if q.topic == "asset" then "asset" else "symbol"), e)
  {
    assert Hits(loaded, KindKeys(e.kind)[0], e);
  }

  // -------------------------------------------------- what a visit collects

  predicate ExactDeclaration(q: Query, e: RecordOffset) {
    e.symbolKind == "declaration" && NameMatch(q, e)
  }

  predicate ExactHeader(q: Query, e: RecordOffset) {
    e.symbolKind == "header" && e.name == q.text
  }

  function Add(c: seq<Candidate>, p: nat, m: Matched): seq<Candidate> {
    if |c| < MAX_CANDIDATES then c + [Candidate(p, m)] else c
  }

  function AddExact(q: Query, e: RecordOffset, p: nat, c: Candidates): Candidates {
    if ExactDeclaration(q, e) then
      c.(exact := Add(c.exact, p, ExactSymbol), cut := c.cut || |c.exact| >= MAX_CANDIDATES)
    else if ExactHeader(q, e) then
      c.(exact := Add(c.exact, p, ExactFact), cut := c.cut || |c.exact| >= MAX_CANDIDATES)
    else c
  }

  function AddPrefix(q: Query, e: RecordOffset, p: nat, c: Candidates): Candidates {
    if e.symbolKind == "declaration" && (Prefix(q.text, e.name) || Contains(e.name, Dotted(q.text))) then
      c.(prefix := Add(c.prefix, p, SymbolPrefix), cut := c.cut || |c.prefix| >= MAX_CANDIDATES)
    else if e.symbolKind == "header" && Prefix(q.text, e.name) then
      c.(prefix := Add(c.prefix, p, NamePrefix), cut := c.cut || |c.prefix| >= MAX_CANDIDATES)
    else c
  }

  function AddFull(q: Query, e: RecordOffset, p: nat, c: Candidates): Candidates {
    if TextMatch(q, e) then
      c.(full := Add(c.full, p, IndexedText(TokenCount(q.tokens, SearchText(q, e)))),
         cut := c.cut || |c.full| >= MAX_CANDIDATES)
    else c
  }

  predicate RelationMatch(q: Query, e: RecordOffset) {
    if q.broad then BroadRelation(q, e) else e.name == q.text || e.target == q.text
  }

  /** The visitor: one record read from disk. */
  function Absorb(q: Query, relations: bool, e: RecordOffset, p: nat, c: Candidates): Candidates {
    if AssetMatch(q, e) && q.topic == "asset" then
      c.(assets := Add(c.assets, p, AssetPath(q.normalize(e.path) == q.normalized)),
         cut := c.cut || |c.assets| >= MAX_CANDIDATES)
    else if e.kind != "symbol" || q.topic == "asset" then c
    else if e.symbolKind == "relationship" && relations then
      if RelationMatch(q, e) && |c.relations| <= q.limit then c.(relations := c.relations + [p]) else c
    else if e.symbolKind != "declaration" && e.symbolKind != "header" then c
    else if !TopicAdmits(q, e) then c
    else AddFull(q, e, p, AddPrefix(q, e, p, AddExact(q, e, p, c)))
  }

  function AbsorbAll(q: Query, relations: bool, es: seq<RecordOffset>, visited: seq<nat>, c: Candidates): Candidates
    requires forall i :: 0 <= i < |visited| ==> visited[i] < |es|
  {
    if visited == [] then c
    else
      var last := visited[|visited| - 1];
      Absorb(q, relations, es[last], last, AbsorbAll(q, relations, es, visited[..|visited| - 1], c))
  }

  // ----------------------------------------- the staged search, by full scans

  function Full(es: seq<RecordOffset>, q: Query, stage: Stage, relations: bool): (r: seq<nat>)
    ensures forall i :: 0 <= i < |r| ==> r[i] < |es|
  {
    FullScanMembers(es, e => Selects(q, stage, relations, e), |es|);
    var r := FullScan(es, e => Selects(q, stage, relations, e), |es|);
    assert forall i :: 0 <= i < |r| ==> r[i] in r;
    r
  }

  /** The whole flow with every scan replaced by a scan of all records. */
  function StagedByFullScan(es: seq<RecordOffset>, q: Query): Candidates {
    if q.broad || q.topic == "asset" then
      AbsorbAll(q, true, es, Full(es, q, AllStage, true), NO_CANDIDATES)
    else
      var c1 := AbsorbAll(q, true, es, Full(es, q, ExactStage, true), NO_CANDIDATES);
      if c1.exact != [] then c1
      else
        var c2 := AbsorbAll(q, false, es, Full(es, q, PrefixStage, false), c1.(prefix := [], full := [], cut := false));
        if c2.prefix != [] then c2
        else AbsorbAll(q, false, es, Full(es, q, AllStage, false), c2.(full := [], cut := false))
  }

  /** One keyed scan with its visitor. */
  method Scan(cache: SnapshotCache, q: Query, stage: Stage, relations: bool, keys: seq<LookupKey>, c0: Candidates)
    returns (c: Candidates)
    requires cache.Valid()
    requires forall e :: Selects(q, stage, relations, e) ==> Listed(cache.loaded, keys, e)
    modifies cache
    ensures cache.Valid()
    ensures c == AbsorbAll(q, relations, cache.offsets, Full(cache.offsets, q, stage, relations), c0)
  {
    var selects := e => Selects(q, stage, relations, e);
    var visited := cache.ScanSelected(selects, keys);
    KeyedScanIsFullScan(cache.loaded, cache.offsets, selects, keys, cache.indexed, visited);
    c := c0;
    assert visited == Full(cache.offsets, q, stage, relations);
    for i := 0 to |visited|
      invariant c == AbsorbAll(q, relations, cache.offsets, visited[..i], c0)
    {
      assert visited[..i + 1][..i] == visited[..i];
      c := Absorb(q, relations, cache.offsets[visited[i]], visited[i], c);
    }
    assert visited[..|visited|] == visited;
  }

  /** The staged search with its lookup keys gives exactly what scanning every record at
      every stage would give, for every non-empty text. */
  method CollectCandidates(cache: SnapshotCache, q: Query) returns (c: Candidates)
    requires cache.Valid() && q.text != []
    modifies cache
    ensures cache.Valid()
    ensures c == StagedByFullScan(cache.offsets, q)
  {
    var loaded := cache.loaded;
    c := NO_CANDIDATES;
    if !q.broad && q.topic != "asset" {
      forall e | Selects(q, ExactStage, true, e) ensures Listed(loaded, ExactKeys(q), e) {
        ExactCovered(loaded, q, e);
      }
      c := Scan(cache, q, ExactStage, true, ExactKeys(q), c);
      if c.exact == [] {
        c := c.(prefix := [], full := [], cut := false);
        forall e | Selects(q, PrefixStage, false, e) ensures Listed(loaded, PrefixKeys(q), e) {
          PrefixCovered(loaded, q, e);
        }
        c := Scan(cache, q, PrefixStage, false, PrefixKeys(q), c);
        if c.prefix == [] {
          c := c.(full := [], cut := false);
          forall e | Selects(q, AllStage, false, e) ensures Listed(loaded, KindKeys("symbol"), e) {
            KindCovered(loaded, q, AllStage, false, e);
          }
          c := Scan(cache, q, AllStage, false, KindKeys("symbol"), c);
        }
      }
    } else if q.topic == "asset" {
      forall e | Selects(q, AllStage, true, e) ensures Listed(loaded, KindKeys("asset"), e) {
        KindCovered(loaded, q, AllStage, true, e);
      }
      c := Scan(cache, q, AllStage, true, KindKeys("asset"), c);
    } else {
      forall e | Selects(q, AllStage, true, e) ensures Listed(loaded, KindKeys("symbol"), e) {
        KindCovered(loaded, q, AllStage, true, e);
      }
      c := Scan(cache, q, AllStage, true, KindKeys("symbol"), c);
    }
  }

  // ------------------------------------------------ what the stages return

  predicate Symbol(q: Query, e: RecordOffset) {
    e.kind == "symbol" && (e.symbolKind == "declaration" || e.symbolKind == "header") && TopicAdmits(q, e)
  }

  /** Declared or header names equal to the text, targets equal to it, or its dotted suffixes. */
  predicate ExactAnswer(q: Query, e: RecordOffset) {
    Symbol(q, e) && (ExactDeclaration(q, e) || ExactHeader(q, e))
  }

  predicate PrefixAnswer(q: Query, e: RecordOffset) {
    Symbol(q, e) &&
    (Prefix(q.text, e.name) || (e.symbolKind == "declaration" && Contains(e.name, Dotted(q.text))))
  }

  function Positions(c: seq<Candidate>): seq<nat> {
    if c == [] then [] else Positions(c[..|c| - 1]) + [c[|c| - 1].position]
  }

  lemma PositionsAdd(c: seq<Candidate>, p: nat, m: Matched)
    ensures Positions(c + [Candidate(p, m)]) == Positions(c) + [p]
  {
    assert (c + [Candidate(p, m)])[..|c|] == c;
  }

  function Cap(s: seq<nat>): seq<nat> {
    if |s| <= MAX_CANDIDATES then s else s[..MAX_CANDIDATES]
  }

  /** The visited positions whose record passes a test. */
  function Keep(es: seq<RecordOffset>, test: RecordOffset -> bool, visited: seq<nat>): seq<nat>
    requires forall i :: 0 <= i < |visited| ==> visited[i] < |es|
  {
    if visited == [] then []
    else
      var last := visited[|visited| - 1];
      Keep(es, test, visited[..|visited| - 1]) + (if test(es[last]) then [last] else [])
  }

  lemma AbsorbExact(q: Query, relations: bool, e: RecordOffset, p: nat, c: Candidates)
    requires q.topic != "asset"
    ensures Absorb(q, relations, e, p, c).exact ==
            if ExactAnswer(q, e) then Add(c.exact, p, if ExactDeclaration(q, e) then ExactSymbol else ExactFact)
            else c.exact
  {
  }

  lemma AbsorbPrefix(q: Query, relations: bool, e: RecordOffset, p: nat, c: Candidates)
    requires q.topic != "asset"
    ensures Absorb(q, relations, e, p, c).prefix ==
            if PrefixAnswer(q, e) then
              Add(c.prefix, p, if e.symbolKind == "declaration" then SymbolPrefix else NamePrefix)
            else c.prefix
  {
  }

  lemma AddCapped(c: seq<Candidate>, p: nat, m: Matched, kept: seq<nat>)
    requires Positions(c) == Cap(kept)
    ensures Positions(Add(c, p, m)) == Cap(kept + [p])
  {
    PositionsLength(c);
    PositionsAdd(c, p, m);
  }

  lemma {:induction false} ExactKept(es: seq<RecordOffset>, q: Query, relations: bool, visited: seq<nat>, c: Candidates)
    requires forall i :: 0 <= i < |visited| ==> visited[i] < |es|
    requires q.topic != "asset" && c.exact == []
    ensures Positions(AbsorbAll(q, relations, es, visited, c).exact) == Cap(Keep(es, e => ExactAnswer(q, e), visited))
  {
    if visited != [] {
      var front, last := visited[..|visited| - 1], visited[|visited| - 1];
      ExactKept(es, q, relations, front, c);
      var before := AbsorbAll(q, relations, es, front, c);
      AbsorbExact(q, relations, es[last], last, before);
      AddCapped(before.exact, last, ExactSymbol, Keep(es, e => ExactAnswer(q, e), front));
      AddCapped(before.exact, last, ExactFact, Keep(es, e => ExactAnswer(q, e), front));
    }
  }

  lemma {:induction false} PrefixKept(es: seq<RecordOffset>, q: Query, relations: bool, visited: seq<nat>,
      c: Candidates)
    requires forall i :: 0 <= i < |visited| ==> visited[i] < |es|
    requires q.topic != "asset" && c.prefix == []
    ensures Positions(AbsorbAll(q, relations, es, visited, c).prefix) == Cap(Keep(es, e => PrefixAnswer(q, e), visited))
  {
    if visited != [] {
      var front, last := visited[..|visited| - 1], visited[|visited| - 1];
      PrefixKept(es, q, relations, front, c);
      var before := AbsorbAll(q, relations, es, front, c);
      AbsorbPrefix(q, relations, es[last], last, before);
      AddCapped(before.prefix, last, SymbolPrefix, Keep(es, e => PrefixAnswer(q, e), front));
      AddCapped(before.prefix, last, NamePrefix, Keep(es, e => PrefixAnswer(q, e), front));
    }
  }

  lemma {:induction false} PositionsLength(c: seq<Candidate>)
    ensures |Positions(c)| == |c|
  {
    if c != [] { PositionsLength(c[..|c| - 1]); }
  }

  lemma {:induction false} KeepOfFullScan(es: seq<RecordOffset>, selects: RecordOffset -> bool,
      test: RecordOffset -> bool, n: nat)
    requires n <= |es|
    requires forall e :: test(e) ==> selects(e)
    ensures forall i :: 0 <= i < |FullScan(es, selects, n)| ==> FullScan(es, selects, n)[i] < n
    ensures Keep(es, test, FullScan(es, selects, n)) == FullScan(es, test, n)
  {
    FullScanMembers(es, selects, n);
    var all := FullScan(es, selects, n);
    assert forall i :: 0 <= i < |all| ==> all[i] in all;
    if n > 0 {
      KeepOfFullScan(es, selects, test, n - 1);
      var before := FullScan(es, selects, n - 1);
      if selects(es[n - 1]) {
        assert all == before + [n - 1];
        assert all[..|all| - 1] == before && all[|all| - 1] == n - 1;
      } else {
        assert all == before;
        assert FullScan(es, test, n) == FullScan(es, test, n - 1) + [];
      }
    }
  }

  /** The precise search starts from all and only the exact answers of the whole index, in
      file order and up to the cap, although it reads only the keyed records. */
  lemma ExactStageAnswers(es: seq<RecordOffset>, q: Query)
    requires q.topic != "asset" && !q.broad
    ensures Positions(AbsorbAll(q, true, es, Full(es, q, ExactStage, true), NO_CANDIDATES).exact) ==
            Cap(FullScan(es, e => ExactAnswer(q, e), |es|))
  {
    ExactKept(es, q, true, Full(es, q, ExactStage, true), NO_CANDIDATES);
    KeepOfFullScan(es, e => Selects(q, ExactStage, true, e), e => ExactAnswer(q, e), |es|);
  }

  /** And it falls back to the prefix answers exactly when no record answers exactly. */
  lemma StagedAnswers(es: seq<RecordOffset>, q: Query)
    requires q.topic != "asset" && !q.broad
    ensures var c := StagedByFullScan(es, q);
            var exact, prefix := FullScan(es, e => ExactAnswer(q, e), |es|),
                FullScan(es, e => PrefixAnswer(q, e), |es|);
            && (exact != [] ==> Positions(c.exact) == Cap(exact))
            && (exact == [] && prefix != [] ==> c.exact == [] && Positions(c.prefix) == Cap(prefix))
  {
    ExactStageAnswers(es, q);
    var exact := FullScan(es, e => ExactAnswer(q, e), |es|);
    var c1 := AbsorbAll(q, true, es, Full(es, q, ExactStage, true), NO_CANDIDATES);
    PositionsLength(c1.exact);
    if exact == [] {
      var start := c1.(prefix := [], full := [], cut := false);
      var visited := Full(es, q, PrefixStage, false);
      PrefixKept(es, q, false, visited, start);
      KeepOfFullScan(es, e => Selects(q, PrefixStage, false, e), e => PrefixAnswer(q, e), |es|);
      var c2 := AbsorbAll(q, false, es, visited, start);
      PositionsLength(c2.prefix);
      ExactKept(es, q, false, visited, start);
      KeepNone(es, e => ExactAnswer(q, e), visited);
      PositionsLength(c2.exact);
    }
  }

  lemma {:induction false} KeepNone(es: seq<RecordOffset>, test: RecordOffset -> bool, visited: seq<nat>)
    requires forall i :: 0 <= i < |visited| ==> visited[i] < |es|
    requires FullScan(es, test, |es|) == []
    ensures Keep(es, test, visited) == []
  {
    if visited != [] {
      FullScanMembers(es, test, |es|);
      KeepNone(es, test, visited[..|visited| - 1]);
      assert visited[|visited| - 1] !in FullScan(es, test, |es|);
    }
  }

  // ------------------------------------------ deduplication and cursor paging

  /** Positions of the first candidate of every distinct key. */
  function Firsts(keys: seq<Text>): seq<nat> {
    if keys == [] then []
    else
      var n := |keys| - 1;
      Firsts(keys[..n]) + (if keys[n] in keys[..n] then [] else [n])
  }

  /** The result loop: skip seen keys, skip the cursor's distinct results, stop past the limit. */
  method Page(keys: seq<Text>, offset: nat, limit: nat) returns (results: seq<nat>, distinct: nat, cut: bool)
    ensures var firsts := Firsts(keys);
            && cut == (|firsts| > offset + limit)
            && results == PageOf(firsts, offset, limit)
            && (cut ==> distinct == offset + limit)
  {
    var seen: set<Text> := {};
    results, distinct, cut := [], 0, false;
    for i := 0 to |keys|
      invariant forall k :: k in seen <==> k in keys[..i]
      invariant distinct == |Firsts(keys[..i])| && distinct <= offset + limit
      invariant results == if offset >= distinct then [] else Firsts(keys[..i])[offset..]
      invariant !cut
    {
      assert keys[..i + 1][..i] == keys[..i];
      var key := keys[i];
      if key in seen {
        continue;
      }
      seen := seen + {key};
      if distinct < offset {
        distinct := distinct + 1;
        continue;
      }
      if |results| >= limit {
        cut := true;
        FirstsPrefix(keys, i + 1);
        return;
      }
      distinct := distinct + 1;
      results := results + [i];
    }
    assert keys[..|keys|] == keys;
  }

  lemma {:induction false} FirstsPrefix(keys: seq<Text>, n: nat)
    requires n <= |keys|
    ensures |Firsts(keys[..n])| <= |Firsts(keys)| && Firsts(keys)[..|Firsts(keys[..n])|] == Firsts(keys[..n])
    decreases |keys|
  {
    if n < |keys| {
      var front := keys[..|keys| - 1];
      FirstsPrefix(front, n);
      assert front[..n] == keys[..n];
    } else {
      assert keys[..n] == keys;
    }
  }

  /** Every key appears once among the first positions, at its earliest candidate. */
  lemma {:induction false} FirstsCover(keys: seq<Text>)
    ensures Increasing(Firsts(keys))
    ensures forall p :: p in Firsts(keys) <==> 0 <= p < |keys| && keys[p] !in keys[..p]
  {
    if keys != [] {
      var n := |keys| - 1;
      FirstsCover(keys[..n]);
      var before := Firsts(keys[..n]);
      forall k | 0 <= k < |before| ensures before[k] < n {
        assert before[k] in before;
      }
      forall p
        ensures p in Firsts(keys) <==> 0 <= p < |keys| && keys[p] !in keys[..p]
      {
        if 0 <= p < n {
          assert keys[..n][p] == keys[p] && keys[..n][..p] == keys[..p];
        }
      }
    }
  }

  function PageOf(firsts: seq<nat>, offset: nat, limit: nat): seq<nat> {
    if offset >= |firsts| then []
    else if |firsts| > offset + limit then firsts[offset..offset + limit]
    else firsts[offset..]
  }

  /** The pages a caller gets by following every returned cursor; one is returned only
      while it stays within 10000. */
  function Followed(firsts: seq<nat>, offset: nat, limit: nat): seq<nat>
    requires limit > 0
    decreases |firsts| - offset
  {
    if |firsts| > offset + limit && offset + limit <= MAX_CANDIDATES then
      PageOf(firsts, offset, limit) + Followed(firsts, offset + limit, limit)
    else PageOf(firsts, offset, limit)
  }

  /** The first page end that no cursor can point at. */
  function Reach(offset: nat, limit: nat): (r: nat)
    requires limit > 0
    ensures offset <= MAX_CANDIDATES ==> MAX_CANDIDATES < r <= MAX_CANDIDATES + limit
    decreases MAX_CANDIDATES - offset
  {
    if offset + limit <= MAX_CANDIDATES then Reach(offset + limit, limit) else offset + limit
  }

  lemma {:induction false} FollowedSlice(firsts: seq<nat>, offset: nat, limit: nat)
    requires limit > 0 && offset <= |firsts| && offset <= MAX_CANDIDATES
    ensures Reach(offset, limit) > offset
    ensures Followed(firsts, offset, limit) ==
            if |firsts| <= Reach(offset, limit) then firsts[offset..] else firsts[offset..Reach(offset, limit)]
    decreases MAX_CANDIDATES - offset
  {
    if offset + limit <= MAX_CANDIDATES && |firsts| > offset + limit {
      FollowedSlice(firsts, offset + limit, limit);
    }
  }

  /** Following the cursors returns each distinct candidate once and in order; nothing is
      missed exactly when the distinct candidates end by the first page end past 10000. */
  lemma CursorsTile(keys: seq<Text>, limit: nat)
    requires limit > 0
    ensures Followed(Firsts(keys), 0, limit) <= Firsts(keys)
    ensures Followed(Firsts(keys), 0, limit) == Firsts(keys) <==> |Firsts(keys)| <= Reach(0, limit)
  {
    FollowedSlice(Firsts(keys), 0, limit);
  }
}
