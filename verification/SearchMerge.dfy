/** Which candidates of the staged search go on to the pages (internal/codebase/search.go). */
module SearchMerge {
  import opened Texts
  import opened RecordLookup
  import opened Search

  /** Exact candidates first; each weaker list only for a broad search or while there are none. The
      candidates of the body-text stage are given. */
  function Merged(q: Query, c: Candidates, body: seq<Candidate>): seq<Candidate> {
    if q.topic == "asset" then c.assets
    else if q.broad then c.exact + c.prefix + c.full + body
    else if c.exact != [] then c.exact
    else if c.prefix != [] then c.prefix
    else if c.full != [] then c.full
    else body
  }

  /** The bodies are searched for a broad query, or when no stage found anything. */
  predicate BodyNeeded(q: Query, c: Candidates) {
    q.topic != "asset" && (q.broad || (c.exact == [] && c.prefix == [] && c.full == []))
  }

  /** Search's own sequence of appends. */
  method MergeCandidates(q: Query, c: Candidates, body: seq<Candidate>, bodyCut: bool)
    returns (candidates: seq<Candidate>, cut: bool)
    ensures candidates == Merged(q, c, body)
    ensures cut <==> c.cut || (bodyCut && BodyNeeded(q, c))
  {
    cut := c.cut;
    if q.topic == "asset" {
      return c.assets, cut;
    }
    candidates := c.exact;
    if q.broad || |candidates| == 0 {
      candidates := candidates + c.prefix;
    }
    if q.broad || |candidates| == 0 {
      candidates := candidates + c.full;
    }
    if q.broad || |candidates| == 0 {
      candidates := candidates + body;
      cut := cut || bodyCut;
    }
  }

  /** A symbol whose text holds the tokens of the query. */
  predicate IndexedAnswer(q: Query, e: RecordOffset) {
    Symbol(q, e) && TextMatch(q, e)
  }

  lemma AbsorbFull(q: Query, relations: bool, e: RecordOffset, p: nat, c: Candidates)
    requires q.topic != "asset"
    ensures Absorb(q, relations, e, p, c).full ==
            if IndexedAnswer(q, e) then Add(c.full, p, IndexedText(TokenCount(q.tokens, SearchText(q, e)))) else c.full
  {
  }

  lemma {:induction false} FullKept(es: seq<RecordOffset>, q: Query, relations: bool, visited: seq<nat>, c: Candidates)
    requires forall i :: 0 <= i < |visited| ==> visited[i] < |es|
    requires q.topic != "asset" && c.full == []
    ensures Positions(AbsorbAll(q, relations, es, visited, c).full) == Cap(Keep(es, e => IndexedAnswer(q, e), visited))
  {
    if visited != [] {
      var front, last := visited[..|visited| - 1], visited[|visited| - 1];
      FullKept(es, q, relations, front, c);
      var before, e := AbsorbAll(q, relations, es, front, c), es[last];
      AbsorbFull(q, relations, e, last, before);
      var m := IndexedText(TokenCount(q.tokens, SearchText(q, e)));
      AddCapped(before.full, last, m, Keep(es, e => IndexedAnswer(q, e), front));
    }
  }

  lemma {:induction false} AssetsKept(es: seq<RecordOffset>, q: Query, visited: seq<nat>, c: Candidates)
    requires forall i :: 0 <= i < |visited| ==> visited[i] < |es|
    requires q.topic == "asset" && c.assets == []
    ensures Positions(AbsorbAll(q, true, es, visited, c).assets) == Cap(Keep(es, e => AssetMatch(q, e), visited))
  {
    if visited != [] {
      var front, last := visited[..|visited| - 1], visited[|visited| - 1];
      AssetsKept(es, q, front, c);
      var before := AbsorbAll(q, true, es, front, c);
      var m := AssetPath(q.normalize(es[last].path) == q.normalized);
      AddCapped(before.assets, last, m, Keep(es, e => AssetMatch(q, e), front));
    }
  }

  lemma {:induction false} PositionsTogether(a: seq<Candidate>, b: seq<Candidate>)
    ensures Positions(a + b) == Positions(a) + Positions(b)
    decreases |b|
  {
    if b == [] {
      assert a + b == a && Positions(a) + [] == Positions(a);
    } else {
      var last := |b| - 1;
      assert (a + b)[..|a| + last] == a + b[..last];
      PositionsTogether(a, b[..last]);
    }
  }

  function Answers(es: seq<RecordOffset>, test: RecordOffset -> bool): seq<nat> {
    Cap(FullScan(es, test, |es|))
  }

  lemma AssetAnswers(es: seq<RecordOffset>, q: Query)
    requires q.topic == "asset"
    ensures Positions(StagedByFullScan(es, q).assets) == Answers(es, e => AssetMatch(q, e))
  {
    AssetsKept(es, q, Full(es, q, AllStage, true), NO_CANDIDATES);
    KeepOfFullScan(es, e => Selects(q, AllStage, true, e), e => AssetMatch(q, e), |es|);
  }

  /** A broad search collects the answers of each strength in one scan. */
  lemma BroadAnswers(es: seq<RecordOffset>, q: Query)
    requires q.topic != "asset" && q.broad
    ensures var c := StagedByFullScan(es, q);
            && Positions(c.exact) == Answers(es, e => ExactAnswer(q, e))
            && Positions(c.prefix) == Answers(es, e => PrefixAnswer(q, e))
            && Positions(c.full) == Answers(es, e => IndexedAnswer(q, e))
  {
    var visited := Full(es, q, AllStage, true);
    ExactKept(es, q, true, visited, NO_CANDIDATES);
    PrefixKept(es, q, true, visited, NO_CANDIDATES);
    FullKept(es, q, true, visited, NO_CANDIDATES);
    KeepOfFullScan(es, e => Selects(q, AllStage, true, e), e => ExactAnswer(q, e), |es|);
    KeepOfFullScan(es, e => Selects(q, AllStage, true, e), e => PrefixAnswer(q, e), |es|);
    KeepOfFullScan(es, e => Selects(q, AllStage, true, e), e => IndexedAnswer(q, e), |es|);
  }

  /** The last stage of a precise search, reached when nothing answers exactly or by prefix. */
  lemma LastStageAnswers(es: seq<RecordOffset>, q: Query, start: Candidates)
    requires q.topic != "asset" && start.exact == [] && start.prefix == [] && start.full == []
    requires FullScan(es, e => ExactAnswer(q, e), |es|) == [] && FullScan(es, e => PrefixAnswer(q, e), |es|) == []
    ensures var c := AbsorbAll(q, false, es, Full(es, q, AllStage, false), start);
            c.exact == [] && c.prefix == [] && Positions(c.full) == Answers(es, e => IndexedAnswer(q, e))
  {
    var visited := Full(es, q, AllStage, false);
    var c := AbsorbAll(q, false, es, visited, start);
    ExactKept(es, q, false, visited, start);
    PrefixKept(es, q, false, visited, start);
    FullKept(es, q, false, visited, start);
    KeepNone(es, e => ExactAnswer(q, e), visited);
    KeepNone(es, e => PrefixAnswer(q, e), visited);
    PositionsLength(c.exact);
    PositionsLength(c.prefix);
    KeepOfFullScan(es, e => Selects(q, AllStage, false, e), e => IndexedAnswer(q, e), |es|);
  }

  lemma PreciseFalls(es: seq<RecordOffset>, q: Query)
    requires q.topic != "asset" && !q.broad
    requires FullScan(es, e => ExactAnswer(q, e), |es|) == [] && FullScan(es, e => PrefixAnswer(q, e), |es|) == []
    ensures var c := StagedByFullScan(es, q);
            c.exact == [] && c.prefix == [] && Positions(c.full) == Answers(es, e => IndexedAnswer(q, e))
  {
    ExactStageAnswers(es, q);
    var c1 := AbsorbAll(q, true, es, Full(es, q, ExactStage, true), NO_CANDIDATES);
    PositionsLength(c1.exact);
    var start := c1.(prefix := [], full := [], cut := false);
    var visited := Full(es, q, PrefixStage, false);
    var c2 := AbsorbAll(q, false, es, visited, start);
    ExactKept(es, q, false, visited, start);
    PrefixKept(es, q, false, visited, start);
    KeepNone(es, e => ExactAnswer(q, e), visited);
    KeepNone(es, e => PrefixAnswer(q, e), visited);
    PositionsLength(c2.exact);
    PositionsLength(c2.prefix);
    LastStageAnswers(es, q, c2.(full := [], cut := false));
  }

  /** What the pages are cut from. An asset search gives the matching assets; a broad one the exact,
      prefix and indexed answers of the whole index one after another and then the body's; a precise
      one only the strongest kind that has any answer: each in file order and up to the cap. */
  lemma MergedAnswers(es: seq<RecordOffset>, q: Query, body: seq<Candidate>)
    ensures var exact, prefix := Answers(es, e => ExactAnswer(q, e)), Answers(es, e => PrefixAnswer(q, e));
            var indexed := Answers(es, e => IndexedAnswer(q, e));
            Positions(Merged(q, StagedByFullScan(es, q), body)) ==
            if q.topic == "asset" then Answers(es, e => AssetMatch(q, e))
            else if q.broad then exact + prefix + indexed + Positions(body)
            else if exact != [] then exact
            else if prefix != [] then prefix
            else if indexed != [] then indexed
            else Positions(body)
  {
    var c := StagedByFullScan(es, q);
    if q.topic == "asset" {
      AssetAnswers(es, q);
    } else if q.broad {
      BroadAnswers(es, q);
      PositionsTogether(c.exact, c.prefix);
      PositionsTogether(c.exact + c.prefix, c.full);
      PositionsTogether(c.exact + c.prefix + c.full, body);
    } else {
      PreciseAnswers(es, q, body);
    }
  }

  lemma PreciseAnswers(es: seq<RecordOffset>, q: Query, body: seq<Candidate>)
    requires q.topic != "asset" && !q.broad
    ensures var exact, prefix := Answers(es, e => ExactAnswer(q, e)), Answers(es, e => PrefixAnswer(q, e));
            var indexed := Answers(es, e => IndexedAnswer(q, e));
            Positions(Merged(q, StagedByFullScan(es, q), body)) ==
            if exact != [] then exact else if prefix != [] then prefix
            else if indexed != [] then indexed else Positions(body)
  {
    var c := StagedByFullScan(es, q);
    StagedAnswers(es, q);
    PositionsLength(c.exact);
    PositionsLength(c.prefix);
    PositionsLength(c.full);
    if FullScan(es, e => ExactAnswer(q, e), |es|) == [] && FullScan(es, e => PrefixAnswer(q, e), |es|) == [] {
      PreciseFalls(es, q);
    }
  }
}
