/** The graph of recorded load steps, and the order in which a depth-first walk finishes
    its documents. */
module LoadGraph {
  import opened Wrappers
  import opened Texts
  import opened LoadContext

  datatype Load = Load(path: Text, line: nat, kind: Text)

  datatype Header = Header(key: Text, value: Text, line: nat)

  datatype Facts = Facts(diagnostics: seq<nat>, warnings: seq<nat>, headers: seq<Header>, loads: seq<Load>)

  /** What reading and analysing one file gives. */
  datatype Reading = Unreadable | Unanalysable(size: nat) | Analysed(size: nat, facts: Facts)

  datatype Failure = Escape | NotFound | NotResolved

  /** The addon's files and the client they are loaded for: case folding, the lower-case
      extension, contents, path resolution, and the token that each target's map visits first. */
  datatype World = World(
    fold: Text -> Text, extension: Text -> Text, read: Text -> Reading, resolve: (Text, Text) -> Result<Text, Failure>,
    client: Client, familyFirst: Text -> bool)

  datatype LoadStep = LoadStep(from: Text, line: nat, path: Text, kind: Text, repeated: bool, cycle: bool)

  /** One load to follow: a target that applies, is known and resolves. */
  datatype Child = Child(path: Text, line: nat, kind: Text)

  ghost function TargetOf(w: World, raw: Text): Target {
    Resolve(w.client, raw, w.familyFirst(raw))
  }

  /** The loads of a document that are followed, in order. */
  ghost function Children(w: World, name: Text, loads: seq<Load>): seq<Child>
    decreases |loads|
  {
    if loads == [] then []
    else
      var t := TargetOf(w, loads[0].path);
      (if t.included && t.known && w.resolve(name, t.path).Ok?
       then [Child(w.resolve(name, t.path).value, loads[0].line, loads[0].kind)] else []) +
      Children(w, name, loads[1..])
  }

  /** What one manifest header says about loading: nothing unless it is a condition that applies. */
  ghost function HeaderVerdict(w: World, header: Header): Verdict {
    if !("allowload" <= ToLower(header.key)) && !("excludeload" <= ToLower(header.key)) then Verdict(true, true)
    else
      var t := TargetOf(w, header.value);
      if !t.included then Verdict(true, true)
      else if !t.known then Verdict(true, false)
      else Judge(w.client, header.key, t.path)
  }

  ghost predicate ManifestAllows(w: World, headers: seq<Header>)
    decreases |headers|
  {
    headers == [] || (ManifestAllows(w, headers[..|headers| - 1]) &&
        HeaderVerdict(w, headers[|headers| - 1]) == Verdict(true, true))
  }

  ghost function Followed(w: World, name: Text, manifest: bool): seq<Child> {
    match w.read(name)
    case Analysed(_, facts) =>
      if manifest && !ManifestAllows(w, facts.headers) then [] else Children(w, name, facts.loads)
    case _ => []
  }

  predicate Enterable(w: World, name: Text) {
    (w.extension(name) == ".lua" || w.extension(name) == ".xml") && w.read(name).Analysed?
  }

  /** A name that some reference resolves to: the path of directory entries. */
  ghost predicate Resolved(w: World, name: Text) {
    exists from, reference :: w.resolve(from, reference) == Ok(name)
  }

  /** Paths of directory entries that share a key can all be entered or none. */
  ghost predicate CaseConsistent(w: World) {
    forall a, b :: Resolved(w, a) && Resolved(w, b) && w.fold(a) == w.fold(b) ==> (Enterable(w, a) <==> Enterable(w, b))
  }

  // ------------------------------------------------------------------------ graph

  /** Which recorded loads are links: all of them, or those that reached one of the documents. */
  datatype Graph = All | Into(documents: seq<Text>)

  /** A repeated load reaches a document entered before; a new one reaches what it made enter. */
  predicate Counts(g: Graph, s: LoadStep) {
    g.All? || s.repeated || s.path in g.documents
  }

  ghost predicate Grows(g: Graph, h: Graph) {
    forall s :: Counts(g, s) ==> Counts(h, s)
  }

  /** Some load of the graph, not the root's own step, leads from one key to another. */
  ghost predicate Linked(w: World, g: Graph, steps: seq<LoadStep>, u: Text, v: Text) {
    exists i :: 1 <= i < |steps| && Counts(g, steps[i]) && w.fold(steps[i].from) == u && w.fold(steps[i].path) == v
  }

  ghost predicate LinkedAt(w: World, g: Graph, steps: seq<LoadStep>, p: seq<Text>, i: nat)
    requires i + 1 < |p|
  {
    Linked(w, g, steps, p[i], p[i + 1])
  }

  /** Keys each of which links to the next. */
  ghost predicate Path(w: World, g: Graph, steps: seq<LoadStep>, p: seq<Text>) {
    |p| > 0 && forall i :: 0 <= i < |p| - 1 ==> LinkedAt(w, g, steps, p, i)
  }

  /** No walk along the links returns to its start. */
  ghost predicate Acyclic(w: World, g: Graph, steps: seq<LoadStep>) {
    forall p :: |p| > 1 && Path(w, g, steps, p) ==> p[0] != p[|p| - 1]
  }

  lemma LinkedMore(w: World, g: Graph, steps: seq<LoadStep>, h: Graph, more: seq<LoadStep>, u: Text, v: Text)
    requires steps <= more && Grows(g, h) && Linked(w, g, steps, u, v)
    ensures Linked(w, h, more, u, v)
  {
    var i :| 1 <= i < |steps| && Counts(g, steps[i]) && w.fold(steps[i].from) == u && w.fold(steps[i].path) == v;
    assert more[i] == steps[i];
  }

  lemma PathMore(w: World, g: Graph, steps: seq<LoadStep>, h: Graph, more: seq<LoadStep>, p: seq<Text>)
    requires steps <= more && Grows(g, h) && Path(w, g, steps, p)
    ensures Path(w, h, more, p)
  {
    forall i | 0 <= i < |p| - 1
      ensures LinkedAt(w, h, more, p, i)
    {
      assert LinkedAt(w, g, steps, p, i);
      LinkedMore(w, g, steps, h, more, p[i], p[i + 1]);
    }
  }

  lemma CyclicMore(w: World, g: Graph, steps: seq<LoadStep>, h: Graph, more: seq<LoadStep>)
    requires steps <= more && Grows(g, h) && !Acyclic(w, g, steps)
    ensures !Acyclic(w, h, more)
  {
    var p :| |p| > 1 && Path(w, g, steps, p) && p[0] == p[|p| - 1];
    PathMore(w, g, steps, h, more, p);
  }

  lemma GrowsByName(documents: seq<Text>, name: Text)
    ensures Grows(Into(documents), Into(documents + [name]))
  {
  }

  // ------------------------------------------------------------------ finish order

  ghost predicate Distinct(s: seq<Text>) {
    forall i, j :: 0 <= i < j < |s| ==> s[i] != s[j]
  }

  function Elements(s: seq<Text>): set<Text> {
    set x | x in s
  }

  ghost predicate Before(order: seq<Text>, v: Text, u: Text) {
    exists i, j :: 0 <= i < j < |order| && order[i] == v && order[j] == u
  }

  lemma BeforeTransitive(order: seq<Text>, a: Text, b: Text, c: Text)
    requires Distinct(order) && Before(order, a, b) && Before(order, b, c)
    ensures Before(order, a, c)
  {
    var i, j :| 0 <= i < j < |order| && order[i] == a && order[j] == b;
    var k, l :| 0 <= k < l < |order| && order[k] == b && order[l] == c;
    assert j == k;
  }

  lemma BeforeIrreflexive(order: seq<Text>, a: Text)
    requires Distinct(order)
    ensures !Before(order, a, a)
  {
  }

  function Insert(order: seq<Text>, k: nat, v: Text): (r: seq<Text>)
    requires k <= |order|
    ensures |r| == |order| + 1
  {
    order[..k] + [v] + order[k..]
  }

  lemma BeforeInsert(order: seq<Text>, k: nat, x: Text, v: Text, u: Text)
    requires k <= |order| && Before(order, v, u)
    ensures Before(Insert(order, k, x), v, u)
  {
    var i, j :| 0 <= i < j < |order| && order[i] == v && order[j] == u;
    var r := Insert(order, k, x);
    var i', j' := if i < k then i else i + 1, if j < k then j else j + 1;
    assert r[i'] == v && r[j'] == u;
  }

  lemma InsertElements(order: seq<Text>, k: nat, x: Text)
    requires k <= |order|
    ensures Elements(Insert(order, k, x)) == Elements(order) + {x}
    ensures forall v :: v in Insert(order, k, x) <==> v == x || v in order
    ensures Insert(order, k, x)[k..] == [x] + order[k..]
  {
    var r := Insert(order, k, x);
    forall v | v in order
      ensures v in r
    {
      var i :| 0 <= i < |order| && order[i] == v;
      assert r[if i < k then i else i + 1] == v;
    }
    assert r[k] == x;
  }

  lemma InsertDistinct(order: seq<Text>, k: nat, x: Text)
    requires k <= |order| && Distinct(order) && x !in order
    ensures Distinct(Insert(order, k, x))
  {
  }

  // -------------------------------------------------- what the walk keeps about its steps

  /** A load that reached its target finishes after it, unless it is marked. */
  ghost predicate StepOrdered(w: World, g: Graph, s: LoadStep, order: seq<Text>) {
    w.fold(s.from) in order &&
    (Counts(g, s) ==> w.fold(s.path) in order && (s.cycle || Before(order, w.fold(s.path), w.fold(s.from))))
  }

  ghost predicate Ordered(w: World, g: Graph, steps: seq<LoadStep>, order: seq<Text>) {
    forall i :: 1 <= i < |steps| ==> StepOrdered(w, g, steps[i], order)
  }

  /** Targets that no load reached cannot be entered. */
  ghost predicate Settled(w: World, g: Graph, steps: seq<LoadStep>) {
    forall i :: 1 <= i < |steps| ==> Counts(g, steps[i]) || !Enterable(w, steps[i].path)
  }

  predicate SomeCycle(steps: seq<LoadStep>) {
    steps != [] && (steps[|steps| - 1].cycle || SomeCycle(steps[..|steps| - 1]))
  }

  lemma {:induction false} CycleFound(steps: seq<LoadStep>)
    ensures SomeCycle(steps) <==> exists i :: 0 <= i < |steps| && steps[i].cycle
    decreases |steps|
  {
    if steps != [] {
      var last := |steps| - 1;
      CycleFound(steps[..last]);
      if SomeCycle(steps[..last]) {
        var i :| 0 <= i < last && steps[..last][i].cycle;
        assert steps[i].cycle;
      }
      if j :| 0 <= j < |steps| && steps[j].cycle && j < last {
        assert steps[..last][j].cycle;
      }
    }
  }

  lemma {:induction false} WalkDescends(
      w: World, g: Graph, steps: seq<LoadStep>, order: seq<Text>, p: seq<Text>, m: nat)
    requires Distinct(order) && Ordered(w, g, steps, order) && Path(w, g, steps, p) && 1 <= m < |p|
    requires forall i :: 0 <= i < |steps| ==> !steps[i].cycle
    ensures Before(order, p[m], p[0])
    decreases m
  {
    var k := m - 1;
    assert LinkedAt(w, g, steps, p, k);
    var i :| 1 <= i < |steps| && Counts(g, steps[i]) && w.fold(steps[i].from) == p[k]
             && w.fold(steps[i].path) == p[k + 1];
    assert StepOrdered(w, g, steps[i], order);
    if m > 1 {
      WalkDescends(w, g, steps, order, p, k);
      BeforeTransitive(order, p[m], p[k], p[0]);
    }
  }

  lemma UnmarkedAcyclic(w: World, g: Graph, steps: seq<LoadStep>, order: seq<Text>)
    requires Distinct(order) && Ordered(w, g, steps, order) && !SomeCycle(steps)
    ensures Acyclic(w, g, steps)
  {
    CycleFound(steps);
    forall p | |p| > 1 && Path(w, g, steps, p)
      ensures p[0] != p[|p| - 1]
    {
      WalkDescends(w, g, steps, order, p, |p| - 1);
      BeforeIrreflexive(order, p[0]);
    }
  }

  /** The path of documents being loaded, innermost first: each was loaded by the next. */
  ghost predicate ChainLinked(w: World, g: Graph, steps: seq<LoadStep>, chain: seq<Text>) {
    forall j :: 0 <= j < |chain| - 1 ==> ChainAt(w, g, steps, chain, j)
  }

  ghost predicate ChainAt(w: World, g: Graph, steps: seq<LoadStep>, chain: seq<Text>, j: nat)
    requires j + 1 < |chain|
  {
    Linked(w, g, steps, chain[j + 1], chain[j])
  }

  function Reversed(s: seq<Text>): (r: seq<Text>)
    ensures |r| == |s| && forall i :: 0 <= i < |s| ==> r[i] == s[|s| - 1 - i]
  {
    if s == [] then [] else Reversed(s[1..]) + [s[0]]
  }

  /** A load of a document that is still being loaded closes a walk. */
  lemma ActiveLoadCloses(w: World, g: Graph, steps: seq<LoadStep>, chain: seq<Text>, k: nat)
    requires k < |chain| && ChainLinked(w, g, steps, chain) && Linked(w, g, steps, chain[0], chain[k])
    ensures !Acyclic(w, g, steps)
  {
    var down := Reversed(chain[..k + 1]);
    var p := down + [chain[k]];
    forall i | 0 <= i < |p| - 1
      ensures LinkedAt(w, g, steps, p, i)
    {
      if i < k {
        assert ChainAt(w, g, steps, chain, k - 1 - i);
        assert p[i] == chain[k - i] && p[i + 1] == chain[k - i - 1];
      } else {
        assert p[i] == chain[0] && p[i + 1] == chain[k];
      }
    }
    assert Path(w, g, steps, p) && p[0] == chain[k] == p[|p| - 1];
  }

  // ------------------------------------------------------------- the walk's own state

  /** The order holds the finished documents, then those being loaded, innermost first. */
  datatype Trail = Trail(
    steps: seq<LoadStep>, documents: seq<Text>, seen: set<Text>, active: set<Text>, order: seq<Text>, done: nat)
  {
    function Chain(): seq<Text>
      requires done <= |order|
    {
      order[done..]
    }
  }

  function Keys(w: World, documents: seq<Text>): (r: seq<Text>)
    ensures |r| == |documents| && forall i :: 0 <= i < |documents| ==> r[i] == w.fold(documents[i])
  {
    if documents == [] then [] else [w.fold(documents[0])] + Keys(w, documents[1..])
  }

  lemma KeysNext(w: World, documents: seq<Text>, name: Text)
    ensures Keys(w, documents + [name]) == Keys(w, documents) + [w.fold(name)]
    ensures Elements(Keys(w, documents + [name])) == Elements(Keys(w, documents)) + {w.fold(name)}
  {
    var keys := Keys(w, documents + [name]);
    assert keys == Keys(w, documents) + [w.fold(name)];
    assert w.fold(name) in keys by { assert keys[|documents|] == w.fold(name); }
  }

  /** Each entered document is recorded once, whatever its case. */
  ghost predicate RecordedOnce(w: World, t: Trail) {
    Distinct(Keys(w, t.documents)) && Elements(Keys(w, t.documents)) == Elements(t.order)
  }

  /** The graph of the loads that reached a document. */
  function Links(t: Trail): Graph {
    Into(t.documents)
  }

  ghost predicate Sound(w: World, t: Trail) {
    && t.done <= |t.order| && Distinct(t.order) && Ordered(w, Links(t), t.steps, t.order)
    && ChainLinked(w, Links(t), t.steps, t.Chain()) && (SomeCycle(t.steps) ==> !Acyclic(w, Links(t), t.steps))
  }

  /** The graph of the loads that reached a document is acyclic exactly when no step is marked. */
  lemma MarkedExactly(w: World, t: Trail)
    requires Sound(w, t)
    ensures Acyclic(w, Links(t), t.steps) <==> !SomeCycle(t.steps)
  {
    if !SomeCycle(t.steps) { UnmarkedAcyclic(w, Links(t), t.steps, t.order); }
  }

  lemma ChainMore(w: World, g: Graph, steps: seq<LoadStep>, h: Graph, more: seq<LoadStep>, chain: seq<Text>)
    requires steps <= more && Grows(g, h) && ChainLinked(w, g, steps, chain)
    ensures ChainLinked(w, h, more, chain)
  {
    forall j | 0 <= j < |chain| - 1
      ensures ChainAt(w, h, more, chain, j)
    {
      assert ChainAt(w, g, steps, chain, j);
      LinkedMore(w, g, steps, h, more, chain[j + 1], chain[j]);
    }
  }

  lemma SomeCycleMore(steps: seq<LoadStep>, s: LoadStep)
    ensures SomeCycle(steps + [s]) <==> SomeCycle(steps) || s.cycle
  {
    assert (steps + [s])[..|steps|] == steps;
  }

  lemma RecordedKey(w: World, t: Trail, name: Text)
    requires RecordedOnce(w, t) && name in t.documents
    ensures w.fold(name) in t.order
  {
    var d :| 0 <= d < |t.documents| && t.documents[d] == name;
    assert Keys(w, t.documents)[d] in Elements(Keys(w, t.documents));
  }

  /** A step that enters nothing. */
  lemma StepNoted(w: World, t: Trail, s: LoadStep)
    requires Sound(w, t) && RecordedOnce(w, t)
    requires t.steps != [] ==> t.done < |t.order| && w.fold(s.from) == t.order[t.done]
    requires t.steps == [] ==> t.order == []
    requires s.cycle <==> w.fold(s.path) in t.Chain()
    requires s.repeated <==> w.fold(s.path) in t.order
    requires s.cycle ==> s.repeated
    ensures Sound(w, t.(steps := t.steps + [s]))
  {
    var more, g := t.steps + [s], Links(t);
    SomeCycleMore(t.steps, s);
    SameGraph(g);
    ChainMore(w, g, t.steps, g, more, t.Chain());
    if !Acyclic(w, g, t.steps) { CyclicMore(w, g, t.steps, g, more); }
    if t.steps != [] {
      if s.path in t.documents { RecordedKey(w, t, s.path); }
      NotedOrdered(w, t, s);
      if s.cycle { NotedCloses(w, t, s); }
    }
    OrderedMore(w, g, t.steps, s, t.order);
  }

  lemma SameGraph(g: Graph)
    ensures Grows(g, g)
  {
  }

  lemma OrderedMore(w: World, g: Graph, steps: seq<LoadStep>, s: LoadStep, order: seq<Text>)
    requires Ordered(w, g, steps, order) && (steps != [] ==> StepOrdered(w, g, s, order))
    ensures Ordered(w, g, steps + [s], order)
  {
    var more := steps + [s];
    forall i | 1 <= i < |more|
      ensures StepOrdered(w, g, more[i], order)
    {
      if i < |steps| { assert StepOrdered(w, g, steps[i], order); }
    }
  }

  lemma NotedCloses(w: World, t: Trail, s: LoadStep)
    requires t.steps != [] && t.done < |t.order| && w.fold(s.from) == t.order[t.done]
    requires w.fold(s.path) in t.Chain() && s.repeated
    requires ChainLinked(w, Links(t), t.steps + [s], t.Chain())
    ensures !Acyclic(w, Links(t), t.steps + [s])
  {
    var more := t.steps + [s];
    var k :| 0 <= k < |t.Chain()| && t.Chain()[k] == w.fold(s.path);
    assert more[|t.steps|] == s;
    assert Linked(w, Links(t), more, t.order[t.done], w.fold(s.path));
    ActiveLoadCloses(w, Links(t), more, t.Chain(), k);
  }

  lemma TailElements(order: seq<Text>, done: nat)
    requires done <= |order|
    ensures forall i :: done <= i < |order| ==> order[i] in order[done..] && order[i] in Elements(order[done..])
  {
    forall i | done <= i < |order|
      ensures order[i] in order[done..] && order[i] in Elements(order[done..])
    {
      assert order[done..][i - done] == order[i];
    }
  }

  lemma NotedOrdered(w: World, t: Trail, s: LoadStep)
    requires t.done < |t.order| && w.fold(s.from) == t.order[t.done]
    requires s.cycle <==> w.fold(s.path) in t.Chain()
    requires s.repeated <==> w.fold(s.path) in t.order
    requires s.path in t.documents ==> w.fold(s.path) in t.order
    ensures StepOrdered(w, Links(t), s, t.order)
  {
    var v := w.fold(s.path);
    if Counts(Links(t), s) && !s.cycle {
      TailElements(t.order, t.done);
      var i :| 0 <= i < |t.order| && t.order[i] == v;
      assert Before(t.order, v, t.order[t.done]);
    }
  }

  /** Entering the document of the step just noted, to which no earlier load leads. */
  lemma Entered(w: World, t: Trail, name: Text)
    requires Sound(w, t) && RecordedOnce(w, t) && w.fold(name) !in t.order
    requires forall i :: 1 <= i < |t.steps| && t.steps[i].path == name ==>
               t.done < |t.order| && w.fold(t.steps[i].from) == t.order[t.done]
    requires |t.order| > t.done ==> Linked(w, Into(t.documents + [name]), t.steps, t.order[t.done], w.fold(name))
    requires |t.order| == t.done ==> |t.steps| <= 1
    ensures Sound(w, t.(documents := t.documents + [name], order := Insert(t.order, t.done, w.fold(name))))
  {
    var v, g, h := w.fold(name), Links(t), Into(t.documents + [name]);
    var u := t.(documents := t.documents + [name], order := Insert(t.order, t.done, v));
    GrowsByName(t.documents, name);
    InsertDistinct(t.order, t.done, v);
    InsertElements(t.order, t.done, v);
    if !Acyclic(w, g, t.steps) { CyclicMore(w, g, t.steps, h, t.steps); }
    forall i | 1 <= i < |t.steps|
      ensures StepOrdered(w, h, t.steps[i], u.order)
    {
      EnteredOrdered(w, t, name, i);
    }
    ChainMore(w, g, t.steps, h, t.steps, t.Chain());
    forall j | 0 <= j < |u.Chain()| - 1
      ensures ChainAt(w, h, t.steps, u.Chain(), j)
    {
      assert u.Chain()[j + 1] == t.Chain()[j];
      if j > 0 { assert ChainAt(w, h, t.steps, t.Chain(), j - 1); }
    }
  }

  lemma EnteredOrdered(w: World, t: Trail, name: Text, i: nat)
    requires t.done <= |t.order| && 1 <= i < |t.steps| && StepOrdered(w, Links(t), t.steps[i], t.order)
    requires t.steps[i].path == name ==> t.done < |t.order| && w.fold(t.steps[i].from) == t.order[t.done]
    ensures StepOrdered(w, Into(t.documents + [name]), t.steps[i], Insert(t.order, t.done, w.fold(name)))
  {
    var s, v := t.steps[i], w.fold(name);
    var order := Insert(t.order, t.done, v);
    InsertElements(t.order, t.done, v);
    if s.path == name {
      assert order[t.done] == v && order[t.done + 1] == w.fold(s.from);
    } else if Counts(Links(t), s) && !s.cycle {
      BeforeInsert(t.order, t.done, v, w.fold(s.path), w.fold(s.from));
    }
  }

  /** Leaving the innermost document. */
  lemma Left(w: World, t: Trail)
    requires Sound(w, t) && t.done < |t.order|
    ensures Sound(w, t.(done := t.done + 1))
  {
    var chain, rest := t.Chain(), t.order[t.done + 1..];
    forall j | 0 <= j < |rest| - 1
      ensures ChainAt(w, Links(t), t.steps, rest, j)
    {
      assert ChainAt(w, Links(t), t.steps, chain, j + 1);
      assert rest[j] == chain[j + 1] && rest[j + 1] == chain[j + 2];
    }
  }

  // --------------------------------------------------------------- the walk's history

  /** Abandoned leaves a document when a budget stopped the walk. */
  datatype Event = Noted(step: LoadStep) | Opened(name: Text) | Closed | Abandoned

  function Next(w: World, t: Trail, e: Event): Trail {
    match e
    case Noted(s) => t.(steps := t.steps + [s])
    case Opened(name) =>
      var key := w.fold(name);
      t.(documents := t.documents + [name], seen := t.seen + {key}, active := t.active + {key},
         order := if t.done <= |t.order| then Insert(t.order, t.done, key) else t.order)
    case _ =>
      t.(active := if t.done < |t.order| then t.active - {t.order[t.done]} else t.active, done := t.done + 1)
  }

  /** The last load entered its target or could not. */
  predicate LastSettled(w: World, t: Trail) {
    |t.steps| <= 1 || w.fold(t.steps[|t.steps| - 1].path) in t.seen || !Enterable(w, t.steps[|t.steps| - 1].path)
  }

  /** When the walk takes a step: loads start at the document being loaded and are marked by
      what was entered, and by what is being loaded; a document is entered by its own load. */
  predicate Allowed(w: World, t: Trail, e: Event) {
    match e
    case Noted(s) =>
      (if t.steps == [] then t.order == [] else t.done < |t.order| && w.fold(s.from) == t.order[t.done]) &&
      LastSettled(w, t) && (s.cycle <==> w.fold(s.path) in t.active) && (s.repeated <==> w.fold(s.path) in t.seen)
    case Opened(name) =>
      t.steps != [] && w.fold(name) !in t.seen && t.done <= |t.order| &&
      var last := t.steps[|t.steps| - 1];
      last.path == name &&
      (if |t.steps| == 1 then t.order == []
       else Enterable(w, name) && t.done < |t.order| && w.fold(last.from) == t.order[t.done])
    case _ => t.done < |t.order|
  }

  /** Every load but the last reached its target or could not, and the last one that has a
      document's key reached it. */
  ghost predicate SettledBut(w: World, t: Trail) {
    && (t.steps != [] ==> Settled(w, Links(t), t.steps[..|t.steps| - 1]))
    && (|t.steps| > 1 && w.fold(t.steps[|t.steps| - 1].path) in t.order ==> Counts(Links(t), t.steps[|t.steps| - 1]))
  }

  /** seen are the entered documents and active those on the current path. */
  ghost predicate SetsKept(t: Trail) {
    t.done <= |t.order| && t.seen == Elements(t.order) && t.active == Elements(t.order[t.done..])
  }

  /** Only the root is entered unasked, and every load of it repeats. */
  ghost predicate RootKept(w: World, t: Trail) {
    && (t.documents == [] ==> |t.steps| <= 1)
    && (forall d :: 1 <= d < |t.documents| ==> Enterable(w, t.documents[d]))
    && (forall i :: 1 <= i < |t.steps| && t.documents != [] && w.fold(t.steps[i].path) == w.fold(t.documents[0]) ==>
          t.steps[i].repeated)
  }

  /** What holds after every event. */
  ghost predicate Kept(w: World, t: Trail) {
    Sound(w, t) && SetsKept(t) && RecordedOnce(w, t) && SettledBut(w, t) && RootKept(w, t)
  }

  lemma NotedSettled(w: World, t: Trail, s: LoadStep)
    requires SettledBut(w, t) && SetsKept(t) && Allowed(w, t, Noted(s))
    ensures SettledBut(w, Next(w, t, Noted(s)))
  {
    var u := Next(w, t, Noted(s));
    assert u.steps[..|u.steps| - 1] == t.steps;
    forall i | 1 <= i < |t.steps|
      ensures Counts(Links(t), t.steps[i]) || !Enterable(w, t.steps[i].path)
    {
      if i < |t.steps| - 1 { assert t.steps[..|t.steps| - 1][i] == t.steps[i]; }
    }
  }

  lemma NotedRoot(w: World, t: Trail, s: LoadStep)
    requires RootKept(w, t) && RecordedOnce(w, t) && SetsKept(t) && Allowed(w, t, Noted(s))
    ensures RootKept(w, Next(w, t, Noted(s)))
  {
    if t.documents != [] { RecordedKey(w, t, t.documents[0]); } else { NothingRecorded(w, t); }
  }

  lemma NothingRecorded(w: World, t: Trail)
    requires RecordedOnce(w, t) && t.documents == []
    ensures t.order == []
  {
    if t.order != [] { SomeElement(t.order); }
  }

  lemma SomeElement(s: seq<Text>)
    requires s != []
    ensures Elements(s) != {}
  {
    assert s[0] in Elements(s);
  }

  lemma KeptNoted(w: World, t: Trail, s: LoadStep)
    requires Kept(w, t) && Allowed(w, t, Noted(s))
    ensures Kept(w, Next(w, t, Noted(s)))
  {
    ActiveIncluded(t);
    StepNoted(w, t, s);
    NotedSettled(w, t, s);
    NotedRoot(w, t, s);
  }

  lemma ActiveIncluded(t: Trail)
    requires SetsKept(t)
    ensures t.active <= t.seen
  {
  }

  /** Before a document is entered, no earlier load could have reached it. */
  lemma OnlyLastLeads(w: World, t: Trail, name: Text)
    requires Kept(w, t) && Allowed(w, t, Opened(name))
    ensures forall i :: 1 <= i < |t.steps| - 1 ==> t.steps[i].path != name
  {
    var last := |t.steps| - 1;
    forall i | 1 <= i < last
      ensures t.steps[i].path != name
    {
      assert t.steps[..last][i] == t.steps[i];
      assert Counts(Links(t), t.steps[i]) || !Enterable(w, t.steps[i].path);
      assert StepOrdered(w, Links(t), t.steps[i], t.order);
    }
  }

  lemma OpenedSound(w: World, t: Trail, name: Text)
    requires Kept(w, t) && Allowed(w, t, Opened(name))
    ensures Sound(w, Next(w, t, Opened(name)))
  {
    OnlyLastLeads(w, t, name);
    var v, last, h := w.fold(name), |t.steps| - 1, Into(t.documents + [name]);
    if last > 0 {
      assert Counts(h, t.steps[last]);
      assert Linked(w, h, t.steps, t.order[t.done], v);
    }
    Entered(w, t, name);
    var u := t.(documents := t.documents + [name], order := Insert(t.order, t.done, v));
    SoundElsewhere(w, u, Next(w, t, Opened(name)));
  }

  lemma SoundElsewhere(w: World, t: Trail, u: Trail)
    requires Sound(w, t) && u == t.(seen := u.seen, active := u.active)
    ensures Sound(w, u)
  {
    assert u.Chain() == t.Chain();
  }

  lemma OpenedSets(w: World, t: Trail, name: Text)
    requires SetsKept(t)
    ensures SetsKept(Next(w, t, Opened(name)))
  {
    var key, chain := w.fold(name), t.order[t.done..];
    InsertElements(t.order, t.done, key);
    assert Elements([key] + chain) == {key} + Elements(chain);
  }

  lemma OpenedSettled(w: World, t: Trail, name: Text)
    requires SettledBut(w, t) && t.done <= |t.order| && Allowed(w, t, Opened(name))
    ensures SettledBut(w, Next(w, t, Opened(name)))
  {
    GrowsByName(t.documents, name);
  }

  lemma OpenedRoot(w: World, t: Trail, name: Text)
    requires RootKept(w, t) && Allowed(w, t, Opened(name)) && RecordedOnce(w, t)
    ensures RootKept(w, Next(w, t, Opened(name)))
  {
    var u := Next(w, t, Opened(name));
    if t.documents != [] {
      RecordedKey(w, t, t.documents[0]);
      assert u.documents[0] == t.documents[0];
    }
  }

  lemma OpenedOnce(w: World, t: Trail, name: Text)
    requires RecordedOnce(w, t) && t.done <= |t.order| && w.fold(name) !in Elements(t.order)
    ensures RecordedOnce(w, Next(w, t, Opened(name)))
  {
    InsertElements(t.order, t.done, w.fold(name));
    KeysNext(w, t.documents, name);
    assert w.fold(name) !in Elements(Keys(w, t.documents));
  }

  lemma KeptOpened(w: World, t: Trail, name: Text)
    requires Kept(w, t) && Allowed(w, t, Opened(name))
    ensures Kept(w, Next(w, t, Opened(name)))
  {
    OpenedRoot(w, t, name);
    OpenedSound(w, t, name);
    OpenedSets(w, t, name);
    OpenedOnce(w, t, name);
    OpenedSettled(w, t, name);
  }

  lemma KeptClosed(w: World, t: Trail)
    requires Kept(w, t) && Allowed(w, t, Closed)
    ensures Kept(w, Next(w, t, Closed))
  {
    var rest := t.order[t.done + 1..];
    assert t.order[t.done..] == [t.order[t.done]] + rest;
    forall i | 0 <= i < |rest|
      ensures rest[i] != t.order[t.done]
    {
      assert rest[i] == t.order[t.done + 1 + i];
    }
    Left(w, t);
    SoundElsewhere(w, t.(done := t.done + 1), Next(w, t, Closed));
  }

  // ------------------------------------------------------------- the walk's own state

  /** A document being loaded, with the loads it has still to follow. */
  datatype Frame = Frame(key: Text, name: Text, rest: seq<Child>)

  /** The documents being loaded, innermost first. */
  datatype Chain = Outside | Within(top: Frame, below: Chain)

  function Depth(chain: Chain): nat {
    match chain case Outside => 0 case Within(_, below) => 1 + Depth(below)
  }

  function FrameKeys(chain: Chain): (r: seq<Text>)
    ensures |r| == Depth(chain)
  {
    match chain case Outside => [] case Within(top, below) => [top.key] + FrameKeys(below)
  }

  datatype Walked = Walked(
    steps: seq<LoadStep>, documents: seq<Text>, seen: set<Text>, active: set<Text>, finished: seq<Text>, chain: Chain)
  {
    function View(): Trail {
      Trail(steps, documents, seen, active, finished + FrameKeys(chain), |finished|)
    }
  }

  const START: Walked := Walked([], [], {}, {}, [], Outside)

  function FollowedOne(chain: Chain): Chain {
    if chain.Within? && chain.top.rest != [] then Within(chain.top.(rest := chain.top.rest[1..]), chain.below)
    else chain
  }

  ghost function Then(w: World, t: Walked, e: Event): Walked {
    match e
    case Noted(s) => t.(steps := t.steps + [s], chain := FollowedOne(t.chain))
    case Opened(name) =>
      var key := w.fold(name);
      t.(documents := t.documents + [name], seen := t.seen + {key}, active := t.active + {key},
         chain := Within(Frame(key, name, Followed(w, name, |t.steps| == 1)), t.chain))
    case _ =>
      if t.chain.Outside? then t
      else t.(active := t.active - {t.chain.top.key}, finished := t.finished + [t.chain.top.key],
          chain := t.chain.below)
  }

  predicate Settles(w: World, t: Walked) {
    |t.steps| <= 1 || w.fold(t.steps[|t.steps| - 1].path) in t.seen || !Enterable(w, t.steps[|t.steps| - 1].path)
  }

  /** The load is the next one that the innermost document has to follow. */
  predicate IsNext(w: World, chain: Chain, from: Text, child: Child) {
    chain.Within? && chain.top.rest != [] && from == chain.top.name && w.fold(from) == chain.top.key &&
    child == chain.top.rest[0]
  }

  /** When the walk takes a step: the next load to follow of the innermost document is noted,
      marked by what was entered and by what is being loaded; a document is entered by its own
      load; it is left when all its loads were followed. */
  predicate May(w: World, t: Walked, e: Event) {
    match e
    case Noted(s) =>
      (if t.steps == [] then t.finished == [] && t.chain.Outside?
       else IsNext(w, t.chain, s.from, Child(s.path, s.line, s.kind))) &&
      Settles(w, t) && (s.cycle <==> w.fold(s.path) in t.active) && (s.repeated <==> w.fold(s.path) in t.seen)
    case Opened(name) =>
      t.steps != [] && w.fold(name) !in t.seen && t.steps[|t.steps| - 1].path == name &&
      (if |t.steps| == 1 then t.finished == [] && t.chain.Outside?
       else Enterable(w, name) && t.chain.Within? && w.fold(t.steps[|t.steps| - 1].from) == t.chain.top.key)
    case Closed => t.chain.Within? && t.chain.top.rest == []
    case Abandoned => t.chain.Within?
  }

  datatype History = Start | After(before: History, event: Event)

  ghost function Replay(w: World, h: History): Walked {
    match h case Start => START case After(before, e) => Then(w, Replay(w, before), e)
  }

  ghost predicate Legal(w: World, h: History) {
    match h case Start => true case After(before, e) => Legal(w, before) && May(w, Replay(w, before), e)
  }

  ghost predicate Unstopped(h: History) {
    match h case Start => true case After(before, e) => Unstopped(before) && e != Abandoned
  }

  /** The two pictures of one step agree. */
  lemma SameStep(w: World, t: Walked, e: Event)
    requires May(w, t, e)
    ensures Allowed(w, t.View(), e) && Then(w, t, e).View() == Next(w, t.View(), e)
  {
    var keys := FrameKeys(t.chain);
    var order, done := t.finished + keys, |t.finished|;
    match e {
      case Noted(_) =>
        assert FrameKeys(Then(w, t, e).chain) == keys;
      case Opened(name) =>
        assert order[..done] == t.finished && order[done..] == keys;
        assert FrameKeys(Then(w, t, e).chain) == [w.fold(name)] + keys;
        assert t.finished + ([w.fold(name)] + keys) == Insert(order, done, w.fold(name));
      case _ =>
        assert (t.finished + [t.chain.top.key]) + FrameKeys(t.chain.below) == order;
    }
  }

  /** Every history the walk may have keeps all of it. */
  lemma {:induction false} LegalKept(w: World, h: History)
    requires Legal(w, h)
    ensures Kept(w, Replay(w, h).View())
  {
    match h {
      case Start =>
        NothingYet(w);
        assert START.View() == Trail([], [], {}, {}, [], 0);
      case After(before, e) =>
        var t := Replay(w, before);
        LegalKept(w, before);
        SameStep(w, t, e);
        match e {
          case Noted(s) => KeptNoted(w, t.View(), s);
          case Opened(name) => KeptOpened(w, t.View(), name);
          case _ => KeptClosed(w, t.View());
        }
    }
  }

  lemma NothingYet(w: World)
    ensures Kept(w, Trail([], [], {}, {}, [], 0))
  {
  }

  // ------------------------------------------------------ the graph of all recorded loads

  /** A recorded load that reached no document although one with its target's key was entered. */
  ghost predicate Stray(w: World, t: Trail, i: nat) {
    1 <= i < |t.steps| && !Counts(Links(t), t.steps[i]) && w.fold(t.steps[i].path) in t.order
  }

  /** From the target of a stray load recorded loads lead back to where it starts. */
  ghost predicate StrayReturns(w: World, t: Trail, i: nat, p: seq<Text>) {
    && Stray(w, t, i) && Path(w, All, t.steps, p)
    && p[0] == w.fold(t.steps[i].path) && p[|p| - 1] == w.fold(t.steps[i].from)
  }

  ghost predicate SomeStrayReturns(w: World, t: Trail) {
    exists i, p :: StrayReturns(w, t, i, p)
  }

  lemma PathPart(w: World, g: Graph, steps: seq<LoadStep>, p: seq<Text>, a: nat, b: nat)
    requires Path(w, g, steps, p) && a < b <= |p|
    ensures Path(w, g, steps, p[a..b])
  {
    forall i | 0 <= i < b - a - 1
      ensures LinkedAt(w, g, steps, p[a..b], i)
    {
      assert LinkedAt(w, g, steps, p, a + i);
    }
  }

  /** Two paths that meet. */
  lemma PathJoin(w: World, g: Graph, steps: seq<LoadStep>, p: seq<Text>, q: seq<Text>)
    requires Path(w, g, steps, p) && Path(w, g, steps, q) && p[|p| - 1] == q[0]
    ensures Path(w, g, steps, p + q[1..])
  {
    var r := p + q[1..];
    forall i | 0 <= i < |r| - 1
      ensures LinkedAt(w, g, steps, r, i)
    {
      if i < |p| - 1 {
        assert LinkedAt(w, g, steps, p, i);
      } else {
        assert LinkedAt(w, g, steps, q, i - (|p| - 1));
        assert r[i] == q[i - (|p| - 1)] && r[i + 1] == q[i - (|p| - 1) + 1];
      }
    }
  }

  /** A stray load with a way back closes a walk. */
  lemma StrayCloses(w: World, t: Trail, i: nat, p: seq<Text>)
    requires StrayReturns(w, t, i, p)
    ensures !Acyclic(w, All, t.steps)
  {
    var u, v := w.fold(t.steps[i].from), w.fold(t.steps[i].path);
    var first := [u, v];
    assert Linked(w, All, t.steps, u, v);
    assert LinkedAt(w, All, t.steps, first, 0);
    assert Path(w, All, t.steps, first);
    PathJoin(w, All, t.steps, first, p);
    var q := first + p[1..];
    assert q[|q| - 1] == if |p| == 1 then v else p[|p| - 1];
  }

  /** A link of a closed walk turned to the front: what is left of the walk leads back. */
  lemma WayBack(w: World, g: Graph, steps: seq<LoadStep>, p: seq<Text>, j: nat) returns (back: seq<Text>)
    requires Path(w, g, steps, p) && j + 1 < |p| && p[0] == p[|p| - 1]
    ensures Path(w, g, steps, back) && back[0] == p[j + 1] && back[|back| - 1] == p[j]
  {
    PathPart(w, g, steps, p, j + 1, |p|);
    PathPart(w, g, steps, p, 0, j + 1);
    PathJoin(w, g, steps, p[j + 1..|p|], p[0..j + 1]);
    back := p[j + 1..|p|] + p[0..j + 1][1..];
    if j == 0 { assert back == p[1..|p|]; } else { assert back[|back| - 1] == p[0..j + 1][j]; }
  }

  /** Every link starts at an entered document. */
  lemma LinkStarts(w: World, t: Trail, g: Graph, u: Text, v: Text)
    requires Sound(w, t) && Linked(w, g, t.steps, u, v)
    ensures u in t.order
  {
    var i :| 1 <= i < |t.steps| && Counts(g, t.steps[i]) && w.fold(t.steps[i].from) == u &&
             w.fold(t.steps[i].path) == v;
    assert StepOrdered(w, Links(t), t.steps[i], t.order);
  }

  /** On a closed walk every key is that of an entered document, so a load on it that reached none
      is a stray one. */
  lemma WalkStrays(w: World, t: Trail, p: seq<Text>, j: nat)
    requires Sound(w, t) && Path(w, All, t.steps, p) && j + 1 < |p| && p[0] == p[|p| - 1]
    requires !LinkedAt(w, Links(t), t.steps, p, j)
    ensures SomeStrayReturns(w, t)
  {
    assert LinkedAt(w, All, t.steps, p, j);
    var i :| 1 <= i < |t.steps| && Counts(All, t.steps[i]) && w.fold(t.steps[i].from) == p[j]
             && w.fold(t.steps[i].path) == p[j + 1];
    var back := WayBack(w, All, t.steps, p, j);
    var k := if j + 1 < |p| - 1 then j + 1 else 0;
    assert LinkedAt(w, All, t.steps, p, k) && p[k] == p[j + 1];
    LinkStarts(w, t, All, p[k], p[k + 1]);
    assert StrayReturns(w, t, i, back);
  }

  /** The graph of all recorded loads is acyclic exactly when no step is marked and no stray load
      has a way back. */
  lemma AllMarkedExactly(w: World, t: Trail)
    requires Sound(w, t)
    ensures Acyclic(w, All, t.steps) <==> !SomeCycle(t.steps) && !SomeStrayReturns(w, t)
  {
    if SomeStrayReturns(w, t) {
      var i, p :| StrayReturns(w, t, i, p);
      StrayCloses(w, t, i, p);
    }
    if SomeCycle(t.steps) { CyclicMore(w, Links(t), t.steps, All, t.steps); }
    if !Acyclic(w, All, t.steps) && !SomeCycle(t.steps) {
      MarkedExactly(w, t);
      var p :| |p| > 1 && Path(w, All, t.steps, p) && p[0] == p[|p| - 1];
      assert !Path(w, Links(t), t.steps, p);
      var j :| 0 <= j < |p| - 1 && !LinkedAt(w, Links(t), t.steps, p, j);
      WalkStrays(w, t, p, j);
    }
  }

  lemma KeyRecorded(w: World, t: Trail, key: Text) returns (d: nat)
    requires RecordedOnce(w, t) && key in t.order
    ensures d < |t.documents| && w.fold(t.documents[d]) == key
  {
    assert key in Elements(t.order);
    assert key in Keys(w, t.documents);
    d :| 0 <= d < |t.documents| && Keys(w, t.documents)[d] == key;
  }

  /** A stray load's target has a document's key and cannot be entered itself. */
  lemma StrayNames(w: World, t: Trail, i: nat) returns (d: nat)
    requires Kept(w, t) && Stray(w, t, i)
    ensures 1 <= d < |t.documents| && w.fold(t.documents[d]) == w.fold(t.steps[i].path)
    ensures Enterable(w, t.documents[d]) && !Enterable(w, t.steps[i].path)
  {
    d := KeyRecorded(w, t, w.fold(t.steps[i].path));
    assert i < |t.steps| - 1;
    assert t.steps[..|t.steps| - 1][i] == t.steps[i];
  }

  ghost predicate ChildrenResolved(w: World, children: seq<Child>) {
    forall c :: c in children ==> Resolved(w, c.path)
  }

  lemma {:induction false} FollowedResolved(w: World, name: Text, loads: seq<Load>)
    ensures ChildrenResolved(w, Children(w, name, loads))
    decreases |loads|
  {
    if loads != [] { FollowedResolved(w, name, loads[1..]); }
  }

  ghost predicate ChainResolved(w: World, chain: Chain) {
    match chain
    case Outside => true
    case Within(top, below) => ChildrenResolved(w, top.rest) && ChainResolved(w, below)
  }

  /** Every load but the root's own leads to a path of directory entries. */
  ghost predicate NamesResolved(w: World, t: Walked) {
    && ChainResolved(w, t.chain)
    && (forall i :: 1 <= i < |t.steps| ==> Resolved(w, t.steps[i].path))
    && (forall d :: 1 <= d < |t.documents| ==> Resolved(w, t.documents[d]))
    && (t.finished == [] && t.chain.Outside? ==> t.documents == [])
  }

  lemma NextResolved(w: World, t: Walked, e: Event)
    requires NamesResolved(w, t) && May(w, t, e)
    ensures NamesResolved(w, Then(w, t, e))
  {
    match e
    case Noted(s) =>
      if t.steps != [] { assert t.chain.top.rest[0] in t.chain.top.rest; }
    case Opened(name) =>
      if w.read(name).Analysed? { FollowedResolved(w, name, w.read(name).facts.loads); }
    case _ =>
  }

  lemma {:induction false} LegalResolved(w: World, h: History)
    requires Legal(w, h)
    ensures NamesResolved(w, Replay(w, h))
  {
    match h
    case Start =>
    case After(before, e) =>
      LegalResolved(w, before);
      NextResolved(w, Replay(w, before), e);
  }

  /** Where names that share a key can all be entered or none, no load is stray, and the graph of all
      recorded loads is acyclic exactly when no step is marked. */
  lemma NoneStray(w: World, h: History)
    requires CaseConsistent(w) && Legal(w, h)
    ensures forall i: nat :: !Stray(w, Replay(w, h).View(), i)
    ensures Acyclic(w, All, Replay(w, h).steps) <==> !SomeCycle(Replay(w, h).steps)
  {
    var t := Replay(w, h).View();
    LegalKept(w, h);
    LegalResolved(w, h);
    forall i: nat | Stray(w, t, i)
      ensures false
    {
      var d := StrayNames(w, t, i);
    }
    AllMarkedExactly(w, t);
  }

  // ------------------------------------------------- every load that applies is recorded

  /** The loads recorded from one document, in order. */
  function OwnLoads(w: World, steps: seq<LoadStep>, key: Text): seq<Child> {
    if |steps| <= 1 then []
    else
      var s := steps[|steps| - 1];
      OwnLoads(w, steps[..|steps| - 1], key) + (if w.fold(s.from) == key then [Child(s.path, s.line, s.kind)] else [])
  }

  function RestOf(chain: Chain, key: Text): seq<Child> {
    match chain case Outside => [] case Within(top, below) => if top.key == key then top.rest else RestOf(below, key)
  }

  ghost predicate Accounted(w: World, t: Walked, d: nat)
    requires d < |t.documents|
  {
    var key := w.fold(t.documents[d]);
    key in t.seen && OwnLoads(w, t.steps, key) + RestOf(t.chain, key) == Followed(w, t.documents[d], d == 0)
  }

  ghost predicate AllAccounted(w: World, t: Walked) {
    && (forall d :: 0 <= d < |t.documents| ==> Accounted(w, t, d))
    && (forall key :: key !in t.seen ==> OwnLoads(w, t.steps, key) == [])
    && (t.documents == [] ==> t.chain.Outside?)
    && (t.finished == [] && t.chain.Outside? ==> t.documents == [])
  }

  ghost predicate ChainKept(t: Walked) {
    Distinct(FrameKeys(t.chain)) && t.active == Elements(FrameKeys(t.chain)) && t.active <= t.seen
  }

  lemma {:induction false} LegalChain(w: World, h: History)
    requires Legal(w, h)
    ensures ChainKept(Replay(w, h))
  {
    match h {
      case Start =>
      case After(before, e) =>
        LegalChain(w, before);
        var t := Replay(w, before);
        match e {
          case Noted(_) =>
          case Opened(name) => KeysGrow(w.fold(name), FrameKeys(t.chain));
          case _ => KeysShrink(t.chain.top.key, FrameKeys(t.chain.below));
        }
    }
  }

  lemma KeysGrow(key: Text, keys: seq<Text>)
    requires Distinct(keys) && key !in Elements(keys)
    ensures Elements([key] + keys) == {key} + Elements(keys) && Distinct([key] + keys)
  {
    forall i, j | 0 <= i < j < |[key] + keys|
      ensures ([key] + keys)[i] != ([key] + keys)[j]
    {
      assert ([key] + keys)[j] == keys[j - 1];
    }
  }

  lemma KeysShrink(key: Text, keys: seq<Text>)
    requires Distinct([key] + keys)
    ensures Elements(keys) == Elements([key] + keys) - {key} && Distinct(keys) && key !in keys
  {
    forall i | 0 <= i < |keys|
      ensures keys[i] != key
    {
      assert ([key] + keys)[i + 1] == keys[i] && ([key] + keys)[0] == key;
    }
    forall i, j | 0 <= i < j < |keys|
      ensures keys[i] != keys[j]
    {
      assert ([key] + keys)[i + 1] == keys[i] && ([key] + keys)[j + 1] == keys[j];
    }
  }

  lemma OwnLoadsNext(w: World, steps: seq<LoadStep>, s: LoadStep, key: Text)
    ensures OwnLoads(w, steps + [s], key) ==
            if steps != [] && w.fold(s.from) == key then OwnLoads(w, steps, key) + [Child(s.path, s.line, s.kind)]
            else OwnLoads(w, steps, key)
  {
    assert (steps + [s])[..|steps|] == steps;
  }

  lemma {:induction false} RestOfAbsent(chain: Chain, key: Text)
    requires key !in FrameKeys(chain)
    ensures RestOf(chain, key) == []
  {
    if chain.Within? { RestOfAbsent(chain.below, key); }
  }

  lemma HeadMoves(head: Child, rest: seq<Child>, own: seq<Child>)
    requires rest != [] && rest[0] == head
    ensures (own + [head]) + rest[1..] == own + rest
  {
  }

  lemma NotedAccounted(w: World, t: Walked, s: LoadStep, d: nat)
    requires May(w, t, Noted(s)) && d < |t.documents| && Accounted(w, t, d) && t.steps != []
    ensures Accounted(w, Then(w, t, Noted(s)), d)
  {
    var key := w.fold(t.documents[d]);
    OwnLoadsNext(w, t.steps, s, key);
    HeadMoves(t.chain.top.rest[0], t.chain.top.rest, OwnLoads(w, t.steps, key));
  }

  lemma AllNoted(w: World, t: Walked, s: LoadStep)
    requires May(w, t, Noted(s)) && AllAccounted(w, t) && ChainKept(t)
    ensures AllAccounted(w, Then(w, t, Noted(s)))
  {
    forall d | 0 <= d < |t.documents|
      ensures Accounted(w, Then(w, t, Noted(s)), d)
    {
      NotedAccounted(w, t, s, d);
    }
    forall key | key !in t.seen
      ensures OwnLoads(w, t.steps + [s], key) == []
    {
      OwnLoadsNext(w, t.steps, s, key);
      if t.steps != [] { assert FrameKeys(t.chain)[0] in Elements(FrameKeys(t.chain)); }
    }
  }

  lemma OpenedAccounted(w: World, t: Walked, name: Text)
    requires May(w, t, Opened(name)) && AllAccounted(w, t)
    ensures AllAccounted(w, Then(w, t, Opened(name)))
  {
    var u := Then(w, t, Opened(name));
    forall d | 0 <= d < |u.documents|
      ensures Accounted(w, u, d)
    {
      if d < |t.documents| { assert Accounted(w, t, d); }
    }
  }

  lemma ClosedAccounted(w: World, t: Walked)
    requires May(w, t, Closed) && AllAccounted(w, t) && ChainKept(t)
    ensures AllAccounted(w, Then(w, t, Closed))
  {
    var u := Then(w, t, Closed);
    KeysShrink(t.chain.top.key, FrameKeys(u.chain));
    RestOfAbsent(u.chain, t.chain.top.key);
    forall d | 0 <= d < |u.documents|
      ensures Accounted(w, u, d)
    {
      assert Accounted(w, t, d);
    }
  }

  /** In a history that was not stopped, what is recorded from a document together with what
      it has still to follow is exactly the loads that apply, in order. */
  lemma {:induction false} LegalAccounted(w: World, h: History)
    requires Legal(w, h) && Unstopped(h)
    ensures AllAccounted(w, Replay(w, h))
  {
    match h {
      case Start =>
      case After(before, e) =>
        LegalAccounted(w, before);
        LegalChain(w, before);
        match e {
          case Noted(s) => AllNoted(w, Replay(w, before), s);
          case Opened(name) => OpenedAccounted(w, Replay(w, before), name);
          case _ => ClosedAccounted(w, Replay(w, before));
        }
    }
  }
}
