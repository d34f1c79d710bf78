/** An addon whose recorded loads close a cycle of keys that no step marks: two directory entries
    that only full lower-casing identifies (internal/addoncheck/closure.go). */
module LoadCase {
  import opened Wrappers
  import opened Texts
  import opened LoadContext
  import opened LoadGraph

  /** The root loads u and then plain; u loads dotted, which shares plain's key and cannot be entered;
      plain loads u. */
  ghost predicate Arranged(w: World, root: Text, u: Text, dotted: Text, plain: Text) {
    && w.fold(dotted) == w.fold(plain) && w.fold(root) != w.fold(u)
    && w.fold(u) != w.fold(plain) && w.fold(root) != w.fold(plain)
    && Enterable(w, u) && Enterable(w, plain) && !Enterable(w, dotted)
    && Followed(w, root, true) == [Child(u, 1, []), Child(plain, 2, [])]
    && Followed(w, u, false) == [Child(dotted, 1, [])] && Followed(w, plain, false) == [Child(u, 1, [])]
  }

  /** A whole history from the events of a list. */
  function Happened(events: seq<Event>): History {
    if events == [] then Start else After(Happened(events[..|events| - 1]), events[|events| - 1])
  }

  ghost predicate Reaches(w: World, events: seq<Event>, t: Walked) {
    Legal(w, Happened(events)) && Unstopped(Happened(events)) && Replay(w, Happened(events)) == t
  }

  lemma ReachesNext(w: World, events: seq<Event>, t: Walked, e: Event)
    requires Reaches(w, events, t) && May(w, t, e) && e != Abandoned
    ensures Reaches(w, events + [e], Then(w, t, e))
  {
    assert (events + [e])[..|events|] == events;
  }

  function Steps(root: Text, u: Text, dotted: Text, plain: Text): seq<LoadStep> {
    [LoadStep([], 0, root, [], false, false), LoadStep(root, 1, u, [], false, false),
     LoadStep(u, 1, dotted, [], false, false), LoadStep(root, 2, plain, [], false, false),
     LoadStep(plain, 1, u, [], true, false)]
  }

  /** The root entered and its first load noted. */
  function AtFirst(w: World, root: Text, u: Text, dotted: Text, plain: Text): Walked {
    var r := w.fold(root);
    Walked(Steps(root, u, dotted, plain)[..2], [root], {r}, {r}, [],
           Within(Frame(r, root, [Child(plain, 2, [])]), Outside))
  }

  /** The end of u, whose one load could not be entered. */
  function AfterU(w: World, root: Text, u: Text, dotted: Text, plain: Text): Walked {
    var r := w.fold(root);
    Walked(Steps(root, u, dotted, plain)[..3], [root, u], {r, w.fold(u)}, {r}, [w.fold(u)],
           Within(Frame(r, root, [Child(plain, 2, [])]), Outside))
  }

  lemma ToFirst(w: World, root: Text, u: Text, dotted: Text, plain: Text) returns (events: seq<Event>)
    requires Arranged(w, root, u, dotted, plain)
    ensures Reaches(w, events, AtFirst(w, root, u, dotted, plain))
  {
    var steps, r := Steps(root, u, dotted, plain), w.fold(root);
    assert Reaches(w, [], START);
    ReachesNext(w, [], START, Noted(steps[0]));
    var t1 := Then(w, START, Noted(steps[0]));
    assert t1.steps == steps[..1];
    events := [] + [Noted(steps[0])];
    ReachesNext(w, events, t1, Opened(root));
    var t2 := Then(w, t1, Opened(root));
    events := events + [Opened(root)];
    ReachesNext(w, events, t2, Noted(steps[1]));
    events := events + [Noted(steps[1])];
    assert steps[..1] + [steps[1]] == steps[..2] && t2.chain.top.rest[1..] == [Child(plain, 2, [])];
    assert [] + [root] == [root] && {} + {r} == {r};
  }

  lemma IntoU(w: World, root: Text, u: Text, dotted: Text, plain: Text) returns (events: seq<Event>, t: Walked)
    requires Arranged(w, root, u, dotted, plain)
    ensures Reaches(w, events, t)
    ensures var r, k := w.fold(root), w.fold(u);
            t == Walked(Steps(root, u, dotted, plain)[..2], [root, u], {r, k}, {r, k}, [],
                        Within(Frame(k, u, [Child(dotted, 1, [])]), AtFirst(w, root, u, dotted, plain).chain))
  {
    events := ToFirst(w, root, u, dotted, plain);
    var t3 := AtFirst(w, root, u, dotted, plain);
    ReachesNext(w, events, t3, Opened(u));
    t := Then(w, t3, Opened(u));
    events := events + [Opened(u)];
    assert [root] + [u] == [root, u] && {w.fold(root)} + {w.fold(u)} == {w.fold(root), w.fold(u)};
  }

  lemma PastDotted(w: World, root: Text, u: Text, dotted: Text, plain: Text) returns (events: seq<Event>, t: Walked)
    requires Arranged(w, root, u, dotted, plain)
    ensures Reaches(w, events, t)
    ensures var r, k := w.fold(root), w.fold(u);
            t == Walked(Steps(root, u, dotted, plain)[..3], [root, u], {r, k}, {r, k}, [],
                        Within(Frame(k, u, []), AtFirst(w, root, u, dotted, plain).chain))
  {
    var t4;
    events, t4 := IntoU(w, root, u, dotted, plain);
    var steps := Steps(root, u, dotted, plain);
    ReachesNext(w, events, t4, Noted(steps[2]));
    t := Then(w, t4, Noted(steps[2]));
    events := events + [Noted(steps[2])];
    assert steps[..2] + [steps[2]] == steps[..3] && t.chain.top.rest == [];
  }

  lemma ThroughU(w: World, root: Text, u: Text, dotted: Text, plain: Text) returns (events: seq<Event>)
    requires Arranged(w, root, u, dotted, plain)
    ensures Reaches(w, events, AfterU(w, root, u, dotted, plain))
  {
    var t5;
    events, t5 := PastDotted(w, root, u, dotted, plain);
    ReachesNext(w, events, t5, Closed);
    events := events + [Closed];
    var r, k := w.fold(root), w.fold(u);
    assert {r, k} - {k} == {r} && [] + [k] == [k];
  }

  /** The root's second load, which shares its key with the load of u, is entered. */
  lemma ToPlain(w: World, root: Text, u: Text, dotted: Text, plain: Text) returns (events: seq<Event>, t: Walked)
    requires Arranged(w, root, u, dotted, plain)
    ensures Reaches(w, events, t) && t.steps == Steps(root, u, dotted, plain)[..4]
    ensures w.fold(u) in t.seen && w.fold(plain) in t.seen && t.active == {w.fold(root), w.fold(plain)}
    ensures t.chain == Within(Frame(w.fold(plain), plain, [Child(u, 1, [])]),
                              Within(Frame(w.fold(root), root, []), Outside))
  {
    events := ThroughU(w, root, u, dotted, plain);
    var steps, t6 := Steps(root, u, dotted, plain), AfterU(w, root, u, dotted, plain);
    ReachesNext(w, events, t6, Noted(steps[3]));
    var t7 := Then(w, t6, Noted(steps[3]));
    assert t7.steps == steps[..4] && t7.chain.top.rest == [];
    events := events + [Noted(steps[3])];
    ReachesNext(w, events, t7, Opened(plain));
    events := events + [Opened(plain)];
    t := Then(w, t7, Opened(plain));
    assert t.active == {w.fold(root)} + {w.fold(plain)};
  }

  /** And loads u, which is no longer being loaded. */
  lemma ToEnd(w: World, root: Text, u: Text, dotted: Text, plain: Text) returns (events: seq<Event>, t: Walked)
    requires Arranged(w, root, u, dotted, plain)
    ensures Reaches(w, events, t) && t.steps == Steps(root, u, dotted, plain) && t.chain == Outside
  {
    var t8;
    events, t8 := ToPlain(w, root, u, dotted, plain);
    var steps := Steps(root, u, dotted, plain);
    ReachesNext(w, events, t8, Noted(steps[4]));
    var t9 := Then(w, t8, Noted(steps[4]));
    assert t9.steps == steps && t9.chain.top.rest == [];
    events := events + [Noted(steps[4])];
    ReachesNext(w, events, t9, Closed);
    var t10 := Then(w, t9, Closed);
    events := events + [Closed];
    ReachesNext(w, events, t10, Closed);
    t := Then(w, t10, Closed);
    events := events + [Closed];
  }

  lemma KeysCycle(w: World, root: Text, u: Text, dotted: Text, plain: Text)
    requires Arranged(w, root, u, dotted, plain)
    ensures !Acyclic(w, All, Steps(root, u, dotted, plain))
  {
    var steps := Steps(root, u, dotted, plain);
    var p := [w.fold(u), w.fold(plain), w.fold(u)];
    assert w.fold(steps[2].from) == p[0] && w.fold(steps[2].path) == p[1];
    assert w.fold(steps[4].from) == p[1] && w.fold(steps[4].path) == p[2];
    assert LinkedAt(w, All, steps, p, 0) && LinkedAt(w, All, steps, p, 1);
    assert Path(w, All, steps, p);
  }

  lemma NoneMarked(root: Text, u: Text, dotted: Text, plain: Text)
    ensures !SomeCycle(Steps(root, u, dotted, plain))
  {
    CycleFound(Steps(root, u, dotted, plain));
  }

  /** A walk that ends, stopped by no budget, in which no step is marked and the keys of all recorded
      loads close a cycle, through a load that reached no document. */
  lemma UnmarkedCycle(w: World, root: Text, u: Text, dotted: Text, plain: Text) returns (h: History)
    requires Arranged(w, root, u, dotted, plain)
    ensures var t := Replay(w, h);
            && Legal(w, h) && Unstopped(h) && t.chain == Outside && !SomeCycle(t.steps)
            && !Acyclic(w, All, t.steps) && Acyclic(w, Into(t.documents), t.steps)
    ensures SomeStrayReturns(w, Replay(w, h).View()) && !CaseConsistent(w)
  {
    var events, t := ToEnd(w, root, u, dotted, plain);
    h := Happened(events);
    NoneMarked(root, u, dotted, plain);
    KeysCycle(w, root, u, dotted, plain);
    LegalKept(w, h);
    MarkedExactly(w, t.View());
    AllMarkedExactly(w, t.View());
    if CaseConsistent(w) { NoneStray(w, h); }
  }

  // ------------------------------------------------------------------ such an addon

  const ROOT: Text := "a.toc"
  const UPPER: Text := "u.xml"
  const PLAIN: Text := "i.xml"
  /** The letter U+0130, of two octets, whose lower case is the letter i. */
  const DOTTED: Text := [0xC4 as Octet, 0xB0 as Octet] + ".xml"

  function Contents(name: Text): Reading {
    if name == ROOT then Analysed(1, Facts([], [], [], [Load(UPPER, 1, []), Load(PLAIN, 2, [])]))
    else if name == UPPER then Analysed(1, Facts([], [], [], [Load(DOTTED, 1, [])]))
    else if name == PLAIN then Analysed(1, Facts([], [], [], [Load(UPPER, 1, [])]))
    else if name == DOTTED then Unanalysable(1)
    else Unreadable
  }

  function DottedWorld(): World {
    World((name: Text) => if name == DOTTED then PLAIN else name,
          (name: Text) => if name == ROOT then ".toc" else ".xml",
          (name: Text) => Contents(name), (from: Text, path: Text) => Ok(path), Client([], []), (raw: Text) => true)
  }

  /** A target of plain letters stands for itself. */
  lemma PlainTarget(w: World, raw: Text)
    requires raw != [] && !IsSpace(raw[0]) && !IsSpace(raw[|raw| - 1]) && !Bracketed(raw)
    ensures TargetOf(w, raw) == Target(raw, true, true)
  {
    assert raw[|raw| - 1] in raw;
    UnbracketedHasNoToken(raw, FAMILY);
    UnbracketedHasNoToken(raw, GAME);
  }

  lemma PlainChild(w: World, name: Text, load: Load, later: seq<Load>)
    requires TargetOf(w, load.path) == Target(load.path, true, true) && w.resolve(name, load.path) == Ok(load.path)
    ensures Children(w, name, [load] + later) == [Child(load.path, load.line, load.kind)] + Children(w, name, later)
  {
    assert ([load] + later)[1..] == later;
  }

  lemma OneChild(w: World, name: Text, load: Load)
    requires TargetOf(w, load.path) == Target(load.path, true, true) && w.resolve(name, load.path) == Ok(load.path)
    ensures Children(w, name, [load]) == [Child(load.path, load.line, load.kind)]
  {
    PlainChild(w, name, load, []);
    assert [load] + [] == [load];
  }

  lemma TwoChildren(w: World, name: Text, first: Load, second: Load)
    requires TargetOf(w, first.path) == Target(first.path, true, true) && w.resolve(name, first.path) == Ok(first.path)
    requires TargetOf(w, second.path) == Target(second.path, true, true)
    requires w.resolve(name, second.path) == Ok(second.path)
    ensures Children(w, name, [first, second]) ==
            [Child(first.path, first.line, first.kind), Child(second.path, second.line, second.kind)]
  {
    PlainChild(w, name, first, [second]);
    OneChild(w, name, second);
    assert [first] + [second] == [first, second];
  }

  lemma NamesApart()
    ensures ROOT != UPPER && ROOT != PLAIN && UPPER != PLAIN && DOTTED != ROOT && DOTTED != UPPER && DOTTED != PLAIN
    ensures forall name :: name in [UPPER, PLAIN, DOTTED] ==>
              name != [] && !IsSpace(name[0]) && !IsSpace(name[|name| - 1]) && !Bracketed(name)
  {
    assert DOTTED[0] == 0xC4 as Octet && |DOTTED| == 6;
  }

  lemma RootFollows(w: World)
    requires w == DottedWorld()
    ensures Followed(w, ROOT, true) == [Child(UPPER, 1, []), Child(PLAIN, 2, [])]
  {
    NamesApart();
    PlainTarget(w, UPPER);
    PlainTarget(w, PLAIN);
    TwoChildren(w, ROOT, Load(UPPER, 1, []), Load(PLAIN, 2, []));
  }

  lemma UpperFollows(w: World)
    requires w == DottedWorld()
    ensures Followed(w, UPPER, false) == [Child(DOTTED, 1, [])]
  {
    NamesApart();
    PlainTarget(w, DOTTED);
    OneChild(w, UPPER, Load(DOTTED, 1, []));
  }

  lemma PlainFollows(w: World)
    requires w == DottedWorld()
    ensures Followed(w, PLAIN, false) == [Child(UPPER, 1, [])]
  {
    NamesApart();
    PlainTarget(w, UPPER);
    OneChild(w, PLAIN, Load(UPPER, 1, []));
  }

  lemma Entered(w: World)
    requires w == DottedWorld()
    ensures Enterable(w, UPPER) && Enterable(w, PLAIN) && !Enterable(w, DOTTED)
  {
    NamesApart();
  }

  lemma Folded(w: World)
    requires w == DottedWorld()
    ensures w.fold(DOTTED) == w.fold(PLAIN) == PLAIN && w.fold(ROOT) == ROOT && w.fold(UPPER) == UPPER
  {
    NamesApart();
  }

  lemma ArrangedBy(w: World, root: Text, u: Text, dotted: Text, plain: Text)
    requires w.fold(dotted) == w.fold(plain) && w.fold(root) != w.fold(u)
    requires w.fold(u) != w.fold(plain) && w.fold(root) != w.fold(plain)
    requires Enterable(w, u) && Enterable(w, plain) && !Enterable(w, dotted)
    requires Followed(w, root, true) == [Child(u, 1, []), Child(plain, 2, [])]
    requires Followed(w, u, false) == [Child(dotted, 1, [])] && Followed(w, plain, false) == [Child(u, 1, [])]
    ensures Arranged(w, root, u, dotted, plain)
  {
  }

  /** It is an addon of this kind. */
  lemma DottedArranged(w: World)
    requires w == DottedWorld()
    ensures Arranged(w, ROOT, UPPER, DOTTED, PLAIN)
  {
    NamesApart();
    Entered(w);
    Folded(w);
    RootFollows(w);
    UpperFollows(w);
    PlainFollows(w);
    ArrangedBy(w, ROOT, UPPER, DOTTED, PLAIN);
  }
}
