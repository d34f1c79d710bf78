/** The ordered closure of an addon's loads (internal/addoncheck/closure.go): a depth-first
    walk that records every load and enters every document once. */
module Closure {
  import opened Wrappers
  import opened Texts
  import opened LoadContext
  import opened LoadGraph

  const MAX_DEPTH := 64
  const MAX_STEPS := 20000
  const MAX_DOCUMENTS := 10000
  const MAX_REFERENCES := 20000
  const MAX_BYTES := 0x400_0000

  datatype Code =
    | LoadCycle | DuplicateLoad | UnsupportedLoad | LoadUnreadable | SourceInvalid | Syntax | SourceEncoding
    | ManifestExcluded | ConditionUnavailable | PathEscape | FileMissing | LoadReference

  datatype Issue = Issue(error: bool, code: Code, path: Text, line: nat, reference: Text)

  datatype Stop = ClosureBudget | ByteBudget | ReferenceBudget | NotManifest

  function ResolveCode(f: Failure): Code {
    match f case Escape => PathEscape case NotFound => FileMissing case NotResolved => LoadReference
  }

  predicate SomeError(issues: seq<Issue>) {
    issues != [] && (issues[|issues| - 1].error || SomeError(issues[..|issues| - 1]))
  }

  predicate SomeUnavailable(issues: seq<Issue>) {
    issues != [] && (issues[|issues| - 1].code == ConditionUnavailable || SomeUnavailable(issues[..|issues| - 1]))
  }

  lemma IssueAdded(issues: seq<Issue>, issue: Issue)
    ensures SomeError(issues + [issue]) <==> SomeError(issues) || issue.error
    ensures SomeUnavailable(issues + [issue]) <==> SomeUnavailable(issues) || issue.code == ConditionUnavailable
  {
    assert (issues + [issue])[..|issues|] == issues;
  }

  lemma {:induction false} ManifestRefuses(w: World, headers: seq<Header>, i: nat)
    requires i < |headers| && HeaderVerdict(w, headers[i]) != Verdict(true, true)
    ensures !ManifestAllows(w, headers)
    decreases |headers|
  {
    var last := |headers| - 1;
    if i < last {
      assert headers[..last][i] == headers[i];
      ManifestRefuses(w, headers[..last], i);
    }
  }

  lemma AllowsNext(w: World, headers: seq<Header>, i: nat)
    requires i < |headers|
    ensures ManifestAllows(w, headers[..i + 1]) <==>
            ManifestAllows(w, headers[..i]) && HeaderVerdict(w, headers[i]) == Verdict(true, true)
  {
    assert headers[..i + 1][..i] == headers[..i];
  }

  lemma Onward(loads: seq<Load>, i: nat)
    requires i < |loads|
    ensures loads[i..] == [loads[i]] + loads[i + 1..]
  {
  }

  predicate Applies(w: World, name: Text, t: Target) {
    t.included && t.known && w.resolve(name, t.path).Ok?
  }

  lemma ChildrenNext(w: World, name: Text, load: Load, later: seq<Load>)
    ensures var t, all := TargetOf(w, load.path), Children(w, name, [load] + later);
            if Applies(w, name, t) then
              all != [] && all[0] == Child(w.resolve(name, t.path).value, load.line, load.kind) &&
              all[1..] == Children(w, name, later)
            else all == Children(w, name, later)
  {
    assert ([load] + later)[1..] == later;
    assert [] + Children(w, name, later) == Children(w, name, later);
  }

  // ------------------------------------------------------------- the walk's own state

  datatype Log = Log(issues: seq<Issue>, valid: bool, complete: bool)

  datatype State = State(walked: Walked, log: Log, bytes: nat, references: nat, history: History, failed: bool)

  function Issued(log: Log, issue: Issue): Log {
    Log(log.issues + [issue], log.valid && !issue.error, log.complete && issue.code != ConditionUnavailable)
  }

  function Reported(s: State, issue: Issue): State {
    s.(log := Issued(s.log, issue))
  }

  ghost function Did(w: World, s: State, e: Event): State {
    s.(walked := Then(w, s.walked, e), history := After(s.history, e))
  }

  /** The state is what a history the walk may have leads to. */
  ghost predicate Tracked(w: World, s: State) {
    Legal(w, s.history) && Replay(w, s.history) == s.walked && s.walked.active <= s.walked.seen
  }

  /** Every budget is kept, and a walk that none of them stopped left every document whole. */
  ghost predicate Bounded(s: State) {
    |s.walked.steps| <= MAX_STEPS && |s.walked.documents| <= MAX_DOCUMENTS &&
    (!s.failed ==> s.bytes <= MAX_BYTES && s.references <= MAX_REFERENCES && Unstopped(s.history))
  }

  /** The error issues decide validity, and unresolved conditions decide completeness. */
  ghost predicate Logged(log: Log) {
    (log.valid <==> !SomeError(log.issues)) && (log.complete <==> !SomeUnavailable(log.issues))
  }

  /** A marked step has made the walk invalid. */
  ghost predicate MarksShown(s: State) {
    SomeCycle(s.walked.steps) ==> !s.log.valid
  }

  ghost predicate Sane(w: World, s: State) {
    Tracked(w, s) && Bounded(s) && Logged(s.log) && MarksShown(s) && (s.failed || Settles(w, s.walked))
  }

  /** The path of documents being loaded is as it was. */
  ghost predicate Returned(a: State, b: State) {
    |a.walked.steps| <= |b.walked.steps| &&
    (if a.walked.chain.Outside? then b.walked.chain.Outside?
     else b.walked.chain.Within? && b.walked.chain.below == a.walked.chain.below &&
          b.walked.chain.top == a.walked.chain.top.(rest := b.walked.chain.top.rest))
  }

  lemma ReportedSane(w: World, s: State, issue: Issue)
    requires Tracked(w, s) && Bounded(s) && Logged(s.log) && (s.failed || Settles(w, s.walked))
    requires MarksShown(s) || issue.error
    ensures Sane(w, Reported(s, issue))
  {
    IssueAdded(s.log.issues, issue);
  }

  lemma StoppedSane(w: World, s: State)
    requires Tracked(w, s) && Bounded(s) && Logged(s.log) && MarksShown(s)
    ensures Sane(w, s.(failed := true))
  {
  }

  /** One load noted: everything but what a mark says of the log, and what becomes of the target. */
  lemma NotedTracked(w: World, s: State, step: LoadStep)
    requires Sane(w, s) && !s.failed && May(w, s.walked, Noted(step)) && |s.walked.steps| < MAX_STEPS
    ensures var r := Did(w, s, Noted(step));
            && Tracked(w, r) && Bounded(r) && Logged(r.log) && (MarksShown(r) || step.cycle)
            && r.walked.steps == s.walked.steps + [step]
            && (step.repeated ==> Settles(w, r.walked)) && (step.cycle ==> step.repeated)
  {
    SomeCycleMore(s.walked.steps, step);
  }

  /** Leaving a document, all of whose loads were followed unless a budget stopped the walk. */
  lemma LeftSane(w: World, s: State, e: Event)
    requires Sane(w, s) && May(w, s.walked, e) && (e == Closed || (e == Abandoned && s.failed))
    ensures Sane(w, Did(w, s, e))
  {
  }

  /** The step just noted is the last, and its target was never entered. */
  ghost predicate AtStep(w: World, s: State, name: Text, depth: nat, manifest: bool) {
    && Tracked(w, s) && Bounded(s) && Logged(s.log) && MarksShown(s) && !s.failed
    && depth == Depth(s.walked.chain) && depth <= MAX_DEPTH && |s.walked.documents| < MAX_DOCUMENTS
    && Arrived(w, s.walked, name, manifest)
  }

  ghost predicate Arrived(w: World, t: Walked, name: Text, manifest: bool) {
    && t.steps != [] && t.steps[|t.steps| - 1].path == name && w.fold(name) !in t.seen
    && if manifest then |t.steps| == 1 && t.finished == [] && t.chain.Outside? else
       |t.steps| > 1 && t.chain.Within? && w.fold(t.steps[|t.steps| - 1].from) == t.chain.top.key
  }

  lemma MayOpen(w: World, t: Walked, name: Text, manifest: bool)
    requires Arrived(w, t, name, manifest) && (manifest || Enterable(w, name))
    ensures May(w, t, Opened(name)) && (|t.steps| == 1 <==> manifest)
  {
  }

  lemma OpenedSane(w: World, s: State, name: Text, depth: nat, manifest: bool)
    requires AtStep(w, s, name, depth, manifest) && (manifest || Enterable(w, name))
    ensures Sane(w, Did(w, s, Opened(name)))
    ensures Did(w, s, Opened(name)).walked.chain ==
            Within(Frame(w.fold(name), name, Followed(w, name, manifest)), s.walked.chain)
  {
    MayOpen(w, s.walked, name, manifest);
  }

  class ClosureWalk {
    const world: World
    const documentBytes: nat
    var steps: seq<LoadStep>
    var documents: seq<Text>
    var issues: seq<Issue>
    var loadValid: bool
    var loadComplete: bool
    var seen: set<Text>
    var active: set<Text>
    var totalBytes: nat
    var references: nat
    /** The documents entered and left, and those being loaded, innermost first. */
    ghost var finished: seq<Text>
    ghost var chain: Chain
    ghost var history: History
    ghost var failed: bool

    constructor (world: World, documentBytes: nat)
      ensures this.world == world && this.documentBytes == documentBytes && Valid()
      ensures Now() == State(START, Log([], true, true), 0, 0, Start, false)
    {
      this.world, this.documentBytes := world, documentBytes;
      steps, documents, issues := [], [], [];
      loadValid, loadComplete := true, true;
      seen, active := {}, {};
      totalBytes, references := 0, 0;
      finished, chain, history, failed := [], Outside, Start, false;
    }

    ghost function Trace(): Walked
      reads this`steps, this`documents, this`seen, this`active, this`finished, this`chain
    {
      Walked(steps, documents, seen, active, finished, chain)
    }

    ghost function Now(): State
      reads this
    {
      State(Trace(), Log(issues, loadValid, loadComplete), totalBytes, references, history, failed)
    }

    ghost predicate Valid()
      reads this
    {
      Sane(world, Now())
    }

    method Report(error: bool, code: Code, path: Text, line: nat, reference: Text)
      modifies this`issues, this`loadValid, this`loadComplete
      ensures Now() == Reported(old(Now()), Issue(error, code, path, line, reference))
    {
      issues := issues + [Issue(error, code, path, line, reference)];
      if error {
        loadValid := false;
      }
      if code == ConditionUnavailable {
        loadComplete := false;
      }
    }

    /** Records one load, marked by what was entered and by what is being loaded. */
    method Note(from: Text, line: nat, name: Text, kind: Text) returns (repeated: bool, cycle: bool)
      modifies this`steps, this`chain, this`history
      ensures repeated == (world.fold(name) in old(seen)) && cycle == (world.fold(name) in old(active))
      ensures Now() == Did(world, old(Now()), Noted(LoadStep(from, line, name, kind, repeated, cycle)))
    {
      var key := world.fold(name);
      repeated, cycle := key in seen, key in active;
      var step := LoadStep(from, line, name, kind, repeated, cycle);
      history := After(history, Noted(step));
      steps := steps + [step];
      chain := FollowedOne(chain);
    }

    /** Leaves a document. */
    method Close(name: Text)
      requires chain.Within? && chain.top.key == world.fold(name)
      modifies this`active, this`finished, this`chain, this`history
      ensures Now() == Did(world, old(Now()), if failed then Abandoned else Closed)
    {
      history := After(history, if failed then Abandoned else Closed);
      active := active - {world.fold(name)};
      finished, chain := finished + [chain.top.key], chain.below;
    }

    /** Enters a document. */
    method Open(name: Text)
      modifies this`documents, this`seen, this`active, this`chain, this`history
      ensures Now() == Did(world, old(Now()), Opened(name))
    {
      var key := world.fold(name);
      history := After(history, Opened(name));
      documents := documents + [name];
      seen := seen + {key};
      active := active + {key};
      chain := Within(Frame(key, name, Followed(world, name, |steps| == 1)), chain);
    }

    /** The load comes from the root's manifest, or is the next of the innermost document. */
    ghost predicate Due(name: Text, from: Text, line: nat, kind: Text, manifest: bool)
      reads this`steps, this`finished, this`chain
    {
      if manifest then steps == [] && finished == [] && chain.Outside?
      else steps != [] && IsNext(world, chain, from, Child(name, line, kind))
    }

    /** load: records the step, and enters its target unless it was entered before. */
    method Load(name: Text, from: Text, line: nat, depth: nat, kind: Text, manifest: bool) returns (stop: Option<Stop>)
      requires Valid() && !failed && depth == Depth(chain) && depth <= MAX_DEPTH + 1
      requires Due(name, from, line, kind, manifest)
      modifies this
      ensures Valid() && failed == stop.Some? && Returned(old(Now()), Now())
      ensures stop.None? ==> chain == FollowedOne(old(chain))
      decreases MAX_DEPTH + 1 - depth, 4
    {
      if depth > MAX_DEPTH || |steps| >= MAX_STEPS || |documents| >= MAX_DOCUMENTS {
        StoppedSane(world, Now());
        failed := true;
        stop := Some(ClosureBudget);
      } else {
        stop := Visit(name, from, line, depth, kind, manifest);
      }
    }

    method Visit(name: Text, from: Text, line: nat, depth: nat, kind: Text, manifest: bool) returns (stop: Option<Stop>)
      requires Valid() && !failed && depth == Depth(chain) && depth <= MAX_DEPTH
      requires |steps| < MAX_STEPS && |documents| < MAX_DOCUMENTS
      requires Due(name, from, line, kind, manifest)
      modifies this
      ensures Valid() && failed == stop.Some? && Returned(old(Now()), Now())
      ensures stop.None? ==> chain == FollowedOne(old(chain))
      decreases MAX_DEPTH + 1 - depth, 3
    {
      ghost var before := Now();
      var repeated, cycle := Note(from, line, name, kind);
      NotedTracked(world, before, LoadStep(from, line, name, kind, repeated, cycle));
      stop := None;
      if cycle {
        ReportedSane(world, Now(), Issue(true, LoadCycle, from, line, name));
        Report(true, LoadCycle, from, line, name);
      } else if repeated {
        ReportedSane(world, Now(), Issue(false, DuplicateLoad, from, line, name));
        Report(false, DuplicateLoad, from, line, name);
      } else {
        stop := Read(name, from, line, depth, manifest);
      }
    }

    /** The target of the step just noted: checked, read and analysed. */
    method Read(name: Text, from: Text, line: nat, depth: nat, manifest: bool) returns (stop: Option<Stop>)
      requires AtStep(world, Now(), name, depth, manifest)
      modifies this
      ensures Valid() && failed == stop.Some? && Returned(old(Now()), Now()) && (stop.None? ==> chain == old(chain))
      decreases MAX_DEPTH + 1 - depth, 2
    {
      var extension := world.extension(name);
      if !manifest && extension != ".lua" && extension != ".xml" {
        ReportedSane(world, Now(), Issue(true, UnsupportedLoad, from, line, name));
        Report(true, UnsupportedLoad, from, line, name);
        return None;
      }
      var reading := world.read(name);
      if reading.Unreadable? {
        ReportedSane(world, Now(), Issue(true, LoadUnreadable, from, line, name));
        Report(true, LoadUnreadable, from, line, name);
        return None;
      }
      stop := Analyse(name, reading, depth, manifest);
    }

    method Analyse(name: Text, reading: Reading, depth: nat, manifest: bool) returns (stop: Option<Stop>)
      requires AtStep(world, Now(), name, depth, manifest) && reading == world.read(name) && !reading.Unreadable?
      requires manifest || world.extension(name) == ".lua" || world.extension(name) == ".xml"
      modifies this
      ensures Valid() && failed == stop.Some? && Returned(old(Now()), Now()) && (stop.None? ==> chain == old(chain))
      decreases MAX_DEPTH + 1 - depth, 1, 1
    {
      ghost var before := Now();
      totalBytes := totalBytes + reading.size;
      if reading.size > documentBytes || totalBytes > MAX_BYTES {
        failed := true;
        stop := Some(ByteBudget);
      } else if reading.Unanalysable? {
        ReportedSane(world, Now(), Issue(true, SourceInvalid, name, 0, []));
        Report(true, SourceInvalid, name, 0, []);
        stop := None;
      } else {
        stop := Enter(name, reading.facts, depth, manifest);
      }
    }

    /** Enters a document, follows its loads and leaves it again. */
    method Enter(name: Text, facts: Facts, depth: nat, manifest: bool) returns (stop: Option<Stop>)
      requires AtStep(world, Now(), name, depth, manifest) && (manifest || Enterable(world, name))
      requires world.read(name).Analysed? && world.read(name).facts == facts
      modifies this
      ensures Valid() && failed == stop.Some? && Returned(old(Now()), Now()) && (stop.None? ==> chain == old(chain))
      decreases MAX_DEPTH + 1 - depth, 1, 0
    {
      OpenedSane(world, Now(), name, depth, manifest);
      Open(name);
      stop := Follow(name, facts, depth, manifest);
      LeftSane(world, Now(), if failed then Abandoned else Closed);
      Close(name);
    }

    /** A document's own notes, the manifest's conditions and then its loads, in order. */
    method Follow(name: Text, facts: Facts, depth: nat, manifest: bool) returns (stop: Option<Stop>)
      requires Valid() && !failed && depth + 1 == Depth(chain) && depth <= MAX_DEPTH && steps != []
      requires world.read(name).Analysed? && world.read(name).facts == facts
      requires chain.top == Frame(world.fold(name), name, Followed(world, name, manifest))
      modifies this
      ensures Valid() && failed == stop.Some? && Returned(old(Now()), Now()) && (stop.None? ==> chain.top.rest == [])
      decreases MAX_DEPTH + 1 - depth, 0, 3
    {
      ReportNotes(name, facts);
      var follow := true;
      if manifest {
        follow := CheckManifest(name, facts.headers);
      }
      stop := None;
      if follow {
        stop := FollowLoads(name, facts.loads, depth);
      }
    }

    method ReportNotes(name: Text, facts: Facts)
      requires Valid() && !failed
      modifies this`issues, this`loadValid, this`loadComplete
      ensures Valid()
    {
      for i := 0 to |facts.diagnostics|
        invariant Valid()
      {
        ReportedSane(world, Now(), Issue(true, Syntax, name, facts.diagnostics[i], []));
        Report(true, Syntax, name, facts.diagnostics[i], []);
      }
      for i := 0 to |facts.warnings|
        invariant Valid()
      {
        ReportedSane(world, Now(), Issue(false, SourceEncoding, name, facts.warnings[i], []));
        Report(false, SourceEncoding, name, facts.warnings[i], []);
      }
    }

    /** The first header that excludes the addon, or the end; unknown tells of the headers before it. */
    method ScanHeaders(headers: seq<Header>) returns (i: nat, unknown: bool)
      ensures i <= |headers|
      ensures i < |headers| ==> var v := HeaderVerdict(world, headers[i]); v.known && !v.included
      ensures !unknown <==> ManifestAllows(world, headers[..i])
    {
      i, unknown := 0, false;
      while i < |headers|
        invariant i <= |headers|
        invariant !unknown <==> ManifestAllows(world, headers[..i])
      {
        var v := ReadHeader(headers[i]);
        if v.known && !v.included {
          return;
        }
        AllowsNext(world, headers, i);
        unknown := unknown || !v.known;
        i := i + 1;
      }
    }

    /** The manifest's own load conditions; its loads are followed only when all allow. */
    method CheckManifest(name: Text, headers: seq<Header>) returns (follow: bool)
      requires Valid() && !failed
      modifies this`issues, this`loadValid, this`loadComplete
      ensures Valid()
      ensures follow <==> ManifestAllows(world, headers)
      ensures follow ==> issues == old(issues)
      ensures !follow ==> !loadValid || !loadComplete
    {
      var i, unknown := ScanHeaders(headers);
      if i < |headers| {
        ManifestRefuses(world, headers, i);
        ReportedSane(world, Now(), Issue(true, ManifestExcluded, name, headers[i].line, headers[i].value));
        Report(true, ManifestExcluded, name, headers[i].line, headers[i].value);
        return false;
      }
      assert headers[..i] == headers;
      if unknown {
        ReportedSane(world, Now(), Issue(false, ConditionUnavailable, name, 0, []));
        Report(false, ConditionUnavailable, name, 0, []);
      }
      return !unknown;
    }

    method ReadHeader(header: Header) returns (v: Verdict)
      ensures v == HeaderVerdict(world, header)
    {
      var key := ToLower(header.key);
      if !("allowload" <= key) && !("excludeload" <= key) {
        return Verdict(true, true);
      }
      var t := ResolveTarget(world.client, header.value, world.familyFirst(header.value));
      if !t.included {
        return Verdict(true, true);
      }
      if !t.known {
        return Verdict(true, false);
      }
      v := Condition(world.client, header.key, t.path);
    }

    method FollowLoads(name: Text, loads: seq<Load>, depth: nat) returns (stop: Option<Stop>)
      requires Valid() && !failed && depth + 1 == Depth(chain) && depth <= MAX_DEPTH && steps != []
      requires chain.top == Frame(world.fold(name), name, Children(world, name, loads))
      modifies this
      ensures Valid() && failed == stop.Some? && Returned(old(Now()), Now()) && (stop.None? ==> chain.top.rest == [])
      decreases MAX_DEPTH + 1 - depth, 0, 2
    {
      var i := 0;
      while i < |loads|
        invariant 0 <= i <= |loads| && Valid() && !failed && Returned(old(Now()), Now()) && steps != []
        invariant chain.top.rest == Children(world, name, loads[i..])
      {
        Onward(loads, i);
        stop := CountLoad(name, loads[i], depth, loads[i + 1..]);
        if stop.Some? {
          return;
        }
        i := i + 1;
      }
      return None;
    }

    method CountLoad(name: Text, load: Load, depth: nat, ghost later: seq<Load>) returns (stop: Option<Stop>)
      requires Valid() && !failed && depth + 1 == Depth(chain) && depth <= MAX_DEPTH && steps != []
      requires chain.top == Frame(world.fold(name), name, Children(world, name, [load] + later))
      modifies this
      ensures Valid() && failed == stop.Some? && Returned(old(Now()), Now())
      ensures stop.None? ==> chain.top.rest == Children(world, name, later)
      decreases MAX_DEPTH + 1 - depth, 0, 1
    {
      references := references + 1;
      if references > MAX_REFERENCES {
        failed := true;
        stop := Some(ReferenceBudget);
      } else {
        stop := FollowLoad(name, load, depth, later);
      }
    }

    method FollowLoad(name: Text, load: Load, depth: nat, ghost later: seq<Load>) returns (stop: Option<Stop>)
      requires Valid() && !failed && depth + 1 == Depth(chain) && depth <= MAX_DEPTH && steps != []
      requires chain.top == Frame(world.fold(name), name, Children(world, name, [load] + later))
      modifies this
      ensures Valid() && failed == stop.Some? && Returned(old(Now()), Now())
      ensures stop.None? ==> chain.top.rest == Children(world, name, later)
      decreases MAX_DEPTH + 1 - depth, 0, 0
    {
      ChildrenNext(world, name, load, later);
      var t := ResolveTarget(world.client, load.path, world.familyFirst(load.path));
      stop := None;
      if t.included {
        if !t.known {
          ReportedSane(world, Now(), Issue(false, ConditionUnavailable, name, load.line, load.path));
          Report(false, ConditionUnavailable, name, load.line, load.path);
        } else {
          var child := world.resolve(name, t.path);
          if child.Err? {
            ReportedSane(world, Now(), Issue(true, ResolveCode(child.error), name, load.line, load.path));
            Report(true, ResolveCode(child.error), name, load.line, load.path);
          } else {
            stop := Load(child.value, name, load.line, depth + 1, load.kind, false);
          }
        }
      }
    }
  }

  /** What every finished or stopped walk leaves: the graph of the loads that reached a document is
      acyclic exactly when no step is marked, seen and active are the entered documents and the
      current path, each link of that path is a recorded load, and no document is recorded twice. */
  lemma WalkKeeps(walk: ClosureWalk)
    requires walk.Valid()
    ensures Acyclic(walk.world, Into(walk.documents), walk.steps) <==> !SomeCycle(walk.steps)
    ensures walk.loadValid ==> Acyclic(walk.world, Into(walk.documents), walk.steps)
    ensures walk.seen == Elements(walk.finished + FrameKeys(walk.chain))
    ensures walk.active == Elements(FrameKeys(walk.chain)) && walk.active <= walk.seen
    ensures Distinct(walk.finished + FrameKeys(walk.chain))
    ensures ChainLinked(walk.world, Into(walk.documents), walk.steps, FrameKeys(walk.chain))
    ensures Distinct(Keys(walk.world, walk.documents)) && Elements(Keys(walk.world, walk.documents)) == walk.seen
  {
    LegalKept(walk.world, walk.history);
    var t := walk.Trace().View();
    assert t.order[t.done..] == FrameKeys(walk.chain);
    MarkedExactly(walk.world, t);
  }

  /** The graph of all recorded loads: acyclic exactly when no step is marked and no stray load has a
      way back; in an addon whose names that share a key can all be entered or none, exactly when no
      step is marked. */
  lemma AllLoadsAcyclic(walk: ClosureWalk)
    requires walk.Valid()
    ensures Acyclic(walk.world, All, walk.steps) <==>
            !SomeCycle(walk.steps) && !SomeStrayReturns(walk.world, walk.Trace().View())
    ensures CaseConsistent(walk.world) ==> (Acyclic(walk.world, All, walk.steps) <==> !SomeCycle(walk.steps))
  {
    LegalKept(walk.world, walk.history);
    AllMarkedExactly(walk.world, walk.Trace().View());
    if CaseConsistent(walk.world) { NoneStray(walk.world, walk.history); }
  }

  /** A walk that no budget stopped and that is over has recorded, from every document it
      entered, exactly the loads that apply, in their order. */
  lemma LoadsAllRecorded(walk: ClosureWalk)
    requires walk.Valid() && !walk.failed && walk.chain.Outside?
    ensures forall d :: 0 <= d < |walk.documents| ==>
              OwnLoads(walk.world, walk.steps, walk.world.fold(walk.documents[d])) ==
              Followed(walk.world, walk.documents[d], d == 0)
  {
    LegalAccounted(walk.world, walk.history);
    forall d | 0 <= d < |walk.documents|
      ensures OwnLoads(walk.world, walk.steps, walk.world.fold(walk.documents[d])) ==
              Followed(walk.world, walk.documents[d], d == 0)
    {
      assert Accounted(walk.world, walk.Trace(), d);
      var own := OwnLoads(walk.world, walk.steps, walk.world.fold(walk.documents[d]));
      assert own + [] == own;
    }
  }

  /** InspectLoad: without an error the walk is over and nothing is being loaded any more. */
  method InspectLoad(world: World, manifest: Text, documentBytes: nat)
    returns (walk: ClosureWalk, stop: Option<Stop>)
    ensures fresh(walk) && walk.world == world && walk.Valid()
    ensures walk.failed ==> stop.Some?
    ensures walk.chain.Outside? && walk.active == {}
  {
    walk := new ClosureWalk(world, documentBytes);
    var resolved := world.resolve([], manifest);
    if resolved.Err? {
      ReportedSane(world, walk.Now(), Issue(true, ResolveCode(resolved.error), [], 0, manifest));
      walk.Report(true, ResolveCode(resolved.error), [], 0, manifest);
      return walk, None;
    }
    if world.extension(resolved.value) != ".toc" {
      return walk, Some(NotManifest);
    }
    stop := walk.Load(resolved.value, [], 0, 0, "toc", true);
    EmptyChain(walk);
  }

  lemma EmptyChain(walk: ClosureWalk)
    requires walk.Valid()
    ensures walk.chain.Outside? ==> walk.active == {}
  {
    LegalChain(walk.world, walk.history);
  }
}
