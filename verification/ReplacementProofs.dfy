/** The replacement journal over whole runs: every point where a process may die leaves a
    phase from which the same update finishes, and the old tree stays whole until then. */
module ReplacementProofs {
  import opened Wrappers
  import opened Texts
  import opened Replacement
  import Durable

  /** What an update is about: the managed tree it starts from and the receipt it wants. */
  datatype Goal = Goal(target: Text, held: Receipt, wanted: Receipt)

  function RecordOf(g: Goal): Record {
    Record(g.target, g.held, g.wanted)
  }

  function Old(g: Goal): Option<Tree> {
    Some(InstalledTree(g.held))
  }

  function New(g: Goal): Option<Tree> {
    Some(InstalledTree(g.wanted))
  }

  /** What a recursive delete may have left of the old tree. */
  ghost predicate Remnant(t: Option<Tree>, whole: Tree) {
    t.Some? ==>
      (t.value.receipt.None? || t.value.receipt == whole.receipt) && t.value.files.Keys <= whole.files.Keys
  }

  predicate Untouched(g: Goal, d: Disk) {
    d == Disk(Old(g), None, None)
  }

  predicate Prepared(g: Goal, d: Disk) {
    d.archive.Some? && d == Disk(Old(g), Some(Archive(None, New(g), Some(RecordOf(g)), d.archive.value.locks, {})),
        None)
  }

  predicate Parked(g: Goal, d: Disk) {
    d.archive.Some? && d == Disk(None, Some(Archive(Old(g), New(g), Some(RecordOf(g)), d.archive.value.locks, {})),
        None)
  }

  predicate Replaced(g: Goal, d: Disk) {
    d.archive.Some? && d == Disk(New(g), Some(Archive(Old(g), None, Some(RecordOf(g)), d.archive.value.locks, {})),
        None)
  }

  ghost predicate Clearing(g: Goal, d: Disk) {
    && d.target == New(g) && d.marker == Some(RecordOf(g))
    && (d.archive.Some? ==>
      d.archive.value.next.None? && d.archive.value.extra == {} &&
          Remnant(d.archive.value.previous, InstalledTree(g.held)))
  }

  predicate Finished(g: Goal, d: Disk) {
    d == Disk(New(g), None, None)
  }

  /** Every state an update of a managed tree may leave behind. */
  ghost predicate Phase(g: Goal, d: Disk) {
    Untouched(g, d) || Prepared(g, d) || Parked(g, d) || Replaced(g, d) || Clearing(g, d) || Finished(g, d)
  }

  /** Every durable step of ws, taken in order, leaves a phase. */
  ghost predicate Stays(g: Goal, d: Disk, ws: seq<Write>)
    decreases |ws|
  {
    Phase(g, d) && (ws != [] ==> Stays(g, Apply(d, ws[0]), ws[1..]))
  }

  lemma {:induction false} CutStays(g: Goal, d: Disk, ws: seq<Write>, left: nat)
    requires Stays(g, d, ws)
    ensures Phase(g, Cut(d, ws, left))
    decreases |ws|
  {
    if left > 0 && ws != [] {
      CutStays(g, Apply(d, ws[0]), ws[1..], left - 1);
      if left < |ws| { assert ws[..left][1..] == ws[1..][..left - 1]; }
    }
  }

  lemma {:induction false} StaysTogether(g: Goal, d: Disk, a: seq<Write>, b: seq<Write>)
    requires Stays(g, d, a) && Stays(g, ApplyAll(d, a), b)
    ensures Stays(g, d, a + b)
    decreases |a|
  {
    if a == [] {
      assert a + b == b;
    } else {
      assert (a + b)[1..] == a[1..] + b;
      StaysTogether(g, Apply(d, a[0]), a[1..], b);
    }
  }

  lemma StaysOne(g: Goal, d: Disk, w: Write)
    requires Phase(g, d) && Phase(g, Apply(d, w))
    ensures Stays(g, d, [w]) && ApplyAll(d, [w]) == Apply(d, w)
  {
    assert [w][1..] == [];
    assert ApplyAll(Apply(d, w), []) == Apply(d, w);
    assert Stays(g, Apply(d, w), []);
  }

  // ------------------------------------------------------------- clearing away

  lemma DeletionClears(g: Goal, d: Disk, x: Deletion)
    requires Clearing(g, d)
    ensures Clearing(g, Apply(d, Delete(x)))
  {
  }

  lemma {:induction false} DeletionsStay(g: Goal, d: Disk, order: seq<Deletion>)
    requires Clearing(g, d)
    ensures Stays(g, d, Deletions(order)) && Clearing(g, ApplyAll(d, Deletions(order)))
    decreases |order|
  {
    if order != [] {
      DeletionClears(g, d, order[0]);
      DeletionsStay(g, Apply(d, Delete(order[0])), order[1..]);
    }
  }

  /** The removals leave nothing of the directory. */
  predicate Empties(a: Archive, order: seq<Deletion>) {
    ApplyAll(Disk(None, Some(a), None), Deletions(order)).archive.None?
  }

  /** Every entry of the old tree has been removed. */
  predicate Emptied(a: Archive, done: seq<Deletion>) {
    a.previous.Some? ==>
      (a.previous.value.receipt.Some? ==> ReceiptFile in done) &&
      forall n :: n in a.previous.value.files ==> File(n) in done
  }

  ghost predicate PreviousGone(a: Archive, done: seq<Deletion>) {
    a.previous.None? || exists p :: 0 <= p < |done| && done[p] == PreviousDirectory && Emptied(a, done[..p])
  }

  /** The order visits every entry that is there, and each directory after all that it holds. */
  ghost predicate Thorough(a: Archive, order: seq<Deletion>) {
    exists q :: 0 <= q < |order| && order[q] == ArchiveDirectory && AllGone(a, order[..q])
  }

  ghost predicate AllGone(a: Archive, done: seq<Deletion>) {
    PreviousGone(a, done) && (a.record.Some? ==> RecordFile in done) && (a.locks ==> Locks in done)
  }

  lemma EmptiedNext(a: Archive, x: Deletion, done: seq<Deletion>)
    requires DeleteIn(a, x).Some?
    ensures Emptied(DeleteIn(a, x).value, done) <==> Emptied(a, [x] + done) || DeleteIn(a, x).value.previous.None?
  {
  }

  lemma PreviousNext(a: Archive, x: Deletion, done: seq<Deletion>)
    requires DeleteIn(a, x).Some?
    ensures PreviousGone(DeleteIn(a, x).value, done) <==> PreviousGone(a, [x] + done)
  {
    var b := DeleteIn(a, x).value;
    var all := [x] + done;
    if b.previous.Some? {
      forall p | 0 <= p <= |done|
        ensures Emptied(b, done[..p]) <==> Emptied(a, all[..p + 1])
      {
        EmptiedNext(a, x, done[..p]);
        assert all[..p + 1] == [x] + done[..p];
      }
      if PreviousGone(a, all) {
        var p :| 0 <= p < |all| && all[p] == PreviousDirectory && Emptied(a, all[..p]);
        assert done[p - 1] == PreviousDirectory && Emptied(b, done[..p - 1]);
      }
      if PreviousGone(b, done) {
        var p :| 0 <= p < |done| && done[p] == PreviousDirectory && Emptied(b, done[..p]);
        assert all[p + 1] == PreviousDirectory && Emptied(a, all[..p + 1]);
      }
    } else if a.previous.Some? {
      assert all[0] == PreviousDirectory && Emptied(a, all[..0]);
    }
  }

  lemma AllGoneNext(a: Archive, x: Deletion, done: seq<Deletion>)
    requires DeleteIn(a, x).Some?
    ensures AllGone(DeleteIn(a, x).value, done) <==> AllGone(a, [x] + done)
  {
    PreviousNext(a, x, done);
  }

  lemma ThoroughNext(a: Archive, x: Deletion, rest: seq<Deletion>)
    requires a.next.None? && a.extra == {} && DeleteIn(a, x).Some?
    ensures Thorough(DeleteIn(a, x).value, rest) <==> Thorough(a, [x] + rest)
  {
    var b, all := DeleteIn(a, x).value, [x] + rest;
    forall q | 0 <= q <= |rest|
      ensures AllGone(b, rest[..q]) <==> AllGone(a, all[..q + 1])
    {
      AllGoneNext(a, x, rest[..q]);
      assert all[..q + 1] == [x] + rest[..q];
    }
    if Thorough(a, all) {
      var q :| 0 <= q < |all| && all[q] == ArchiveDirectory && AllGone(a, all[..q]);
      assert q > 0 && rest[q - 1] == ArchiveDirectory && AllGone(b, rest[..q - 1]);
    }
    if Thorough(b, rest) {
      var q :| 0 <= q < |rest| && rest[q] == ArchiveDirectory && AllGone(b, rest[..q]);
      assert all[q + 1] == ArchiveDirectory && AllGone(a, all[..q + 1]);
    }
  }

  /** A recursive delete gets through exactly when it is thorough, whatever an interrupted one left. */
  lemma {:induction false} EmptiesExactly(a: Archive, order: seq<Deletion>)
    requires a.next.None? && a.extra == {}
    ensures Empties(a, order) <==> Thorough(a, order)
    decreases |order|
  {
    if order != [] {
      var x, rest := order[0], order[1..];
      assert order == [x] + rest;
      DeletionsStep(Disk(None, Some(a), None), order);
      if DeleteIn(a, x).None? {
        NothingLeft(Disk(None, None, None), rest);
        assert AllGone(a, order[..0]) && order[0] == ArchiveDirectory;
      } else {
        ThoroughNext(a, x, rest);
        EmptiesExactly(DeleteIn(a, x).value, rest);
      }
    }
  }

  lemma {:induction false} NothingLeft(d: Disk, order: seq<Deletion>)
    requires d.archive.None?
    ensures ApplyAll(d, Deletions(order)) == d
    decreases |order|
  {
    if order != [] { NothingLeft(d, order[1..]); }
  }

  lemma DeletionsStep(d: Disk, order: seq<Deletion>)
    requires order != []
    ensures ApplyAll(d, Deletions(order)) == ApplyAll(Apply(d, Delete(order[0])), Deletions(order[1..]))
  {
  }

  lemma {:induction false} DeletionsOnlyArchive(d: Disk, e: Disk, order: seq<Deletion>)
    requires d.archive == e.archive
    ensures ApplyAll(d, Deletions(order)).archive == ApplyAll(e, Deletions(order)).archive
    ensures ApplyAll(d, Deletions(order)).target == d.target && ApplyAll(d, Deletions(order)).marker == d.marker
    decreases |order|
  {
    if order != [] {
      DeletionsOnlyArchive(Apply(d, Delete(order[0])), Apply(e, Delete(order[0])), order[1..]);
    }
  }

  /** With the marker durable, the removal stays recoverable and finishes exactly when the
      recursive delete finished. */
  lemma RemovalStays(g: Goal, d: Disk, order: seq<Deletion>)
    requires Clearing(g, d)
    ensures var p := RemovalPlan(d, order);
            && Stays(g, d, p.writes)
            && (p.result == Done || p.result == Failed(RemoveFailed))
            && (p.result == Done ==> Finished(g, ApplyAll(d, p.writes)))
            && (p.result == Done <==> d.archive.None? || Thorough(d.archive.value, order))
  {
    if d.archive.None? {
      StaysOne(g, d, RemoveMarker);
    } else {
      DeletionsStay(g, d, order);
      DeletionsOnlyArchive(d, Disk(None, d.archive, None), order);
      EmptiesExactly(d.archive.value, order);
      var e := ApplyAll(d, Deletions(order));
      if e.archive.None? {
        StaysOne(g, e, RemoveMarker);
        StaysTogether(g, d, Deletions(order), [RemoveMarker]);
        Durable.ApplyAppend(Apply, d, Deletions(order), [RemoveMarker]);
      }
    }
  }

  // -------------------------------------------------------- resuming the journal

  lemma ResumePrepared(g: Goal, d: Disk)
    requires Prepared(g, d)
    ensures var p := ResumePlan(d, g.target, RecordOf(g));
            p.result == Done && Stays(g, d, p.writes) && Replaced(g, ApplyAll(d, p.writes))
            && ApplyAll(d, p.writes).archive.value.locks == d.archive.value.locks
  {
    var parked := Apply(d, MoveTargetToPrevious);
    assert Parked(g, parked);
    StaysOne(g, d, MoveTargetToPrevious);
    StaysOne(g, parked, MoveNextToTarget);
    StaysTogether(g, d, [MoveTargetToPrevious], [MoveNextToTarget]);
    Durable.ApplyAppend(Apply, d, [MoveTargetToPrevious], [MoveNextToTarget]);
    assert [MoveTargetToPrevious] + [MoveNextToTarget] == [MoveTargetToPrevious, MoveNextToTarget];
  }

  lemma ResumeParked(g: Goal, d: Disk)
    requires Parked(g, d)
    ensures var p := ResumePlan(d, g.target, RecordOf(g));
            p.result == Done && Stays(g, d, p.writes) && Replaced(g, ApplyAll(d, p.writes))
            && ApplyAll(d, p.writes).archive.value.locks == d.archive.value.locks
  {
    StaysOne(g, d, MoveNextToTarget);
  }

  lemma ResumeReplaced(g: Goal, d: Disk)
    requires Replaced(g, d)
    ensures ResumePlan(d, g.target, RecordOf(g)) == Plan([], Done)
  {
  }

  // -------------------------------------------------------------- whole updates

  /** The archive whose removal ends an update that is at d. */
  function Leftover(g: Goal, d: Disk): Archive {
    if d.marker.Some? && d.archive.Some? then d.archive.value
    else Archive(Old(g), None, Some(RecordOf(g)), if d.archive.Some? then d.archive.value.locks else true, {})
  }

  /** Nothing is left to delete, or the order is thorough on what is. */
  ghost predicate Finishes(g: Goal, d: Disk, order: seq<Deletion>) {
    Finished(g, d) || (d.marker.Some? && d.archive.None?) || Thorough(Leftover(g, d), order)
  }

  ghost predicate Sound(g: Goal, d: Disk, p: Plan, finishes: bool) {
    && Stays(g, d, p.writes)
    && (p.result == if finishes then Done else Failed(RemoveFailed))
    && (finishes ==> Finished(g, ApplyAll(d, p.writes)))
  }

  lemma DiscardClearing(g: Goal, d: Disk, order: seq<Deletion>)
    requires Clearing(g, d)
    ensures Sound(g, d, DiscardPlan(d, g.target, g.wanted, order), Finishes(g, d, order))
  {
    RemovalStays(g, d, order);
  }

  lemma DiscardReplaced(g: Goal, d: Disk, order: seq<Deletion>)
    requires Replaced(g, d)
    ensures Sound(g, d, DiscardPlan(d, g.target, g.wanted, order), Thorough(d.archive.value, order))
  {
    ResumeReplaced(g, d);
    var marked := Apply(d, SaveMarker(RecordOf(g)));
    assert Clearing(g, marked);
    StaysOne(g, d, SaveMarker(RecordOf(g)));
    RemovalStays(g, marked, order);
    var rest := RemovalPlan(marked, order);
    StaysTogether(g, d, [SaveMarker(RecordOf(g))], rest.writes);
    Durable.ApplyAppend(Apply, d, [SaveMarker(RecordOf(g))], rest.writes);
    assert [] + [SaveMarker(RecordOf(g))] + rest.writes == [SaveMarker(RecordOf(g))] + rest.writes;
  }

  lemma UpgradeUntouched(g: Goal, d: Disk)
    requires Untouched(g, d) && g.held != g.wanted
    ensures var p := UpgradePlan(d, g.target, g.wanted);
            p.result == Done && Stays(g, d, p.writes) && Replaced(g, ApplyAll(d, p.writes))
            && ApplyAll(d, p.writes).archive.value == Leftover(g, d)
  {
    var w := PublishArchive(Archive(None, New(g), Some(RecordOf(g)), true, {}));
    var prepared := Apply(d, w);
    assert Prepared(g, prepared);
    StaysOne(g, d, w);
    ResumePrepared(g, prepared);
    var rest := ResumePlan(prepared, g.target, RecordOf(g));
    StaysTogether(g, d, [w], rest.writes);
    Durable.ApplyAppend(Apply, d, [w], rest.writes);
  }

  /** Up to and including the two moves, from any phase before the marker. */
  lemma AdvanceReplaces(g: Goal, d: Disk, order: seq<Deletion>)
    requires g.held != g.wanted
    requires Untouched(g, d) || Prepared(g, d) || Parked(g, d) || Replaced(g, d)
    ensures var p := AdvancePlan(d, g.target, g.wanted, order);
            p.result == Done && Stays(g, d, p.writes) && Replaced(g, ApplyAll(d, p.writes))
            && ApplyAll(d, p.writes).archive.value == Leftover(g, d)
  {
    if Untouched(g, d) {
      UpgradeUntouched(g, d);
    } else if Prepared(g, d) {
      ResumePrepared(g, d);
    } else if Parked(g, d) {
      ResumeParked(g, d);
    } else {
      ResumeReplaced(g, d);
    }
  }

  /** One update from any phase: every durable step stays recoverable, and it reports success
      exactly when the recursive delete got through, with nothing but the new tree left. */
  lemma UpdateSound(g: Goal, d: Disk, order: seq<Deletion>)
    requires g.held != g.wanted && Phase(g, d)
    ensures Sound(g, d, UpdatePlan(d, g.target, g.wanted, order), Finishes(g, d, order))
  {
    if Finished(g, d) {
      assert UpdatePlan(d, g.target, g.wanted, order) == Plan([], Done);
    } else if Clearing(g, d) {
      UpdateClearing(g, d, order);
    } else {
      UpdateReplaces(g, d, order);
    }
  }

  lemma UpdateClearing(g: Goal, d: Disk, order: seq<Deletion>)
    requires Clearing(g, d)
    ensures Sound(g, d, UpdatePlan(d, g.target, g.wanted, order), Finishes(g, d, order))
  {
    DiscardClearing(g, d, order);
    assert AdvancePlan(d, g.target, g.wanted, order) == DiscardPlan(d, g.target, g.wanted, order);
  }

  lemma UpdateReplaces(g: Goal, d: Disk, order: seq<Deletion>)
    requires g.held != g.wanted
    requires Untouched(g, d) || Prepared(g, d) || Parked(g, d) || Replaced(g, d)
    ensures Sound(g, d, UpdatePlan(d, g.target, g.wanted, order), Finishes(g, d, order))
  {
    AdvanceReplaces(g, d, order);
    var first := AdvancePlan(d, g.target, g.wanted, order);
    var d1 := ApplyAll(d, first.writes);
    DiscardReplaced(g, d1, order);
    var rest := DiscardPlan(d1, g.target, g.wanted, order);
    StaysTogether(g, d, first.writes, rest.writes);
    Durable.ApplyAppend(Apply, d, first.writes, rest.writes);
  }

  /** On an absent target the update installs in one step, so a crash leaves nothing or all. */
  lemma FreshUpdate(target: Text, wanted: Receipt, order: seq<Deletion>, left: nat)
    ensures var d := Disk(None, None, None);
            var p := UpdatePlan(d, target, wanted, order);
            var done := Disk(Some(InstalledTree(wanted)), None, None);
            && p.result == Done && ApplyAll(d, p.writes) == done
            && ApplyAll(d, if left < |p.writes| then p.writes[..left] else p.writes) == if left == 0 then d else done
  {
    var d := Disk(None, None, None);
    var w := InstallTarget(InstalledTree(wanted));
    assert [w][1..] == [] && [w][..0] == [];
    assert ApplyAll(Apply(d, w), []) == Apply(d, w);
    assert AdvancePlan(d, target, wanted, order) == Plan([w], Done);
    assert ApplyAll(d, [w]) == Apply(d, w);
  }

  // ------------------------------------------------------------------ whole runs

  /** One attempt: the order its recursive delete would take and the writes it lives for. */
  datatype Attempt = Attempt(order: seq<Deletion>, left: nat)

  function Run(g: Goal, d: Disk, attempts: seq<Attempt>): Disk
    decreases |attempts|
  {
    if attempts == [] then d
    else
      var plan := UpdatePlan(d, g.target, g.wanted, attempts[0].order);
      Run(g, Cut(d, plan.writes, attempts[0].left), attempts[1..])
  }

  /** Every run of interrupted attempts keeps the phases. */
  lemma {:induction false} RunKeepsPhase(g: Goal, d: Disk, attempts: seq<Attempt>)
    requires g.held != g.wanted && Phase(g, d)
    ensures Phase(g, Run(g, d, attempts))
    decreases |attempts|
  {
    if attempts != [] {
      var plan := UpdatePlan(d, g.target, g.wanted, attempts[0].order);
      UpdateSound(g, d, attempts[0].order);
      CutStays(g, d, plan.writes, attempts[0].left);
      RunKeepsPhase(g, Cut(d, plan.writes, attempts[0].left), attempts[1..]);
    }
  }

  /** Wherever a run of interrupted attempts stopped, the next update succeeds exactly when its
      recursive delete is thorough, and then leaves exactly the new tree, with no recovery directory
      and no marker. */
  lemma RerunConverges(g: Goal, attempts: seq<Attempt>, order: seq<Deletion>)
    requires g.held != g.wanted
    ensures var d := Run(g, Disk(Old(g), None, None), attempts);
            Sound(g, d, UpdatePlan(d, g.target, g.wanted, order), Finishes(g, d, order))
  {
    var start := Disk(Old(g), None, None);
    assert Untouched(g, start);
    RunKeepsPhase(g, start, attempts);
    UpdateSound(g, Run(g, start, attempts), order);
  }

  /** In every reachable state the old tree is whole at the target or in the recovery
      directory, unless the marker is durable or all is done, and then the target is the
      verified new tree. */
  lemma WholeUntilMarked(g: Goal, attempts: seq<Attempt>)
    requires g.held != g.wanted
    ensures var d := Run(g, Disk(Old(g), None, None), attempts);
            && (d.marker.None? && d.archive.Some? ==>
                  d.target == Old(g) || d.archive.value.previous == Old(g))
            && (d.marker.Some? ==> d.target == New(g) && d.marker == Some(RecordOf(g)))
            && (d.archive.None? && d.target != Old(g) ==> d.target == New(g))
  {
    var start := Disk(Old(g), None, None);
    assert Untouched(g, start);
    RunKeepsPhase(g, start, attempts);
  }

  /** Attempts that never plan a write leave the disk as it is. */
  lemma {:induction false} RefusedRun(g: Goal, d: Disk, attempts: seq<Attempt>)
    requires forall order :: UpdatePlan(d, g.target, g.wanted, order) == Plan([], Failed(Conflict))
    ensures Run(g, d, attempts) == d
    decreases |attempts|
  {
    if attempts != [] { RefusedRun(g, d, attempts[1..]); }
  }

  lemma OtherRefused(g: Goal, d: Disk, other: Receipt, order: seq<Deletion>)
    requires Phase(g, d) && !Untouched(g, d) && !Finished(g, d) && other != g.wanted
    ensures UpdatePlan(d, g.target, other, order) == Plan([], Failed(Conflict))
  {
  }

  /** However often a different release is tried, it changes nothing until the pending one is
      finished, and the pending one then still finishes. */
  lemma OtherReleaseRefused(g: Goal, d: Disk, other: Receipt, attempts: seq<Attempt>, order: seq<Deletion>)
    requires g.held != g.wanted && Phase(g, d) && !Untouched(g, d) && !Finished(g, d) && other != g.wanted
    ensures var h := g.(wanted := other);
            && Run(h, d, attempts) == d
            && Sound(g, Run(h, d, attempts), UpdatePlan(Run(h, d, attempts), g.target, g.wanted, order),
                Finishes(g, d, order))
  {
    forall any: seq<Deletion>
      ensures UpdatePlan(d, g.target, other, any) == Plan([], Failed(Conflict))
    {
      OtherRefused(g, d, other, any);
    }
    RefusedRun(g.(wanted := other), d, attempts);
    UpdateSound(g, d, order);
  }

  /** Both moves done, the marker not yet durable, and some tree where the old one was parked. */
  function Unmarked(g: Goal, t: Tree): Disk {
    Disk(New(g), Some(Archive(Some(t), None, Some(RecordOf(g)), true, {})), None)
  }

  lemma DamageRefused(g: Goal, t: Tree, order: seq<Deletion>)
    requires t != InstalledTree(g.held)
    ensures UpdatePlan(Unmarked(g, t), g.target, g.wanted, order) == Plan([], Failed(Conflict))
  {
  }

  /** Why the marker comes first: without it the update gets on exactly when the old tree is whole,
      and a damaged one stays where it is however often the update is repeated. */
  lemma UnmarkedDamageIsStuck(g: Goal, t: Tree, attempts: seq<Attempt>, order: seq<Deletion>)
    ensures UpdatePlan(Unmarked(g, t), g.target, g.wanted, order) == Plan([], Failed(Conflict))
            <==> t != InstalledTree(g.held)
    ensures t != InstalledTree(g.held) ==> Run(g, Unmarked(g, t), attempts) == Unmarked(g, t)
  {
    var d := Unmarked(g, t);
    if t == InstalledTree(g.held) {
      assert Replaced(g, d);
      DiscardReplaced(g, d, order);
      ResumeReplaced(g, d);
      assert AdvancePlan(d, g.target, g.wanted, order) == Plan([], Done);
    } else {
      forall any: seq<Deletion>
        ensures UpdatePlan(d, g.target, g.wanted, any) == Plan([], Failed(Conflict))
      {
        DamageRefused(g, t, any);
      }
      RefusedRun(g, d, attempts);
    }
  }

  // ------------------------------------------------- a delete that gets through

  function Removals(names: seq<Text>): (r: seq<Deletion>)
    ensures |r| == |names| && forall i :: 0 <= i < |names| ==> r[i] == File(names[i])
  {
    if names == [] then [] else [File(names[0])] + Removals(names[1..])
  }

  /** Every file of the old tree, in the given order, and then the directories around them. */
  function FullRemoval(names: seq<Text>): seq<Deletion> {
    Removals(names) + [ReceiptFile, PreviousDirectory, RecordFile, Locks, ArchiveDirectory]
  }

  /** One thorough order for whatever an interrupted delete left behind. */
  lemma FullRemovalThorough(a: Archive, names: seq<Text>)
    requires a.previous.Some? ==> forall n :: n in a.previous.value.files ==> n in names
    ensures Thorough(a, FullRemoval(names))
  {
    var order, k := FullRemoval(names), |names|;
    assert order[k] == ReceiptFile && order[k + 1] == PreviousDirectory;
    assert order[k + 2] == RecordFile && order[k + 3] == Locks && order[k + 4] == ArchiveDirectory;
    assert Emptied(a, order[..k + 1]) by {
      assert order[..k + 1][k] == ReceiptFile;
      forall i | 0 <= i < k ensures File(names[i]) in order[..k + 1] { assert order[..k + 1][i] == File(names[i]); }
    }
    var done := order[..k + 4];
    assert done[k + 1] == PreviousDirectory && done[..k + 1] == order[..k + 1];
    assert done[k + 2] == RecordFile && done[k + 3] == Locks;
    assert AllGone(a, done);
  }

  /** So every reachable state has a rerun that finishes. */
  lemma SomeRerunFinishes(g: Goal, attempts: seq<Attempt>, names: seq<Text>)
    requires g.held != g.wanted
    requires forall n :: n in g.held.resources ==> n in names
    ensures var d := Run(g, Disk(Old(g), None, None), attempts);
            var p := UpdatePlan(d, g.target, g.wanted, FullRemoval(names));
            p.result == Done && Finished(g, ApplyAll(d, p.writes))
  {
    var start := Disk(Old(g), None, None);
    assert Untouched(g, start);
    RunKeepsPhase(g, start, attempts);
    var d := Run(g, start, attempts);
    FullRemovalThorough(Leftover(g, d), names);
    UpdateSound(g, d, FullRemoval(names));
  }
}
