/** The update of one installed tree as the source runs it, one durable step at a time.
    `stepsLeft` is how many durable steps succeed before the process dies. */
module ReplacementStore {
  import opened Wrappers
  import opened Texts
  import opened Replacement
  import Durable

  function Reported(p: Plan, left: nat): Outcome {
    if left < |p.writes| then Interrupted else p.result
  }

  lemma {:induction false} DeletionsNext(order: seq<Deletion>, i: nat)
    requires i < |order|
    ensures Deletions(order[..i + 1]) == Deletions(order[..i]) + [Delete(order[i])]
    ensures Deletions(order)[..i] == Deletions(order[..i])
  {
    var next, last := Deletions(order[..i + 1]), [Delete(order[i])];
    assert forall k :: 0 <= k < |next| ==> next[k] == (Deletions(order[..i]) + last)[k];
  }

  class Installer {
    const path: Text
    var target: Option<Tree>
    var archive: Option<Archive>
    var marker: Option<Record>
    var stepsLeft: nat

    constructor (path: Text, d: Disk, stepsLeft: nat)
      ensures this.path == path && State() == d && this.stepsLeft == stepsLeft
    {
      this.path := path;
      target, archive, marker := d.target, d.archive, d.marker;
      this.stepsLeft := stepsLeft;
    }

    function State(): Disk
      reads this
    {
      Disk(target, archive, marker)
    }

    /** The state and the report of a plan run by a process with so many steps left. */
    twostate predicate Performed(p: Plan, r: Outcome)
      reads this
    {
      && State() == Cut(old(State()), p.writes, old(stepsLeft))
      && r == Reported(p, old(stepsLeft))
      && stepsLeft == if old(stepsLeft) < |p.writes| then 0 else old(stepsLeft) - |p.writes|
    }

    method Step(w: Write) returns (ok: bool)
      modifies this
      ensures ok == (old(stepsLeft) > 0)
      ensures State() == if ok then Apply(old(State()), w) else old(State())
      ensures stepsLeft == if ok then old(stepsLeft) - 1 else 0
      ensures Performed(Plan([w], Done), if ok then Done else Interrupted)
    {
      Durable.CutOne(Apply, State(), w, stepsLeft);
      if stepsLeft == 0 {
        return false;
      }
      stepsLeft := stepsLeft - 1;
      match w {
        case PublishArchive(a) => if archive.None? { archive := Some(a); }
        case MoveTargetToPrevious =>
          if target.Some? && archive.Some? && archive.value.previous.None? {
            archive := Some(archive.value.(previous := target));
            target := None;
          }
        case MoveNextToTarget =>
          if target.None? && archive.Some? && archive.value.next.Some? {
            target := archive.value.next;
            archive := Some(archive.value.(next := None));
          }
        case InstallTarget(t) => if target.None? { target := Some(t); }
        case SaveMarker(r) => marker := Some(r);
        case Delete(x) => if archive.Some? { archive := DeleteIn(archive.value, x); }
        case RemoveMarker => marker := None;
      }
      return true;
    }

    method ResumeReplacement(record: Record) returns (r: Outcome)
      modifies this
      ensures Performed(ResumePlan(old(State()), path, record), r)
    {
      if record.target != path || archive.None? {
        return Failed(Installation);
      }
      var current, previous, next := Inspect(target), Inspect(archive.value.previous), Inspect(archive.value.next);
      var oldValid := previous == Managed(record.previous);
      if oldValid && current == Managed(record.next) && next == Absent {
        return Done;
      }
      if next != Managed(record.next) {
        return Failed(Conflict);
      }
      ghost var d, n := State(), stepsLeft;
      if previous == Absent && current == Managed(record.previous) {
        Durable.CutChain(Apply, d, [MoveTargetToPrevious], [MoveNextToTarget], n);
        Durable.CutOne(Apply, d, MoveTargetToPrevious, n);
        assert [MoveTargetToPrevious] + [MoveNextToTarget] == [MoveTargetToPrevious, MoveNextToTarget];
        var moved := Step(MoveTargetToPrevious);
        if !moved {
          return Interrupted;
        }
        oldValid := true;
        current := Absent;
      }
      if !oldValid || current != Absent {
        return Failed(Conflict);
      }
      var ok := Step(MoveNextToTarget);
      return if ok then Done else Interrupted;
    }

    method UpgradeInstallation(wanted: Receipt) returns (r: Outcome)
      modifies this
      ensures Performed(UpgradePlan(old(State()), path, wanted), r)
    {
      var current := Inspect(target);
      if !current.Managed? || archive.Some? {
        return Failed(Conflict);
      }
      var record := Record(path, current.receipt, wanted);
      ghost var d, n := State(), stepsLeft;
      var w := PublishArchive(Archive(None, Some(InstalledTree(wanted)), Some(record), true, {}));
      Durable.CutOne(Apply, d, w, n);
      Durable.CutChain(Apply, d, [w], ResumePlan(Apply(d, w), path, record).writes, n);
      var ok := Step(w);
      if !ok {
        return Interrupted;
      }
      r := ResumeReplacement(record);
    }

    method InstallFresh(wanted: Receipt) returns (r: Outcome)
      modifies this
      ensures Performed(InstallPlan(old(State()), wanted), r)
    {
      var current := Inspect(target);
      if current == Managed(wanted) {
        return Done;
      }
      if current != Absent {
        return Failed(Conflict);
      }
      var ok := Step(InstallTarget(InstalledTree(wanted)));
      return if ok then Done else Interrupted;
    }

    /** The recursive delete. */
    method DeleteAll(order: seq<Deletion>) returns (ok: bool)
      modifies this
      ensures Performed(Plan(Deletions(order), Done), if ok then Done else Interrupted)
    {
      ghost var d, n := State(), stepsLeft;
      var i := 0;
      while i < |order|
        invariant i <= |order| && i <= n && stepsLeft == n - i
        invariant State() == ApplyAll(d, Deletions(order[..i]))
      {
        DeletionsNext(order, i);
        Durable.ApplyAppend(Apply, d, Deletions(order[..i]), [Delete(order[i])]);
        Durable.CutOne(Apply, State(), Delete(order[i]), stepsLeft);
        ok := Step(Delete(order[i]));
        if !ok {
          return;
        }
        i := i + 1;
      }
      assert order[..i] == order;
      return true;
    }

    method RemoveArchive(order: seq<Deletion>) returns (r: Outcome)
      modifies this
      ensures Performed(RemovalPlan(old(State()), order), r)
    {
      ghost var d, n := State(), stepsLeft;
      if archive.Some? {
        if archive.value.next.Some? || archive.value.extra != {} {
          return Failed(Conflict);
        }
        Durable.CutChain(Apply, d, Deletions(order), [RemoveMarker], n);
        var deleted := DeleteAll(order);
        if !deleted {
          return Interrupted;
        }
        if archive.Some? {
          return Failed(RemoveFailed);
        }
      }
      var ok := Step(RemoveMarker);
      return if ok then Done else Interrupted;
    }

    method DiscardReplacement(wanted: Receipt, order: seq<Deletion>) returns (r: Outcome)
      modifies this
      ensures Performed(DiscardPlan(old(State()), path, wanted, order), r)
    {
      if Inspect(target) != Managed(wanted) {
        return Failed(Conflict);
      }
      var marked := marker.Some?;
      var journal := marker;
      if !marked && archive.Some? {
        journal := archive.value.record;
      }
      if journal.None? {
        return Failed(Missing);
      }
      var record := journal.value;
      if record.target != path || record.next != wanted {
        return Failed(Installation);
      }
      if marked {
        r := RemoveArchive(order);
        return;
      }
      ghost var d, n := State(), stepsLeft;
      ghost var resumed := ResumePlan(d, path, record);
      ghost var w := SaveMarker(record);
      ghost var rest := RemovalPlan(Apply(ApplyAll(d, resumed.writes), w), order);
      assert resumed.writes + [w] + rest.writes == resumed.writes + ([w] + rest.writes);
      Durable.CutChain(Apply, d, resumed.writes, [w] + rest.writes, n);
      r := ResumeReplacement(record);
      if r != Done {
        return;
      }
      Durable.CutChain(Apply, ApplyAll(d, resumed.writes), [w], rest.writes, stepsLeft);
      Durable.CutOne(Apply, ApplyAll(d, resumed.writes), w, stepsLeft);
      var ok := Step(SaveMarker(record));
      if !ok {
        return Interrupted;
      }
      r := RemoveArchive(order);
    }

    /** The half of one target's update that resumes, installs or upgrades it. */
    method Advance(wanted: Receipt, order: seq<Deletion>) returns (r: Outcome)
      modifies this
      ensures Performed(AdvancePlan(old(State()), path, wanted, order), r)
    {
      var pending := PendingRecovery(State(), path);
      if pending.Some? && pending.value.next != wanted {
        return Failed(Conflict);
      }
      var current := Inspect(target);
      if current.Unmanaged? || current.Modified? {
        return Failed(Conflict);
      }
      if marker.Some? {
        r := DiscardReplacement(wanted, order);
      } else if archive.Some? {
        if archive.value.record.None? {
          return Failed(Missing);
        }
        r := ResumeReplacement(archive.value.record.value);
      } else {
        r := InstallFresh(wanted);
        if r == Failed(Conflict) {
          r := UpgradeInstallation(wanted);
        }
      }
    }

    /** One target of UpdateManaged. */
    method Update(wanted: Receipt, order: seq<Deletion>) returns (r: Outcome)
      modifies this
      ensures Performed(UpdatePlan(old(State()), path, wanted, order), r)
    {
      ghost var d, n := State(), stepsLeft;
      ghost var first := AdvancePlan(d, path, wanted, order);
      Durable.CutChain(Apply, d, first.writes, DiscardPlan(ApplyAll(d, first.writes), path, wanted, order).writes, n);
      r := Advance(wanted, order);
      if r != Done {
        return;
      }
      if archive.Some? {
        r := DiscardReplacement(wanted, order);
      }
    }
  }
}
