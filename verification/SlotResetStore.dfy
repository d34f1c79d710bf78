/** The reset as the source runs it, one durable step at a time. `stepsLeft` is how many
    durable steps succeed before the process dies. */
module SlotResetStore {
  import opened Wrappers
  import opened Texts
  import opened SlotPayload
  import opened SlotInstall
  import R = SlotReset
  import Durable
  import SlotPoolStore

  function Reported(p: R.Steps, left: nat): R.Outcome {
    if left < |p.writes| then R.Died else p.result
  }

  lemma {:induction false} PoolApplied(d: R.Disk, ws: seq<SlotInstall.Write>)
    ensures R.ApplyAll(d, R.PoolWrites(ws)) == d.(source := SlotInstall.ApplyAll(d.source, ws))
    decreases |ws|
  {
    if ws != [] { PoolApplied(R.Apply(d, R.Pooled(ws[0])), ws[1..]); }
  }

  lemma {:induction false} PoolPrefix(ws: seq<SlotInstall.Write>, left: nat)
    requires left <= |ws|
    ensures R.PoolWrites(ws)[..left] == R.PoolWrites(ws[..left])
    decreases |ws|
  {
    if left > 0 {
      PoolPrefix(ws[1..], left - 1);
      assert ws[..left][1..] == ws[1..][..left - 1];
    }
  }

  lemma PoolCut(d: R.Disk, ws: seq<SlotInstall.Write>, left: nat)
    ensures R.Cut(d, R.PoolWrites(ws), left) == d.(source := SlotInstall.Cut(d.source, ws, left))
  {
    if left < |ws| {
      PoolPrefix(ws, left);
      PoolApplied(d, ws[..left]);
    } else {
      PoolApplied(d, ws);
    }
  }

  lemma {:induction false} SlotsNeverInterrupted(c: Context, d: Files, pool: Pool, version: Text, i: nat)
    requires 1 <= i <= |pool.files| + 1
    ensures SlotsPlan(c, d, pool, version, i).result != Interrupted
    decreases |pool.files| + 1 - i
  {
    if i <= |pool.files| && i <= |d.slots| {
      var step := OneSlot(c, pool, i, d.slots[i - 1]);
      SlotsNeverInterrupted(c, SlotInstall.ApplyAll(d, step.writes), WithHash(c, pool, i), version, i + 1);
    }
  }

  lemma NeverInterrupted(c: Context, d: Files, version: Text)
    ensures InstallPlan(c, d, version).result != Interrupted
  {
    var e := SlotInstall.Apply(d, Save(NewPool(version)));
    SlotsNeverInterrupted(c, e, NewPool(version), version, 1);
    if d.manifest.Stored? { SlotsNeverInterrupted(c, d, d.manifest.pool, version, 1); }
  }

  class Resetter {
    const context: Context
    const digests: R.Digests
    var source: Files
    var archive: Option<Files>
    var extra: bool
    var intent: Option<R.Intent>
    var stepsLeft: nat

    constructor (context: Context, digests: R.Digests, d: R.Disk, stepsLeft: nat)
      ensures this.context == context && this.digests == digests && State() == d && this.stepsLeft == stepsLeft
    {
      this.context, this.digests := context, digests;
      source, archive, extra, intent := d.source, d.archive, d.extra, d.intent;
      this.stepsLeft := stepsLeft;
    }

    function State(): R.Disk
      reads this
    {
      R.Disk(source, archive, extra, intent)
    }

    twostate predicate Written(ws: seq<R.Write>)
      reads this
    {
      && State() == R.Cut(old(State()), ws, old(stepsLeft))
      && stepsLeft == if old(stepsLeft) < |ws| then 0 else old(stepsLeft) - |ws|
    }

    twostate predicate Performed(p: R.Steps, r: R.Outcome)
      reads this
    {
      Written(p.writes) && r == Reported(p, old(stepsLeft))
    }

    method Step(w: R.Write) returns (ok: bool)
      requires !w.Pooled?
      modifies this
      ensures ok == (old(stepsLeft) > 0) && Written([w])
      ensures State() == if ok then R.Apply(old(State()), w) else old(State())
      ensures stepsLeft == if ok then old(stepsLeft) - 1 else 0
    {
      Durable.CutOne(R.Apply, State(), w, stepsLeft);
      if stepsLeft == 0 {
        return false;
      }
      stepsLeft := stepsLeft - 1;
      match w {
        case CreateIntent(n) => if intent.None? { intent := Some(n); }
        case MakeArchive => if archive.None? { archive := Some(R.NoFiles()); }
        case MoveSlot(i) =>
          if archive.Some? && 1 <= i <= |source.slots| && i <= |archive.value.slots| &&
             !source.slots[i - 1].NoDir? && archive.value.slots[i - 1].NoDir? {
            var a := archive.value;
            archive := Some(a.(slots := a.slots[i - 1 := source.slots[i - 1]]));
            source := source.(slots := source.slots[i - 1 := NoDir]);
          }
        case MoveMarker =>
          if archive.Some? && !source.manifest.Absent? && archive.value.manifest.Absent? {
            archive := Some(archive.value.(manifest := source.manifest));
            source := source.(manifest := Absent);
          }
        case SaveStage(stage) => if intent.Some? { intent := Some(intent.value.(stage := stage)); }
      }
      return true;
    }

    /** Records a digest for every member, or none where one cannot be read. */
    method Digest(call: R.Call) returns (n: Option<R.Intent>)
      ensures n == if R.AllDigested(digests, source) then Some(R.NewIntent(digests, State(), call)) else None
    {
      var slots: seq<Text> := [];
      for k := 0 to |source.slots|
        invariant |slots| == k
        invariant forall j :: 0 <= j < k ==> source.slots[j].NoDir? || digests.dir(source.slots[j]).Some?
        invariant forall j :: 0 <= j < k ==> slots[j] == R.DirDigest(digests, source.slots[j])
      {
        if !source.slots[k].NoDir? && digests.dir(source.slots[k]).None? {
          return None;
        }
        slots := slots + [R.DirDigest(digests, source.slots[k])];
      }
      if !source.manifest.Absent? && digests.marker(source.manifest).None? {
        return None;
      }
      var result := R.Intent(call.parent, call.archive, call.version, R.Archiving, call.receipt, slots,
                             R.MarkerDigest(digests, source.manifest));
      assert result.slots == R.NewIntent(digests, State(), call).slots;
      return Some(result);
    }

    /** Every archived name and every member, before the first move. */
    method Check(n: R.Intent) returns (ok: bool)
      requires R.Sized(State()) && archive.Some? && |n.slots| == SLOT_COUNT
      ensures ok <==> R.ArchiveNames(State(), n) && R.MembersChecked(digests, State(), n)
    {
      if extra || (!archive.value.manifest.Absent? && n.marker == []) {
        return false;
      }
      for k := 0 to SLOT_COUNT
        invariant forall j :: 0 <= j < k ==> archive.value.slots[j].NoDir? || n.slots[j] != []
      {
        if !archive.value.slots[k].NoDir? && n.slots[k] == [] {
          return false;
        }
      }
      for k := 0 to SLOT_COUNT
        invariant forall j :: 0 <= j < k ==>
          R.DirChecked(digests, n.stage, n.slots[j], source.slots[j], archive.value.slots[j])
      {
        if !R.DirChecked(digests, n.stage, n.slots[k], source.slots[k], archive.value.slots[k]) {
          return false;
        }
      }
      return R.MarkerChecked(digests, n.stage, n.marker, source.manifest, archive.value.manifest);
    }

    method MoveSlots(n: R.Intent) returns (ok: bool)
      requires R.Sized(State()) && archive.Some? && |n.slots| == SLOT_COUNT
      modifies this
      ensures Written(R.SlotMoves(old(State()), n, 1)) && ok == (old(stepsLeft) >= |R.SlotMoves(old(State()), n, 1)|)
      ensures source.manifest == old(source.manifest)
    {
      ghost var d, left := State(), stepsLeft;
      ghost var done: seq<R.Write>, whole := [], R.SlotMoves(d, n, 1);
      var i := 1;
      while i <= SLOT_COUNT
        invariant 1 <= i <= SLOT_COUNT + 1 && R.Sized(State()) && archive.Some?
        invariant source.manifest == d.source.manifest
        invariant forall k :: i - 1 <= k < SLOT_COUNT ==> source.slots[k] == d.source.slots[k]
        invariant |done| <= left && stepsLeft == left - |done| && State() == R.ApplyAll(d, done)
        invariant whole == done + R.SlotMoves(d, n, i)
      {
        ghost var rest := R.SlotMoves(d, n, i + 1);
        if n.slots[i - 1] != [] && !source.slots[i - 1].NoDir? {
          ghost var w := R.MoveSlot(i);
          Durable.Middle(R.Apply, d, done, w, rest, left);
          ok := Step(R.MoveSlot(i));
          if !ok {
            return;
          }
          done := done + [w];
        } else {
          assert [] + rest == rest;
        }
        i := i + 1;
      }
      assert done + [] == done;
      return true;
    }

    method InstallPool(version: Text) returns (outcome: Outcome)
      requires SlotPoolStore.Covers(context) && |source.slots| == SLOT_COUNT
      modifies this
      ensures var p := InstallPlan(context, old(source), version);
              Written(R.PoolWrites(p.writes)) && outcome == SlotPoolStore.Reported(p, old(stepsLeft))
      ensures (archive, extra, intent) == old((archive, extra, intent))
    {
      PoolCut(State(), InstallPlan(context, source, version).writes, stepsLeft);
      var installer := new SlotPoolStore.PoolInstaller(context, source, stepsLeft);
      outcome := installer.InstallSlotPool(version);
      source, stepsLeft := installer.State(), installer.writesLeft;
    }

    method Populate(version: Text) returns (r: R.Outcome)
      requires SlotPoolStore.Covers(context) && |source.slots| == SLOT_COUNT
      modifies this
      ensures Performed(R.PopulatePlan(context, old(State()), version), r)
    {
      ghost var d, left := State(), stepsLeft;
      ghost var p := InstallPlan(context, source, version);
      NeverInterrupted(context, source, version);
      PoolApplied(d, p.writes);
      Durable.CutChain(R.Apply, d, R.PoolWrites(p.writes), [R.SaveStage(R.Settled)], left);
      var outcome := InstallPool(version);
      if outcome == Interrupted {
        return R.Died;
      }
      if outcome != Done {
        return R.Rejected;
      }
      var ok := Step(R.SaveStage(R.Settled));
      if !ok {
        return R.Died;
      }
      return if Accepted(context, source, version) then R.Complete else R.Rejected;
    }

    /** The marker after the slots, then the durable change of stage. */
    method FinishArchiving(n: R.Intent) returns (ok: bool)
      modifies this
      ensures var ws := R.MarkerMoves(old(State()), n) + [R.SaveStage(R.Populating)];
              Written(ws) && ok == (old(stepsLeft) >= |ws|)
    {
      ghost var d, left, move := State(), stepsLeft, R.MarkerMoves(State(), n);
      Durable.CutChain(R.Apply, d, move, [R.SaveStage(R.Populating)], left);
      Durable.CutOne(R.Apply, d, R.MoveMarker, left);
      if n.marker != [] && !source.manifest.Absent? {
        ok := Step(R.MoveMarker);
        if !ok {
          return;
        }
      }
      ok := Step(R.SaveStage(R.Populating));
    }

    method ArchiveAll(n: R.Intent) returns (ok: bool)
      requires R.Sized(State()) && archive.Some? && |n.slots| == SLOT_COUNT
      modifies this
      ensures var d := old(State());
              var ws := R.SlotMoves(d, n, 1) + (R.MarkerMoves(d, n) + [R.SaveStage(R.Populating)]);
              Written(ws) && ok == (old(stepsLeft) >= |ws|)
    {
      ghost var d, left := State(), stepsLeft;
      Durable.CutChain(R.Apply, d, R.SlotMoves(d, n, 1), R.MarkerMoves(d, n) + [R.SaveStage(R.Populating)], left);
      ok := MoveSlots(n);
      if ok {
        ok := FinishArchiving(n);
      }
    }

    method Continue(n: R.Intent, version: Text) returns (r: R.Outcome)
      requires SlotPoolStore.Covers(context) && R.Sized(State()) && archive.Some? && |n.slots| == SLOT_COUNT
      modifies this
      ensures Performed(R.CheckedPlan(context, digests, old(State()), n, version), r)
    {
      var checked := Check(n);
      if !checked {
        return R.Rejected;
      }
      match n.stage {
        case Archiving => r := ArchiveThenPopulate(n, version);
        case Populating => r := Populate(version);
        case Settled => return if Accepted(context, source, version) then R.Complete else R.Rejected;
      }
    }

    method ArchiveThenPopulate(n: R.Intent, version: Text) returns (r: R.Outcome)
      requires SlotPoolStore.Covers(context) && R.Sized(State()) && archive.Some? && |n.slots| == SLOT_COUNT
      modifies this
      ensures Performed(R.ArchivePlan(context, old(State()), n, version), r)
    {
      ghost var d, left := State(), stepsLeft;
      ghost var moves := R.SlotMoves(d, n, 1) + (R.MarkerMoves(d, n) + [R.SaveStage(R.Populating)]);
      Durable.CutChain(R.Apply, d, moves, R.PopulatePlan(context, R.ApplyAll(d, moves), version).writes, left);
      var ok := ArchiveAll(n);
      if !ok {
        return R.Died;
      }
      SlotsKept(d, moves);
      r := Populate(version);
    }

    method Resume(call: R.Call, n: R.Intent) returns (r: R.Outcome)
      requires SlotPoolStore.Covers(context) && R.Sized(State())
      modifies this
      ensures Performed(R.ResumePlan(context, digests, old(State()), call, n), r)
    {
      if !R.ValidIntent(digests, n, call) {
        return R.Rejected;
      }
      if archive.None? {
        ghost var d, left := State(), stepsLeft;
        Durable.CutOne(R.Apply, d, R.MakeArchive, left);
        ghost var rest := R.CheckedPlan(context, digests, R.Apply(d, R.MakeArchive), n, call.version);
        Durable.CutChain(R.Apply, d, [R.MakeArchive], rest.writes, left);
        var ok := Step(R.MakeArchive);
        if !ok {
          return R.Died;
        }
      }
      r := Continue(n, call.version);
    }

    method ResetAddonSlots(call: R.Call) returns (r: R.Outcome)
      requires SlotPoolStore.Covers(context) && R.Sized(State())
      modifies this
      ensures Performed(R.ResetPlan(context, digests, old(State()), call), r)
    {
      if intent.Some? {
        r := Resume(call, intent.value);
        return;
      }
      if archive.Some? {
        return R.Rejected;
      }
      var n := Digest(call);
      if n.None? {
        return R.Rejected;
      }
      ghost var d, w, left := State(), R.CreateIntent(n.value), stepsLeft;
      Durable.CutOne(R.Apply, d, w, left);
      Durable.CutChain(R.Apply, d, [w], R.ResumePlan(context, digests, R.Apply(d, w), call, n.value).writes, left);
      var ok := Step(R.CreateIntent(n.value));
      if !ok {
        return R.Died;
      }
      r := Resume(call, n.value);
    }
  }

  lemma {:induction false} SlotsKept(d: R.Disk, ws: seq<R.Write>)
    ensures |R.ApplyAll(d, ws).source.slots| == |d.source.slots|
    decreases |ws|
  {
    if ws != [] { SlotsKept(R.Apply(d, ws[0]), ws[1..]); }
  }
}
