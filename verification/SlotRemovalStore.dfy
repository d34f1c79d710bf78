/** The removal as the source runs it, one durable step at a time. `stepsLeft` is how many
    durable steps succeed before the process dies. */
module SlotRemovalStore {
  import opened Wrappers
  import opened Texts
  import opened SlotPayload
  import opened SlotInstall
  import opened SlotRemoval
  import Durable
  import Replacement
  import SlotPoolStore

  function Reported(p: SlotRemoval.Steps, left: nat): SlotRemoval.Outcome {
    if left < |p.writes| then Died else p.result
  }

  class Remover {
    const context: Context
    var source: Files
    var slotArchive: Option<Files>
    var main: Option<SlotRemoval.Tree>
    var archive: Option<SlotRemoval.Tree>
    var intent: Option<SlotRemoval.Intent>
    var stepsLeft: nat

    constructor (context: Context, d: SlotRemoval.Disk, stepsLeft: nat)
      ensures this.context == context && State() == d && this.stepsLeft == stepsLeft
    {
      this.context := context;
      source, slotArchive, main, archive, intent := d.source, d.slotArchive, d.main, d.archive, d.intent;
      this.stepsLeft := stepsLeft;
    }

    function State(): SlotRemoval.Disk
      reads this
    {
      SlotRemoval.Disk(source, slotArchive, main, archive, intent)
    }

    twostate predicate Written(ws: seq<SlotRemoval.Write>)
      reads this
    {
      && State() == SlotRemoval.Cut(old(State()), ws, old(stepsLeft))
      && stepsLeft == if old(stepsLeft) < |ws| then 0 else old(stepsLeft) - |ws|
    }

    twostate predicate Performed(p: SlotRemoval.Steps, r: SlotRemoval.Outcome)
      reads this
    {
      Written(p.writes) && r == Reported(p, old(stepsLeft))
    }

    method Step(w: SlotRemoval.Write) returns (ok: bool)
      modifies this
      ensures ok == (old(stepsLeft) > 0) && Written([w])
      ensures State() == if ok then SlotRemoval.Apply(old(State()), w) else old(State())
      ensures stepsLeft == if ok then old(stepsLeft) - 1 else 0
    {
      Durable.CutOne(SlotRemoval.Apply, State(), w, stepsLeft);
      if stepsLeft == 0 {
        return false;
      }
      stepsLeft := stepsLeft - 1;
      match w {
        case SaveIntent(i) => intent := Some(i);
        case MakeArchive => if slotArchive.None? { slotArchive := Some(NoFiles()); }
        case MoveSlot(i) =>
          if slotArchive.Some? && 1 <= i <= |source.slots| && i <= |slotArchive.value.slots| &&
             !source.slots[i - 1].NoDir? && slotArchive.value.slots[i - 1].NoDir? {
            var a := slotArchive.value;
            slotArchive := Some(a.(slots := a.slots[i - 1 := source.slots[i - 1]]));
            source := source.(slots := source.slots[i - 1 := NoDir]);
          }
        case MoveMarker =>
          if slotArchive.Some? && !source.manifest.Absent? && slotArchive.value.manifest.Absent? {
            slotArchive := Some(slotArchive.value.(manifest := source.manifest));
            source := source.(manifest := Absent);
          }
        case MoveMain => if main.Some? && archive.None? { main, archive := None, main; }
      }
      return true;
    }

    /** Every remaining and every moved member, before any move. */
    method Preflight(n: SlotRemoval.Intent) returns (ok: bool)
      requires Sized(State()) && slotArchive.Some? && |n.pool.files| <= SLOT_COUNT
      ensures ok <==>
              SlotsReady(context, State(), n.pool) && MarkerReady(State(), n.pool) && MainReady(State(), n.receipt)
    {
      var i := 1;
      while i <= |n.pool.files|
        invariant 1 <= i <= |n.pool.files| + 1
        invariant forall j :: 1 <= j < i ==> SlotReady(context, State(), n.pool, j)
      {
        var location := SlotLocation(State(), i);
        if location.None? || !Removable(context, n.pool, i, location.value) {
          assert !SlotReady(context, State(), n.pool, i);
          return false;
        }
        i := i + 1;
      }
      return MarkerReady(State(), n.pool) && MainReady(State(), n.receipt);
    }

    /** The slots in order, each from its source unless an earlier attempt moved it. */
    method MoveSlots(n: nat) returns (ok: bool)
      requires Sized(State()) && n <= SLOT_COUNT && slotArchive.Some?
      modifies this
      ensures Written(SlotMoves(old(State()), n, 1)) && ok == (old(stepsLeft) >= |SlotMoves(old(State()), n, 1)|)
      ensures source.manifest == old(source.manifest) && main == old(main)
    {
      ghost var d, left := State(), stepsLeft;
      ghost var done: seq<SlotRemoval.Write> := [];
      var i := 1;
      while i <= n
        invariant 1 <= i <= n + 1 && Sized(State()) && slotArchive.Some?
        invariant source.manifest == d.source.manifest && main == d.main
        invariant forall k :: i - 1 <= k < SLOT_COUNT ==> source.slots[k] == d.source.slots[k]
        invariant |done| <= left && stepsLeft == left - |done| && State() == SlotRemoval.ApplyAll(d, done)
        invariant SlotMoves(d, n, 1) == done + SlotMoves(d, n, i)
      {
        if !source.slots[i - 1].NoDir? {
          ghost var w, rest := MoveSlot(i), SlotMoves(d, n, i + 1);
          Durable.Middle(SlotRemoval.Apply, d, done, w, rest, left);
          ok := Step(MoveSlot(i));
          if !ok {
            return;
          }
          done := done + [w];
        } else {
          assert [] + SlotMoves(d, n, i + 1) == SlotMoves(d, n, i + 1);
        }
        i := i + 1;
      }
      assert done + [] == done;
      return true;
    }

    method MoveLast() returns (ok: bool)
      modifies this
      ensures Written(LastMoves(old(State()))) && ok == (old(stepsLeft) >= |LastMoves(old(State()))|)
    {
      ghost var d, left := State(), stepsLeft;
      ghost var first: seq<SlotRemoval.Write> := if source.manifest.Absent? then [] else [MoveMarker];
      ghost var second: seq<SlotRemoval.Write> := if main.None? then [] else [MoveMain];
      Durable.CutChain(SlotRemoval.Apply, d, first, second, left);
      Durable.CutOne(SlotRemoval.Apply, d, MoveMarker, left);
      if !source.manifest.Absent? {
        ok := Step(MoveMarker);
        if !ok {
          return;
        }
      }
      if main.Some? {
        ok := Step(MoveMain);
        return;
      }
      return true;
    }

    method MoveMembers(n: nat) returns (ok: bool)
      requires Sized(State()) && n <= SLOT_COUNT && slotArchive.Some?
      modifies this
      ensures Written(Moves(old(State()), n)) && ok == (old(stepsLeft) >= |Moves(old(State()), n)|)
    {
      Durable.CutChain(SlotRemoval.Apply, State(), SlotMoves(State(), n, 1), LastMoves(State()), stepsLeft);
      ok := MoveSlots(n);
      if ok {
        ok := MoveLast();
      }
    }

    /** From the archive's creation on, with the intent's own fields checked. */
    method Continue(n: SlotRemoval.Intent) returns (r: SlotRemoval.Outcome)
      requires Sized(State()) && |n.pool.files| <= SLOT_COUNT && slotArchive.Some?
      modifies this
      ensures var e := old(State());
              var ready := SlotsReady(context, e, n.pool) && MarkerReady(e, n.pool) && MainReady(e, n.receipt);
              Performed(if ready then Steps(Moves(e, |n.pool.files|), Archived) else Steps([], Rejected), r)
    {
      var ready := Preflight(n);
      if !ready {
        return Rejected;
      }
      var ok := MoveMembers(|n.pool.files|);
      return if ok then Archived else Died;
    }

    method Resume(parent: Text, path: Text, n: SlotRemoval.Intent) returns (r: SlotRemoval.Outcome)
      requires Sized(State())
      modifies this
      ensures Performed(ResumePlan(context, old(State()), parent, path, n), r)
    {
      if n.parent != parent || n.archive != path || !ValidShape(n.pool) || n.pool.state != Ready {
        return Rejected;
      }
      if slotArchive.None? {
        ghost var d, left := State(), stepsLeft;
        Durable.CutOne(SlotRemoval.Apply, d, MakeArchive, left);
        Durable.CutChain(SlotRemoval.Apply, d, [MakeArchive],
            Moves(SlotRemoval.Apply(d, MakeArchive), |n.pool.files|), left);
        var ok := Step(MakeArchive);
        if !ok {
          return Died;
        }
      } else {
        assert [] + Moves(State(), |n.pool.files|) == Moves(State(), |n.pool.files|);
      }
      r := Continue(n);
    }

    method Begin(parent: Text, path: Text, n: SlotRemoval.Intent) returns (r: SlotRemoval.Outcome)
      requires Sized(State())
      modifies this
      ensures var rest := ResumePlan(context, SlotRemoval.Apply(old(State()), SaveIntent(n)), parent, path, n);
              Performed(Steps([SaveIntent(n)] + rest.writes, rest.result), r)
    {
      ghost var d, w, left := State(), SaveIntent(n), stepsLeft;
      Durable.CutOne(SlotRemoval.Apply, d, w, left);
      ghost var rest := ResumePlan(context, SlotRemoval.Apply(d, w), parent, path, n);
      Durable.CutChain(SlotRemoval.Apply, d, [w], rest.writes, left);
      var ok := Step(SaveIntent(n));
      if !ok {
        return Died;
      }
      r := Resume(parent, path, n);
    }

    method RemoveAddonAndSlots(parent: Text, path: Text) returns (r: SlotRemoval.Outcome)
      requires Sized(State())
      modifies this
      ensures Performed(RemovePlan(context, old(State()), parent, path), r)
    {
      if intent.Some? {
        r := Resume(parent, path, intent.value);
        return;
      }
      if source.manifest.Absent? {
        return Delegated;
      }
      if source.manifest.Unreadable? || !Accepted(context, source, source.manifest.pool.version) {
        return Rejected;
      }
      var pool, current := source.manifest.pool, Replacement.Inspect(main);
      var unresolved := SlotPoolStore.HasUnresolved(pool);
      if unresolved || !current.Managed? || archive.Some? || slotArchive.Some? {
        return Rejected;
      }
      var n := SlotRemoval.Intent(parent, path, pool, current.receipt);
      r := Begin(parent, path, n);
    }
  }
}
