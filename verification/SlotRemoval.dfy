/** Removal of the addon and its slots (internal/delivery/slot_remove.go), on values: one
    durable intent, then one atomic move per member. */
module SlotRemoval {
  import opened Wrappers
  import opened Texts
  import opened SlotPayload
  import opened SlotInstall
  import Durable
  import Replacement

  type Tree = Replacement.Tree
  type Receipt = Replacement.Receipt

  datatype Intent = Intent(parent: Text, archive: Text, pool: Pool, receipt: Receipt)

  /** The discovery directory, the slot archive, the main addon on either side, the intent. */
  datatype Disk = Disk(
    source: Files, slotArchive: Option<Files>, main: Option<Tree>, archive: Option<Tree>, intent: Option<Intent>)

  /** Delegated: no slots were ever installed, so only the main addon is removed. */
  datatype Outcome = Archived | Rejected | Delegated | Died

  datatype Write = SaveIntent(intent: Intent) | MakeArchive | MoveSlot(index: int) | MoveMarker | MoveMain

  datatype Steps = Steps(writes: seq<Write>, result: Outcome)

  function NoFiles(): Files {
    Files(Absent, seq(SLOT_COUNT, (k: nat) => NoDir))
  }

  predicate Sized(d: Disk) {
    |d.source.slots| == SLOT_COUNT && (d.slotArchive.Some? ==> |d.slotArchive.value.slots| == SLOT_COUNT)
  }

  /** A move is a rename that never replaces. */
  function Apply(d: Disk, w: Write): Disk {
    match w
    case SaveIntent(intent) => d.(intent := Some(intent))
    case MakeArchive => if d.slotArchive.None? then d.(slotArchive := Some(NoFiles())) else d
    case MoveSlot(i) =>
      if d.slotArchive.Some? && 1 <= i <= |d.source.slots| && i <= |d.slotArchive.value.slots| &&
         !d.source.slots[i - 1].NoDir? && d.slotArchive.value.slots[i - 1].NoDir? then
        var a := d.slotArchive.value;
        d.(source := d.source.(slots := d.source.slots[i - 1 := NoDir]),
           slotArchive := Some(a.(slots := a.slots[i - 1 := d.source.slots[i - 1]])))
      else d
    case MoveMarker =>
      if d.slotArchive.Some? && !d.source.manifest.Absent? && d.slotArchive.value.manifest.Absent? then
        d.(source := d.source.(manifest := Absent),
           slotArchive := Some(d.slotArchive.value.(manifest := d.source.manifest)))
      else d
    case MoveMain => if d.main.Some? && d.archive.None? then d.(main := None, archive := d.main) else d
  }

  function ApplyAll(d: Disk, ws: seq<Write>): Disk {
    Durable.ApplyAll(Apply, d, ws)
  }

  function Cut(d: Disk, ws: seq<Write>, left: nat): Disk {
    Durable.Cut(Apply, d, ws, left)
  }

  // ------------------------------------------------------------------ preflight

  /** removalLocation: present on exactly one side. */
  function SlotLocation(d: Disk, i: nat): Option<Dir>
    requires Sized(d) && 1 <= i <= SLOT_COUNT && d.slotArchive.Some?
  {
    var s, t := d.source.slots[i - 1], d.slotArchive.value.slots[i - 1];
    if s.NoDir? == t.NoDir? then None else if !s.NoDir? then Some(s) else Some(t)
  }

  predicate Removable(c: Context, pool: Pool, i: nat, dir: Dir)
    requires 1 <= i <= |pool.files|
  {
    var entry := pool.files[i - 1];
    entry.pendingHash == [] && !entry.Reserved() && SlotIntact(c, pool, i, dir) &&
    c.sum(dir.payload.content) == entry.payloadHash
  }

  predicate SlotReady(c: Context, d: Disk, pool: Pool, i: nat)
    requires Sized(d) && 1 <= i <= |pool.files| <= SLOT_COUNT && d.slotArchive.Some?
  {
    SlotLocation(d, i).Some? && Removable(c, pool, i, SlotLocation(d, i).value)
  }

  predicate SlotsReady(c: Context, d: Disk, pool: Pool)
    requires Sized(d) && |pool.files| <= SLOT_COUNT && d.slotArchive.Some?
  {
    forall i :: 1 <= i <= |pool.files| ==> SlotReady(c, d, pool, i)
  }

  predicate MarkerReady(d: Disk, pool: Pool)
    requires d.slotArchive.Some?
  {
    var s, t := d.source.manifest, d.slotArchive.value.manifest;
    s.Absent? != t.Absent? && (if s.Absent? then t else s) == Stored(pool)
  }

  predicate MainReady(d: Disk, receipt: Receipt) {
    d.main.Some? != d.archive.Some? &&
    Replacement.Inspect(if d.main.Some? then d.main else d.archive) == Replacement.Managed(receipt)
  }

  function SlotMoves(d: Disk, n: nat, i: nat): seq<Write>
    requires Sized(d) && 1 <= i <= n + 1 <= SLOT_COUNT + 1
    decreases n + 1 - i
  {
    if i > n then [] else (if d.source.slots[i - 1].NoDir? then [] else [MoveSlot(i)]) + SlotMoves(d, n, i + 1)
  }

  function LastMoves(d: Disk): seq<Write> {
    (if d.source.manifest.Absent? then [] else [MoveMarker]) + (if d.main.None? then [] else [MoveMain])
  }

  /** The moves still to make: the slots in order, then the marker, then the main addon. */
  function Moves(d: Disk, n: nat): seq<Write>
    requires Sized(d) && n <= SLOT_COUNT
  {
    SlotMoves(d, n, 1) + LastMoves(d)
  }

  /** removeAddonAndSlots once the intent is durable. */
  function ResumePlan(c: Context, d: Disk, parent: Text, archive: Text, intent: Intent): Steps
    requires Sized(d)
  {
    if intent.parent != parent || intent.archive != archive || !ValidShape(intent.pool) ||
        intent.pool.state != Ready then
      Steps([], Rejected)
    else
      var made := if d.slotArchive.None? then [MakeArchive] else [];
      var e := if d.slotArchive.None? then Apply(d, MakeArchive) else d;
      if !SlotsReady(c, e, intent.pool) || !MarkerReady(e, intent.pool) || !MainReady(e, intent.receipt) then
        Steps(made, Rejected)
      else Steps(made + Moves(e, |intent.pool.files|), Archived)
  }

  /** removeAddonAndSlots. */
  function RemovePlan(c: Context, d: Disk, parent: Text, archive: Text): Steps
    requires Sized(d)
  {
    match d.intent
    case Some(intent) => ResumePlan(c, d, parent, archive, intent)
    case None =>
      if d.source.manifest.Absent? then Steps([], Delegated)
      else if d.source.manifest.Unreadable? || !Accepted(c, d.source, d.source.manifest.pool.version) then
          Steps([], Rejected)
      else
        var pool, main := d.source.manifest.pool, Replacement.Inspect(d.main);
        if Unresolved(pool) || !main.Managed? || d.archive.Some? || d.slotArchive.Some? then Steps([], Rejected)
        else
          var intent := Intent(parent, archive, pool, main.receipt);
          var rest := ResumePlan(c, Apply(d, SaveIntent(intent)), parent, archive, intent);
          Steps([SaveIntent(intent)] + rest.writes, rest.result)
  }

  // ------------------------------------------------------------ the exact states

  /** A settled pool and a managed main addon, nothing archived yet. */
  predicate Whole(c: Context, d: Disk) {
    && Sized(d) && d.source.manifest.Stored? && d.slotArchive.None? && d.archive.None? && d.intent.None?
    && ValidShape(d.source.manifest.pool) && d.source.manifest.pool.state == Ready
    && Intact(c, d.source.manifest.pool, d.source.manifest.pool.version, d.source.slots)
    && !Unresolved(d.source.manifest.pool) && Replacement.Inspect(d.main).Managed?
  }

  function Count(d: Disk): nat {
    if d.source.manifest.Stored? then |d.source.manifest.pool.files| else 0
  }

  function IntentOf(d: Disk, parent: Text, archive: Text): Intent
    requires d.source.manifest.Stored? && Replacement.Inspect(d.main).Managed?
  {
    Intent(parent, archive, d.source.manifest.pool, Replacement.Inspect(d.main).receipt)
  }

  /** d with its first s members moved: n slots, then the marker, then the main addon. */
  function Staged(d: Disk, intent: Intent, s: nat): Disk
    requires Sized(d)
  {
    var n := Count(d);
    Disk(
      Files(if s > n then Absent else d.source.manifest,
            seq(SLOT_COUNT, k requires 0 <= k < SLOT_COUNT => if k < s && k < n then NoDir else d.source.slots[k])),
      Some(Files(if s > n then d.source.manifest else Absent,
                 seq(SLOT_COUNT, k requires 0 <= k < SLOT_COUNT => if k < s && k < n then d.source.slots[k]
                     else NoDir))),
      if s > n + 1 then None else d.main,
      if s > n + 1 then d.main else None,
      Some(intent))
  }

  /** The moves from the s-th on. */
  function MovesFrom(n: nat, s: nat): (ws: seq<Write>)
    ensures |ws| == if s >= n + 2 then 0 else n + 2 - s
    decreases n + 2 - s
  {
    if s >= n + 2 then []
    else [if s < n then MoveSlot(s + 1) else if s == n then MoveMarker else MoveMain] + MovesFrom(n, s + 1)
  }

  lemma WholeSlotPresent(c: Context, d: Disk, k: nat)
    requires Whole(c, d) && k < Count(d)
    ensures SlotIntact(c, d.source.manifest.pool, k + 1, d.source.slots[k]) && d.source.slots[k].Plain?
  {
  }

  lemma MoveStages(c: Context, d: Disk, intent: Intent, s: nat)
    requires Whole(c, d) && s < Count(d) + 2
    ensures Apply(Staged(d, intent, s), MovesFrom(Count(d), s)[0]) == Staged(d, intent, s + 1)
  {
    var n := Count(d);
    var e, f := Apply(Staged(d, intent, s), MovesFrom(n, s)[0]), Staged(d, intent, s + 1);
    if s < n {
      WholeSlotPresent(c, d, s);
      assert e.source.slots == f.source.slots;
      assert e.slotArchive.value.slots == f.slotArchive.value.slots;
    } else {
      assert e.source.slots == f.source.slots;
      assert e.slotArchive.value.slots == f.slotArchive.value.slots;
    }
  }

  /** A process that dies after some of the moves has moved exactly that many more members. */
  lemma {:induction false} CutMoves(c: Context, d: Disk, intent: Intent, s: nat, left: nat)
    requires Whole(c, d) && s <= Count(d) + 2
    ensures Cut(Staged(d, intent, s), MovesFrom(Count(d), s), left) ==
            Staged(d, intent, if s + left < Count(d) + 2 then s + left else Count(d) + 2)
    decreases Count(d) + 2 - s
  {
    var ws := MovesFrom(Count(d), s);
    if s < Count(d) + 2 && left > 0 {
      MoveStages(c, d, intent, s);
      CutMoves(c, d, intent, s + 1, left - 1);
      if left < |ws| { assert ws[..left][1..] == ws[1..][..left - 1]; }
    }
  }

  lemma {:induction false} PendingSlotMoves(c: Context, d: Disk, intent: Intent, s: nat, i: nat)
    requires Whole(c, d) && s <= Count(d) + 2 && 1 <= i <= Count(d) + 1
    ensures SlotMoves(Staged(d, intent, s), Count(d), i) ==
            MovesFrom(Count(d), if s < i - 1 then i - 1 else if s < Count(d) then s else Count(d))
              [..if s < i - 1 then Count(d) + 1 - i else if s < Count(d) then Count(d) - s else 0]
    decreases Count(d) + 1 - i
  {
    var n := Count(d);
    if i <= n {
      WholeSlotPresent(c, d, i - 1);
      PendingSlotMoves(c, d, intent, s, i + 1);
    }
  }

  lemma LastMovesStaged(c: Context, d: Disk, intent: Intent, s: nat)
    requires Whole(c, d) && s <= Count(d) + 2
    ensures LastMoves(Staged(d, intent, s)) ==
            if s <= Count(d) then [MoveMarker, MoveMain] else if s == Count(d) + 1 then [MoveMain] else []
  {
    assert [MoveMarker] + [MoveMain] == [MoveMarker, MoveMain];
    assert [] + [MoveMain] == [MoveMain];
  }

  lemma {:induction false} SplitMoves(n: nat, s: nat)
    requires s <= n
    ensures MovesFrom(n, s) == MovesFrom(n, s)[..n - s] + [MoveMarker, MoveMain]
    decreases n - s
  {
    if s < n {
      SplitMoves(n, s + 1);
    } else {
      FinalMoves(n);
    }
  }

  lemma FinalMoves(n: nat)
    ensures MovesFrom(n, n + 2) == [] && MovesFrom(n, n + 1) == [MoveMain] && MovesFrom(n, n) == [MoveMarker, MoveMain]
  {
    assert [MoveMain] + MovesFrom(n, n + 2) == [MoveMain];
    assert [MoveMarker] + MovesFrom(n, n + 1) == [MoveMarker, MoveMain];
  }

  /** What is still to move is what the stage has not moved. */
  lemma PendingMoves(c: Context, d: Disk, intent: Intent, s: nat)
    requires Whole(c, d) && s <= Count(d) + 2
    ensures Moves(Staged(d, intent, s), Count(d)) == MovesFrom(Count(d), s)
  {
    var n := Count(d);
    PendingSlotMoves(c, d, intent, s, 1);
    LastMovesStaged(c, d, intent, s);
    FinalMoves(n);
    if s <= n {
      SplitMoves(n, s);
    } else {
      assert SlotMoves(Staged(d, intent, s), n, 1) == [];
    }
  }

  // ------------------------------------------------------------------ convergence

  lemma SlotsReadyStaged(c: Context, d: Disk, intent: Intent, s: nat)
    requires Sound(c) && Whole(c, d) && s <= Count(d) + 2
    ensures SlotsReady(c, Staged(d, intent, s), d.source.manifest.pool)
  {
    var pool, e := d.source.manifest.pool, Staged(d, intent, s);
    forall i | 1 <= i <= |pool.files|
      ensures SlotReady(c, e, pool, i)
    {
      WholeSlotPresent(c, d, i - 1);
      assert SlotLocation(e, i) == Some(d.source.slots[i - 1]);
      assert pool.files[i - 1].pendingHash == [] && !pool.files[i - 1].Reserved();
      assert c.sum(d.source.slots[i - 1].payload.content) != [];
    }
  }

  lemma RestReadyStaged(c: Context, d: Disk, parent: Text, archive: Text, s: nat)
    requires Whole(c, d) && s <= Count(d) + 2
    ensures var intent := IntentOf(d, parent, archive);
            MarkerReady(Staged(d, intent, s), intent.pool) && MainReady(Staged(d, intent, s), intent.receipt)
  {
  }

  /** Resumed at any stage, the removal passes its preflight and makes exactly the moves left. */
  lemma ResumeStaged(c: Context, d: Disk, parent: Text, archive: Text, s: nat)
    requires Sound(c) && Whole(c, d) && s <= Count(d) + 2
    ensures var intent := IntentOf(d, parent, archive);
            ResumePlan(c, Staged(d, intent, s), parent, archive, intent) == Steps(MovesFrom(Count(d), s), Archived)
  {
    var intent := IntentOf(d, parent, archive);
    SlotsReadyStaged(c, d, intent, s);
    RestReadyStaged(c, d, parent, archive, s);
    PendingMoves(c, d, intent, s);
    assert [] + MovesFrom(Count(d), s) == MovesFrom(Count(d), s);
  }

  lemma ResumeIntent(c: Context, d: Disk, parent: Text, archive: Text)
    requires Sound(c) && Whole(c, d)
    ensures var intent := IntentOf(d, parent, archive);
            ResumePlan(c, d.(intent := Some(intent)), parent, archive, intent) ==
            Steps([MakeArchive] + MovesFrom(Count(d), 0), Archived)
    ensures Apply(d.(intent := Some(IntentOf(d, parent, archive))), MakeArchive) ==
            Staged(d, IntentOf(d, parent, archive), 0)
  {
    var intent := IntentOf(d, parent, archive);
    var e, f := Apply(d.(intent := Some(intent)), MakeArchive), Staged(d, intent, 0);
    assert e.source.slots == f.source.slots && e.slotArchive.value.slots == f.slotArchive.value.slots;
    ResumeStaged(c, d, parent, archive, 0);
    SlotsReadyStaged(c, d, intent, 0);
    PendingMoves(c, d, intent, 0);
  }

  /** What a run of interrupted removals of d may leave: nothing durable, the bare intent, or
      exactly the first s members moved. */
  ghost predicate Reachable(d: Disk, parent: Text, archive: Text, e: Disk)
    requires Sized(d) && d.source.manifest.Stored? && Replacement.Inspect(d.main).Managed?
  {
    var intent := IntentOf(d, parent, archive);
    e == d || e == d.(intent := Some(intent)) || exists s :: 0 <= s <= Count(d) + 2 && e == Staged(d, intent, s)
  }

  lemma CutFirst(d: Disk, w: Write, ws: seq<Write>, left: nat)
    ensures Cut(d, [w] + ws, left) == if left == 0 then d else Cut(Apply(d, w), ws, left - 1)
    ensures ApplyAll(d, [w] + ws) == ApplyAll(Apply(d, w), ws)
  {
    assert ([w] + ws)[1..] == ws;
    if 0 < left < |[w] + ws| {
      assert ([w] + ws)[..left] == [w] + ws[..left - 1];
      assert ([w] + ws[..left - 1])[1..] == ws[..left - 1];
    }
  }

  ghost predicate Attempted(c: Context, d: Disk, parent: Text, archive: Text, e: Disk, left: nat)
    requires Whole(c, d) && Sized(e)
  {
    var p := RemovePlan(c, e, parent, archive);
    && p.result == Archived && Reachable(d, parent, archive, Cut(e, p.writes, left))
    && ApplyAll(e, p.writes) == Staged(d, IntentOf(d, parent, archive), Count(d) + 2)
  }

  lemma AttemptStaged(c: Context, d: Disk, parent: Text, archive: Text, s: nat, left: nat)
    requires Sound(c) && Whole(c, d) && s <= Count(d) + 2
    ensures Attempted(c, d, parent, archive, Staged(d, IntentOf(d, parent, archive), s), left)
  {
    var intent, n := IntentOf(d, parent, archive), Count(d);
    ResumeStaged(c, d, parent, archive, s);
    CutMoves(c, d, intent, s, left);
    CutMoves(c, d, intent, s, n + 2);
  }

  lemma AttemptJournaled(c: Context, d: Disk, parent: Text, archive: Text, left: nat)
    requires Sound(c) && Whole(c, d)
    ensures Attempted(c, d, parent, archive, d.(intent := Some(IntentOf(d, parent, archive))), left)
  {
    var intent := IntentOf(d, parent, archive);
    var journaled := d.(intent := Some(intent));
    ResumeIntent(c, d, parent, archive);
    ResumeStaged(c, d, parent, archive, 0);
    CutFirst(journaled, MakeArchive, MovesFrom(Count(d), 0), left);
    AttemptStaged(c, d, parent, archive, 0, if left == 0 then 0 else left - 1);
  }

  lemma AttemptFresh(c: Context, d: Disk, parent: Text, archive: Text, left: nat)
    requires Sound(c) && Whole(c, d) && Count(d) == SLOT_COUNT && d.source.manifest.pool.schema == V3
    ensures Attempted(c, d, parent, archive, d, left)
  {
    var intent := IntentOf(d, parent, archive);
    var journaled := d.(intent := Some(intent));
    var rest := ResumePlan(c, journaled, parent, archive, intent);
    CutFirst(d, SaveIntent(intent), rest.writes, left);
    AttemptJournaled(c, d, parent, archive, if left == 0 then 0 else left - 1);
    assert RemovePlan(c, d, parent, archive) == Steps([SaveIntent(intent)] + rest.writes, rest.result);
  }

  /** One attempt, interrupted anywhere or not at all. */
  lemma AttemptReaches(c: Context, d: Disk, parent: Text, archive: Text, e: Disk, left: nat)
    requires Sound(c) && Whole(c, d) && Count(d) == SLOT_COUNT && d.source.manifest.pool.schema == V3
    requires Reachable(d, parent, archive, e)
    ensures Sized(e) && Attempted(c, d, parent, archive, e, left)
  {
    var intent, n := IntentOf(d, parent, archive), Count(d);
    if e == d {
      AttemptFresh(c, d, parent, archive, left);
    } else if e == d.(intent := Some(intent)) {
      AttemptJournaled(c, d, parent, archive, left);
    } else {
      var s :| 0 <= s <= n + 2 && e == Staged(d, intent, s);
      AttemptStaged(c, d, parent, archive, s, left);
    }
  }

  /** Attempts that lived for the given numbers of durable steps. */
  function Run(c: Context, d: Disk, parent: Text, archive: Text, attempts: seq<nat>): Disk
    requires Sized(d)
    decreases |attempts|
  {
    if attempts == [] then d
    else
      var e := Cut(d, RemovePlan(c, d, parent, archive).writes, attempts[0]);
      if Sized(e) then Run(c, e, parent, archive, attempts[1..]) else e
  }

  lemma {:induction false} RunReaches(c: Context, d: Disk, parent: Text, archive: Text, e: Disk, attempts: seq<nat>)
    requires Sound(c) && Whole(c, d) && Count(d) == SLOT_COUNT && d.source.manifest.pool.schema == V3
    requires Reachable(d, parent, archive, e)
    ensures Reachable(d, parent, archive, Run(c, e, parent, archive, attempts))
    decreases |attempts|
  {
    if attempts != [] {
      AttemptReaches(c, d, parent, archive, e, attempts[0]);
      RunReaches(c, d, parent, archive, Cut(e, RemovePlan(c, e, parent, archive).writes, attempts[0]), attempts[1..]);
    }
  }

  /** Wherever a run stopped, rerunning the removal with the same archive archives everything. */
  lemma RemovalConverges(c: Context, d: Disk, parent: Text, archive: Text, attempts: seq<nat>)
    requires Sound(c) && Whole(c, d) && Count(d) == SLOT_COUNT && d.source.manifest.pool.schema == V3
    ensures var e := Run(c, d, parent, archive, attempts);
            && Reachable(d, parent, archive, e)
            && var p := RemovePlan(c, e, parent, archive);
               p.result == Archived
               && ApplyAll(e, p.writes) == Staged(d, IntentOf(d, parent, archive), SLOT_COUNT + 2)
  {
    RunReaches(c, d, parent, archive, d, attempts);
    AttemptReaches(c, d, parent, archive, Run(c, d, parent, archive, attempts), 0);
  }

  // ----------------------------------------------------------------- conservation

  predicate OneSide<T(==)>(whole: T, none: T, source: T, destination: T) {
    (source == whole && destination == none) || (source == none && destination == whole)
  }

  function ArchivedFiles(d: Disk): Files {
    if d.slotArchive.Some? then d.slotArchive.value else NoFiles()
  }

  predicate SlotOneSide(d: Disk, e: Disk, k: nat)
    requires Sized(d) && Sized(e) && k < SLOT_COUNT
  {
    OneSide(d.source.slots[k], NoDir, e.source.slots[k], ArchivedFiles(e).slots[k])
  }

  /** In every reachable state each member is, with its original bytes, on exactly one side;
      the marker is moved only after every slot, and the main addon only after the marker. */
  lemma MembersConserved(c: Context, d: Disk, parent: Text, archive: Text, e: Disk)
    requires Whole(c, d) && Reachable(d, parent, archive, e)
    ensures Sized(e)
    ensures forall k :: 0 <= k < SLOT_COUNT ==> SlotOneSide(d, e, k)
    ensures OneSide(d.source.manifest, Absent, e.source.manifest, ArchivedFiles(e).manifest)
    ensures OneSide(d.main, None, e.main, e.archive)
    ensures e.source.manifest.Absent? ==> forall k :: 0 <= k < Count(d) ==> e.source.slots[k].NoDir?
    ensures e.main.None? ==> e.source.manifest.Absent?
  {
  }
}