/** Installation and migration of the slot pool over whole runs: wherever a process dies,
    every file holds old or new bytes and the same call finishes the work. */
module SlotInstallProofs {
  import opened Wrappers
  import opened Texts
  import opened SlotPayload
  import opened SlotInstall
  import Durable

  // --------------------------------------------------------------------- phases

  /** The file holds what an install of this version writes there. */
  predicate NewAt(version: Text, d: Files, k: nat, name: Name) {
    k < |d.slots| && d.slots[k].Plain? && d.slots[k].Get(name) == Regular(Wanted(k + 1, version, name))
  }

  predicate WholeSlot(version: Text, k: nat, dir: Dir) {
    dir == Plain(Regular(Wanted(k + 1, version, TocFile)), Regular(Wanted(k + 1, version, LoaderFile)),
                 Regular(INERT_CONTENT), 0)
  }

  predicate WholeSlots(version: Text, slots: seq<Dir>, n: nat) {
    n <= |slots| && forall k :: 0 <= k < n ==> WholeSlot(version, k, slots[k])
  }

  /** The ready pool of 500 inert slots. */
  predicate Finished(c: Context, version: Text, d: Files) {
    d.manifest == Stored(FinalPool(c, version)) && |d.slots| == SLOT_COUNT && WholeSlots(version, d.slots, SLOT_COUNT)
  }

  /** A migration to this version whose intent is durable. */
  predicate Midway(c: Context, version: Text, d: Files) {
    d.manifest.Stored? && |d.slots| == SLOT_COUNT &&
    var pool := d.manifest.pool;
    (pool.schema == Migration3 || pool.schema == Migration4) && MigrationShape(pool) && pool.version != [] &&
    pool.pendingVersion == version && !Unresolved(pool) &&
    AllAccepted(c, pool.(schema := Migration4), version, d.slots)
  }

  /** A ready pool of any admitted schema with nothing outstanding. */
  predicate Resting(c: Context, d: Files) {
    d.manifest.Stored? && |d.slots| == SLOT_COUNT &&
    var pool := d.manifest.pool;
    ValidShape(pool) && pool.state == Ready && Intact(c, pool, pool.version, d.slots) && !Unresolved(pool) &&
    NoneBeyond(d.slots, |pool.files|)
  }

  predicate FreshGround(d: Files) {
    d.manifest == Absent && |d.slots| == SLOT_COUNT && NoneBeyond(d.slots, 0)
  }

  const EMPTY_FILE: SlotFile := SlotProtocol.SlotFile([], [], [], [], [], false, [], false)

  predicate Partial(version: Text, k: nat, name: Name, e: Entry) {
    e == Gone || e == Regular(Wanted(k + 1, version, name))
  }

  predicate PartialSlot(version: Text, k: nat, dir: Dir) {
    dir.NoDir? ||
    (dir.Plain? && dir.others == 0 && Partial(version, k, TocFile, dir.toc) &&
        Partial(version, k, LoaderFile, dir.loader) &&
     Partial(version, k, PayloadFile, dir.payload))
  }

  predicate PartialSlots(version: Text, slots: seq<Dir>, n: nat) {
    n <= |slots| && forall k :: 0 <= k < n ==> PartialSlot(version, k, slots[k])
  }

  predicate InstallingPool(pool: Pool) {
    pool.schema == V3 && pool.state == Installing && ValidShape(pool) && pool.pendingVersion == [] &&
    forall k :: 0 <= k < |pool.files| ==> pool.files[k] == EMPTY_FILE
  }

  /** A first installation that died part-way, of this or of another version, and whose declarations
      are the current ones; SlotInstallTorn says what becomes of one with older declarations. */
  predicate Begun(d: Files) {
    d.manifest.Stored? && |d.slots| == SLOT_COUNT && InstallingPool(d.manifest.pool) &&
    PartialSlots(d.manifest.pool.version, d.slots, |d.manifest.pool.files|) &&
        NoneBeyond(d.slots, |d.manifest.pool.files|)
  }

  ghost predicate Phase(c: Context, version: Text, d: Files) {
    FreshGround(d) || Begun(d) || Resting(c, d) || Midway(c, version, d)
  }

  lemma FinishedRests(c: Context, version: Text, d: Files)
    requires Sound(c) && version != [] && Finished(c, version, d)
    ensures Resting(c, d) && Accepted(c, d, version)
  {
    var pool := d.manifest.pool;
    forall k | 0 <= k < |pool.files|
      ensures SlotIntact(c, pool, k + 1, d.slots[k])
    {
      assert WholeSlot(version, k, d.slots[k]);
      assert pool.files[k] == FreshFile(c);
    }
  }

  // ------------------------------------------------------------ steps within phases

  ghost predicate Stays(c: Context, version: Text, d: Files, ws: seq<Write>)
    decreases |ws|
  {
    Phase(c, version, d) && (ws != [] ==> Stays(c, version, Apply(d, ws[0]), ws[1..]))
  }

  lemma {:induction false} CutStays(c: Context, version: Text, d: Files, ws: seq<Write>, left: nat)
    requires Stays(c, version, d, ws)
    ensures Phase(c, version, Cut(d, ws, left))
    decreases |ws|
  {
    if left > 0 && ws != [] {
      CutStays(c, version, Apply(d, ws[0]), ws[1..], left - 1);
      if left < |ws| { assert ws[..left][1..] == ws[1..][..left - 1]; }
    }
  }

  lemma {:induction false} StaysTogether(c: Context, version: Text, d: Files, a: seq<Write>, b: seq<Write>)
    requires Stays(c, version, d, a) && Stays(c, version, ApplyAll(d, a), b)
    ensures Stays(c, version, d, a + b)
    ensures ApplyAll(d, a + b) == ApplyAll(ApplyAll(d, a), b)
    decreases |a|
  {
    if a == [] {
      assert a + b == b;
    } else {
      assert (a + b)[1..] == a[1..] + b;
      StaysTogether(c, version, Apply(d, a[0]), a[1..], b);
    }
  }

  lemma StaysOne(c: Context, version: Text, d: Files, w: Write)
    requires Phase(c, version, d) && Phase(c, version, Apply(d, w))
    ensures Stays(c, version, d, [w]) && ApplyAll(d, [w]) == Apply(d, w)
  {
    assert [w][1..] == [];
    assert ApplyAll(Apply(d, w), []) == Apply(d, w);
    assert Stays(c, version, Apply(d, w), []);
  }

  /** Replacements by the new bytes, and new directories: all a migration does in between. */
  predicate Renews(version: Text, w: Write) {
    match w
    case Save(_) => false
    case Mkdir(i) => true
    case Put(i, name, content) => i >= 1 && content == Wanted(i, version, name)
  }

  predicate AllRenew(version: Text, ws: seq<Write>) {
    forall w :: w in ws ==> Renews(version, w)
  }

  lemma RenewKeepsSlot(c: Context, pool: Pool, version: Text, k: nat, dir: Dir, name: Name)
    requires SlotAccepted(c, pool, version, k + 1, dir)
    ensures dir.NoDir? ==> SlotAccepted(c, pool, version, k + 1, Plain(Gone, Gone, Gone, 0))
    ensures dir.Plain? ==>
      SlotAccepted(c, pool, version, k + 1, dir.Set(name, Regular(Wanted(k + 1, version, name))))
  {
  }

  lemma RenewKeepsMidway(c: Context, version: Text, d: Files, w: Write)
    requires Midway(c, version, d) && Renews(version, w)
    ensures Midway(c, version, Apply(d, w))
  {
    var pool := d.manifest.pool.(schema := Migration4);
    var e := Apply(d, w);
    forall k | 0 <= k < |e.slots|
      ensures SlotAccepted(c, pool, version, k + 1, e.slots[k])
    {
      assert SlotAccepted(c, pool, version, k + 1, d.slots[k]);
      RenewKeepsSlot(c, pool, version, k, d.slots[k], if w.Put? then w.name else TocFile);
    }
  }

  lemma {:induction false} RenewalsStay(c: Context, version: Text, d: Files, ws: seq<Write>)
    requires Midway(c, version, d) && AllRenew(version, ws)
    ensures Stays(c, version, d, ws) && Midway(c, version, ApplyAll(d, ws))
    ensures ApplyAll(d, ws).manifest == d.manifest
    decreases |ws|
  {
    if ws != [] {
      assert ws[0] in ws && forall w :: w in ws[1..] ==> w in ws;
      RenewKeepsMidway(c, version, d, ws[0]);
      RenewalsStay(c, version, Apply(d, ws[0]), ws[1..]);
    }
  }

  // ------------------------------------------------------------------- progress

  lemma {:induction false} NewStays(version: Text, d: Files, ws: seq<Write>, k: nat, name: Name)
    requires AllRenew(version, ws) && NewAt(version, d, k, name)
    ensures NewAt(version, ApplyAll(d, ws), k, name)
    decreases |ws|
  {
    if ws != [] {
      assert ws[0] in ws && forall w :: w in ws[1..] ==> w in ws;
      NewStays(version, Apply(d, ws[0]), ws[1..], k, name);
    }
  }

  lemma {:induction false} PutLands(version: Text, d: Files, ws: seq<Write>, k: nat, name: Name)
    requires AllRenew(version, ws) && k < |d.slots| && d.slots[k].Plain?
    requires Put(k + 1, name, Wanted(k + 1, version, name)) in ws
    ensures NewAt(version, ApplyAll(d, ws), k, name)
    decreases |ws|
  {
    assert ws[0] in ws && forall w :: w in ws[1..] ==> w in ws;
    var e := Apply(d, ws[0]);
    if ws[0] == Put(k + 1, name, Wanted(k + 1, version, name)) {
      NewStays(version, e, ws[1..], k, name);
    } else {
      PutLands(version, e, ws[1..], k, name);
    }
  }

  lemma {:induction false} PlainStays(version: Text, d: Files, ws: seq<Write>, k: nat)
    requires k < |d.slots| && d.slots[k].Plain?
    ensures ApplyAll(d, ws).slots[k].Plain?
    decreases |ws|
  {
    if ws != [] { PlainStays(version, Apply(d, ws[0]), ws[1..], k); }
  }

  lemma {:induction false} MkdirLands(version: Text, d: Files, ws: seq<Write>, k: nat)
    requires k < |d.slots| && !d.slots[k].NotPlain? && (d.slots[k].NoDir? ==> Mkdir(k + 1) in ws)
    ensures ApplyAll(d, ws).slots[k].Plain?
    decreases |ws|
  {
    if d.slots[k].Plain? {
      PlainStays(version, d, ws, k);
    } else {
      var e := Apply(d, ws[0]);
      MkdirLands(version, e, ws[1..], k);
    }
  }

  lemma {:induction false} MkdirsCover(version: Text, slots: seq<Dir>, i: nat)
    requires 1 <= i
    ensures forall k :: i - 1 <= k < |slots| && slots[k].NoDir? ==> Mkdir(k + 1) in Mkdirs(slots, i)
    ensures AllRenew(version, Mkdirs(slots, i))
    decreases |slots| - i
  {
    if i <= |slots| { MkdirsCover(version, slots, i + 1); }
  }

  lemma {:induction false} SlotPutsCover(c: Context, version: Text, i: nat, dir: Dir, names: seq<Name>)
    requires 1 <= i
    ensures forall name :: name in names && Outdated(c, version, i, name, dir) ==>
              Put(i, name, Wanted(i, version, name)) in SlotPuts(c, version, i, dir, names)
    ensures AllRenew(version, SlotPuts(c, version, i, dir, names))
    decreases |names|
  {
    if names != [] { SlotPutsCover(c, version, i, dir, names[1..]); }
  }

  lemma {:induction false} PutsRenew(c: Context, version: Text, slots: seq<Dir>, i: nat)
    requires 1 <= i
    ensures AllRenew(version, Puts(c, version, slots, i))
    decreases |slots| - i
  {
    if i <= |slots| {
      PutsRenew(c, version, slots, i + 1);
      SlotPutsCover(c, version, i, slots[i - 1], c.order(i));
    }
  }

  lemma InEither(w: Write, a: seq<Write>, b: seq<Write>)
    requires w in a || w in b
    ensures w in a + b
  {
  }

  lemma {:induction false} PutsCover(c: Context, version: Text, slots: seq<Dir>, i: nat, k: nat, name: Name)
    requires Sound(c) && 1 <= i <= k + 1 <= |slots| && Outdated(c, version, k + 1, name, slots[k])
    ensures Put(k + 1, name, Wanted(k + 1, version, name)) in Puts(c, version, slots, i)
    decreases |slots| - i
  {
    var w := Put(k + 1, name, Wanted(k + 1, version, name));
    if i == k + 1 {
      SlotPutsCover(c, version, i, slots[k], c.order(i));
    } else {
      PutsCover(c, version, slots, i + 1, k, name);
    }
    InEither(w, SlotPuts(c, version, i, slots[i - 1], c.order(i)), Puts(c, version, slots, i + 1));
  }

  /** Whatever an interrupted migration left, its directories and replacements make every
      file of every slot new. */
  lemma MigrationRenewsAll(c: Context, version: Text, d: Files)
    requires Sound(c) && Midway(c, version, d)
    ensures var e := ApplyAll(ApplyAll(d, Mkdirs(d.slots, 1)), Puts(c, version, d.slots, 1));
            WholeSlots(version, e.slots, SLOT_COUNT)
  {
    var made := ApplyAll(d, Mkdirs(d.slots, 1));
    var puts := Puts(c, version, d.slots, 1);
    var e := ApplyAll(made, puts);
    MkdirsCover(version, d.slots, 1);
    PutsRenew(c, version, d.slots, 1);
    RenewalsStay(c, version, d, Mkdirs(d.slots, 1));
    RenewalsStay(c, version, made, puts);
    forall k | 0 <= k < SLOT_COUNT
      ensures WholeSlot(version, k, e.slots[k])
    {
      assert SlotAccepted(c, d.manifest.pool.(schema := Migration4), version, k + 1, d.slots[k]);
      assert SlotAccepted(c, d.manifest.pool.(schema := Migration4), version, k + 1, e.slots[k]);
      MkdirLands(version, d, Mkdirs(d.slots, 1), k);
      FileRenewed(c, version, d, k, TocFile);
      FileRenewed(c, version, d, k, LoaderFile);
      FileRenewed(c, version, d, k, PayloadFile);
    }
  }

  lemma FileRenewed(c: Context, version: Text, d: Files, k: nat, name: Name)
    requires Sound(c) && Midway(c, version, d) && k < SLOT_COUNT
    ensures NewAt(version, ApplyAll(ApplyAll(d, Mkdirs(d.slots, 1)), Puts(c, version, d.slots, 1)), k, name)
  {
    var made := ApplyAll(d, Mkdirs(d.slots, 1));
    var puts := Puts(c, version, d.slots, 1);
    assert SlotAccepted(c, d.manifest.pool.(schema := Migration4), version, k + 1, d.slots[k]);
    MkdirsCover(version, d.slots, 1);
    PutsRenew(c, version, d.slots, 1);
    MkdirLands(version, d, Mkdirs(d.slots, 1), k);
    if Outdated(c, version, k + 1, name, d.slots[k]) {
      PutsCover(c, version, d.slots, 1, k, name);
      PutLands(version, made, puts, k, name);
    } else {
      assert NewAt(version, d, k, name);
      NewStays(version, d, Mkdirs(d.slots, 1), k, name);
      NewStays(version, made, puts, k, name);
    }
  }

  // ------------------------------------------------------------ the whole migration

  ghost predicate Completes(c: Context, version: Text, d: Files, p: Plan) {
    p.result == Done && Stays(c, version, d, p.writes) && Finished(c, version, ApplyAll(d, p.writes))
  }

  lemma MigrateAdopted(c: Context, version: Text, d: Files)
    requires Sound(c) && version != [] && Midway(c, version, d) && d.manifest.pool.schema == Migration4
    ensures Completes(c, version, d, MigratePlan(c, d, d.manifest.pool, version))
  {
    var dirs, puts := Mkdirs(d.slots, 1), Puts(c, version, d.slots, 1);
    var last := Save(FinalPool(c, version));
    assert d.manifest.pool.(schema := Migration4) == d.manifest.pool;
    MkdirsCover(version, d.slots, 1);
    PutsRenew(c, version, d.slots, 1);
    RenewalsStay(c, version, d, dirs);
    var made := ApplyAll(d, dirs);
    RenewalsStay(c, version, made, puts);
    var e := ApplyAll(made, puts);
    MigrationRenewsAll(c, version, d);
    FinishedRests(c, version, Apply(e, last));
    StaysOne(c, version, e, last);
    StaysTogether(c, version, made, puts, [last]);
    StaysTogether(c, version, d, dirs, puts + [last]);
    assert [] + (dirs + (puts + [last])) == dirs + (puts + [last]);
  }

  /** A migration begun by an older installer first takes over its intent. */
  lemma AdoptionFirst(c: Context, d: Files, pool: Pool, version: Text)
    requires pool.schema == Migration3 && pool.state == Upgrading && pool.pendingVersion == version
    ensures var adopted := pool.(schema := Migration4);
            var rest := MigratePlan(c, Apply(d, Save(adopted)), adopted, version);
            MigratePlan(c, d, pool, version) == Plan([Save(adopted)] + rest.writes, rest.result)
  {
    var tail := Mkdirs(d.slots, 1) + (Puts(c, version, d.slots, 1) + [Save(FinalPool(c, version))]);
    assert [] + tail == tail;
    assert [Save(pool.(schema := Migration4))] + [] == [Save(pool.(schema := Migration4))];
  }

  lemma MigrateCompletes(c: Context, version: Text, d: Files)
    requires Sound(c) && version != [] && Midway(c, version, d)
    ensures Completes(c, version, d, MigratePlan(c, d, d.manifest.pool, version))
  {
    var pool := d.manifest.pool;
    if pool.schema == Migration4 {
      MigrateAdopted(c, version, d);
    } else {
      var adopted := pool.(schema := Migration4);
      var e := Apply(d, Save(adopted));
      assert Midway(c, version, e);
      MigrateAdopted(c, version, e);
      StaysOne(c, version, d, Save(adopted));
      var rest := MigratePlan(c, e, adopted, version).writes;
      StaysTogether(c, version, d, [Save(adopted)], rest);
      AdoptionFirst(c, d, pool, version);
    }
  }

  /** What the inspection admitted is admitted again by the migration's own checks. */
  lemma IntactAccepted(c: Context, pool: Pool, version: Text, k: nat, dir: Dir)
    requires Sound(c) && k < |pool.files| && SlotIntact(c, pool, k + 1, dir) && !Unresolved(pool)
    ensures SlotAccepted(c, Intent(pool, version), version, k + 1, dir)
  {
    assert pool.files[k].pendingHash == [];
  }

  lemma IntentMidway(c: Context, version: Text, d: Files)
    requires Sound(c) && version != [] && Resting(c, d)
    ensures Midway(c, version, Apply(d, Save(Intent(d.manifest.pool, version))))
  {
    var pool := d.manifest.pool;
    var intent := Intent(pool, version);
    forall k | 0 <= k < |d.slots|
      ensures SlotAccepted(c, intent, version, k + 1, d.slots[k])
    {
      if k < |pool.files| {
        IntactAccepted(c, pool, version, k, d.slots[k]);
      }
    }
    assert intent.(schema := Migration4) == intent;
    assert intent.files == pool.files;
  }

  lemma UpgradeCompletes(c: Context, version: Text, d: Files)
    requires Sound(c) && version != []
    requires Resting(c, d) || Midway(c, version, d)
    ensures Completes(c, version, d, UpgradePlan(c, d, d.manifest.pool, version))
  {
    if Midway(c, version, d) {
      MigrateCompletes(c, version, d);
    } else {
      var w := Save(Intent(d.manifest.pool, version));
      IntentMidway(c, version, d);
      var e := Apply(d, w);
      MigrateCompletes(c, version, e);
      StaysOne(c, version, d, w);
      StaysTogether(c, version, d, [w], MigratePlan(c, e, e.manifest.pool, version).writes);
    }
  }

  // -------------------------------------------------------------- old bytes or new

  predicate FileOldOrNew(version: Text, k: nat, name: Name, before: Entry, after: Entry) {
    after == before || after == Regular(Wanted(k + 1, version, name))
  }

  predicate SlotOldOrNew(version: Text, k: nat, before: Dir, after: Dir) {
    before == after ||
    (before.NoDir? && PartialSlot(version, k, after)) ||
    (before.Plain? && after.Plain? && after.others == before.others &&
     FileOldOrNew(version, k, TocFile, before.toc, after.toc) &&
     FileOldOrNew(version, k, LoaderFile, before.loader, after.loader) &&
     FileOldOrNew(version, k, PayloadFile, before.payload, after.payload))
  }

  predicate OldOrNew(version: Text, before: seq<Dir>, after: seq<Dir>) {
    |before| == |after| && forall k :: 0 <= k < |before| ==> SlotOldOrNew(version, k, before[k], after[k])
  }

  predicate Renewing(version: Text, ws: seq<Write>) {
    forall w :: w in ws ==> w.Save? || Renews(version, w)
  }

  lemma {:induction false} RenewingOldOrNew(version: Text, start: seq<Dir>, d: Files, ws: seq<Write>)
    requires Renewing(version, ws) && OldOrNew(version, start, d.slots)
    ensures OldOrNew(version, start, ApplyAll(d, ws).slots)
    decreases |ws|
  {
    if ws != [] {
      var w, e := ws[0], Apply(d, ws[0]);
      assert w in ws && forall w :: w in ws[1..] ==> w in ws;
      forall k | 0 <= k < |start|
        ensures SlotOldOrNew(version, k, start[k], e.slots[k])
      {
        assert SlotOldOrNew(version, k, start[k], d.slots[k]);
      }
      RenewingOldOrNew(version, start, e, ws[1..]);
    }
  }

  lemma MigrateRenewing(c: Context, version: Text, d: Files, pool: Pool)
    ensures Renewing(version, MigratePlan(c, d, pool, version).writes)
  {
    MkdirsCover(version, d.slots, 1);
    PutsRenew(c, version, d.slots, 1);
  }

  /** At every crash point of an upgrade of any pool whatever, each file is as it was or holds
      the new bytes, and a directory that did not exist is absent or holds only new files. */
  lemma CrashLeavesOldOrNew(c: Context, version: Text, d: Files, pool: Pool, left: nat)
    ensures OldOrNew(version, d.slots, Cut(d, UpgradePlan(c, d, pool, version).writes, left).slots)
  {
    MigrateRenewing(c, version, d, pool);
    MigrateRenewing(c, version, d, Intent(pool, version));
    var ws := UpgradePlan(c, d, pool, version).writes;
    assert Renewing(version, ws);
    var cut := if left < |ws| then ws[..left] else ws;
    assert forall w :: w in cut ==> w in ws;
    RenewingOldOrNew(version, d.slots, d, cut);
  }

  // -------------------------------------------------------------- first installation

  predicate FillsSlot(version: Text, k: nat, w: Write) {
    w == Mkdir(k + 1) || (w.Put? && w.slot == k + 1 && w.content == Wanted(k + 1, version, w.name))
  }

  predicate AllFill(version: Text, k: nat, ws: seq<Write>) {
    forall w :: w in ws ==> FillsSlot(version, k, w)
  }

  function WholeDir(version: Text, k: nat): Dir {
    Plain(Regular(Wanted(k + 1, version, TocFile)), Regular(Wanted(k + 1, version, LoaderFile)),
        Regular(INERT_CONTENT), 0)
  }

  lemma FillKeepsBegun(version: Text, d: Files, k: nat, w: Write)
    requires Begun(d) && version == d.manifest.pool.version && k < |d.manifest.pool.files| && FillsSlot(version, k, w)
    ensures Begun(Apply(d, w)) && Apply(d, w).manifest == d.manifest
  {
    var e := Apply(d, w);
    var n := |d.manifest.pool.files|;
    forall j | 0 <= j < n
      ensures PartialSlot(version, j, e.slots[j])
    {
      assert PartialSlot(version, j, d.slots[j]);
    }
    assert NoneBeyond(e.slots, n) by {
      forall j | n <= j < |e.slots| ensures e.slots[j].NoDir? { assert d.slots[j].NoDir?; }
    }
  }

  lemma {:induction false} FillsStay(c: Context, goal: Text, d: Files, k: nat, ws: seq<Write>)
    requires Begun(d) && k < |d.manifest.pool.files| && AllFill(d.manifest.pool.version, k, ws)
    ensures Stays(c, goal, d, ws) && Begun(ApplyAll(d, ws)) && ApplyAll(d, ws).manifest == d.manifest
    decreases |ws|
  {
    if ws != [] {
      assert ws[0] in ws && forall w :: w in ws[1..] ==> w in ws;
      FillKeepsBegun(d.manifest.pool.version, d, k, ws[0]);
      FillsStay(c, goal, Apply(d, ws[0]), k, ws[1..]);
    }
  }

  predicate Kept(before: Dir, after: Dir, name: Name)
    requires before.Plain? && after.Plain?
  {
    before.Get(name).Regular? ==> after.Get(name) == before.Get(name)
  }

  lemma {:induction false} StaticsFill(c: Context, pool: Pool, d: Files, k: nat, names: seq<Name>)
    requires pool.state == Installing && pool.schema == V3 && k < |d.slots| && d.slots[k].Plain?
    requires PartialSlot(pool.version, k, d.slots[k])
    ensures var s := StaticStep(c, pool, k + 1, d.slots[k], names);
            && s.verdict == Continue && AllFill(pool.version, k, s.writes)
            && ApplyAll(d, s.writes) == d.(slots := d.slots[k := s.dir])
            && PartialSlot(pool.version, k, s.dir) && s.dir.payload == d.slots[k].payload
            && Kept(d.slots[k], s.dir, TocFile) && Kept(d.slots[k], s.dir, LoaderFile)
            && (TocFile in names ==> s.dir.toc.Regular?) && (LoaderFile in names ==> s.dir.loader.Regular?)
    decreases |names|
  {
    if names == [] {
      assert d.slots[k := d.slots[k]] == d.slots;
    } else if names[0] == PayloadFile || d.slots[k].Get(names[0]).Regular? {
      StaticsFill(c, pool, d, k, names[1..]);
    } else {
      var w := Put(k + 1, names[0], Wanted(k + 1, pool.version, names[0]));
      var e := Apply(d, w);
      StaticsFill(c, pool, e, k, names[1..]);
      var rest := StaticStep(c, pool, k + 1, e.slots[k], names[1..]);
      assert ([w] + rest.writes)[1..] == rest.writes;
      assert e.slots[k := rest.dir] == d.slots[k := rest.dir];
    }
  }

  lemma {:induction false} ApplyThree(d: Files, a: seq<Write>, b: seq<Write>, e: seq<Write>)
    ensures ApplyAll(d, a + (b + e)) == ApplyAll(ApplyAll(ApplyAll(d, a), b), e)
  {
    Durable.ApplyAppend(Apply, d, a, b + e);
    Durable.ApplyAppend(Apply, ApplyAll(d, a), b, e);
  }

  lemma ApplySingle(d: Files, w: Write)
    ensures ApplyAll(d, []) == d && ApplyAll(d, [w]) == Apply(d, w)
  {
    Durable.ApplyOne(Apply, d, w);
  }

  lemma PayloadFills(c: Context, pool: Pool, d: Files, k: nat)
    requires Sound(c) && pool.state == Installing && k < |pool.files| <= |d.slots| && pool.files[k] == EMPTY_FILE
    requires d.slots[k].Plain? && PartialSlot(pool.version, k, d.slots[k])
    requires d.slots[k].toc.Regular? && d.slots[k].loader.Regular?
    ensures var s := PayloadStep(c, pool, k + 1, d.slots[k]);
            && s.verdict == Continue && AllFill(pool.version, k, s.writes)
            && ApplyAll(d, s.writes) == d.(slots := d.slots[k := WholeDir(pool.version, k)])
  {
    ApplySingle(d, Put(k + 1, PayloadFile, INERT_CONTENT));
    assert d.slots[k := d.slots[k]] == d.slots;
  }

  /** One slot of an interrupted installation is completed, whatever is there already. */
  lemma SlotFills(c: Context, pool: Pool, d: Files, k: nat)
    requires Sound(c) && pool.state == Installing && pool.schema == V3
    requires k < |pool.files| <= |d.slots| && pool.files[k] == EMPTY_FILE && PartialSlot(pool.version, k, d.slots[k])
    ensures var s := OneSlot(c, pool, k + 1, d.slots[k]);
            && s.verdict == Continue && AllFill(pool.version, k, s.writes)
            && ApplyAll(d, s.writes) == d.(slots := d.slots[k := WholeDir(pool.version, k)])
  {
    var dir := d.slots[k];
    var made := if dir.NoDir? then [Mkdir(k + 1)] else [];
    var d1 := ApplyAll(d, made);
    ApplySingle(d, Mkdir(k + 1));
    StaticsFill(c, pool, d1, k, c.statics(k + 1));
    var statics := StaticStep(c, pool, k + 1, d1.slots[k], c.statics(k + 1));
    var d2 := ApplyAll(d1, statics.writes);
    assert d2.slots[k] == statics.dir;
    PayloadFills(c, pool, d2, k);
    var last := PayloadStep(c, pool, k + 1, statics.dir);
    ApplyThree(d, made, statics.writes, last.writes);
    assert d2.slots[k := WholeDir(pool.version, k)] == d.slots[k := WholeDir(pool.version, k)];
  }

  // ------------------------------------------------------------- the whole installation

  /** The in-memory pool of the pass that has completed the slots before i. */
  predicate Passing(c: Context, d: Files, pool: Pool, i: nat) {
    Begun(d) && 1 <= i <= |pool.files| + 1 && |pool.files| == |d.manifest.pool.files| &&
    pool == d.manifest.pool.(files := pool.files) &&
    (forall k :: 0 <= k < |pool.files| ==> pool.files[k] == if k < i - 1 then FreshFile(c) else EMPTY_FILE) &&
    WholeSlots(pool.version, d.slots, i - 1)
  }

  lemma PassEnds(c: Context, version: Text, d: Files, pool: Pool)
    requires Sound(c) && version != [] && Passing(c, d, pool, |pool.files| + 1)
    ensures Completes(c, version, d, SlotsPlan(c, d, pool, version, |pool.files| + 1))
  {
    var ready := pool.(state := Ready);
    var e := Apply(d, Save(ready));
    forall k | 0 <= k < |ready.files|
      ensures SlotIntact(c, ready, k + 1, e.slots[k])
    {
      assert WholeSlot(pool.version, k, d.slots[k]);
    }
    assert Resting(c, e);
    StaysOne(c, version, d, Save(ready));
    if Outmoded(pool, version) {
      UpgradeCompletes(c, version, e);
      StaysTogether(c, version, d, [Save(ready)], UpgradePlan(c, e, ready, version).writes);
    } else {
      assert ready.files == FinalPool(c, version).files;
    }
  }

  /** One slot of the pass: what it leaves is where the pass goes on. */
  lemma PassStep(c: Context, goal: Text, d: Files, pool: Pool, i: nat)
    requires Sound(c) && Passing(c, d, pool, i) && i <= |pool.files|
    ensures var step := OneSlot(c, pool, i, d.slots[i - 1]);
            var e := ApplyAll(d, step.writes);
            && step.verdict == Continue && AllFill(pool.version, i - 1, step.writes)
            && Stays(c, goal, d, step.writes) && Passing(c, e, WithHash(c, pool, i), i + 1)
  {
    var k := i - 1;
    SlotFills(c, pool, d, k);
    var step := OneSlot(c, pool, i, d.slots[k]);
    FillsStay(c, goal, d, k, step.writes);
    var e := ApplyAll(d, step.writes);
    forall j | 0 <= j < i
      ensures WholeSlot(pool.version, j, e.slots[j])
    {
      if j < k { assert WholeSlot(pool.version, j, d.slots[j]); }
    }
  }

  /** One slot and a pass that completes after it. */
  lemma PassJoins(c: Context, version: Text, d: Files, pool: Pool, i: nat)
    requires 1 <= i <= |pool.files| && i <= |d.slots|
    requires var step := OneSlot(c, pool, i, d.slots[i - 1]);
             var e := ApplyAll(d, step.writes);
             && step.verdict == Continue && Stays(c, version, d, step.writes)
             && Completes(c, version, e, SlotsPlan(c, e, WithHash(c, pool, i), version, i + 1))
    ensures Completes(c, version, d, SlotsPlan(c, d, pool, version, i))
  {
    var ws := OneSlot(c, pool, i, d.slots[i - 1]).writes;
    var rest := SlotsPlan(c, ApplyAll(d, ws), WithHash(c, pool, i), version, i + 1);
    SlotsUnfold(c, d, pool, version, i);
    StaysTogether(c, version, d, ws, rest.writes);
  }

  lemma {:induction false} PassCompletes(c: Context, version: Text, d: Files, pool: Pool, i: nat)
    requires Sound(c) && version != [] && Passing(c, d, pool, i)
    ensures Completes(c, version, d, SlotsPlan(c, d, pool, version, i))
    decreases |pool.files| + 1 - i
  {
    if i > |pool.files| {
      PassEnds(c, version, d, pool);
    } else {
      PassStep(c, version, d, pool, i);
      PassCompletes(c, version, ApplyAll(d, OneSlot(c, pool, i, d.slots[i - 1]).writes), WithHash(c, pool, i), i + 1);
      PassJoins(c, version, d, pool, i);
    }
  }

  lemma {:induction false} StaticsRead(c: Context, pool: Pool, i: nat, dir: Dir, names: seq<Name>)
    requires pool.state == Ready && 1 <= i <= |pool.files| && SlotIntact(c, pool, i, dir)
    ensures var s := StaticStep(c, pool, i, dir, names);
            s.writes == [] && s.dir == dir && (s.verdict == Continue || s.verdict == Migrate)
    decreases |names|
  {
    if names != [] { StaticsRead(c, pool, i, dir, names[1..]); }
  }

  lemma ReadsSlot(c: Context, version: Text, d: Files, i: nat)
    requires Sound(c) && Resting(c, d) && 1 <= i <= |d.manifest.pool.files|
    ensures var step := OneSlot(c, d.manifest.pool, i, d.slots[i - 1]);
            && step.writes == [] && (step.verdict == Continue || step.verdict == Migrate)
            && (step.verdict == Continue ==> WithHash(c, d.manifest.pool, i) == d.manifest.pool)
  {
    var pool, dir := d.manifest.pool, d.slots[i - 1];
    assert SlotIntact(c, pool, i, dir);
    assert pool.files[i - 1].pendingHash == [];
    StaticsRead(c, pool, i, dir, c.statics(i));
    if OneSlot(c, pool, i, dir).verdict == Continue {
      assert WithHash(c, pool, i).files == pool.files;
    }
  }

  lemma NothingFirst(ws: seq<Write>)
    ensures [] + ws == ws
  {
  }

  /** A slot that writes nothing hands on what follows it. */
  lemma PassNext(c: Context, version: Text, d: Files, pool: Pool, i: nat)
    requires 1 <= i <= |pool.files| <= |d.slots| && OneSlot(c, pool, i, d.slots[i - 1]).writes == []
    ensures SlotsPlan(c, d, pool, version, i) ==
            match OneSlot(c, pool, i, d.slots[i - 1]).verdict
            case Refuse => Plan([], Failed(Refused))
            case Migrate => UpgradePlan(c, d, pool, version)
            case Continue => SlotsPlan(c, d, WithHash(c, pool, i), version, i + 1)
  {
    SlotsUnfold(c, d, pool, version, i);
    NothingFirst(After(c, d, pool, version, i, OneSlot(c, pool, i, d.slots[i - 1]).verdict));
  }

  /** Over a current ready pool the pass only reads, until an older declaration sends it to
      the migration. */
  lemma {:induction false} PassReads(c: Context, version: Text, d: Files, i: nat)
    requires Sound(c) && Resting(c, d) && !Outmoded(d.manifest.pool, version) && 1 <= i <= SLOT_COUNT + 1
    ensures var p := SlotsPlan(c, d, d.manifest.pool, version, i);
            p == UpgradePlan(c, d, d.manifest.pool, version) || p == Plan([Save(d.manifest.pool)], Done)
    decreases SLOT_COUNT + 1 - i
  {
    var pool := d.manifest.pool;
    if i > SLOT_COUNT {
      assert pool.(state := Ready) == pool;
    } else {
      ReadsSlot(c, version, d, i);
      PassNext(c, version, d, pool, i);
      PassReads(c, version, d, i + 1);
    }
  }

  // ------------------------------------------------------------------- whole runs

  /** From every phase the installation runs to its end: InspectSlots accepts the result, and
      unless the pool was already current it is the ready pool of 500 inert slots. */
  lemma InstallCompletes(c: Context, version: Text, d: Files)
    requires Sound(c) && version != [] && Phase(c, version, d)
    ensures var p := InstallPlan(c, d, version);
            var e := ApplyAll(d, p.writes);
            && p.result == Done && Stays(c, version, d, p.writes)
            && Accepted(c, e, version) && Resting(c, e)
            && (Finished(c, version, e) || (Accepted(c, d, version) && e == d))
  {
    var p := InstallPlan(c, d, version);
    var e := ApplyAll(d, p.writes);
    if FreshGround(d) {
      FreshCompletes(c, version, d);
      FinishedRests(c, version, e);
    } else if Begun(d) {
      BegunPasses(c, d);
      PassCompletes(c, version, d, d.manifest.pool, 1);
      FinishedRests(c, version, e);
    } else if Midway(c, version, d) || Outmoded(d.manifest.pool, version) {
      UpgradeCompletes(c, version, d);
      FinishedRests(c, version, e);
    } else {
      PassReads(c, version, d, 1);
      UpgradeCompletes(c, version, d);
      var w := Save(d.manifest.pool);
      assert Apply(d, w) == d;
      StaysOne(c, version, d, w);
      if p.writes != [w] { FinishedRests(c, version, e); }
    }
  }

  lemma BegunPasses(c: Context, d: Files)
    requires Begun(d)
    ensures Passing(c, d, d.manifest.pool, 1)
  {
    assert d.manifest.pool.(files := d.manifest.pool.files) == d.manifest.pool;
  }

  lemma FreshCompletes(c: Context, version: Text, d: Files)
    requires Sound(c) && version != [] && FreshGround(d)
    ensures Completes(c, version, d, InstallPlan(c, d, version))
  {
    var w := Save(NewPool(version));
    var e := Apply(d, w);
    assert Begun(e) by {
      forall k | 0 <= k < SLOT_COUNT ensures PartialSlot(version, k, e.slots[k]) { assert d.slots[k].NoDir?; }
    }
    BegunPasses(c, e);
    PassCompletes(c, version, e, NewPool(version), 1);
    StaysOne(c, version, d, w);
    StaysTogether(c, version, d, [w], SlotsPlan(c, e, NewPool(version), version, 1).writes);
  }

  /** One call: the orders in which each of its two loops happens to visit the files of each slot,
      and how many durable writes it lives for. */
  datatype Attempt = Attempt(statics: nat -> seq<Name>, order: nat -> seq<Name>, left: nat)

  function With(c: Context, a: Attempt): Context {
    Context(c.sum, a.statics, a.order)
  }

  /** Every call visits every file, in whatever orders. */
  ghost predicate Visits(c: Context, attempts: seq<Attempt>) {
    forall i :: 0 <= i < |attempts| ==> Sound(With(c, attempts[i]))
  }

  /** What a disk is does not depend on visiting orders. */
  lemma OrderFree(c: Context, e: Context, version: Text, d: Files)
    requires c.sum == e.sum
    ensures Phase(c, version, d) == Phase(e, version, d)
    ensures Accepted(c, d, version) == Accepted(e, d, version)
    ensures Finished(c, version, d) == Finished(e, version, d)
    ensures Own(c, version, d) == Own(e, version, d)
  {
    if d.manifest.Stored? {
      var pool := d.manifest.pool;
      IntactOrderFree(c, e, pool, version, d.slots);
      IntactOrderFree(c, e, pool, pool.version, d.slots);
      AcceptedOrderFree(c, e, pool.(schema := Migration4), version, d.slots);
    }
    assert FinalPool(c, version).files == FinalPool(e, version).files;
  }

  lemma IntactOrderFree(c: Context, e: Context, pool: Pool, version: Text, slots: seq<Dir>)
    requires c.sum == e.sum
    ensures Intact(c, pool, version, slots) == Intact(e, pool, version, slots)
  {
    if |pool.files| <= |slots| {
      assert forall k :: 0 <= k < |pool.files| ==>
               SlotIntact(c, pool, k + 1, slots[k]) == SlotIntact(e, pool, k + 1, slots[k]);
    }
  }

  lemma AcceptedOrderFree(c: Context, e: Context, pool: Pool, version: Text, slots: seq<Dir>)
    requires c.sum == e.sum
    ensures AllAccepted(c, pool, version, slots) == AllAccepted(e, pool, version, slots)
  {
    assert forall k :: 0 <= k < |slots| ==>
             SlotAccepted(c, pool, version, k + 1, slots[k]) == SlotAccepted(e, pool, version, k + 1, slots[k]);
  }

  /** What one call leaves. */
  function AfterAttempt(c: Context, d: Files, version: Text, a: Attempt): Files {
    Cut(d, InstallPlan(With(c, a), d, version).writes, a.left)
  }

  /** The disk after attempts at one version, each with its own orders. */
  function Run(c: Context, d: Files, version: Text, attempts: seq<Attempt>): Files
    decreases |attempts|
  {
    if attempts == [] then d else Run(c, AfterAttempt(c, d, version, attempts[0]), version, attempts[1..])
  }

  lemma AttemptKeepsPhase(c: Context, version: Text, d: Files, a: Attempt)
    requires Sound(With(c, a)) && version != [] && Phase(c, version, d)
    ensures Phase(c, version, AfterAttempt(c, d, version, a))
  {
    var e := With(c, a);
    OrderFree(c, e, version, d);
    InstallCompletes(e, version, d);
    CutStays(e, version, d, InstallPlan(e, d, version).writes, a.left);
    OrderFree(c, e, version, AfterAttempt(c, d, version, a));
  }

  lemma {:induction false} RunKeepsPhase(c: Context, version: Text, d: Files, attempts: seq<Attempt>)
    requires Visits(c, attempts) && version != [] && Phase(c, version, d)
    ensures Phase(c, version, Run(c, d, version, attempts))
    decreases |attempts|
  {
    if attempts != [] {
      AttemptKeepsPhase(c, version, d, attempts[0]);
      RunKeepsPhase(c, version, AfterAttempt(c, d, version, attempts[0]), attempts[1..]);
    }
  }

  /** Any number of interrupted attempts at one version, each visiting files in its own orders, from
      bare ground, from an interrupted installation of any version with current declarations or from
      any settled older pool:
      the next call that is not interrupted succeeds, whatever its orders, and InspectSlots accepts
      what it leaves. */
  lemma RerunConverges(c: Context, version: Text, d: Files, attempts: seq<Attempt>, last: Attempt)
    requires Visits(c, attempts) && Sound(With(c, last)) && version != []
    requires FreshGround(d) || Begun(d) || Resting(c, d)
    ensures var e := Run(c, d, version, attempts);
            var p := InstallPlan(With(c, last), e, version);
            p.result == Done && Accepted(c, ApplyAll(e, p.writes), version)
    ensures var e := Run(c, d, version, attempts);
            var final := ApplyAll(e, InstallPlan(With(c, last), e, version).writes);
            Finished(c, version, final) || (Accepted(c, e, version) && final == e)
  {
    var e, k := Run(c, d, version, attempts), With(c, last);
    RunKeepsPhase(c, version, d, attempts);
    OrderFree(c, k, version, e);
    InstallCompletes(k, version, e);
    OrderFree(c, k, version, ApplyAll(e, InstallPlan(k, e, version).writes));
  }

  // --------------------------------------------------- an installation of one version

  /** Only this version was ever installed here: its manifests, and of each file nothing or
      its bytes. */
  predicate Own(c: Context, version: Text, d: Files) {
    && (d.manifest == Absent || d.manifest == Stored(NewPool(version)) || d.manifest == Stored(FinalPool(c, version)))
    && |d.slots| == SLOT_COUNT && PartialSlots(version, d.slots, SLOT_COUNT)
  }

  predicate OwnWrite(c: Context, version: Text, w: Write) {
    w == Save(NewPool(version)) || w == Save(FinalPool(c, version)) || Renews(version, w)
  }

  lemma OwnStep(c: Context, version: Text, d: Files, w: Write)
    requires Own(c, version, d) && OwnWrite(c, version, w)
    ensures Own(c, version, Apply(d, w))
  {
    var e := Apply(d, w);
    forall k | 0 <= k < SLOT_COUNT
      ensures PartialSlot(version, k, e.slots[k])
    {
      assert PartialSlot(version, k, d.slots[k]);
    }
  }

  lemma {:induction false} OwnSteps(c: Context, version: Text, d: Files, ws: seq<Write>)
    requires Own(c, version, d) && forall w :: w in ws ==> OwnWrite(c, version, w)
    ensures Own(c, version, ApplyAll(d, ws))
    decreases |ws|
  {
    if ws != [] {
      OwnStep(c, version, d, ws[0]);
      OwnSteps(c, version, Apply(d, ws[0]), ws[1..]);
    }
  }

  lemma {:induction false} PassWritesOwn(c: Context, version: Text, d: Files, pool: Pool, i: nat)
    requires Sound(c) && version != [] && Passing(c, d, pool, i) && pool.version == version &&
             |pool.files| == SLOT_COUNT
    ensures forall w :: w in SlotsPlan(c, d, pool, version, i).writes ==> OwnWrite(c, version, w)
    decreases |pool.files| + 1 - i
  {
    if i > |pool.files| {
      assert pool.(state := Ready).files == FinalPool(c, version).files;
    } else {
      PassStep(c, version, d, pool, i);
      var e := ApplyAll(d, OneSlot(c, pool, i, d.slots[i - 1]).writes);
      PassWritesOwn(c, version, e, WithHash(c, pool, i), i + 1);
    }
  }

  /** Where the final manifest is in place, every slot is whole. */
  lemma OwnReadyFinished(c: Context, version: Text, d: Files)
    requires Own(c, version, d) && Resting(c, d)
    ensures Finished(c, version, d)
  {
    forall k | 0 <= k < SLOT_COUNT
      ensures WholeSlot(version, k, d.slots[k])
    {
      assert SlotIntact(c, d.manifest.pool, k + 1, d.slots[k]) && PartialSlot(version, k, d.slots[k]);
    }
  }

  lemma OwnPlan(c: Context, version: Text, d: Files)
    requires Sound(c) && version != [] && Phase(c, version, d) && Own(c, version, d)
    ensures forall w :: w in InstallPlan(c, d, version).writes ==> OwnWrite(c, version, w)
  {
    if FreshGround(d) {
      var e := Apply(d, Save(NewPool(version)));
      OwnStep(c, version, d, Save(NewPool(version)));
      BegunPasses(c, e);
      PassWritesOwn(c, version, e, NewPool(version), 1);
    } else if Begun(d) {
      BegunPasses(c, d);
      PassWritesOwn(c, version, d, d.manifest.pool, 1);
    } else {
      OwnReadyFinished(c, version, d);
      FinishedReads(c, version, d, 1);
    }
  }

  lemma {:induction false} StaticsCurrent(c: Context, version: Text, k: nat, names: seq<Name>)
    requires k < SLOT_COUNT
    ensures StaticStep(c, FinalPool(c, version), k + 1, WholeDir(version, k), names) ==
            SlotStep([], WholeDir(version, k), Continue)
    decreases |names|
  {
    if names != [] { StaticsCurrent(c, version, k, names[1..]); }
  }

  lemma {:induction false} FinishedReads(c: Context, version: Text, d: Files, i: nat)
    requires Sound(c) && Finished(c, version, d) && 1 <= i <= SLOT_COUNT + 1
    ensures SlotsPlan(c, d, FinalPool(c, version), version, i) == Plan([Save(FinalPool(c, version))], Done)
    decreases SLOT_COUNT + 1 - i
  {
    var pool := FinalPool(c, version);
    if i > SLOT_COUNT {
      assert pool.(state := Ready) == pool;
    } else {
      assert WholeSlot(version, i - 1, d.slots[i - 1]) && d.slots[i - 1] == WholeDir(version, i - 1);
      StaticsCurrent(c, version, i - 1, c.statics(i));
      assert OneSlot(c, pool, i, d.slots[i - 1]).writes == [];
      assert WithHash(c, pool, i).files == pool.files;
      FinishedReads(c, version, d, i + 1);
      assert [] + [Save(pool)] == [Save(pool)];
    }
  }

  /** An installation of one version, interrupted or not, never leaves its own states, and run
      to its end it leaves exactly the ready pool of 500 inert slots. */
  lemma OwnInstallCompletes(c: Context, version: Text, d: Files, left: nat)
    requires Sound(c) && version != [] && Phase(c, version, d) && Own(c, version, d)
    ensures var p := InstallPlan(c, d, version);
            && p.result == Done && Finished(c, version, ApplyAll(d, p.writes))
            && Phase(c, version, Cut(d, p.writes, left)) && Own(c, version, Cut(d, p.writes, left))
  {
    var ws := InstallPlan(c, d, version).writes;
    var cut := if left < |ws| then ws[..left] else ws;
    InstallCompletes(c, version, d);
    CutStays(c, version, d, ws, left);
    OwnPlan(c, version, d);
    assert forall w :: w in cut ==> w in ws;
    OwnSteps(c, version, d, cut);
    OwnSteps(c, version, d, ws);
    OwnReadyFinished(c, version, ApplyAll(d, ws));
  }
}
