/** The slot reset over whole runs: originals are conserved, nothing new is installed before
    all of them are archived, and every rerun ends in the same state. */
module SlotResetProofs {
  import opened Wrappers
  import opened Texts
  import opened SlotPayload
  import opened SlotInstall
  import P = SlotInstallProofs
  import opened SlotReset

  type Disk = SlotReset.Disk
  type Steps = SlotReset.Steps
  type ResetWrite = SlotReset.Write

  /** One reset: what it starts from and what it was called with. */
  datatype Case = Case(c: Context, g: Digests, d: Disk, call: Call)

  ghost predicate Admitted(k: Case) {
    Sound(k.c) && Faithful(k.g) && Original(k.g, k.d) && k.call.version != []
  }

  function Journal(k: Case): SlotReset.Intent {
    NewIntent(k.g, k.d, k.call)
  }

  ghost predicate Reached(k: Case, e: Disk)
    requires Sized(k.d)
  {
    SlotReset.Reachable(k.c, k.g, k.d, k.call, e)
  }

  /** Every prefix of ws leaves a reachable state. */
  ghost predicate Stays(k: Case, e: Disk, ws: seq<ResetWrite>)
    requires Sized(k.d)
    decreases |ws|
  {
    Reached(k, e) && (ws != [] ==> Stays(k, SlotReset.Apply(e, ws[0]), ws[1..]))
  }

  lemma {:induction false} CutStays(k: Case, e: Disk, ws: seq<ResetWrite>, left: nat)
    requires Sized(k.d) && Stays(k, e, ws)
    ensures Reached(k, SlotReset.Cut(e, ws, left))
    decreases |ws|
  {
    if left > 0 && ws != [] {
      CutStays(k, SlotReset.Apply(e, ws[0]), ws[1..], left - 1);
      if left < |ws| { assert ws[..left][1..] == ws[1..][..left - 1]; }
    }
  }

  lemma {:induction false} StaysTogether(k: Case, e: Disk, a: seq<ResetWrite>, b: seq<ResetWrite>)
    requires Sized(k.d) && Stays(k, e, a) && Stays(k, SlotReset.ApplyAll(e, a), b)
    ensures Stays(k, e, a + b)
    ensures SlotReset.ApplyAll(e, a + b) == SlotReset.ApplyAll(SlotReset.ApplyAll(e, a), b)
    decreases |a|
  {
    if a == [] {
      assert a + b == b;
    } else {
      assert (a + b)[1..] == a[1..] + b;
      StaysTogether(k, SlotReset.Apply(e, a[0]), a[1..], b);
    }
  }

  lemma StaysOne(k: Case, e: Disk, w: ResetWrite)
    requires Sized(k.d) && Reached(k, e) && Reached(k, SlotReset.Apply(e, w))
    ensures Stays(k, e, [w]) && SlotReset.ApplyAll(e, [w]) == SlotReset.Apply(e, w)
  {
    assert [w][1..] == [];
    assert SlotReset.ApplyAll(SlotReset.Apply(e, w), []) == SlotReset.Apply(e, w);
    assert Stays(k, SlotReset.Apply(e, w), []);
  }

  // -------------------------------------------------------------------- archiving

  /** The moves of the members of d from the i-th slot on. */
  function Pending(d: Disk, i: nat): seq<ResetWrite>
    requires Sized(d) && 1 <= i <= SLOT_COUNT + 1
    decreases |d.source.slots| + 1 - i
  {
    if i > SLOT_COUNT then []
    else (if d.source.slots[i - 1].NoDir? then [] else [SlotReset.MoveSlot(i)]) + Pending(d, i + 1)
  }

  lemma {:induction false} StagedMoves(k: Case, s: nat, i: nat)
    requires Admitted(k) && s <= SLOT_COUNT && 1 <= i <= SLOT_COUNT + 1
    ensures SlotReset.SlotMoves(SlotReset.Staged(k.d, Journal(k), s), Journal(k), i) ==
            Pending(k.d, if i <= s then s + 1 else i)
    decreases SLOT_COUNT + 1 - i
  {
    if i <= SLOT_COUNT {
      StagedMoves(k, s, i + 1);
      DigestPresent(k, i - 1);
    }
  }

  lemma DigestPresent(k: Case, j: nat)
    requires Admitted(k) && j < SLOT_COUNT
    ensures Journal(k).slots[j] == [] <==> k.d.source.slots[j].NoDir?
    ensures !k.d.source.slots[j].NoDir? ==> k.g.dir(k.d.source.slots[j]) == Some(Journal(k).slots[j])
    ensures ValidDigest(k.g, Journal(k).slots[j])
  {
    assert k.d.source.slots[j].NoDir? || k.g.dir(k.d.source.slots[j]).Some?;
  }

  lemma MarkerPresent(k: Case)
    requires Admitted(k)
    ensures Journal(k).marker == [] <==> k.d.source.manifest.Absent?
    ensures !k.d.source.manifest.Absent? ==> k.g.marker(k.d.source.manifest) == Some(Journal(k).marker)
    ensures ValidDigest(k.g, Journal(k).marker)
  {
  }

  lemma StageStep(k: Case, s: nat)
    requires Admitted(k) && s < SLOT_COUNT
    ensures var e, f := SlotReset.Staged(k.d, Journal(k), s), SlotReset.Staged(k.d, Journal(k), s + 1);
            f == if k.d.source.slots[s].NoDir? then e else SlotReset.Apply(e, SlotReset.MoveSlot(s + 1))
  {
    var e, f := SlotReset.Staged(k.d, Journal(k), s), SlotReset.Staged(k.d, Journal(k), s + 1);
    var h := if k.d.source.slots[s].NoDir? then e else SlotReset.Apply(e, SlotReset.MoveSlot(s + 1));
    assert h.source.slots == f.source.slots;
    assert h.archive.value.slots == f.archive.value.slots;
  }

  lemma {:induction false} SlotsStay(k: Case, s: nat)
    requires Admitted(k) && s <= SLOT_COUNT
    ensures var e := SlotReset.Staged(k.d, Journal(k), s);
            Stays(k, e, Pending(k.d, s + 1)) &&
            SlotReset.ApplyAll(e, Pending(k.d, s + 1)) == SlotReset.Staged(k.d, Journal(k), SLOT_COUNT)
    decreases SLOT_COUNT - s
  {
    var e := SlotReset.Staged(k.d, Journal(k), s);
    assert Reached(k, e);
    if s < SLOT_COUNT {
      StageStep(k, s);
      SlotsStay(k, s + 1);
      var rest := Pending(k.d, s + 2);
      if k.d.source.slots[s].NoDir? {
        assert [] + rest == rest;
      } else {
        var w := SlotReset.MoveSlot(s + 1);
        StaysOne(k, e, w);
        StaysTogether(k, e, [w], rest);
      }
    }
  }

  lemma MarkerStays(k: Case)
    requires Admitted(k)
    ensures var e := SlotReset.Staged(k.d, Journal(k), SLOT_COUNT);
            var ws := SlotReset.MarkerMoves(e, Journal(k));
            Stays(k, e, ws) && SlotReset.ApplyAll(e, ws) == SlotReset.Staged(k.d, Journal(k), SLOT_COUNT + 1)
  {
    var n := Journal(k);
    var e, f := SlotReset.Staged(k.d, n, SLOT_COUNT), SlotReset.Staged(k.d, n, SLOT_COUNT + 1);
    MarkerPresent(k);
    assert Reached(k, e) && Reached(k, f);
    assert e.source.slots == f.source.slots && e.archive.value.slots == f.archive.value.slots;
    if !k.d.source.manifest.Absent? {
      StaysOne(k, e, SlotReset.MoveMarker);
    }
  }

  /** All members archived and the next stage durable: bare ground for the installation. */
  function Cleared(k: Case): Disk
    requires Sized(k.d)
  {
    Disk.Disk(SlotReset.NoFiles(), Some(k.d.source), false, Some(Journal(k).(stage := Populating)))
  }

  lemma ClearedReached(k: Case)
    requires Admitted(k)
    ensures SlotReset.Apply(SlotReset.Staged(k.d, Journal(k), SLOT_COUNT + 1), SaveStage(Populating)) == Cleared(k)
    ensures SlotReset.Replacing(k.c, k.d, Journal(k), k.call.version, Cleared(k))
  {
    var e, f := SlotReset.Apply(SlotReset.Staged(k.d, Journal(k), SLOT_COUNT + 1), SaveStage(Populating)), Cleared(k);
    assert e.source.slots == f.source.slots;
    assert e.archive.value.slots == f.archive.value.slots;
    assert P.FreshGround(f.source);
  }

  lemma LastStageStays(k: Case)
    requires Admitted(k)
    ensures Stays(k, SlotReset.Staged(k.d, Journal(k), SLOT_COUNT + 1), [SaveStage(Populating)])
    ensures SlotReset.ApplyAll(SlotReset.Staged(k.d, Journal(k), SLOT_COUNT + 1), [SaveStage(Populating)]) == Cleared(k)
  {
    var last := SlotReset.Staged(k.d, Journal(k), SLOT_COUNT + 1);
    ClearedReached(k);
    assert Reached(k, last);
    StaysOne(k, last, SaveStage(Populating));
  }

  lemma TailStays(k: Case)
    requires Admitted(k)
    ensures var all := SlotReset.Staged(k.d, Journal(k), SLOT_COUNT);
            var ws := SlotReset.MarkerMoves(all, Journal(k)) + [SaveStage(Populating)];
            Stays(k, all, ws) && SlotReset.ApplyAll(all, ws) == Cleared(k)
  {
    var all := SlotReset.Staged(k.d, Journal(k), SLOT_COUNT);
    MarkerStays(k);
    LastStageStays(k);
    StaysTogether(k, all, SlotReset.MarkerMoves(all, Journal(k)), [SaveStage(Populating)]);
  }

  lemma SlotsThenTail(k: Case, s: nat)
    requires Admitted(k) && s <= SLOT_COUNT
    ensures var e, all := SlotReset.Staged(k.d, Journal(k), s), SlotReset.Staged(k.d, Journal(k), SLOT_COUNT);
            var tail := SlotReset.MarkerMoves(all, Journal(k)) + [SaveStage(Populating)];
            Stays(k, e, Pending(k.d, s + 1) + tail) && SlotReset.ApplyAll(e, Pending(k.d, s + 1) + tail) == Cleared(k)
  {
    var e, all := SlotReset.Staged(k.d, Journal(k), s), SlotReset.Staged(k.d, Journal(k), SLOT_COUNT);
    SlotsStay(k, s);
    TailStays(k);
    StaysTogether(k, e, Pending(k.d, s + 1), SlotReset.MarkerMoves(all, Journal(k)) + [SaveStage(Populating)]);
  }

  function ArchivingWrites(e: Disk, n: SlotReset.Intent): seq<ResetWrite>
    requires Sized(e) && |n.slots| == SLOT_COUNT
  {
    SlotReset.SlotMoves(e, n, 1) + (SlotReset.MarkerMoves(e, n) + [SaveStage(Populating)])
  }

  lemma WritesEarly(k: Case, s: nat)
    requires Admitted(k) && s <= SLOT_COUNT
    ensures ArchivingWrites(SlotReset.Staged(k.d, Journal(k), s), Journal(k)) ==
            Pending(k.d, s + 1) + (SlotReset.MarkerMoves(SlotReset.Staged(k.d, Journal(k), SLOT_COUNT), Journal(k)) +
                                   [SaveStage(Populating)])
  {
    var e, n := SlotReset.Staged(k.d, Journal(k), s), Journal(k);
    StagedMoves(k, s, 1);
    assert SlotReset.SlotMoves(e, n, 1) == Pending(k.d, s + 1);
    SameMarker(k, s);
  }

  lemma SameMarker(k: Case, s: nat)
    requires Admitted(k) && s <= SLOT_COUNT
    ensures SlotReset.MarkerMoves(SlotReset.Staged(k.d, Journal(k), s), Journal(k)) ==
            SlotReset.MarkerMoves(SlotReset.Staged(k.d, Journal(k), SLOT_COUNT), Journal(k))
  {
  }

  lemma WritesLast(k: Case)
    requires Admitted(k)
    ensures ArchivingWrites(SlotReset.Staged(k.d, Journal(k), SLOT_COUNT + 1), Journal(k)) == [SaveStage(Populating)]
  {
    NoSlotMoves(k, 1);
    assert [] + ([] + [SlotReset.SaveStage(Populating)]) == [SlotReset.SaveStage(Populating)];
  }

  /** The remaining archiving from any stage, up to the durable change of stage. */
  lemma ArchivingStays(k: Case, s: nat)
    requires Admitted(k) && s <= SLOT_COUNT + 1
    ensures var e := SlotReset.Staged(k.d, Journal(k), s);
            Stays(k, e, ArchivingWrites(e, Journal(k))) &&
            SlotReset.ApplyAll(e, ArchivingWrites(e, Journal(k))) == Cleared(k)
  {
    if s <= SLOT_COUNT {
      WritesEarly(k, s);
      SlotsThenTail(k, s);
    } else {
      WritesLast(k);
      LastStageStays(k);
    }
  }

  lemma {:induction false} NoSlotMoves(k: Case, i: nat)
    requires Admitted(k) && 1 <= i <= SLOT_COUNT + 1
    ensures SlotReset.SlotMoves(SlotReset.Staged(k.d, Journal(k), SLOT_COUNT + 1), Journal(k), i) == []
    decreases SLOT_COUNT + 1 - i
  {
    if i <= SLOT_COUNT { NoSlotMoves(k, i + 1); }
  }

  // ------------------------------------------------------------------- populating

  lemma {:induction false} PoolStays(k: Case, e: Disk, ws: seq<SlotInstall.Write>)
    requires Admitted(k) && SlotReset.Replacing(k.c, k.d, Journal(k), k.call.version, e)
    requires P.Stays(k.c, k.call.version, e.source, ws) && forall w :: w in ws ==> P.OwnWrite(k.c, k.call.version, w)
    ensures Stays(k, e, PoolWrites(ws))
    ensures SlotReset.ApplyAll(e, PoolWrites(ws)) == e.(source := SlotInstall.ApplyAll(e.source, ws))
    decreases |ws|
  {
    if ws != [] {
      assert ws[0] in ws && forall w :: w in ws[1..] ==> w in ws;
      P.OwnStep(k.c, k.call.version, e.source, ws[0]);
      PoolStays(k, SlotReset.Apply(e, Pooled(ws[0])), ws[1..]);
    }
  }

  ghost predicate Ends(k: Case, e: Disk, p: Steps)
    requires Sized(k.d)
  {
    p.result == Complete && Stays(k, e, p.writes) &&
    SlotReset.Replaced(k.c, k.d, Journal(k), k.call.version, SlotReset.ApplyAll(e, p.writes))
  }

  lemma PopulateEnds(k: Case, e: Disk)
    requires Admitted(k) && SlotReset.Replacing(k.c, k.d, Journal(k), k.call.version, e)
    ensures Ends(k, e, PopulatePlan(k.c, e, k.call.version))
  {
    var version := k.call.version;
    var p := InstallPlan(k.c, e.source, version);
    P.InstallCompletes(k.c, version, e.source);
    P.OwnPlan(k.c, version, e.source);
    P.OwnInstallCompletes(k.c, version, e.source, |p.writes|);
    PoolStays(k, e, p.writes);
    var f := e.(source := SlotInstall.ApplyAll(e.source, p.writes));
    assert Reached(k, f) && Reached(k, SlotReset.Apply(f, SaveStage(Settled)));
    StaysOne(k, f, SaveStage(Settled));
    StaysTogether(k, e, PoolWrites(p.writes), [SaveStage(Settled)]);
  }

  // ----------------------------------------------------------------- whole resets

  lemma JournalValid(k: Case)
    requires Admitted(k)
    ensures ValidIntent(k.g, Journal(k), k.call)
    ensures forall stage :: ValidIntent(k.g, Journal(k).(stage := stage), k.call)
  {
    MarkerPresent(k);
    forall j | 0 <= j < SLOT_COUNT
      ensures ValidDigest(k.g, Journal(k).slots[j])
    {
      DigestPresent(k, j);
    }
  }

  lemma StagedChecked(k: Case, s: nat)
    requires Admitted(k) && s <= SLOT_COUNT + 1
    ensures var e := SlotReset.Staged(k.d, Journal(k), s);
            ArchiveNames(e, Journal(k)) && MembersChecked(k.g, e, Journal(k))
  {
    var e := SlotReset.Staged(k.d, Journal(k), s);
    MarkerPresent(k);
    forall j | 0 <= j < SLOT_COUNT
      ensures e.archive.value.slots[j].NoDir? || Journal(k).slots[j] != []
      ensures DirChecked(k.g, Archiving, Journal(k).slots[j], e.source.slots[j], e.archive.value.slots[j])
    {
      DigestPresent(k, j);
    }
  }

  lemma ArchivedChecked(k: Case, e: Disk, stage: Stage)
    requires Admitted(k) && Sized(e) && e.archive == Some(k.d.source) && !e.extra && stage != Archiving
    ensures ArchiveNames(e, Journal(k).(stage := stage)) && MembersChecked(k.g, e, Journal(k).(stage := stage))
  {
    MarkerPresent(k);
    forall j | 0 <= j < SLOT_COUNT
      ensures e.archive.value.slots[j].NoDir? || Journal(k).slots[j] != []
      ensures DirChecked(k.g, stage, Journal(k).slots[j], e.source.slots[j], e.archive.value.slots[j])
    {
      DigestPresent(k, j);
    }
  }

  lemma StagedEnds(k: Case, s: nat)
    requires Admitted(k) && s <= SLOT_COUNT + 1
    ensures var e := SlotReset.Staged(k.d, Journal(k), s);
            Ends(k, e, SlotReset.ResumePlan(k.c, k.g, e, k.call, Journal(k)))
  {
    var n := Journal(k);
    var e := SlotReset.Staged(k.d, n, s);
    JournalValid(k);
    StagedChecked(k, s);
    ArchivingStays(k, s);
    ClearedReached(k);
    PopulateEnds(k, Cleared(k));
    StaysTogether(k, e, ArchivingWrites(e, n), PopulatePlan(k.c, Cleared(k), k.call.version).writes);
  }

  lemma JournaledEnds(k: Case)
    requires Admitted(k)
    ensures var e := k.d.(intent := Some(Journal(k)));
            Ends(k, e, SlotReset.ResumePlan(k.c, k.g, e, k.call, Journal(k)))
  {
    var n := Journal(k);
    var e := k.d.(intent := Some(n));
    var f := SlotReset.Apply(e, SlotReset.MakeArchive);
    var staged := SlotReset.Staged(k.d, n, 0);
    assert f.source.slots == staged.source.slots && f.archive.value.slots == staged.archive.value.slots;
    assert f == staged && Reached(k, e) && Reached(k, f);
    JournalValid(k);
    StagedEnds(k, 0);
    StaysOne(k, e, SlotReset.MakeArchive);
    StaysTogether(k, e, [SlotReset.MakeArchive], SlotReset.ResumePlan(k.c, k.g, f, k.call, n).writes);
  }

  lemma OriginalEnds(k: Case)
    requires Admitted(k)
    ensures Ends(k, k.d, SlotReset.ResetPlan(k.c, k.g, k.d, k.call))
  {
    var n := Journal(k);
    var e := SlotReset.Apply(k.d, CreateIntent(n));
    assert e == k.d.(intent := Some(n)) && Reached(k, k.d) && Reached(k, e);
    JournaledEnds(k);
    StaysOne(k, k.d, CreateIntent(n));
    StaysTogether(k, k.d, [CreateIntent(n)], SlotReset.ResumePlan(k.c, k.g, e, k.call, n).writes);
  }

  lemma LaterEnds(k: Case, e: Disk)
    requires Admitted(k)
    requires SlotReset.Replacing(k.c, k.d, Journal(k), k.call.version, e) ||
             SlotReset.Replaced(k.c, k.d, Journal(k), k.call.version, e)
    ensures Sized(e) && Ends(k, e, SlotReset.ResetPlan(k.c, k.g, e, k.call))
  {
    JournalValid(k);
    ArchivedChecked(k, e, e.intent.value.stage);
    assert Reached(k, e);
    if SlotReset.Replacing(k.c, k.d, Journal(k), k.call.version, e) {
      PopulateEnds(k, e);
    } else {
      P.FinishedRests(k.c, k.call.version, e.source);
    }
  }

  /** From every reachable state the reset runs to its end, never leaving those states. */
  lemma ResetEnds(k: Case, e: Disk)
    requires Admitted(k) && Reached(k, e)
    ensures Sized(e) && Ends(k, e, SlotReset.ResetPlan(k.c, k.g, e, k.call))
  {
    var n := Journal(k);
    if e == k.d {
      OriginalEnds(k);
    } else if e == k.d.(intent := Some(n)) {
      JournaledEnds(k);
    } else if SlotReset.Replacing(k.c, k.d, n, k.call.version, e) ||
        SlotReset.Replaced(k.c, k.d, n, k.call.version, e) {
      LaterEnds(k, e);
    } else {
      var s :| 0 <= s <= SLOT_COUNT + 1 && e == SlotReset.Staged(k.d, n, s);
      StagedEnds(k, s);
    }
  }

  /** The same reset, called with other visiting orders. */
  function With(k: Case, a: P.Attempt): Case {
    k.(c := P.With(k.c, a))
  }

  ghost predicate Visits(k: Case, attempts: seq<P.Attempt>) {
    P.Visits(k.c, attempts)
  }

  /** What can be reached does not depend on visiting orders. */
  lemma OrderFree(k: Case, a: P.Attempt, e: Disk)
    requires Sized(k.d)
    ensures Reached(k, e) == Reached(With(k, a), e)
    ensures SlotReset.Replaced(k.c, k.d, Journal(k), k.call.version, e) ==
            SlotReset.Replaced(With(k, a).c, k.d, Journal(k), k.call.version, e)
  {
    P.OrderFree(k.c, P.With(k.c, a), k.call.version, e.source);
  }

  /** What one call leaves. */
  function AfterAttempt(k: Case, e: Disk, a: P.Attempt): Disk
    requires Sized(e)
  {
    SlotReset.Cut(e, SlotReset.ResetPlan(With(k, a).c, k.g, e, k.call).writes, a.left)
  }

  /** Attempts one after another, each with its own visiting orders. */
  function Run(k: Case, e: Disk, attempts: seq<P.Attempt>): Disk
    decreases |attempts|
  {
    if attempts == [] || !Sized(e) then e else Run(k, AfterAttempt(k, e, attempts[0]), attempts[1..])
  }

  lemma AttemptReaches(k: Case, e: Disk, a: P.Attempt)
    requires Admitted(k) && Sound(With(k, a).c) && Reached(k, e)
    ensures Sized(e) && Reached(k, AfterAttempt(k, e, a))
  {
    var l := With(k, a);
    OrderFree(k, a, e);
    ResetEnds(l, e);
    CutStays(l, e, SlotReset.ResetPlan(l.c, k.g, e, k.call).writes, a.left);
    OrderFree(k, a, AfterAttempt(k, e, a));
  }

  lemma {:induction false} RunReaches(k: Case, e: Disk, attempts: seq<P.Attempt>)
    requires Admitted(k) && Visits(k, attempts) && Reached(k, e)
    ensures Reached(k, Run(k, e, attempts))
    decreases |attempts|
  {
    if attempts != [] {
      AttemptReaches(k, e, attempts[0]);
      RunReaches(k, AfterAttempt(k, e, attempts[0]), attempts[1..]);
    }
  }

  /** The one state every reset of d with this call ends in. */
  function Final(k: Case): Disk
    requires Sized(k.d)
  {
    Disk.Disk(Files(Stored(FinalPool(k.c, k.call.version)), seq(SLOT_COUNT, (j: nat) => P.WholeDir(k.call.version, j))),
              Some(k.d.source), false, Some(Journal(k).(stage := Settled)))
  }

  lemma ReplacedIsFinal(k: Case, f: Disk)
    requires Sized(k.d) && SlotReset.Replaced(k.c, k.d, Journal(k), k.call.version, f)
    ensures f == Final(k)
  {
    forall j | 0 <= j < SLOT_COUNT
      ensures f.source.slots[j] == Final(k).source.slots[j]
    {
      assert P.WholeSlot(k.call.version, j, f.source.slots[j]);
    }
    assert f.source.slots == Final(k).source.slots;
  }

  /** Wherever a run of interrupted resets stopped, each visiting files in its own orders, the next
      one succeeds whatever its orders, and always with the same result: every original archived and
      the ready pool of 500 inert slots. */
  lemma ResetConverges(k: Case, attempts: seq<P.Attempt>, last: P.Attempt)
    requires Admitted(k) && Visits(k, attempts) && Sound(With(k, last).c)
    ensures var e := Run(k, k.d, attempts);
            && Sized(e)
            && var p := SlotReset.ResetPlan(With(k, last).c, k.g, e, k.call);
               p.result == Complete && SlotReset.ApplyAll(e, p.writes) == Final(k)
  {
    assert Reached(k, k.d);
    RunReaches(k, k.d, attempts);
    var e := Run(k, k.d, attempts);
    OrderFree(k, last, e);
    ResetEnds(With(k, last), e);
    var f := SlotReset.ApplyAll(e, SlotReset.ResetPlan(With(k, last).c, k.g, e, k.call).writes);
    OrderFree(k, last, f);
    ReplacedIsFinal(k, f);
  }

  predicate OneSide<T(==)>(whole: T, none: T, source: T, archived: T) {
    (source == whole && archived == none) || (source == none && archived == whole)
  }

  function ArchivedFiles(e: Disk): Files {
    if e.archive.Some? then e.archive.value else SlotReset.NoFiles()
  }

  predicate SlotOneSide(d: Disk, e: Disk, j: nat)
    requires Sized(d) && Sized(e) && j < SLOT_COUNT
  {
    OneSide(d.source.slots[j], NoDir, e.source.slots[j], ArchivedFiles(e).slots[j])
  }

  /** Until the stage that installs new slots is durable every original is, byte for byte, on
      exactly one side; from then on the archive holds all of them. */
  lemma OriginalsConserved(k: Case, e: Disk)
    requires Admitted(k) && Reached(k, e)
    ensures Sized(e)
    ensures e.intent.None? || e.intent.value.stage == Archiving ==>
              (forall j :: 0 <= j < SLOT_COUNT ==> SlotOneSide(k.d, e, j)) &&
              OneSide(k.d.source.manifest, Absent, e.source.manifest, ArchivedFiles(e).manifest)
    ensures e.intent.Some? && e.intent.value.stage != Archiving ==> e.archive == Some(k.d.source)
  {
  }
}
