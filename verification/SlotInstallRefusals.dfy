/** What an installation of the slot pool refuses, and what a refusal leaves alone
    (internal/delivery/slots.go). */
module SlotInstallRefusals {
  import opened Wrappers
  import opened Texts
  import opened SlotPayload
  import opened SlotInstall
  import opened SlotInstallProofs

  lemma OtherRefused(c: Context, e: Context, version: Text, other: Text, d: Files)
    requires Midway(c, version, d) && other != version
    ensures InstallPlan(e, d, other) == Plan([], Failed(Conflicting))
  {
  }

  lemma {:induction false} OtherRuns(c: Context, version: Text, other: Text, d: Files, attempts: seq<Attempt>)
    requires Midway(c, version, d) && other != version
    ensures Run(c, d, other, attempts) == d
    decreases |attempts|
  {
    if attempts != [] {
      OtherRefused(c, With(c, attempts[0]), version, other, d);
      assert AfterAttempt(c, d, other, attempts[0]) == d;
      OtherRuns(c, version, other, d, attempts[1..]);
    }
  }

  /** While a migration is unfinished another version is refused, and however often it is tried it
      changes nothing: the migration under way then still finishes. */
  lemma OtherVersionRefused(c: Context, version: Text, other: Text, d: Files, attempts: seq<Attempt>, last: Attempt)
    requires Midway(c, version, d) && other != version && version != [] && Sound(With(c, last))
    ensures InstallPlan(With(c, last), d, other) == Plan([], Failed(Conflicting))
    ensures var e := Run(c, d, other, attempts);
            var p := InstallPlan(With(c, last), e, version);
            e == d && p.result == Done && Accepted(c, ApplyAll(e, p.writes), version)
  {
    var k := With(c, last);
    OtherRefused(c, k, version, other, d);
    OtherRuns(c, version, other, d, attempts);
    OrderFree(c, k, version, d);
    InstallCompletes(k, version, d);
    OrderFree(c, k, version, ApplyAll(d, InstallPlan(k, d, version).writes));
  }

  // -------------------------------------------------------- outstanding reservations

  predicate SameReservations(a: seq<SlotFile>, b: seq<SlotFile>) {
    |a| == |b| && forall k :: 0 <= k < |a| ==> a[k].(payloadHash := []) == b[k].(payloadHash := [])
  }

  /** A directory made again, or the same ready pool saved with its reservations. */
  predicate Harmless(pool: Pool, w: Write) {
    match w
    case Mkdir(_) => true
    case Put(_, _, _) => false
    case Save(saved) => saved == pool.(files := saved.files) && SameReservations(pool.files, saved.files)
  }

  predicate AllHarmless(pool: Pool, ws: seq<Write>) {
    forall w :: w in ws ==> Harmless(pool, w)
  }

  lemma {:induction false} ReadyStatics(c: Context, pool: Pool, i: nat, dir: Dir, names: seq<Name>)
    requires dir.Plain? && pool.state != Installing
    ensures StaticStep(c, pool, i, dir, names).writes == [] && StaticStep(c, pool, i, dir, names).dir == dir
    decreases |names|
  {
    if names != [] { ReadyStatics(c, pool, i, dir, names[1..]); }
  }

  lemma ReadySlot(c: Context, pool: Pool, i: nat, dir: Dir)
    requires 1 <= i <= |pool.files| && pool.state != Installing
    ensures OneSlot(c, pool, i, dir).writes == if dir.NoDir? then [Mkdir(i)] else []
  {
    if !dir.NotPlain? {
      ReadyStatics(c, pool, i, if dir.NoDir? then Plain(Gone, Gone, Gone, 0) else dir, c.statics(i));
    }
  }

  lemma HashKeepsReservations(c: Context, pool: Pool, i: nat)
    requires 1 <= i <= |pool.files|
    ensures SameReservations(pool.files, WithHash(c, pool, i).files)
    ensures Unresolved(pool) ==> Unresolved(WithHash(c, pool, i))
  {
    var other := WithHash(c, pool, i);
    if Unresolved(pool) {
      var k :| 0 <= k < |pool.files| && (pool.files[k].pendingHash != [] || pool.files[k].Reserved());
      assert other.files[k].pendingHash == pool.files[k].pendingHash && other.files[k].nonce == pool.files[k].nonce;
    }
  }

  lemma HarmlessFrom(c: Context, pool: Pool, i: nat, ws: seq<Write>)
    requires 1 <= i <= |pool.files| && AllHarmless(WithHash(c, pool, i), ws)
    ensures AllHarmless(pool, ws)
  {
    HashKeepsReservations(c, pool, i);
    var other := WithHash(c, pool, i);
    forall w | w in ws
      ensures Harmless(pool, w)
    {
      assert Harmless(other, w);
      if w.Save? {
        assert forall k :: 0 <= k < |pool.files| ==>
                 other.files[k].(payloadHash := []) == w.pool.files[k].(payloadHash := []);
      }
    }
  }

  lemma ReservedUpgrade(c: Context, version: Text, d: Files, pool: Pool)
    requires pool.state == Ready && Unresolved(pool)
    ensures UpgradePlan(c, d, pool, version).writes == [] && UpgradePlan(c, d, pool, version).result.Failed?
  {
  }

  /** The pass from slot i on, after that slot was found whole. */
  ghost function Onward(c: Context, version: Text, d: Files, pool: Pool, i: nat): seq<Write>
    requires 1 <= i <= |pool.files| && i <= |d.slots|
  {
    SlotsPlan(c, ApplyAll(d, OneSlot(c, pool, i, d.slots[i - 1]).writes), WithHash(c, pool, i), version, i + 1).writes
  }

  /** One slot makes its directory at most; only a pass that goes on can write more. */
  lemma ReservedNext(c: Context, version: Text, d: Files, pool: Pool, i: nat)
    requires pool.state == Ready && Unresolved(pool) && 1 <= i <= |pool.files| && i <= |d.slots|
    requires OneSlot(c, pool, i, d.slots[i - 1]).verdict == Continue ==>
               AllHarmless(WithHash(c, pool, i), Onward(c, version, d, pool, i))
    ensures AllHarmless(pool, SlotsPlan(c, d, pool, version, i).writes)
  {
    var step := OneSlot(c, pool, i, d.slots[i - 1]);
    ReadySlot(c, pool, i, d.slots[i - 1]);
    SlotsUnfold(c, d, pool, version, i);
    ReservedUpgrade(c, version, ApplyAll(d, step.writes), pool);
    if step.verdict == Continue { HarmlessFrom(c, pool, i, Onward(c, version, d, pool, i)); }
  }

  lemma ReservedEnd(c: Context, version: Text, d: Files, pool: Pool)
    requires pool.state == Ready && Unresolved(pool)
    ensures AllHarmless(pool, SlotsPlan(c, d, pool, version, |pool.files| + 1).writes)
  {
    assert pool.(state := Ready) == pool;
    ReservedUpgrade(c, version, Apply(d, Save(pool)), pool);
  }

  lemma NoDirectory(c: Context, version: Text, d: Files, pool: Pool, i: nat)
    requires |d.slots| < i <= |pool.files|
    ensures SlotsPlan(c, d, pool, version, i).writes == []
  {
  }

  lemma {:induction false} ReservedPass(c: Context, version: Text, d: Files, pool: Pool, i: nat)
    requires pool.state == Ready && Unresolved(pool) && 1 <= i <= |pool.files| + 1
    ensures AllHarmless(pool, SlotsPlan(c, d, pool, version, i).writes)
    decreases |pool.files| + 1 - i
  {
    if |pool.files| < i {
      ReservedEnd(c, version, d, pool);
    } else if |d.slots| < i {
      NoDirectory(c, version, d, pool, i);
    } else {
      HashKeepsReservations(c, pool, i);
      var e := ApplyAll(d, OneSlot(c, pool, i, d.slots[i - 1]).writes);
      ReservedPass(c, version, e, WithHash(c, pool, i), i + 1);
      ReservedNext(c, version, d, pool, i);
    }
  }

  /** A pool with an outstanding reservation is never migrated: whatever version is installed over it,
      no file is replaced, no intent is saved and the reservations stay as they are. */
  lemma ReservedNeverMigrated(c: Context, version: Text, d: Files)
    requires d.manifest.Stored? && d.manifest.pool.state == Ready && Unresolved(d.manifest.pool)
    ensures AllHarmless(d.manifest.pool, InstallPlan(c, d, version).writes)
    ensures Outmoded(d.manifest.pool, version) ==>
              InstallPlan(c, d, version).writes == [] && InstallPlan(c, d, version).result.Failed?
  {
    if ValidShape(d.manifest.pool) && !Outmoded(d.manifest.pool, version) {
      ReservedPass(c, version, d, d.manifest.pool, 1);
    }
  }

  // -------------------------------------------------------------- files of other names

  /** A file of no known name in a slot's directory, such as a replacement's own temporary file. */
  predicate Leftover(d: Files, k: nat) {
    k < |d.slots| && d.slots[k].Plain? && d.slots[k].others > 0
  }

  predicate Within(i: nat, ws: seq<Write>) {
    forall w :: w in ws ==> w == Mkdir(i) || (w.Put? && w.slot == i)
  }

  lemma {:induction false} ElsewhereKept(d: Files, i: nat, ws: seq<Write>, k: nat)
    requires Within(i, ws) && Leftover(d, k)
    ensures Leftover(ApplyAll(d, ws), k)
    decreases |ws|
  {
    if ws != [] {
      assert ws[0] in ws && forall w :: w in ws[1..] ==> w in ws;
      ElsewhereKept(Apply(d, ws[0]), i, ws[1..], k);
    }
  }

  lemma {:induction false} StaticsWithin(c: Context, pool: Pool, i: nat, dir: Dir, names: seq<Name>)
    requires dir.Plain?
    ensures var s := StaticStep(c, pool, i, dir, names);
            && Within(i, s.writes) && s.dir.others == dir.others
            && (forall name :: name != PayloadFile && dir.Get(name).Regular? ==> s.dir.Get(name).Regular?)
            && (s.verdict == Continue ==>
                  forall name :: name in names && name != PayloadFile ==> s.dir.Get(name).Regular?)
    decreases |names|
  {
    if names != [] {
      StaticsWithin(c, pool, i, dir, names[1..]);
      StaticsWithin(c, pool, i, dir.Set(names[0], Regular(StaticFor(i, pool.version, pool.schema, names[0]))),
          names[1..]);
    }
  }

  lemma SlotWithin(c: Context, pool: Pool, i: nat, dir: Dir)
    requires 1 <= i <= |pool.files|
    ensures Within(i, OneSlot(c, pool, i, dir).writes)
  {
    if !dir.NotPlain? {
      StaticsWithin(c, pool, i, if dir.NoDir? then Plain(Gone, Gone, Gone, 0) else dir, c.statics(i));
    }
  }

  lemma LeftoverSlot(c: Context, pool: Pool, i: nat, dir: Dir)
    requires Sound(c) && 1 <= i <= |pool.files| && dir.Plain? && dir.others > 0
    ensures OneSlot(c, pool, i, dir).verdict != Continue
  {
    StaticsWithin(c, pool, i, dir, c.statics(i));
    var s := StaticStep(c, pool, i, dir, c.statics(i));
    if s.verdict == Continue {
      assert TocFile in c.statics(i) && LoaderFile in c.statics(i);
      assert s.dir.Get(TocFile).Regular? && s.dir.Get(LoaderFile).Regular?;
    }
  }

  lemma LeftoverUpgrade(c: Context, version: Text, d: Files, pool: Pool, k: nat)
    requires Leftover(d, k)
    ensures UpgradePlan(c, d, pool, version).result.Failed?
  {
    assert !SlotAccepted(c, pool, version, k + 1, d.slots[k]);
    assert !SlotAccepted(c, pool.(schema := Migration4), version, k + 1, d.slots[k]);
    if pool.state == Ready && k < |pool.files| <= |d.slots| {
      assert !SlotIntact(c, pool, k + 1, d.slots[k]);
    }
  }

  lemma {:induction false} LeftoverPass(c: Context, version: Text, d: Files, pool: Pool, i: nat, k: nat)
    requires Sound(c) && Leftover(d, k) && |d.slots| == SLOT_COUNT && 1 <= i <= |pool.files| + 1
    requires |pool.files| == SLOT_COUNT || Outmoded(pool, version)
    requires k < |pool.files| ==> i <= k + 1
    ensures SlotsPlan(c, d, pool, version, i).result.Failed?
    decreases |pool.files| + 1 - i
  {
    if |pool.files| < i {
      var ready := pool.(state := Ready);
      LeftoverUpgrade(c, version, Apply(d, Save(ready)), ready, k);
    } else if i <= |d.slots| {
      var step := OneSlot(c, pool, i, d.slots[i - 1]);
      var e := ApplyAll(d, step.writes);
      SlotWithin(c, pool, i, d.slots[i - 1]);
      ElsewhereKept(d, i, step.writes, k);
      LeftoverUpgrade(c, version, e, pool, k);
      if step.verdict == Continue {
        if i == k + 1 { LeftoverSlot(c, pool, i, d.slots[k]); }
        LeftoverPass(c, version, e, WithHash(c, pool, i), i + 1, k);
      }
    }
  }

  lemma LeftoverRefused(c: Context, version: Text, d: Files, k: nat)
    requires Sound(c) && Leftover(d, k) && |d.slots| == SLOT_COUNT
    ensures InstallPlan(c, d, version).result.Failed?
  {
    match d.manifest
    case Unreadable =>
    case Absent => assert !d.slots[k].NoDir?;
    case Stored(pool) =>
      LeftoverUpgrade(c, version, d, pool, k);
      if ValidShape(pool) && (pool.state == Installing || (pool.state == Ready && !Outmoded(pool, version))) {
        LeftoverPass(c, version, d, pool, 1, k);
      }
  }

  /** No durable write of an installation touches a file of another name. */
  lemma {:induction false} LeftoverKept(d: Files, ws: seq<Write>, k: nat)
    requires Leftover(d, k)
    ensures Leftover(ApplyAll(d, ws), k)
    decreases |ws|
  {
    if ws != [] { LeftoverKept(Apply(d, ws[0]), ws[1..], k); }
  }

  lemma {:induction false} LeftoverRuns(c: Context, version: Text, d: Files, attempts: seq<Attempt>, k: nat)
    requires Leftover(d, k)
    ensures Leftover(Run(c, d, version, attempts), k) && |Run(c, d, version, attempts).slots| == |d.slots|
    decreases |attempts|
  {
    if attempts != [] {
      var a := attempts[0];
      var ws := InstallPlan(With(c, a), d, version).writes;
      LeftoverKept(d, if a.left < |ws| then ws[..a.left] else ws, k);
      LeftoverRuns(c, version, AfterAttempt(c, d, version, a), attempts[1..], k);
    }
  }

  /** While any slot directory holds a file of another name, every installation fails, whatever the
      manifest says and however often it has been tried, and the file stays. */
  lemma LeftoverStops(c: Context, version: Text, d: Files, k: nat, attempts: seq<Attempt>, last: Attempt)
    requires Sound(With(c, last)) && Leftover(d, k) && |d.slots| == SLOT_COUNT
    ensures var e := Run(c, d, version, attempts);
            Leftover(e, k) && InstallPlan(With(c, last), e, version).result.Failed?
  {
    LeftoverRuns(c, version, d, attempts, k);
    LeftoverRefused(With(c, last), version, Run(c, d, version, attempts), k);
  }
}
