/** A first installation that an older installer left part-way: its declarations may be older than
    those of the installer that comes back to it (internal/delivery/slots.go). */
module SlotInstallTorn {
  import opened Wrappers
  import opened Texts
  import opened SlotPayload
  import opened SlotInstall
  import opened SlotInstallProofs
  import Durable

  /** Absent, or one of the admitted declarations: four interface lists and three transports. */
  predicate TornToc(version: Text, k: nat, e: Entry) {
    e.Gone? || (e.Regular? && StaticMatches(TocFile, e.content, Wanted(k + 1, version, TocFile)))
  }

  predicate TornSlot(version: Text, k: nat, dir: Dir) {
    dir.NoDir? ||
    (dir.Plain? && dir.others == 0 && TornToc(version, k, dir.toc) && Partial(version, k, LoaderFile, dir.loader) &&
     Partial(version, k, PayloadFile, dir.payload))
  }

  predicate TornSlots(version: Text, slots: seq<Dir>, n: nat) {
    n <= |slots| && forall k :: 0 <= k < n ==> TornSlot(version, k, slots[k])
  }

  /** An installing pool whose files are absent or what some installer of its version wrote. */
  predicate Torn(d: Files) {
    && d.manifest.Stored? && |d.slots| == SLOT_COUNT && InstallingPool(d.manifest.pool)
    && TornSlots(d.manifest.pool.version, d.slots, |d.manifest.pool.files|)
    && NoneBeyond(d.slots, |d.manifest.pool.files|)
  }

  /** The declaration of slot k is an older one. */
  predicate OlderAt(version: Text, d: Files, k: nat) {
    k < |d.slots| && d.slots[k].Plain? && d.slots[k].toc.Regular? &&
    d.slots[k].toc.content != Wanted(k + 1, version, TocFile)
  }

  /** Every declaration that is there is the current one. */
  predicate AllCurrent(d: Files)
    requires d.manifest.Stored?
  {
    forall k :: 0 <= k < |d.manifest.pool.files| ==> !OlderAt(d.manifest.pool.version, d, k)
  }

  lemma TornBegun(d: Files)
    ensures Begun(d) <==> Torn(d) && AllCurrent(d)
  {
    if d.manifest.Stored? && |d.slots| == SLOT_COUNT && InstallingPool(d.manifest.pool) {
      var version := d.manifest.pool.version;
      forall k | 0 <= k < |d.manifest.pool.files|
        ensures PartialSlot(version, k, d.slots[k]) <==>
                TornSlot(version, k, d.slots[k]) && !OlderAt(version, d, k)
      {
      }
    }
  }

  // ------------------------------------------------------------------- one refused call

  /** Fills of some slot up to k, which leave the declaration of slot k alone. */
  predicate Spares(version: Text, k: nat, w: Write) {
    match w
    case Save(_) => false
    case Mkdir(i) => 1 <= i <= k + 1
    case Put(i, name, content) =>
      1 <= i <= k + 1 && content == Wanted(i, version, name) && (i == k + 1 ==> name != TocFile)
  }

  predicate AllSpare(version: Text, k: nat, ws: seq<Write>) {
    forall w :: w in ws ==> Spares(version, k, w)
  }

  lemma {:induction false} OlderStatics(c: Context, pool: Pool, k: nat, dir: Dir, names: seq<Name>)
    requires Sound(c) && pool.state == Installing && pool.schema == V3 && k < |pool.files|
    requires dir.Plain? && TornSlot(pool.version, k, dir)
    requires dir.toc.Regular? && dir.toc.content != Wanted(k + 1, pool.version, TocFile)
    ensures var s := StaticStep(c, pool, k + 1, dir, names);
            && AllSpare(pool.version, k, s.writes) && (s.verdict == Continue || s.verdict == Refuse)
            && (TocFile in names ==> s.verdict == Refuse)
    decreases |names|
  {
    if names != [] {
      OlderStatics(c, pool, k, dir, names[1..]);
      if names[0] == LoaderFile {
        var next := dir.Set(LoaderFile, Regular(Wanted(k + 1, pool.version, LoaderFile)));
        OlderStatics(c, pool, k, next, names[1..]);
      }
    }
  }

  lemma OlderRefused(c: Context, pool: Pool, k: nat, d: Files)
    requires Sound(c) && pool.state == Installing && pool.schema == V3 && k < |pool.files| <= |d.slots|
    requires TornSlot(pool.version, k, d.slots[k]) && OlderAt(pool.version, d, k)
    ensures var s := OneSlot(c, pool, k + 1, d.slots[k]);
            s.verdict == Refuse && AllSpare(pool.version, k, s.writes)
  {
    OlderStatics(c, pool, k, d.slots[k], c.statics(k + 1));
    assert TocFile in c.statics(k + 1);
  }

  lemma FillsSpare(version: Text, i: nat, k: nat, ws: seq<Write>)
    requires i < k && AllFill(version, i, ws)
    ensures AllSpare(version, k, ws)
  {
    forall w | w in ws
      ensures Spares(version, k, w)
    {
      assert FillsSlot(version, i, w);
    }
  }

  /** Installing pool, entries from slot i on still empty, slots before slot k partial and current,
      and the declaration of slot k an older one. */
  predicate Stuck(d: Files, pool: Pool, i: nat, k: nat) {
    && pool.state == Installing && pool.schema == V3 && 1 <= i <= k + 1 <= |pool.files| <= |d.slots|
    && (forall j :: i - 1 <= j < |pool.files| ==> pool.files[j] == EMPTY_FILE)
    && (forall j :: i - 1 <= j < k ==> PartialSlot(pool.version, j, d.slots[j]))
    && TornSlot(pool.version, k, d.slots[k]) && OlderAt(pool.version, d, k)
  }

  lemma StuckOn(d: Files, pool: Pool, e: Files, next: Pool, i: nat, k: nat)
    requires Stuck(d, pool, i, k) && i <= k && |e.slots| == |d.slots| && |next.files| == |pool.files|
    requires next == pool.(files := next.files)
    requires forall j :: i <= j < |pool.files| ==> next.files[j] == pool.files[j]
    requires forall j :: i <= j < |d.slots| ==> e.slots[j] == d.slots[j]
    ensures Stuck(e, next, i + 1, k)
  {
  }

  lemma StuckStep(c: Context, d: Files, pool: Pool, i: nat, k: nat)
    requires Sound(c) && Stuck(d, pool, i, k) && i <= k
    ensures var step := OneSlot(c, pool, i, d.slots[i - 1]);
            && step.verdict == Continue && AllSpare(pool.version, k, step.writes)
            && Stuck(ApplyAll(d, step.writes), WithHash(c, pool, i), i + 1, k)
  {
    SlotFills(c, pool, d, i - 1);
    var ws := OneSlot(c, pool, i, d.slots[i - 1]).writes;
    FillsSpare(pool.version, i - 1, k, ws);
    StuckOn(d, pool, ApplyAll(d, ws), WithHash(c, pool, i), i, k);
  }

  /** The pass over an installing pool fills what is missing up to the first older declaration, and is
      refused there. */
  lemma {:induction false} TornPass(c: Context, version: Text, d: Files, pool: Pool, i: nat, k: nat)
    requires Sound(c) && Stuck(d, pool, i, k)
    ensures SlotsPlan(c, d, pool, version, i).result == Failed(Refused)
    ensures AllSpare(pool.version, k, SlotsPlan(c, d, pool, version, i).writes)
    decreases k + 1 - i
  {
    SlotsUnfold(c, d, pool, version, i);
    if i == k + 1 {
      OlderRefused(c, pool, k, d);
    } else {
      StuckStep(c, d, pool, i, k);
      TornPass(c, version, ApplyAll(d, OneSlot(c, pool, i, d.slots[i - 1]).writes), WithHash(c, pool, i), i + 1, k);
    }
  }

  lemma {:induction false} FirstOlder(d: Files, n: nat) returns (k: nat)
    requires Torn(d) && n <= |d.manifest.pool.files|
    requires exists j :: 0 <= j < n && OlderAt(d.manifest.pool.version, d, j)
    ensures k < n && OlderAt(d.manifest.pool.version, d, k)
    ensures forall j :: 0 <= j < k ==> !OlderAt(d.manifest.pool.version, d, j)
    decreases n
  {
    if exists j :: 0 <= j < n - 1 && OlderAt(d.manifest.pool.version, d, j) {
      k := FirstOlder(d, n - 1);
    } else {
      k := n - 1;
    }
  }

  /** An older declaration refuses the call, whatever version it is for. */
  lemma TornRefused(c: Context, version: Text, d: Files) returns (k: nat)
    requires Sound(c) && Torn(d) && !AllCurrent(d)
    ensures k < |d.manifest.pool.files| && OlderAt(d.manifest.pool.version, d, k)
    ensures InstallPlan(c, d, version).result == Failed(Refused)
    ensures AllSpare(d.manifest.pool.version, k, InstallPlan(c, d, version).writes)
  {
    var pool := d.manifest.pool;
    k := FirstOlder(d, |pool.files|);
    forall j | 0 <= j < k
      ensures PartialSlot(pool.version, j, d.slots[j])
    {
      assert TornSlot(pool.version, j, d.slots[j]) && !OlderAt(pool.version, d, j);
    }
    TornPass(c, version, d, pool, 1, k);
  }

  /** A torn first installation with admitted declarations is finished by the call exactly when every
      declaration that is there is the current one. */
  lemma TornExactly(c: Context, version: Text, d: Files)
    requires Sound(c) && version != [] && Torn(d)
    ensures InstallPlan(c, d, version).result == Done <==> AllCurrent(d)
    ensures AllCurrent(d) ==> Finished(c, version, ApplyAll(d, InstallPlan(c, d, version).writes))
    ensures !AllCurrent(d) ==> InstallPlan(c, d, version).result == Failed(Refused)
  {
    TornBegun(d);
    if AllCurrent(d) {
      BegunPasses(c, d);
      PassCompletes(c, version, d, d.manifest.pool, 1);
    } else {
      var k := TornRefused(c, version, d);
    }
  }

  // -------------------------------------------------------------------------- whole runs

  lemma SpareKeeps(d: Files, k: nat, w: Write)
    requires Torn(d) && k < |d.manifest.pool.files| && OlderAt(d.manifest.pool.version, d, k)
    requires Spares(d.manifest.pool.version, k, w)
    ensures var e := Apply(d, w);
            e.manifest == d.manifest && Torn(e) && OlderAt(d.manifest.pool.version, e, k)
  {
    var e, version := Apply(d, w), d.manifest.pool.version;
    forall j | 0 <= j < |d.manifest.pool.files|
      ensures TornSlot(version, j, e.slots[j])
    {
      assert TornSlot(version, j, d.slots[j]);
    }
    forall j | |d.manifest.pool.files| <= j < |e.slots|
      ensures e.slots[j].NoDir?
    {
      assert d.slots[j].NoDir?;
    }
  }

  lemma {:induction false} SparesKeep(d: Files, k: nat, ws: seq<Write>)
    requires Torn(d) && k < |d.manifest.pool.files| && OlderAt(d.manifest.pool.version, d, k)
    requires AllSpare(d.manifest.pool.version, k, ws)
    ensures var e := ApplyAll(d, ws);
            e.manifest == d.manifest && Torn(e) && OlderAt(d.manifest.pool.version, e, k)
    decreases |ws|
  {
    if ws != [] {
      assert ws[0] in ws && forall w :: w in ws[1..] ==> w in ws;
      SpareKeeps(d, k, ws[0]);
      SparesKeep(Apply(d, ws[0]), k, ws[1..]);
    }
  }

  lemma AttemptStaysTorn(c: Context, version: Text, d: Files, a: Attempt)
    requires Sound(With(c, a)) && Torn(d) && !AllCurrent(d)
    ensures Torn(AfterAttempt(c, d, version, a)) && !AllCurrent(AfterAttempt(c, d, version, a))
  {
    var k := TornRefused(With(c, a), version, d);
    var ws := InstallPlan(With(c, a), d, version).writes;
    var cut := if a.left < |ws| then ws[..a.left] else ws;
    assert forall w :: w in cut ==> w in ws;
    SparesKeep(d, k, cut);
  }

  /** However often it is tried, whatever the orders and wherever the attempts die, such an
      installation is never finished. */
  lemma {:induction false} TornForGood(c: Context, version: Text, d: Files, attempts: seq<Attempt>, last: Attempt)
    requires Visits(c, attempts) && Sound(With(c, last)) && Torn(d) && !AllCurrent(d)
    ensures InstallPlan(With(c, last), Run(c, d, version, attempts), version).result == Failed(Refused)
    decreases |attempts|
  {
    if attempts == [] {
      var k := TornRefused(With(c, last), version, d);
    } else {
      AttemptStaysTorn(c, version, d, attempts[0]);
      TornForGood(c, version, AfterAttempt(c, d, version, attempts[0]), attempts[1..], last);
    }
  }

  /** Any number of interrupted attempts at one version, from bare ground, from a torn first
      installation with admitted declarations or from any settled older pool: the next call succeeds
      exactly when no torn installation with an older declaration was there at the start. */
  lemma RerunsExactly(c: Context, version: Text, d: Files, attempts: seq<Attempt>, last: Attempt)
    requires Visits(c, attempts) && Sound(With(c, last)) && version != []
    requires FreshGround(d) || Torn(d) || Resting(c, d)
    ensures InstallPlan(With(c, last), Run(c, d, version, attempts), version).result == Done
            <==> (Torn(d) ==> AllCurrent(d))
  {
    TornBegun(d);
    if Torn(d) && !AllCurrent(d) {
      TornForGood(c, version, d, attempts, last);
    } else {
      RerunConverges(c, version, d, attempts, last);
    }
  }

  /** The input: an installer that knew an older interface list died after its first declaration. */
  lemma OlderInterfacesStuck(c: Context, was: Text, version: Text, d: Files)
    requires Sound(c) && was != [] && |d.slots| == SLOT_COUNT && d.manifest == Stored(NewPool(was))
    requires d.slots[0] == Plain(Regular(Toc(1, was, Retail, MailboxProtocol)), Gone, Gone, 0)
    requires forall k :: 1 <= k < SLOT_COUNT ==> d.slots[k] == NoDir
    ensures Torn(d) && InstallPlan(c, d, version).result == Failed(Refused)
  {
    assert OlderAt(was, d, 0);
    var k := TornRefused(c, version, d);
  }
}
