/** Installing and migrating the slot pool as the source runs it, one durable write at a
    time. `writesLeft` is how many of them succeed before the process dies. */
module SlotPoolStore {
  import opened Wrappers
  import opened Texts
  import opened SlotPayload
  import opened SlotInstall
  import Durable
  import SlotProtocol

  function Reported(p: Plan, left: nat): Outcome {
    if left < |p.writes| then Interrupted else p.result
  }

  /** A plan continues after part of it is done. */
  lemma Continued(d: Files, done: seq<Write>, part: seq<Write>, rest: seq<Write>)
    ensures done + (part + rest) == (done + part) + rest
    ensures ApplyAll(d, done + part) == ApplyAll(ApplyAll(d, done), part)
  {
    Durable.ApplyAppend(Apply, d, done, part);
  }

  lemma WorkNext(c: Context, version: Text, slots: seq<Dir>, i: nat, directories: seq<Write>, writes: seq<Write>)
    requires 1 <= i <= |slots|
    ensures var made := if slots[i - 1].NoDir? then [Mkdir(i)] else [];
            directories + Mkdirs(slots, i) == (directories + made) + Mkdirs(slots, i + 1)
    ensures var puts := SlotPuts(c, version, i, slots[i - 1], c.order(i));
            writes + Puts(c, version, slots, i) == (writes + puts) + Puts(c, version, slots, i + 1)
  {
    Durable.Regrouped(directories, if slots[i - 1].NoDir? then [Mkdir(i)] else [], Mkdirs(slots, i + 1));
    Durable.Regrouped(writes, SlotPuts(c, version, i, slots[i - 1], c.order(i)), Puts(c, version, slots, i + 1));
  }

  /** A death within one slot's writes, or after them. */
  lemma TurnCut(c: Context, d: Files, pool: Pool, version: Text, i: nat, left: nat)
    requires 1 <= i <= |pool.files| && i <= |d.slots|
    ensures var step, p := OneSlot(c, pool, i, d.slots[i - 1]), SlotsPlan(c, d, pool, version, i);
            var after := After(c, ApplyAll(d, step.writes), pool, version, i, step.verdict);
            && p.writes == step.writes + after
            && (left < |step.writes| ==> Cut(d, p.writes, left) == Cut(d, step.writes, left))
            && (left >= |step.writes| ==>
                  Cut(d, p.writes, left) == Cut(ApplyAll(d, step.writes), after, left - |step.writes|))
            && p.result == match step.verdict
                 case Refuse => Failed(Refused)
                 case Migrate => UpgradePlan(c, ApplyAll(d, step.writes), pool, version).result
                 case Continue =>
                   SlotsPlan(c, ApplyAll(d, step.writes), WithHash(c, pool, i), version, i + 1).result
  {
    var step := OneSlot(c, pool, i, d.slots[i - 1]);
    SlotsUnfold(c, d, pool, version, i);
    Durable.CutChain(Apply, d, step.writes, After(c, ApplyAll(d, step.writes), pool, version, i, step.verdict), left);
  }

  ghost predicate Covers(c: Context) {
    forall i, name :: name in c.order(i)
  }

  method HasUnresolved(pool: Pool) returns (found: bool)
    ensures found <==> Unresolved(pool)
  {
    for k := 0 to |pool.files|
      invariant forall j :: 0 <= j < k ==> pool.files[j].pendingHash == [] && !pool.files[j].Reserved()
    {
      if pool.files[k].pendingHash != [] || pool.files[k].Reserved() {
        return true;
      }
    }
    return false;
  }

  class PoolInstaller {
    const context: Context
    var manifest: Stored
    var slots: seq<Dir>
    var writesLeft: nat

    constructor (context: Context, d: Files, writesLeft: nat)
      ensures this.context == context && State() == d && this.writesLeft == writesLeft
    {
      this.context := context;
      manifest, slots := d.manifest, d.slots;
      this.writesLeft := writesLeft;
    }

    function State(): Files
      reads this
    {
      Files(manifest, slots)
    }

    /** The state after a plan run by a process with so many writes left. */
    twostate predicate Written(ws: seq<Write>)
      reads this
    {
      && State() == Cut(old(State()), ws, old(writesLeft))
      && writesLeft == if old(writesLeft) < |ws| then 0 else old(writesLeft) - |ws|
    }

    twostate predicate Performed(p: Plan, r: Outcome)
      reads this
    {
      Written(p.writes) && r == Reported(p, old(writesLeft))
    }

    method Step(w: Write) returns (ok: bool)
      modifies this
      ensures ok == (old(writesLeft) > 0) && Written([w])
      ensures State() == if ok then Apply(old(State()), w) else old(State())
      ensures writesLeft == if ok then old(writesLeft) - 1 else 0
    {
      Durable.CutOne(Apply, State(), w, writesLeft);
      if writesLeft == 0 {
        return false;
      }
      writesLeft := writesLeft - 1;
      match w {
        case Save(pool) => manifest := Stored(pool);
        case Mkdir(i) =>
          if 1 <= i <= |slots| && slots[i - 1].NoDir? {
            slots := slots[i - 1 := Plain(Gone, Gone, Gone, 0)];
          }
        case Put(i, name, content) =>
          if 1 <= i <= |slots| && slots[i - 1].Plain? {
            slots := slots[i - 1 := slots[i - 1].Set(name, Regular(content))];
          }
      }
      return true;
    }

    method StepAll(ws: seq<Write>) returns (ok: bool)
      modifies this
      ensures ok == (old(writesLeft) >= |ws|) && Written(ws)
    {
      ghost var d, n := State(), writesLeft;
      for i := 0 to |ws|
        invariant i <= n && writesLeft == n - i && State() == ApplyAll(d, ws[..i])
      {
        assert ws[..i + 1] == ws[..i] + [ws[i]];
        Durable.ApplyAppend(Apply, d, ws[..i], [ws[i]]);
        Durable.CutOne(Apply, State(), ws[i], writesLeft);
        ok := Step(ws[i]);
        if !ok {
          return;
        }
      }
      assert ws[..|ws|] == ws;
      return true;
    }

    method InspectSlotPool(pool: Pool, version: Text) returns (ok: bool)
      requires |pool.files| <= |slots|
      ensures ok <==> Intact(context, pool, version, slots)
    {
      if pool.state != Ready || pool.version != version {
        return false;
      }
      for k := 0 to |pool.files|
        invariant forall j :: 0 <= j < k ==> SlotIntact(context, pool, j + 1, slots[j])
      {
        var dir := slots[k];
        if !dir.Plain? || dir.Count() != 3 || !dir.toc.Regular? || !dir.loader.Regular? || !dir.payload.Regular? ||
           !StaticMatches(TocFile, dir.toc.content, StaticFor(k + 1, version, pool.schema, TocFile)) ||
           !StaticMatches(LoaderFile, dir.loader.content, StaticFor(k + 1, version, pool.schema, LoaderFile)) {
          return false;
        }
        var hash := context.sum(dir.payload.content);
        if hash != pool.files[k].payloadHash && hash != pool.files[k].pendingHash {
          return false;
        }
      }
      return true;
    }

    /** The replacements one slot's files still need; None when a file is not admitted. */
    method CheckFiles(pool: Pool, version: Text, i: nat, dir: Dir) returns (writes: Option<seq<Write>>)
      requires Covers(context) && 1 <= i && dir.Plain?
      ensures writes == if EntryAccepted(context, pool, version, i, TocFile, dir.toc) &&
                           EntryAccepted(context, pool, version, i, LoaderFile, dir.loader) &&
                           EntryAccepted(context, pool, version, i, PayloadFile, dir.payload)
                        then Some(SlotPuts(context, version, i, dir, context.order(i))) else None
    {
      var names := context.order(i);
      var result: seq<Write> := [];
      for j := 0 to |names|
        invariant forall h :: 0 <= h < j ==> EntryAccepted(context, pool, version, i, names[h], dir.Get(names[h]))
        invariant result + SlotPuts(context, version, i, dir, names[j..]) == SlotPuts(context, version, i, dir, names)
      {
        var name := names[j];
        var want := Wanted(i, version, name);
        if !EntryAccepted(context, pool, version, i, name, dir.Get(name)) {
          return None;
        }
        assert names[j..][0] == name && names[j..][1..] == names[j + 1..];
        ghost var rest := SlotPuts(context, version, i, dir, names[j + 1..]);
        if Outdated(context, version, i, name, dir) {
          assert result + ([Put(i, name, want)] + rest) == (result + [Put(i, name, want)]) + rest;
          result := result + [Put(i, name, want)];
        } else {
          assert [] + rest == rest;
        }
      }
      assert TocFile in names && LoaderFile in names && PayloadFile in names;
      assert names[|names|..] == [] && result + [] == result;
      return Some(result);
    }

    method CheckSlot(pool: Pool, version: Text, i: nat, dir: Dir) returns (writes: Option<seq<Write>>)
      requires Covers(context) && 1 <= i
      ensures writes == if SlotAccepted(context, pool, version, i, dir)
                        then Some(SlotPuts(context, version, i, dir, context.order(i))) else None
    {
      var existing := i <= |pool.files|;
      if dir.NotPlain? || (dir.NoDir? && existing) {
        return None;
      }
      if dir.NoDir? {
        return Some(SlotPuts(context, version, i, dir, context.order(i)));
      }
      if (existing && dir.Count() != 3) || dir.others != 0 {
        return None;
      }
      writes := CheckFiles(pool, version, i, dir);
    }

    /** Validates every slot before anything is modified. */
    method CollectWrites(pool: Pool, version: Text) returns (work: Option<seq<Write>>)
      requires Covers(context)
      ensures work == if AllAccepted(context, pool, version, slots)
                      then Some(Mkdirs(slots, 1) + Puts(context, version, slots, 1)) else None
    {
      var directories: seq<Write>, writes: seq<Write> := [], [];
      var i := 1;
      while i <= |slots|
        invariant 1 <= i <= |slots| + 1
        invariant forall j :: 0 <= j < i - 1 ==> SlotAccepted(context, pool, version, j + 1, slots[j])
        invariant directories + Mkdirs(slots, i) == Mkdirs(slots, 1)
        invariant writes + Puts(context, version, slots, i) == Puts(context, version, slots, 1)
      {
        var dir := slots[i - 1];
        var found := CheckSlot(pool, version, i, dir);
        if found.None? {
          return None;
        }
        var made: seq<Write> := if dir.NoDir? then [Mkdir(i)] else [];
        WorkNext(context, version, slots, i, directories, writes);
        directories := directories + made;
        writes := writes + found.value;
        i := i + 1;
      }
      assert directories + [] == directories && writes + [] == writes;
      return Some(directories + writes);
    }

    /** upgradeSlotPool once the intent is durable. */
    method ResumeMigration(pool0: Pool, version: Text) returns (r: Outcome)
      requires Covers(context)
      modifies this
      ensures Performed(MigratePlan(context, old(State()), pool0, version), r)
    {
      var pool := pool0;
      if pool.state != Upgrading || pool.pendingVersion != version {
        return Failed(Conflicting);
      }
      ghost var d, n := State(), writesLeft;
      ghost var final := Save(FinalPool(context, version));
      ghost var dirs, puts := Mkdirs(slots, 1), Puts(context, version, slots, 1);
      assert dirs + (puts + [final]) == (dirs + puts) + [final];
      ghost var saves: seq<Write> := if pool.schema == Migration3 then [Save(pool.(schema := Migration4))] else [];
      Durable.CutChain(Apply, d, saves, dirs + (puts + [final]), n);
      if pool.schema == Migration3 {
        pool := pool.(schema := Migration4);
        Durable.CutOne(Apply, d, Save(pool), n);
        var saved := Step(Save(pool));
        if !saved {
          return Interrupted;
        }
      }
      var unresolved := HasUnresolved(pool);
      if unresolved {
        return Failed(Conflicting);
      }
      var work := CollectWrites(pool, version);
      if work.None? {
        return Failed(Refused);
      }
      Durable.CutChain(Apply, State(), dirs + puts, [final], writesLeft);
      var ok := StepAll(work.value);
      if !ok {
        return Interrupted;
      }
      ok := Step(Save(FinalPool(context, version)));
      return if ok then Done else Interrupted;
    }

    method NothingBeyond(n: nat) returns (free: bool)
      requires n <= |slots|
      ensures free == NoneBeyond(slots, n)
    {
      for k := n to |slots|
        invariant forall j :: n <= j < k ==> slots[j].NoDir?
      {
        if !slots[k].NoDir? {
          return false;
        }
      }
      return true;
    }

    method UpgradeSlotPool(pool: Pool, version: Text) returns (r: Outcome)
      requires Covers(context) && |pool.files| <= |slots|
      modifies this
      ensures Performed(UpgradePlan(context, old(State()), pool, version), r)
    {
      if pool.state != Ready {
        r := ResumeMigration(pool, version);
        return;
      }
      var intact := InspectSlotPool(pool, pool.version);
      if !intact {
        return Failed(Refused);
      }
      var unresolved := HasUnresolved(pool);
      if unresolved {
        return Failed(Conflicting);
      }
      var free := NothingBeyond(|pool.files|);
      if !free {
        return Failed(Refused);
      }
      var intent := pool.(state := Upgrading, pendingVersion := version, source := pool.schema, schema := Migration4);
      Durable.CutOne(Apply, State(), Save(intent), writesLeft);
      ghost var rest := MigratePlan(context, Apply(State(), Save(intent)), intent, version);
      Durable.CutChain(Apply, State(), [Save(intent)], rest.writes, writesLeft);
      var ok := Step(Save(intent));
      if !ok {
        return Interrupted;
      }
      r := ResumeMigration(intent, version);
    }

    /** The two static files of one slot, in the order its map is visited. */
    method InstallStatics(pool: Pool, i: nat) returns (verdict: Verdict, alive: bool)
      requires 1 <= i <= |slots| && slots[i - 1].Plain?
      modifies this
      ensures |slots| == |old(slots)|
      ensures var s := StaticStep(context, pool, i, old(slots)[i - 1], context.statics(i));
              Written(s.writes) && alive == (old(writesLeft) >= |s.writes|) &&
              (alive ==> verdict == s.verdict && slots[i - 1] == s.dir)
    {
      ghost var d, n, dir0 := State(), writesLeft, slots[i - 1];
      ghost var done: seq<Write> := [];
      var names := context.statics(i);
      ghost var whole := StaticStep(context, pool, i, dir0, names);
      for j := 0 to |names|
        invariant |slots| == |d.slots| && slots[i - 1].Plain?
        invariant |done| <= n && writesLeft == n - |done| && State() == ApplyAll(d, done)
        invariant var rest := StaticStep(context, pool, i, slots[i - 1], names[j..]);
                  whole == rest.(writes := done + rest.writes)
      {
        var name := names[j];
        assert names[j..][0] == name && names[j..][1..] == names[j + 1..];
        if name != PayloadFile {
          var want := StaticFor(i, pool.version, pool.schema, name);
          var actual := slots[i - 1].Get(name);
          if actual.Regular? {
            if context.sum(actual.content) != context.sum(want) {
              assert done + [] == done;
              return if pool.state == Ready && StaticMatches(name, actual.content, want) then Migrate else Refuse, true;
            }
          } else if actual.Gone? && pool.state == Installing {
            ghost var w := Put(i, name, want);
            ghost var after := StaticStep(context, pool, i, slots[i - 1].Set(name, Regular(want)),
                names[j + 1..]).writes;
            Durable.Regrouped(done, [w], after);
            Durable.ApplyAppend(Apply, d, done, [w]);
            Durable.CutOne(Apply, State(), w, writesLeft);
            Durable.CutChain(Apply, d, done, [w] + after, n);
            Durable.CutChain(Apply, State(), [w], after, writesLeft);
            var ok := Step(Put(i, name, want));
            if !ok {
              return Refuse, false;
            }
            done := done + [w];
          } else {
            assert done + [] == done;
            return Refuse, true;
          }
        }
      }
      assert names[|names|..] == [] && done + [] == done;
      return Continue, true;
    }

    /** The payload file of one slot and the final count of its files. */
    method InstallPayload(pool: Pool, i: nat) returns (verdict: Verdict, alive: bool)
      requires 1 <= i <= |slots| && i <= |pool.files| && slots[i - 1].Plain?
      modifies this
      ensures |slots| == |old(slots)|
      ensures var s := PayloadStep(context, pool, i, old(slots)[i - 1]);
              Written(s.writes) && alive == (old(writesLeft) >= |s.writes|) && (alive ==> verdict == s.verdict)
    {
      var expected := ExpectedPayload(context, pool.files[i - 1]);
      var payload := slots[i - 1].payload;
      if payload.Irregular? || (payload.Gone? && pool.state != Installing) {
        return Refuse, true;
      }
      var actual := INERT_CONTENT;
      if payload.Gone? {
        var ok := Step(Put(i, PayloadFile, INERT_CONTENT));
        if !ok {
          return Refuse, false;
        }
      } else {
        actual := payload.content;
      }
      return if context.sum(actual) == expected && slots[i - 1].Count() == 3 then Continue else Refuse, true;
    }

    method InstallOneSlot(pool: Pool, i: nat) returns (verdict: Verdict, alive: bool)
      requires 1 <= i <= |slots| && i <= |pool.files|
      modifies this
      ensures |slots| == |old(slots)|
      ensures var s := OneSlot(context, pool, i, old(slots)[i - 1]);
              Written(s.writes) && alive == (old(writesLeft) >= |s.writes|) && (alive ==> verdict == s.verdict)
    {
      ghost var d, n, dir0 := State(), writesLeft, slots[i - 1];
      if slots[i - 1].NotPlain? {
        return Refuse, true;
      }
      ghost var begun := if dir0.NoDir? then Plain(Gone, Gone, Gone, 0) else dir0;
      ghost var made: seq<Write> := if dir0.NoDir? then [Mkdir(i)] else [];
      ghost var statics := StaticStep(context, pool, i, begun, context.statics(i));
      ghost var last := PayloadStep(context, pool, i, statics.dir);
      Durable.CutChain(Apply, d, made, statics.writes, n);
      Durable.CutChain(Apply, d, made, statics.writes + last.writes, n);
      Durable.CutOne(Apply, d, Mkdir(i), n);
      if slots[i - 1].NoDir? {
        var ok := Step(Mkdir(i));
        if !ok {
          return Refuse, false;
        }
      }
      Durable.CutChain(Apply, State(), statics.writes, last.writes, writesLeft);
      verdict, alive := InstallStatics(pool, i);
      if !alive || verdict != Continue {
        return;
      }
      verdict, alive := InstallPayload(pool, i);
    }

    /** The save that makes the pool ready, and the migration it may still need. */
    method MakeReady(pool: Pool, version: Text) returns (r: Outcome)
      requires Covers(context) && |pool.files| <= |slots|
      modifies this
      ensures Performed(SlotsPlan(context, old(State()), pool, version, |pool.files| + 1), r)
    {
      var ready := pool.(state := Ready);
      ghost var d, w, n := State(), Save(ready), writesLeft;
      Durable.CutOne(Apply, d, w, n);
      Durable.CutChain(Apply, d, [w], UpgradePlan(context, Apply(d, w), ready, version).writes, n);
      var ok := Step(Save(ready));
      if !ok {
        return Interrupted;
      }
      if Outmoded(pool, version) {
        r := UpgradeSlotPool(ready, version);
        return;
      }
      return Done;
    }

    /** One turn of the pass: the outcome if it ends there, else the writes it made. */
    method InstallNext(pool: Pool, version: Text, i: nat) returns (r: Option<Outcome>, ghost ws: seq<Write>,
        ghost rest: Plan)
      requires Covers(context) && 1 <= i <= |pool.files| <= |slots|
      modifies this
      ensures |slots| == |old(slots)|
      ensures r.Some? ==> Performed(SlotsPlan(context, old(State()), pool, version, i), r.value)
      ensures r.None? ==>
        && |ws| <= old(writesLeft) && writesLeft == old(writesLeft) - |ws| && State() == ApplyAll(old(State()), ws)
        && rest == SlotsPlan(context, State(), WithHash(context, pool, i), version, i + 1)
        && SlotsPlan(context, old(State()), pool, version, i) == Plan(ws + rest.writes, rest.result)
    {
      ws := OneSlot(context, pool, i, slots[i - 1]).writes;
      TurnCut(context, State(), pool, version, i, writesLeft);
      var verdict, alive := InstallOneSlot(pool, i);
      if !alive {
        return Some(Interrupted), ws, Plan([], Done);
      }
      if verdict == Refuse {
        return Some(Failed(Refused)), ws, Plan([], Done);
      }
      if verdict == Migrate {
        var outcome := UpgradeSlotPool(pool, version);
        return Some(outcome), ws, Plan([], Done);
      }
      return None, ws, SlotsPlan(context, State(), WithHash(context, pool, i), version, i + 1);
    }

    /** The pass over the slots from i on is what remains of a whole plan that began at d. */
    ghost predicate Underway(d: Files, n: nat, whole: Plan, done: seq<Write>, pool: Pool, version: Text, i: nat)
      requires 1 <= i <= |pool.files| + 1
      reads this
    {
      && |done| <= n && writesLeft == n - |done| && State() == ApplyAll(d, done)
      && whole.writes == done + SlotsPlan(context, State(), pool, version, i).writes
      && whole.result == SlotsPlan(context, State(), pool, version, i).result
    }

    /** The whole plan was performed from d on by a process with n writes to live. */
    ghost predicate Over(d: Files, n: nat, whole: Plan, r: Outcome)
      reads this
    {
      && State() == Cut(d, whole.writes, n) && r == Reported(whole, n)
      && writesLeft == if n < |whole.writes| then 0 else n - |whole.writes|
    }

    /** One turn of the pass under way. */
    method PassOne(pool: Pool, version: Text, i: nat, ghost d: Files, ghost n: nat, ghost whole: Plan,
        ghost done: seq<Write>)
      returns (end: Option<Outcome>, ghost more: seq<Write>)
      requires Covers(context) && 1 <= i <= |pool.files| <= |slots| && Underway(d, n, whole, done, pool, version, i)
      modifies this
      ensures |slots| == |old(slots)|
      ensures end.Some? ==> Over(d, n, whole, end.value)
      ensures end.None? ==> Underway(d, n, whole, more, WithHash(context, pool, i), version, i + 1)
    {
      ghost var rest := SlotsPlan(context, State(), pool, version, i);
      Durable.CutChain(Apply, d, done, rest.writes, n);
      ghost var ws, next;
      end, ws, next := InstallNext(pool, version, i);
      more := done + ws;
      if end.None? { Continued(d, done, ws, next.writes); }
    }

    /** installSlotPool's pass over the slots, and the save that makes the pool ready. */
    method PassSlots(pool0: Pool, version: Text) returns (r: Outcome)
      requires Covers(context) && |pool0.files| <= |slots|
      modifies this
      ensures Performed(SlotsPlan(context, old(State()), pool0, version, 1), r)
    {
      var pool, i := pool0, 1;
      ghost var d, n, done: seq<Write> := State(), writesLeft, [];
      ghost var whole := SlotsPlan(context, d, pool0, version, 1);
      while i <= |pool.files|
        invariant 1 <= i <= |pool.files| + 1 && |pool.files| <= |slots|
        invariant Underway(d, n, whole, done, pool, version, i)
      {
        var end: Option<Outcome>;
        end, done := PassOne(pool, version, i, d, n, whole, done);
        if end.Some? {
          return end.value;
        }
        pool, i := WithHash(context, pool, i), i + 1;
      }
      Durable.CutChain(Apply, d, done, SlotsPlan(context, State(), pool, version, i).writes, n);
      r := MakeReady(pool, version);
    }

    method InstallSlotPool(version: Text) returns (r: Outcome)
      requires Covers(context) && |slots| == SLOT_COUNT
      modifies this
      ensures Performed(InstallPlan(context, old(State()), version), r)
    {
      if manifest.Unreadable? {
        return Failed(Refused);
      }
      if manifest.Absent? {
        var free := NothingBeyond(0);
        if !free {
          return Failed(Refused);
        }
        var pool := NewPool(version);
        ghost var d, w := State(), Save(pool);
        Durable.CutOne(Apply, d, w, writesLeft);
        Durable.CutChain(Apply, d, [w], SlotsPlan(context, Apply(d, w), pool, version, 1).writes, writesLeft);
        var ok := Step(Save(pool));
        if !ok {
          return Interrupted;
        }
        r := PassSlots(pool, version);
        return;
      }
      var pool := manifest.pool;
      if !ValidShape(pool) {
        return Failed(Refused);
      }
      if pool.state == Upgrading || (pool.state == Ready && Outmoded(pool, version)) {
        r := UpgradeSlotPool(pool, version);
      } else if pool.state != Ready && pool.state != Installing {
        return Failed(Refused);
      } else {
        r := PassSlots(pool, version);
      }
    }
  }
}
