/** The reservation protocol as the source runs it: one manifest and the payload files
    of a client, changed one durable write at a time. `writesLeft` is how many durable
    writes succeed before the process dies or the next one fails. */
module SlotStore {
  import opened Wrappers
  import opened Texts
  import opened SlotPayload
  import opened SlotProtocol
  import Durable

  /** NextFreeSlot: the first slot after `after` whose record can take a new reservation. */
  method NextFreeSlot(pool: SlotPool, after: nat) returns (slot: nat)
    ensures slot != 0 ==> after < slot <= |pool.files|
    ensures slot != 0 ==> pool.files[slot - 1].pendingHash == [] && !pool.files[slot - 1].Reserved()
    ensures forall j :: after <= j < |pool.files| && (slot == 0 || j < slot - 1) ==>
              pool.files[j].pendingHash != [] || pool.files[j].Reserved()
  {
    var i := after;
    while i < |pool.files|
      invariant after <= i
      invariant forall j :: after <= j < i && j < |pool.files| ==>
                pool.files[j].pendingHash != [] || pool.files[j].Reserved()
    {
      var s := pool.files[i];
      if s.pendingHash == [] && (s.nonce == [] || s.consumed || s.retiredRuntime != [] || s.retiredProcess) {
        return i + 1;
      }
      i := i + 1;
    }
    return 0;
  }

  class Store {
    const codec: Codec
    var manifest: Manifest
    var slots: seq<SlotDir>
    var writesLeft: nat

    constructor (codec: Codec, d: Disk, writesLeft: nat)
      ensures this.codec == codec && State() == d && this.writesLeft == writesLeft
    {
      this.codec := codec;
      manifest := d.manifest;
      slots := d.slots;
      this.writesLeft := writesLeft;
    }

    function State(): Disk
      reads this
    {
      Disk(manifest, slots)
    }

    /** The state and the report of a plan run by a process with so many writes left. */
    twostate predicate Performed(p: Plan, r: Outcome)
      reads this
    {
      && State() == Cut(old(State()), p.writes, old(writesLeft))
      && r == Reported(p, old(writesLeft))
    }

    method SaveSlotPool(pool: SlotPool) returns (ok: bool)
      modifies this
      ensures ok == (old(writesLeft) > 0)
      ensures State() == if ok then Apply(old(State()), SaveManifest(pool)) else old(State())
      ensures writesLeft == if ok then old(writesLeft) - 1 else 0
    {
      if writesLeft == 0 {
        return false;
      }
      writesLeft := writesLeft - 1;
      manifest := Readable(pool);
      return true;
    }

    method ReplacePayloadFile(index: int, b: Text) returns (ok: bool)
      requires 1 <= index <= |slots|
      modifies this
      ensures ok == (old(writesLeft) > 0)
      ensures State() == if ok then Apply(old(State()), ReplacePayload(index, b)) else old(State())
      ensures writesLeft == if ok then old(writesLeft) - 1 else 0
    {
      if writesLeft == 0 {
        return false;
      }
      writesLeft := writesLeft - 1;
      slots := slots[index - 1 := slots[index - 1].(payload := Some(b))];
      return true;
    }

    method InspectSlots(version: Text) returns (problem: Option<Error>)
      ensures problem == Inspect(codec, State(), version)
    {
      if !manifest.Readable? {
        return Some(Installation);
      }
      var pool := manifest.pool;
      if pool.schema != POOL_SCHEMA || |pool.files| != SLOT_COUNT || pool.state != READY || pool.version != version ||
         |slots| != SLOT_COUNT {
        return Some(Installation);
      }
      for i := 0 to |pool.files|
        invariant Inspect(codec, State(), version) == FirstProblem(codec, pool.files, slots, i)
      {
        var dir := slots[i];
        if !dir.plain || !dir.exact {
          return Some(Installation);
        }
        if dir.payload.None? {
          return Some(Unreadable);
        }
        var hash := codec.sum(dir.payload.value);
        if hash != pool.files[i].payloadHash && hash != pool.files[i].pendingHash {
          return Some(Installation);
        }
      }
      return None;
    }

    method PublishSlot(version: Text, consumer: Text, e: SlotEnvelope) returns (r: Outcome)
      modifies this
      ensures Performed(PublishPlan(codec, old(State()), version, consumer, e), r)
    {
      var problem := InspectSlots(version);
      if problem.Some? {
        return Failed(problem.value);
      }
      var pool := manifest.pool;
      if e.schema != SLOT_SCHEMA {
        return Failed(Installation);
      }
      if e.index < 1 || e.index > |pool.files| || consumer == [] {
        return Failed(Installation);
      }
      var entry := pool.files[e.index - 1];
      if entry.nonce != [] && !entry.consumed && entry.retiredRuntime == [] && !entry.retiredProcess &&
         (entry.nonce != e.nonce || entry.consumer != consumer || entry.runtime != e.runtime) {
        return Failed(SlotReserved);
      }
      var printed := codec.printer(e);
      if printed.Err? {
        return Failed(Print(printed.error));
      }
      var b := printed.value;
      var hash := codec.sum(b);
      if entry.nonce == e.nonce &&
         ((entry.pendingHash != [] && entry.pendingHash != hash) ||
             (entry.pendingHash == [] && entry.payloadHash != hash)) {
        return Failed(Conflict);
      }
      if entry.nonce == e.nonce && entry.payloadHash == hash && entry.pendingHash == [] {
        return Done;
      }
      r := WritePublication(pool, e, consumer, entry, b, hash);
    }

    /** The three durable steps: pending record, payload, settled record. */
    method WritePublication(pool0: SlotPool, e: SlotEnvelope, consumer: Text, entry0: SlotFile, b: Text, hash: Text)
      returns (r: Outcome)
      requires |pool0.files| == |slots| && 1 <= e.index <= |slots| && entry0 == pool0.files[e.index - 1]
      modifies this
      ensures var pending := Pending(entry0, consumer, e, hash);
              Performed(Plan([SaveManifest(WithFile(pool0, e.index, pending)), ReplacePayload(e.index, b),
                              SaveManifest(WithFile(pool0, e.index, Settled(pending, hash)))], Done), r)
    {
      var pool, entry := pool0, entry0;
      ghost var d, n := State(), writesLeft;
      entry := entry.(pendingHash := hash, retiredRuntime := [], retiredProcess := false);
      entry := entry.(nonce := e.nonce, runtime := e.runtime, consumer := consumer, consumed := false);
      pool := pool.(files := pool.files[e.index - 1 := entry]);
      ghost var w0 := SaveManifest(pool);
      var ok := SaveSlotPool(pool);
      ghost var w1 := ReplacePayload(e.index, b);
      ghost var pool2 := WithFile(pool, e.index, Settled(entry, hash));
      ghost var w2 := SaveManifest(pool2);
      CutThree(d, w0, w1, w2, n);
      assert pool2 == WithFile(pool0, e.index, Settled(entry, hash));
      if !ok {
        return Interrupted;
      }
      ok := ReplacePayloadFile(e.index, b);
      if !ok {
        return Interrupted;
      }
      entry := entry.(payloadHash := hash, pendingHash := []);
      pool := pool.(files := pool.files[e.index - 1 := entry]);
      ok := SaveSlotPool(pool);
      if !ok {
        return Interrupted;
      }
      return Done;
    }

    method VerifySlotPublication(version: Text, consumer: Text, e: SlotEnvelope) returns (r: Outcome)
      ensures r == VerifyOutcome(codec, State(), version, consumer, e)
    {
      var problem := InspectSlots(version);
      if problem.Some? {
        return Failed(problem.value);
      }
      var pool := manifest.pool;
      if e.schema != SLOT_SCHEMA || e.index < 1 || e.index > |pool.files| || consumer == [] {
        return Failed(Installation);
      }
      var f := pool.files[e.index - 1];
      var printed := codec.printer(e);
      if printed.Err? {
        return Failed(Print(printed.error));
      }
      if f.nonce != e.nonce || f.runtime != e.runtime || f.consumer != consumer || f.pendingHash != [] || f.consumed ||
         f.retiredRuntime != [] || f.retiredProcess || f.payloadHash != codec.sum(printed.value) {
        return Failed(Conflict);
      }
      return Done;
    }

    method ConfirmSlotConsumed(version: Text, consumer: Text, index: int, nonce: Text) returns (r: Outcome)
      modifies this
      ensures Performed(ConfirmPlan(codec, old(State()), version, consumer, index, nonce), r)
    {
      var problem := InspectSlots(version);
      if problem.Some? {
        return Failed(problem.value);
      }
      var pool := manifest.pool;
      if index < 1 || index > |pool.files| {
        return Failed(Installation);
      }
      var entry := pool.files[index - 1];
      if nonce == [] || consumer == [] {
        return Failed(Conflict);
      }
      if entry.nonce != nonce {
        return Done;
      }
      if entry.consumer != consumer || entry.pendingHash != [] {
        return Failed(Conflict);
      }
      entry := entry.(consumed := true);
      r := SaveEntry(pool, index, entry);
    }

    method SaveEntry(pool: SlotPool, index: int, entry: SlotFile) returns (r: Outcome)
      requires 1 <= index <= |pool.files|
      modifies this
      ensures Performed(Plan([SaveManifest(WithFile(pool, index, entry))], Done), r)
    {
      ghost var w := SaveManifest(WithFile(pool, index, entry));
      Durable.CutOne(Apply, State(), w, writesLeft);
      var ok := SaveSlotPool(pool.(files := pool.files[index - 1 := entry]));
      return if ok then Done else Interrupted;
    }

    /** The digest of the file a retirement settles on. */
    method RetirementHash(e: SlotEnvelope, entry: SlotFile) returns (r: Result<Text, Error>)
      requires 1 <= e.index <= |slots|
      ensures r.Ok? <==> Reconcile(codec, State(), e, entry).Ok?
      ensures r.Ok? ==> Reconcile(codec, State(), e, entry).value == Settled(entry, r.value)
      ensures r.Err? ==> r.error == Reconcile(codec, State(), e, entry).error
    {
      var dir := slots[e.index - 1];
      if !dir.plain {
        return Err(Installation);
      }
      if dir.payload.None? {
        return Err(Unreadable);
      }
      var hash := codec.sum(dir.payload.value);
      if hash != entry.payloadHash && hash != entry.pendingHash {
        return Err(Installation);
      }
      return Ok(hash);
    }

    method RetireSlotProcess(version: Text, consumer: Text, e: SlotEnvelope) returns (r: Outcome)
      requires |slots| == SLOT_COUNT
      modifies this
      ensures Performed(RetireProcessPlan(codec, old(State()), version, consumer, e), r)
    {
      if consumer == [] || e.index < 1 || e.index > SLOT_COUNT || e.nonce == [] {
        return Failed(Installation);
      }
      if !manifest.Readable? {
        return Done;
      }
      var pool := manifest.pool;
      if pool.schema != POOL_SCHEMA || |pool.files| != SLOT_COUNT || pool.state != READY || pool.version != version {
        return Failed(Installation);
      }
      var slot := pool.files[e.index - 1];
      if slot.nonce != e.nonce {
        return Done;
      }
      if slot.consumer != consumer || slot.runtime != e.runtime {
        return Failed(RetirementConflict);
      }
      if slot.consumed || slot.retiredProcess {
        return Done;
      }
      var hash := RetirementHash(e, slot);
      if hash.Err? {
        return Failed(hash.error);
      }
      slot := slot.(payloadHash := hash.value, pendingHash := [], retiredProcess := true);
      r := SaveEntry(pool, e.index, slot);
    }

    method RetireSlotRuntime(version: Text, consumer: Text, e: SlotEnvelope, currentRuntime: Text) returns (r: Outcome)
      requires |slots| == SLOT_COUNT
      modifies this
      ensures Performed(RetireRuntimePlan(codec, old(State()), version, consumer, e, currentRuntime), r)
    {
      if consumer == [] || e.nonce == [] || currentRuntime == e.runtime || |currentRuntime| != 32 ||
         e.index < 1 || e.index > SLOT_COUNT {
        return Failed(Installation);
      }
      if !manifest.Readable? {
        return Done;
      }
      var pool := manifest.pool;
      if pool.schema != POOL_SCHEMA || |pool.files| != SLOT_COUNT || pool.state != READY || pool.version != version {
        return Failed(Installation);
      }
      var slot := pool.files[e.index - 1];
      if slot.nonce != e.nonce {
        return Done;
      }
      if slot.consumer != consumer || slot.runtime != e.runtime {
        return Failed(RetirementConflict);
      }
      if slot.consumed {
        return Done;
      }
      if slot.retiredRuntime != [] && slot.retiredRuntime != currentRuntime {
        return Failed(RetirementConflict);
      }
      var hash := RetirementHash(e, slot);
      if hash.Err? {
        return Failed(hash.error);
      }
      slot := slot.(payloadHash := hash.value, pendingHash := [], retiredRuntime := currentRuntime);
      r := SaveEntry(pool, e.index, slot);
    }
  }
}
