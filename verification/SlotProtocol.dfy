/** The per-slot reservation protocol (internal/delivery/slots.go, slot_retirement.go
    and the allocation hint of slot_route.go), on values: what every operation plans
    to write, and what a process that dies part-way leaves behind. */
module SlotProtocol {
  import opened Wrappers
  import opened Texts
  import opened SlotPayload
  import Durable

  const POOL_SCHEMA: Text := "lycheedev.slots.v3"
  const READY: Text := "ready"

  /** Empty texts stand for absent fields, as in the stored manifest. */
  datatype SlotFile = SlotFile(
    payloadHash: Text, pendingHash: Text, nonce: Text, runtime: Text, consumer: Text,
    consumed: bool, retiredRuntime: Text, retiredProcess: bool)
  {
    predicate Spent() {
      consumed || retiredRuntime != [] || retiredProcess
    }

    predicate Reserved() {
      nonce != [] && !Spent()
    }
  }

  datatype SlotPool = SlotPool(schema: Text, version: Text, state: Text, files: seq<SlotFile>)

  /** Malformed covers undecodable bytes and shapes no schema admits. */
  datatype Manifest = Missing | Malformed | Readable(pool: SlotPool)

  /** `plain`: an ordinary directory; `exact`: three files whose static two match. */
  datatype SlotDir = SlotDir(plain: bool, exact: bool, payload: Option<Text>)

  datatype Disk = Disk(manifest: Manifest, slots: seq<SlotDir>)

  /** SHA-256 and the payload printer. */
  datatype Codec = Codec(sum: Text -> Text, printer: SlotEnvelope -> Result<Text, PayloadError>)

  datatype Error = Installation | Unreadable | Conflict | SlotReserved | RetirementConflict | Print(PayloadError)

  datatype Outcome = Done | Failed(error: Error) | Interrupted

  /** One durable replacement of one file. */
  datatype Write = SaveManifest(pool: SlotPool) | ReplacePayload(index: int, bytes: Text)

  datatype Plan = Plan(writes: seq<Write>, result: Outcome)

  ghost predicate Sound(k: Codec) {
    && (forall b {:trigger k.sum(b)} :: k.sum(b) != [])
    && (forall e {:trigger k.printer(e)} :: k.printer(e).Ok? ==> |e.nonce| == 32)
  }

  ghost predicate Injective(k: Codec) {
    forall a, b :: k.sum(a) == k.sum(b) ==> a == b
  }

  /** The printer of SlotPayload meets the hypothesis on printers. */
  lemma RealPrinterSound(sum: Text -> Text)
    requires forall b :: sum(b) != []
    ensures Sound(Codec(sum, Payload))
  {
  }

  // ------------------------------------------------------------ durable steps

  function Apply(d: Disk, w: Write): (r: Disk)
    ensures |r.slots| == |d.slots|
  {
    match w
    case SaveManifest(pool) => d.(manifest := Readable(pool))
    case ReplacePayload(i, b) =>
      if 1 <= i <= |d.slots| then d.(slots := d.slots[i - 1 := d.slots[i - 1].(payload := Some(b))]) else d
  }

  lemma {:induction false} SameSlotCount(d: Disk, ws: seq<Write>)
    ensures |Durable.ApplyAll(Apply, d, ws).slots| == |d.slots|
    decreases |ws|
  {
    if ws != [] { SameSlotCount(Apply(d, ws[0]), ws[1..]); }
  }

  function ApplyAll(d: Disk, ws: seq<Write>): (r: Disk)
    ensures |r.slots| == |d.slots|
  {
    SameSlotCount(d, ws);
    Durable.ApplyAll(Apply, d, ws)
  }

  /** The disk after a process that could perform only `left` writes. */
  function Cut(d: Disk, ws: seq<Write>, left: nat): (r: Disk)
    ensures |r.slots| == |d.slots|
  {
    SameSlotCount(d, if left < |ws| then ws[..left] else ws);
    Durable.Cut(Apply, d, ws, left)
  }

  lemma CutThree(d: Disk, w0: Write, w1: Write, w2: Write, left: nat)
    ensures Cut(d, [w0, w1, w2], left) ==
            if left == 0 then d
            else if left == 1 then Apply(d, w0)
            else if left == 2 then Apply(Apply(d, w0), w1)
            else Apply(Apply(Apply(d, w0), w1), w2)
  {
    var ws := [w0, w1, w2];
    assert ws[..0] == [] && ws[..1] == [w0] && ws[..2] == [w0] + [w1] && ws == [w0] + ([w1] + [w2]);
    Durable.ApplyOne(Apply, d, w0);
    Durable.ApplyAppend(Apply, d, [w0], [w1]);
    Durable.ApplyAppend(Apply, d, [w0], [w1] + [w2]);
    Durable.ApplyOne(Apply, Apply(d, w0), w1);
    Durable.ApplyAppend(Apply, Apply(d, w0), [w1], [w2]);
    Durable.ApplyOne(Apply, Apply(Apply(d, w0), w1), w2);
  }

  function Reported(p: Plan, left: nat): Outcome {
    if left < |p.writes| then Interrupted else p.result
  }

  // --------------------------------------------------------------- inspection

  predicate Current(d: Disk, version: Text) {
    d.manifest.Readable? && d.manifest.pool.schema == POOL_SCHEMA && |d.manifest.pool.files| == SLOT_COUNT &&
    d.manifest.pool.state == READY && d.manifest.pool.version == version && |d.slots| == SLOT_COUNT
  }

  function SlotProblem(k: Codec, file: SlotFile, dir: SlotDir): Option<Error> {
    if !dir.plain || !dir.exact then Some(Installation)
    else
      match dir.payload
      case None => Some(Unreadable)
      case Some(b) => if k.sum(b) != file.payloadHash && k.sum(b) != file.pendingHash then Some(Installation) else None
  }

  function FirstProblem(k: Codec, files: seq<SlotFile>, slots: seq<SlotDir>, i: nat): Option<Error>
    requires |files| == |slots| && i <= |files|
    decreases |files| - i
  {
    if i == |files| then None
    else
      match SlotProblem(k, files[i], slots[i])
      case Some(e) => Some(e)
      case None => FirstProblem(k, files, slots, i + 1)
  }

  function Inspect(k: Codec, d: Disk, version: Text): Option<Error> {
    if !Current(d, version) then Some(Installation)
    else FirstProblem(k, d.manifest.pool.files, d.slots, 0)
  }

  // --------------------------------------------------------------- operations

  function Refuse(e: Error): Plan {
    Plan([], Failed(e))
  }

  function WithFile(pool: SlotPool, i: int, f: SlotFile): (r: SlotPool)
    requires 1 <= i <= |pool.files|
  {
    pool.(files := pool.files[i - 1 := f])
  }

  function Pending(f: SlotFile, consumer: Text, e: SlotEnvelope, hash: Text): SlotFile {
    f.(pendingHash := hash, retiredRuntime := [], retiredProcess := false, nonce := e.nonce,
       runtime := e.runtime, consumer := consumer, consumed := false)
  }

  function Settled(f: SlotFile, hash: Text): SlotFile {
    f.(payloadHash := hash, pendingHash := [])
  }

  predicate Foreign(f: SlotFile, consumer: Text, e: SlotEnvelope) {
    f.Reserved() && (f.nonce != e.nonce || f.consumer != consumer || f.runtime != e.runtime)
  }

  predicate ChangedIntent(f: SlotFile, e: SlotEnvelope, hash: Text) {
    f.nonce == e.nonce &&
    ((f.pendingHash != [] && f.pendingHash != hash) || (f.pendingHash == [] && f.payloadHash != hash))
  }

  function PublishPlan(k: Codec, d: Disk, version: Text, consumer: Text, e: SlotEnvelope): Plan {
    var problem := Inspect(k, d, version);
    if problem.Some? then Refuse(problem.value)
    else
      var pool := d.manifest.pool;
      if e.schema != SLOT_SCHEMA || e.index < 1 || e.index > |pool.files| || consumer == [] then Refuse(Installation)
      else
        var f := pool.files[e.index - 1];
        if Foreign(f, consumer, e) then Refuse(SlotReserved)
        else
          match k.printer(e)
          case Err(error) => Refuse(Print(error))
          case Ok(b) =>
            var hash := k.sum(b);
            if ChangedIntent(f, e, hash) then Refuse(Conflict)
            else if f.nonce == e.nonce && f.payloadHash == hash && f.pendingHash == [] then Plan([], Done)
            else
              var pending := Pending(f, consumer, e, hash);
              Plan([SaveManifest(WithFile(pool, e.index, pending)), ReplacePayload(e.index, b),
                    SaveManifest(WithFile(pool, e.index, Settled(pending, hash)))], Done)
  }

  /** VerifySlotPublication: read-only. */
  function VerifyOutcome(k: Codec, d: Disk, version: Text, consumer: Text, e: SlotEnvelope): Outcome {
    var problem := Inspect(k, d, version);
    if problem.Some? then Failed(problem.value)
    else if e.schema != SLOT_SCHEMA || e.index < 1 || e.index > SLOT_COUNT || consumer == [] then Failed(Installation)
    else
      var f := d.manifest.pool.files[e.index - 1];
      match k.printer(e)
      case Err(error) => Failed(Print(error))
      case Ok(b) =>
        if f.nonce != e.nonce || f.runtime != e.runtime || f.consumer != consumer || f.pendingHash != [] ||
           f.Spent() || f.payloadHash != k.sum(b) then Failed(Conflict) else Done
  }

  function ConfirmPlan(k: Codec, d: Disk, version: Text, consumer: Text, index: int, nonce: Text): Plan {
    var problem := Inspect(k, d, version);
    if problem.Some? then Refuse(problem.value)
    else
      var pool := d.manifest.pool;
      if index < 1 || index > |pool.files| then Refuse(Installation)
      else if nonce == [] || consumer == [] then Refuse(Conflict)
      else
        var f := pool.files[index - 1];
        if f.nonce != nonce then Plan([], Done)
        else if f.consumer != consumer || f.pendingHash != [] then Refuse(Conflict)
        else Plan([SaveManifest(WithFile(pool, index, f.(consumed := true)))], Done)
  }

  /** What a retirement does with the slot once the record names it. */
  function Reconcile(k: Codec, d: Disk, e: SlotEnvelope, f: SlotFile): Result<SlotFile, Error>
    requires 1 <= e.index <= |d.slots|
  {
    var dir := d.slots[e.index - 1];
    if !dir.plain then Err(Installation)
    else
      match dir.payload
      case None => Err(Unreadable)
      case Some(b) =>
        if k.sum(b) != f.payloadHash && k.sum(b) != f.pendingHash then Err(Installation)
        else Ok(Settled(f, k.sum(b)))
  }

  function RetireProcessPlan(k: Codec, d: Disk, version: Text, consumer: Text, e: SlotEnvelope): Plan {
    if consumer == [] || e.index < 1 || e.index > SLOT_COUNT || e.nonce == [] then Refuse(Installation)
    else if !d.manifest.Readable? then Plan([], Done)
    else if !Current(d, version) then Refuse(Installation)
    else
      var f := d.manifest.pool.files[e.index - 1];
      if f.nonce != e.nonce then Plan([], Done)
      else if f.consumer != consumer || f.runtime != e.runtime then Refuse(RetirementConflict)
      else if f.consumed || f.retiredProcess then Plan([], Done)
      else
        match Reconcile(k, d, e, f)
        case Err(error) => Refuse(error)
        case Ok(settled) =>
          Plan([SaveManifest(WithFile(d.manifest.pool, e.index, settled.(retiredProcess := true)))], Done)
  }

  function RetireRuntimePlan(k: Codec, d: Disk, version: Text, consumer: Text, e: SlotEnvelope, current: Text): Plan {
    if consumer == [] || e.nonce == [] || current == e.runtime || |current| != 32 || e.index < 1 || e.index > SLOT_COUNT
    then Refuse(Installation)
    else if !d.manifest.Readable? then Plan([], Done)
    else if !Current(d, version) then Refuse(Installation)
    else
      var f := d.manifest.pool.files[e.index - 1];
      if f.nonce != e.nonce then Plan([], Done)
      else if f.consumer != consumer || f.runtime != e.runtime then Refuse(RetirementConflict)
      else if f.consumed then Plan([], Done)
      else if f.retiredRuntime != [] && f.retiredRuntime != current then Refuse(RetirementConflict)
      else
        match Reconcile(k, d, e, f)
        case Err(error) => Refuse(error)
        case Ok(settled) =>
          Plan([SaveManifest(WithFile(d.manifest.pool, e.index, settled.(retiredRuntime := current)))], Done)
  }

  // --------------------------------------------------------------------- runs

  datatype Op =
    | Publish(version: Text, consumer: Text, envelope: SlotEnvelope)
    | Confirm(version: Text, consumer: Text, index: int, nonce: Text)
    | RetireProcess(version: Text, consumer: Text, envelope: SlotEnvelope)
    | RetireRuntime(version: Text, consumer: Text, envelope: SlotEnvelope, current: Text)

  function PlanOf(k: Codec, d: Disk, op: Op): Plan {
    match op
    case Publish(v, c, e) => PublishPlan(k, d, v, c, e)
    case Confirm(v, c, i, n) => ConfirmPlan(k, d, v, c, i, n)
    case RetireProcess(v, c, e) => RetireProcessPlan(k, d, v, c, e)
    case RetireRuntime(v, c, e, r) => RetireRuntimePlan(k, d, v, c, e, r)
  }

  function Step(k: Codec, d: Disk, op: Op, left: nat): Disk {
    Cut(d, PlanOf(k, d, op).writes, left)
  }

  /** Operations one after another, each by a process that dies after so many writes. */
  function Run(k: Codec, d: Disk, ops: seq<(Op, nat)>): Disk
    decreases |ops|
  {
    if ops == [] then d else Run(k, Step(k, d, ops[0].0, ops[0].1), ops[1..])
  }

  // -------------------------------------------------------------- invariants

  ghost predicate SlotInv(k: Codec, f: SlotFile, dir: SlotDir) {
    && dir.payload.Some?
    && (k.sum(dir.payload.value) == f.payloadHash || k.sum(dir.payload.value) == f.pendingHash)
    && (f.pendingHash != [] ==> f.Reserved())
  }

  /** A ready pool in which every payload file is one its record names, and every
      pending hash belongs to a live reservation. */
  ghost predicate Inv(k: Codec, d: Disk) {
    && d.manifest.Readable?
    && |d.manifest.pool.files| == |d.slots| == SLOT_COUNT
    && forall i :: 0 <= i < SLOT_COUNT ==> SlotInv(k, d.manifest.pool.files[i], d.slots[i])
  }
}

/** What every run of the reservation protocol keeps. */
module SlotProtocolProofs {
  import opened Wrappers
  import opened Texts
  import opened SlotPayload
  import opened SlotProtocol
  import Durable

  // --------------------------------------------------- shapes of the plans

  /** Every plan is empty, one manifest save at one slot, or a publication. */
  ghost predicate PlanShape(k: Codec, d: Disk, op: Op, p: Plan) {
    || p.writes == []
    || (exists i, f :: OneSave(k, d, p, op, i, f))
    || (op.Publish? && exists b :: Publication(k, d, p, op, b))
  }

  ghost predicate OneSave(k: Codec, d: Disk, p: Plan, op: Op, i: int, f: SlotFile) {
    d.manifest.Readable? && |d.manifest.pool.files| == |d.slots| == SLOT_COUNT && 1 <= i <= SLOT_COUNT &&
    p.writes == [SaveManifest(WithFile(d.manifest.pool, i, f))] &&
    Allowed(k, op, i, d.manifest.pool.files[i - 1], d.slots[i - 1], f)
  }

  /** The two ways a record is settled without a publication. */
  ghost predicate Allowed(k: Codec, op: Op, i: int, was: SlotFile, dir: SlotDir, now: SlotFile) {
    match op
    case Publish(_, _, _) => false
    case Confirm(_, c, index, n) =>
      index == i && was.nonce == n && was.consumer == c && was.pendingHash == [] && now == was.(consumed := true)
    case RetireProcess(_, c, e) =>
      e.index == i && was.nonce == e.nonce && was.consumer == c && dir.payload.Some? &&
      now == Settled(was, k.sum(dir.payload.value)).(retiredProcess := true)
    case RetireRuntime(_, c, e, r) =>
      e.index == i && was.nonce == e.nonce && was.consumer == c && r != [] && dir.payload.Some? &&
      now == Settled(was, k.sum(dir.payload.value)).(retiredRuntime := r)
  }

  ghost predicate Publication(k: Codec, d: Disk, p: Plan, op: Op, b: Text)
    requires op.Publish?
  {
    var e := op.envelope;
    d.manifest.Readable? && |d.manifest.pool.files| == |d.slots| == SLOT_COUNT && 1 <= e.index <= SLOT_COUNT &&
    k.printer(e) == Ok(b) &&
    (var f := d.manifest.pool.files[e.index - 1];
     var pending := Pending(f, op.consumer, e, k.sum(b));
     !Foreign(f, op.consumer, e) && !ChangedIntent(f, e, k.sum(b)) &&
     !(f.nonce == e.nonce && f.payloadHash == k.sum(b) && f.pendingHash == []) &&
     p.writes == [SaveManifest(WithFile(d.manifest.pool, e.index, pending)), ReplacePayload(e.index, b),
                  SaveManifest(WithFile(d.manifest.pool, e.index, Settled(pending, k.sum(b))))])
  }

  lemma ShapeOfPlan(k: Codec, d: Disk, op: Op)
    ensures PlanShape(k, d, op, PlanOf(k, d, op))
  {
    var p := PlanOf(k, d, op);
    if p.writes != [] {
      match op
      case Publish(v, c, e) =>
        assert Publication(k, d, p, op, k.printer(e).value);
      case Confirm(v, c, i, n) =>
        assert OneSave(k, d, p, op, i, d.manifest.pool.files[i - 1].(consumed := true));
      case RetireProcess(v, c, e) =>
        var f := d.manifest.pool.files[e.index - 1];
        assert OneSave(k, d, p, op, e.index, Reconcile(k, d, e, f).value.(retiredProcess := true));
      case RetireRuntime(v, c, e, r) =>
        var f := d.manifest.pool.files[e.index - 1];
        assert OneSave(k, d, p, op, e.index, Reconcile(k, d, e, f).value.(retiredRuntime := r));
    }
  }

  /** The four disks a publication can leave. */
  lemma CutPublication(d: Disk, m: SlotPool, i: int, b: Text, n: SlotPool, left: nat)
    ensures Cut(d, [SaveManifest(m), ReplacePayload(i, b), SaveManifest(n)], left) ==
            if left == 0 then d
            else if left == 1 then Apply(d, SaveManifest(m))
            else if left == 2 then Apply(Apply(d, SaveManifest(m)), ReplacePayload(i, b))
            else Apply(Apply(d, ReplacePayload(i, b)), SaveManifest(n))
  {
    CutThree(d, SaveManifest(m), ReplacePayload(i, b), SaveManifest(n), left);
  }

  /** A one-slot view of a step: other slots keep record and payload. */
  ghost predicate Elsewhere(d: Disk, r: Disk, i: int)
    requires d.manifest.Readable? && |d.manifest.pool.files| == |d.slots| == SLOT_COUNT
  {
    r.manifest.Readable? && |r.manifest.pool.files| == |r.slots| == SLOT_COUNT &&
    r.manifest.pool == d.manifest.pool.(files := r.manifest.pool.files) &&
    (forall j :: 0 <= j < SLOT_COUNT && j != i - 1 ==>
      r.manifest.pool.files[j] == d.manifest.pool.files[j] && r.slots[j] == d.slots[j]) &&
    (1 <= i <= SLOT_COUNT ==> r.slots[i - 1] == d.slots[i - 1].(payload := r.slots[i - 1].payload))
  }

  /** What a step can make of one record and its payload file. */
  ghost predicate SlotStep(k: Codec, op: Op, i: int, f: SlotFile, dir: SlotDir, g: SlotFile, now: SlotDir) {
    || (g == f && now == dir)
    || (now == dir && Allowed(k, op, i, f, dir, g))
    || (op.Publish? && op.envelope.index == i && PublishStep(k, op, f, dir, g, now))
  }

  ghost predicate PublishStep(k: Codec, op: Op, f: SlotFile, dir: SlotDir, g: SlotFile, now: SlotDir)
    requires op.Publish?
  {
    var e := op.envelope;
    k.printer(e).Ok? &&
    (var b := k.printer(e).value;
     var pending := Pending(f, op.consumer, e, k.sum(b));
     !Foreign(f, op.consumer, e) && !ChangedIntent(f, e, k.sum(b)) &&
     !(f.nonce == e.nonce && f.payloadHash == k.sum(b) && f.pendingHash == []) &&
     ((g == pending && (now == dir || now == dir.(payload := Some(b)))) ||
      (g == Settled(pending, k.sum(b)) && now == dir.(payload := Some(b)))))
  }

  ghost predicate WellSized(d: Disk) {
    d.manifest.Readable? && |d.manifest.pool.files| == |d.slots| == SLOT_COUNT
  }

  /** Every step, cut anywhere, changes at most one slot, in one of the listed ways. */
  lemma StepShape(k: Codec, d: Disk, op: Op, left: nat) returns (i: int)
    requires WellSized(d)
    ensures 1 <= i <= SLOT_COUNT && Elsewhere(d, Step(k, d, op, left), i)
    ensures SlotStep(k, op, i, d.manifest.pool.files[i - 1], d.slots[i - 1],
                     Step(k, d, op, left).manifest.pool.files[i - 1], Step(k, d, op, left).slots[i - 1])
  {
    var p := PlanOf(k, d, op);
    ShapeOfPlan(k, d, op);
    if p.writes == [] {
      i := 1;
    } else if op.Publish? {
      i := StepShapePublish(k, d, op, left);
    } else {
      var j, f :| OneSave(k, d, p, op, j, f);
      i := j;
      Durable.CutOne(Apply, d, p.writes[0], left);
    }
  }

  lemma StepShapePublish(k: Codec, d: Disk, op: Op, left: nat) returns (i: int)
    requires WellSized(d) && op.Publish?
    requires PlanOf(k, d, op).writes != []
    ensures 1 <= i <= SLOT_COUNT && Elsewhere(d, Step(k, d, op, left), i)
    ensures SlotStep(k, op, i, d.manifest.pool.files[i - 1], d.slots[i - 1],
                     Step(k, d, op, left).manifest.pool.files[i - 1], Step(k, d, op, left).slots[i - 1])
  {
    var p := PlanOf(k, d, op);
    ShapeOfPlan(k, d, op);
    i := op.envelope.index;
    var b :| Publication(k, d, p, op, b);
    var pending := Pending(d.manifest.pool.files[i - 1], op.consumer, op.envelope, k.sum(b));
    CutPublication(d, WithFile(d.manifest.pool, i, pending), i, b,
                   WithFile(d.manifest.pool, i, Settled(pending, k.sum(b))), left);
  }

  // ---------------------------------------------- payloads match their records

  lemma PublishStepKeepsInv(k: Codec, op: Op, f: SlotFile, dir: SlotDir, g: SlotFile, now: SlotDir)
    requires Sound(k) && op.Publish?
    requires SlotInv(k, f, dir) && PublishStep(k, op, f, dir, g, now)
    ensures SlotInv(k, g, now)
  {
    var e := op.envelope;
    assert |e.nonce| == 32;
    if f.pendingHash != [] {
      assert f.nonce == e.nonce;
    }
  }

  lemma SlotStepKeepsInv(k: Codec, op: Op, i: int, f: SlotFile, dir: SlotDir, g: SlotFile, now: SlotDir)
    requires Sound(k)
    requires SlotInv(k, f, dir) && SlotStep(k, op, i, f, dir, g, now)
    ensures SlotInv(k, g, now)
  {
    if op.Publish? && op.envelope.index == i && PublishStep(k, op, f, dir, g, now) {
      PublishStepKeepsInv(k, op, f, dir, g, now);
    }
  }

  lemma StepKeepsInv(k: Codec, d: Disk, op: Op, left: nat)
    requires Sound(k) && Inv(k, d)
    ensures Inv(k, Step(k, d, op, left))
  {
    var i := StepShape(k, d, op, left);
    var r := Step(k, d, op, left);
    SlotStepKeepsInv(k, op, i, d.manifest.pool.files[i - 1], d.slots[i - 1], r.manifest.pool.files[i - 1],
        r.slots[i - 1]);
    forall j | 0 <= j < SLOT_COUNT
      ensures SlotInv(k, r.manifest.pool.files[j], r.slots[j])
    {
      if j != i - 1 {
        assert SlotInv(k, d.manifest.pool.files[j], d.slots[j]);
      }
    }
  }

  /** In every state of every run of publish, confirm and both retirements, with a
      death after any single durable write, each payload is one its record names and
      a pending hash belongs to a reservation neither consumed nor retired. */
  lemma {:induction false} RunKeepsInv(k: Codec, d: Disk, ops: seq<(Op, nat)>)
    requires Sound(k) && Inv(k, d)
    ensures Inv(k, Run(k, d, ops))
    decreases |ops|
  {
    if ops != [] {
      StepKeepsInv(k, d, ops[0].0, ops[0].1);
      RunKeepsInv(k, Step(k, d, ops[0].0, ops[0].1), ops[1..]);
    }
  }

  // ------------------------------------------- a verified publication is held

  /** The slot's record and bytes after a successful verification. */
  ghost predicate Held(k: Codec, d: Disk, i: int, consumer: Text, nonce: Text, runtime: Text, bytes: Text) {
    && WellSized(d) && 1 <= i <= SLOT_COUNT && nonce != []
    && d.slots[i - 1].payload == Some(bytes)
    && (var f := d.manifest.pool.files[i - 1];
        f.nonce == nonce && f.runtime == runtime && f.consumer == consumer && f.pendingHash == [] &&
        !f.Spent() && f.payloadHash == k.sum(bytes))
  }

  /** A confirmation or retirement that names this slot, consumer and nonce. */
  predicate Names(op: Op, i: int, consumer: Text, nonce: Text) {
    match op
    case Publish(_, _, _) => false
    case Confirm(_, c, index, n) => index == i && c == consumer && n == nonce
    case RetireProcess(_, c, e) => e.index == i && c == consumer && e.nonce == nonce
    case RetireRuntime(_, c, e, _) => e.index == i && c == consumer && e.nonce == nonce
  }

  lemma FirstProblemNone(k: Codec, files: seq<SlotFile>, slots: seq<SlotDir>, i: nat, j: nat)
    requires |files| == |slots| && i <= j < |files|
    requires FirstProblem(k, files, slots, i) == None
    ensures SlotProblem(k, files[j], slots[j]) == None
    decreases j - i
  {
    if i < j { FirstProblemNone(k, files, slots, i + 1, j); }
  }

  /** A successful verification means the file holds exactly the printed envelope. */
  lemma VerifiedIsHeld(k: Codec, d: Disk, version: Text, consumer: Text, e: SlotEnvelope)
    requires Sound(k) && Injective(k)
    requires VerifyOutcome(k, d, version, consumer, e) == Done
    ensures k.printer(e).Ok?
    ensures Held(k, d, e.index, consumer, e.nonce, e.runtime, k.printer(e).value)
  {
    FirstProblemNone(k, d.manifest.pool.files, d.slots, 0, e.index - 1);
    assert |e.nonce| == 32;
  }

  lemma HeldStep(k: Codec, d: Disk, op: Op, left: nat, i: int, consumer: Text, nonce: Text, runtime: Text, bytes: Text)
    requires Held(k, d, i, consumer, nonce, runtime, bytes)
    requires !Names(op, i, consumer, nonce)
    ensures Held(k, Step(k, d, op, left), i, consumer, nonce, runtime, bytes)
  {
    var j := StepShape(k, d, op, left);
  }

  ghost predicate NoneNames(ops: seq<(Op, nat)>, i: int, consumer: Text, nonce: Text) {
    forall m :: 0 <= m < |ops| ==> !Names(ops[m].0, i, consumer, nonce)
  }

  lemma {:induction false} HeldRun(k: Codec, d: Disk, ops: seq<(Op, nat)>, i: int, consumer: Text, nonce: Text,
      runtime: Text, bytes: Text)
    requires Held(k, d, i, consumer, nonce, runtime, bytes)
    requires NoneNames(ops, i, consumer, nonce)
    ensures Held(k, Run(k, d, ops), i, consumer, nonce, runtime, bytes)
    decreases |ops|
  {
    if ops != [] {
      HeldStep(k, d, ops[0].0, ops[0].1, i, consumer, nonce, runtime, bytes);
      HeldRun(k, Step(k, d, ops[0].0, ops[0].1), ops[1..], i, consumer, nonce, runtime, bytes);
    }
  }

  /** From a successful verification until a confirmation or retirement naming that
      consumer and nonce, no run changes the slot's bytes, and whoever verifies the
      slot afterwards has the same consumer, nonce, runtime and printed bytes. */
  lemma VerifiedUntilNamed(k: Codec, d: Disk, v: Text, consumer: Text, e: SlotEnvelope, ops: seq<(Op, nat)>,
                           v': Text, consumer': Text, e': SlotEnvelope)
    requires Sound(k) && Injective(k)
    requires VerifyOutcome(k, d, v, consumer, e) == Done
    requires NoneNames(ops, e.index, consumer, e.nonce)
    ensures 1 <= e.index <= |Run(k, d, ops).slots| == |d.slots|
    ensures Run(k, d, ops).slots[e.index - 1].payload == d.slots[e.index - 1].payload == Some(k.printer(e).value)
    ensures VerifyOutcome(k, Run(k, d, ops), v', consumer', e') == Done && e'.index == e.index ==>
              consumer' == consumer && e'.nonce == e.nonce && e'.runtime == e.runtime &&
              k.printer(e') == k.printer(e)
  {
    VerifiedIsHeld(k, d, v, consumer, e);
    HeldRun(k, d, ops, e.index, consumer, e.nonce, e.runtime, k.printer(e).value);
    if VerifyOutcome(k, Run(k, d, ops), v', consumer', e') == Done && e'.index == e.index {
      VerifiedIsHeld(k, Run(k, d, ops), v', consumer', e');
    }
  }

  // ---------------------------------------------- a spent nonce stays spent

  ghost predicate SpentWith(d: Disk, i: int, nonce: Text) {
    WellSized(d) && 1 <= i <= SLOT_COUNT && d.manifest.pool.files[i - 1].nonce == nonce &&
    d.manifest.pool.files[i - 1].Spent() && d.manifest.pool.files[i - 1].pendingHash == []
  }

  ghost predicate Holds(d: Disk, i: int, nonce: Text) {
    WellSized(d) && 1 <= i <= SLOT_COUNT && d.manifest.pool.files[i - 1].nonce == nonce
  }

  lemma SpentStep(k: Codec, d: Disk, op: Op, left: nat, i: int, nonce: Text)
    requires SpentWith(d, i, nonce)
    ensures Holds(Step(k, d, op, left), i, nonce) ==> SpentWith(Step(k, d, op, left), i, nonce)
  {
    var j := StepShape(k, d, op, left);
  }

  /** Every disk a run passes through still names the nonce in that slot. */
  ghost predicate HoldsThroughout(k: Codec, d: Disk, ops: seq<(Op, nat)>, i: int, nonce: Text)
    decreases |ops|
  {
    Holds(d, i, nonce) &&
    (ops != [] ==> HoldsThroughout(k, Step(k, d, ops[0].0, ops[0].1), ops[1..], i, nonce))
  }

  lemma {:induction false} SpentRun(k: Codec, d: Disk, ops: seq<(Op, nat)>, i: int, nonce: Text)
    requires SpentWith(d, i, nonce) && HoldsThroughout(k, d, ops, i, nonce)
    ensures SpentWith(Run(k, d, ops), i, nonce)
    decreases |ops|
  {
    if ops != [] {
      SpentStep(k, d, ops[0].0, ops[0].1, i, nonce);
      SpentRun(k, Step(k, d, ops[0].0, ops[0].1), ops[1..], i, nonce);
    }
  }

  /** While a record holds a consumed or retired nonce, no run - republications of
      that nonce included - makes it verify again, for any consumer or runtime. */
  lemma SpentNeverVerifies(k: Codec, d: Disk, ops: seq<(Op, nat)>, v: Text, consumer: Text, e: SlotEnvelope)
    requires Inv(k, d) && Holds(d, e.index, e.nonce) && d.manifest.pool.files[e.index - 1].Spent()
    requires HoldsThroughout(k, d, ops, e.index, e.nonce)
    ensures VerifyOutcome(k, Run(k, d, ops), v, consumer, e) != Done
  {
    assert SlotInv(k, d.manifest.pool.files[e.index - 1], d.slots[e.index - 1]);
    SpentRun(k, d, ops, e.index, e.nonce);
  }

  // ------------------------------------------------- publication and recovery

  /** Every directory still passes the static checks. */
  ghost predicate Clean(d: Disk) {
    forall i :: 0 <= i < |d.slots| ==> d.slots[i].plain && d.slots[i].exact
  }

  lemma {:induction false} CleanInspects(k: Codec, files: seq<SlotFile>, slots: seq<SlotDir>, i: nat)
    requires |files| == |slots| && i <= |files|
    requires forall j :: 0 <= j < |slots| ==> slots[j].plain && slots[j].exact && SlotInv(k, files[j], slots[j])
    ensures FirstProblem(k, files, slots, i) == None
    decreases |files| - i
  {
    if i < |files| {
      CleanInspects(k, files, slots, i + 1);
    }
  }

  lemma InspectClean(k: Codec, d: Disk, version: Text)
    requires Inv(k, d) && Clean(d) && Current(d, version)
    ensures Inspect(k, d, version) == None
  {
    CleanInspects(k, d.manifest.pool.files, d.slots, 0);
  }

  /** A completed publication verifies exactly when the record was not already spent
      on the same nonce: republishing a spent nonce reports success without effect. */
  lemma PublishedVerifies(k: Codec, d: Disk, version: Text, consumer: Text, e: SlotEnvelope)
    requires Sound(k) && Inv(k, d) && Clean(d)
    requires PublishPlan(k, d, version, consumer, e).result == Done
    ensures 1 <= e.index <= SLOT_COUNT && WellSized(d)
    ensures VerifyOutcome(k, Step(k, d, Publish(version, consumer, e), 3), version, consumer, e) == Done <==>
            !(d.manifest.pool.files[e.index - 1].nonce == e.nonce && d.manifest.pool.files[e.index - 1].Spent())
  {
    var op := Publish(version, consumer, e);
    var r := Step(k, d, op, 3);
    var p := PlanOf(k, d, op);
    StepKeepsInv(k, d, op, 3);
    var j := StepShape(k, d, op, 3);
    if p.writes != [] {
      ShapeOfPlan(k, d, op);
      var b :| Publication(k, d, p, op, b);
      var pending := Pending(d.manifest.pool.files[e.index - 1], consumer, e, k.sum(b));
      CutPublication(d, WithFile(d.manifest.pool, e.index, pending), e.index, b,
                     WithFile(d.manifest.pool, e.index, Settled(pending, k.sum(b))), 3);
    }
    StaysClean(d, r, j);
    InspectClean(k, r, version);
    assert SlotInv(k, d.manifest.pool.files[e.index - 1], d.slots[e.index - 1]);
    assert |e.nonce| == 32;
  }

  /** An admissible envelope for a slot with no live reservation and another nonce is published. */
  lemma FreeSlotPublishes(k: Codec, d: Disk, version: Text, consumer: Text, e: SlotEnvelope)
    requires Inv(k, d) && Clean(d) && Current(d, version)
    requires e.schema == SLOT_SCHEMA && 1 <= e.index <= SLOT_COUNT && consumer != [] && k.printer(e).Ok?
    requires !d.manifest.pool.files[e.index - 1].Reserved() && d.manifest.pool.files[e.index - 1].nonce != e.nonce
    ensures PublishPlan(k, d, version, consumer, e).result == Done
  {
    InspectClean(k, d, version);
  }

  lemma ConfirmedIsSpent(k: Codec, d: Disk, version: Text, consumer: Text, e: SlotEnvelope)
    requires Sound(k) && VerifyOutcome(k, d, version, consumer, e) == Done
    ensures WellSized(d) && 1 <= e.index <= SLOT_COUNT
    ensures Step(k, d, Confirm(version, consumer, e.index, e.nonce), 1) ==
            Apply(d, SaveManifest(WithFile(d.manifest.pool, e.index,
                                           d.manifest.pool.files[e.index - 1].(consumed := true))))
  {
    assert |e.nonce| == 32;
    Durable.CutOne(Apply, d, PlanOf(k, d, Confirm(version, consumer, e.index, e.nonce)).writes[0], 1);
  }

  /** The failing runs: publish a nonce to a free slot, confirm it and publish it again. The last call
      reports success without a write, and the publication it reports does not verify. */
  lemma RepublishedIsLost(k: Codec, d: Disk, version: Text, consumer: Text, e: SlotEnvelope)
    requires Sound(k) && Inv(k, d) && Clean(d) && Current(d, version)
    requires e.schema == SLOT_SCHEMA && 1 <= e.index <= SLOT_COUNT && consumer != [] && k.printer(e).Ok?
    requires !d.manifest.pool.files[e.index - 1].Reserved() && d.manifest.pool.files[e.index - 1].nonce != e.nonce
    ensures var publish, confirm := Publish(version, consumer, e), Confirm(version, consumer, e.index, e.nonce);
            var r := Run(k, d, [(publish, 3), (confirm, 1)]);
            && PlanOf(k, r, publish) == Plan([], Done)
            && VerifyOutcome(k, Run(k, d, [(publish, 3), (confirm, 1), (publish, 3)]), version, consumer, e) != Done
  {
    var publish, confirm := Publish(version, consumer, e), Confirm(version, consumer, e.index, e.nonce);
    FreeSlotPublishes(k, d, version, consumer, e);
    PublishedVerifies(k, d, version, consumer, e);
    var once := Step(k, d, publish, 3);
    var i := StepShape(k, d, publish, 3);
    StaysClean(d, once, i);
    StepKeepsInv(k, d, publish, 3);
    ConfirmedIsSpent(k, once, version, consumer, e);
    var r := Step(k, once, confirm, 1);
    StepKeepsInv(k, once, confirm, 1);
    InspectClean(k, r, version);
    RunTwo(k, d, publish, confirm);
    RunThree(k, d, publish, confirm, publish);
  }

  lemma RunCons(k: Codec, d: Disk, op: Op, left: nat, rest: seq<(Op, nat)>)
    ensures Run(k, d, [(op, left)] + rest) == Run(k, Step(k, d, op, left), rest)
  {
    var ops := [(op, left)] + rest;
    assert ops[0].0 == op && ops[0].1 == left && ops[1..] == rest;
  }

  lemma RunTwo(k: Codec, d: Disk, a: Op, b: Op)
    ensures Run(k, d, [(a, 3), (b, 1)]) == Step(k, Step(k, d, a, 3), b, 1)
  {
    RunCons(k, d, a, 3, [(b, 1)]);
    RunCons(k, Step(k, d, a, 3), b, 1, []);
    assert [(a, 3), (b, 1)] == [(a, 3 as nat)] + [(b, 1)] && [(b, 1 as nat)] + [] == [(b, 1)];
  }

  lemma RunThree(k: Codec, d: Disk, a: Op, b: Op, c: Op)
    ensures Run(k, d, [(a, 3), (b, 1), (c, 3)]) == Step(k, Step(k, Step(k, d, a, 3), b, 1), c, 3)
  {
    RunCons(k, d, a, 3, [(b, 1), (c, 3)]);
    RunTwoFrom(k, Step(k, d, a, 3), b, c);
    assert [(a, 3), (b, 1), (c, 3)] == [(a, 3 as nat)] + [(b, 1), (c, 3)];
  }

  lemma RunTwoFrom(k: Codec, d: Disk, b: Op, c: Op)
    ensures Run(k, d, [(b, 1), (c, 3)]) == Step(k, Step(k, d, b, 1), c, 3)
  {
    RunCons(k, d, b, 1, [(c, 3)]);
    RunCons(k, Step(k, d, b, 1), c, 3, []);
    assert [(b, 1), (c, 3)] == [(b, 1 as nat)] + [(c, 3)] && [(c, 3 as nat)] + [] == [(c, 3)];
  }

  lemma StaysClean(d: Disk, r: Disk, i: int)
    requires WellSized(d) && Clean(d) && Elsewhere(d, r, i) && 1 <= i <= SLOT_COUNT
    ensures Clean(r)
  {
    forall j | 0 <= j < |r.slots|
      ensures r.slots[j].plain && r.slots[j].exact
    {
      assert d.slots[j].plain && d.slots[j].exact;
    }
  }

  lemma PublicationOf(k: Codec, d: Disk, version: Text, consumer: Text, e: SlotEnvelope) returns (b: Text)
    requires PublishPlan(k, d, version, consumer, e).writes != []
    ensures Publication(k, d, PublishPlan(k, d, version, consumer, e), Publish(version, consumer, e), b)
  {
    var op := Publish(version, consumer, e);
    ShapeOfPlan(k, d, op);
    b :| Publication(k, d, PlanOf(k, d, op), op, b);
  }

  /** With its own pending record on disk, the publication plans the same writes again. */
  lemma ReplannedPending(k: Codec, d: Disk, r: Disk, version: Text, consumer: Text, e: SlotEnvelope, b: Text)
    requires Sound(k) && Inv(k, r) && Clean(r) && Current(r, version)
    requires PublishPlan(k, d, version, consumer, e).writes != []
    requires Publication(k, d, PublishPlan(k, d, version, consumer, e), Publish(version, consumer, e), b)
    requires r.manifest == Readable(WithFile(d.manifest.pool, e.index,
                                             Pending(d.manifest.pool.files[e.index - 1], consumer, e, k.sum(b))))
    ensures PublishPlan(k, r, version, consumer, e).writes == PublishPlan(k, d, version, consumer, e).writes
  {
    InspectClean(k, r, version);
    PendingTwice(d.manifest.pool, e.index, d.manifest.pool.files[e.index - 1], consumer, e, k.sum(b));
  }

  /** With its settled record on disk, the publication plans nothing more. */
  lemma ReplannedSettled(k: Codec, d: Disk, r: Disk, version: Text, consumer: Text, e: SlotEnvelope, b: Text)
    requires Sound(k) && Inv(k, r) && Clean(r) && Current(r, version)
    requires PublishPlan(k, d, version, consumer, e).writes != []
    requires Publication(k, d, PublishPlan(k, d, version, consumer, e), Publish(version, consumer, e), b)
    requires r.manifest == Readable(WithFile(d.manifest.pool, e.index,
                                             Settled(Pending(d.manifest.pool.files[e.index - 1], consumer, e,
                                                 k.sum(b)), k.sum(b))))
    ensures PublishPlan(k, r, version, consumer, e).writes == []
  {
    InspectClean(k, r, version);
  }

  lemma TwicePayload(d: Disk, i: int, b: Text, m: SlotPool, n: SlotPool)
    requires 1 <= i <= |d.slots|
    ensures var once := Apply(d, SaveManifest(m));
            Apply(Apply(once, ReplacePayload(i, b)), SaveManifest(n)) ==
                Apply(Apply(d, ReplacePayload(i, b)), SaveManifest(n))
    ensures var twice := Apply(Apply(d, SaveManifest(m)), ReplacePayload(i, b));
            Apply(Apply(twice, ReplacePayload(i, b)), SaveManifest(n)) ==
                Apply(Apply(d, ReplacePayload(i, b)), SaveManifest(n))
  {
    var s := d.slots[i - 1].(payload := Some(b));
    assert d.slots[i - 1 := s][i - 1 := s] == d.slots[i - 1 := s];
  }

  /** A publication cut anywhere and then repeated by the same consumer ends on the
      disk the uninterrupted publication would have left. */
  lemma PublicationResumes(k: Codec, d: Disk, version: Text, consumer: Text, e: SlotEnvelope, left: nat)
    requires Sound(k) && Inv(k, d) && Clean(d)
    requires PublishPlan(k, d, version, consumer, e).result == Done
    ensures var op := Publish(version, consumer, e);
            Step(k, Step(k, d, op, left), op, 3) == Step(k, d, op, 3)
  {
    var op := Publish(version, consumer, e);
    var r := Step(k, d, op, left);
    StepKeepsInv(k, d, op, left);
    var j := StepShape(k, d, op, left);
    StaysClean(d, r, j);
    if PublishPlan(k, d, version, consumer, e).writes != [] && left > 0 {
      var b := PublicationOf(k, d, version, consumer, e);
      var pending := Pending(d.manifest.pool.files[e.index - 1], consumer, e, k.sum(b));
      var m, n := WithFile(d.manifest.pool, e.index, pending),
          WithFile(d.manifest.pool, e.index, Settled(pending, k.sum(b)));
      CutPublication(d, m, e.index, b, n, left);
      CutPublication(d, m, e.index, b, n, 3);
      if left < 3 {
        ReplannedPending(k, d, r, version, consumer, e, b);
        CutPublication(r, m, e.index, b, n, 3);
        TwicePayload(d, e.index, b, m, n);
      } else {
        ReplannedSettled(k, d, r, version, consumer, e, b);
      }
    }
  }

  lemma PendingTwice(pool: SlotPool, i: int, f: SlotFile, consumer: Text, e: SlotEnvelope, hash: Text)
    requires 1 <= i <= |pool.files| && pool.files[i - 1] == f
    ensures var pending := Pending(f, consumer, e, hash);
            Pending(pending, consumer, e, hash) == pending &&
            (forall g :: WithFile(WithFile(pool, i, pending), i, g) == WithFile(pool, i, g))
  {
    var pending := Pending(f, consumer, e, hash);
    forall g ensures WithFile(WithFile(pool, i, pending), i, g) == WithFile(pool, i, g) {
      assert pool.files[i - 1 := pending][i - 1 := g] == pool.files[i - 1 := g];
    }
  }

  lemma RetirementSettles(k: Codec, d: Disk, version: Text, consumer: Text, e: SlotEnvelope)
    requires Inv(k, d) && Current(d, version) && 1 <= e.index <= SLOT_COUNT && d.slots[e.index - 1].plain
    requires consumer != [] && e.nonce != []
    requires var f := d.manifest.pool.files[e.index - 1];
             f.nonce == e.nonce && f.consumer == consumer && f.runtime == e.runtime && !f.consumed && !f.retiredProcess
    ensures var r := Step(k, d, RetireProcess(version, consumer, e), 1);
            WellSized(r) && r.slots == d.slots &&
            var f := r.manifest.pool.files[e.index - 1];
            f.retiredProcess && !f.Reserved() && f.pendingHash == [] && r.slots[e.index - 1].payload.Some? &&
            f.payloadHash == k.sum(r.slots[e.index - 1].payload.value)
  {
    assert SlotInv(k, d.manifest.pool.files[e.index - 1], d.slots[e.index - 1]);
    Durable.CutOne(Apply, d, PlanOf(k, d, RetireProcess(version, consumer, e)).writes[0], 1);
  }

  /** After a publication is cut anywhere, retiring its ended process settles the record on
      the bytes actually in the file, whichever they are, and frees the slot. */
  lemma RetirementSettlesTornPublication(k: Codec, d: Disk, version: Text, consumer: Text, e: SlotEnvelope, left: nat)
    requires Sound(k) && Inv(k, d) && Clean(d)
    requires PublishPlan(k, d, version, consumer, e).writes != []
    requires 0 < left
    ensures var torn := Step(k, d, Publish(version, consumer, e), left);
            var r := Step(k, torn, RetireProcess(version, consumer, e), 1);
            WellSized(r) && 1 <= e.index <= SLOT_COUNT && r.slots == torn.slots &&
            var f := r.manifest.pool.files[e.index - 1];
            f.retiredProcess && !f.Reserved() && f.pendingHash == [] && r.slots[e.index - 1].payload.Some? &&
            f.payloadHash == k.sum(r.slots[e.index - 1].payload.value)
  {
    var op := Publish(version, consumer, e);
    var torn := Step(k, d, op, left);
    StepKeepsInv(k, d, op, left);
    var j := StepShape(k, d, op, left);
    StaysClean(d, torn, j);
    var b := PublicationOf(k, d, version, consumer, e);
    var pending := Pending(d.manifest.pool.files[e.index - 1], consumer, e, k.sum(b));
    CutPublication(d, WithFile(d.manifest.pool, e.index, pending), e.index, b,
                   WithFile(d.manifest.pool, e.index, Settled(pending, k.sum(b))), left);
    assert |e.nonce| == 32;
    RetirementSettles(k, torn, version, consumer, e);
  }
}
