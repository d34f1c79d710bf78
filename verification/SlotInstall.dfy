/** Installing the slot pool and migrating older pools to it (internal/delivery/slots.go),
    on values: directories of three generated files under one durable manifest. */
module SlotInstall {
  import opened Wrappers
  import opened Texts
  import opened SlotPayload
  import Durable
  import SlotProtocol

  type SlotFile = SlotProtocol.SlotFile

  /** NoSchema is the empty source schema of a pool that is not migrating. */
  datatype Schema = NoSchema | V1 | V2 | V3 | Migration3 | Migration4 | UnknownSchema

  datatype Phase = Ready | Installing | Upgrading | OtherState

  datatype Pool = Pool(
    schema: Schema, source: Schema, version: Text, pendingVersion: Text, state: Phase, files: seq<SlotFile>)

  datatype Interfaces = Current | Retail | Mailbox | Oldest

  datatype Transport = MailboxProtocol | MailboxV1 | MemoryV1 | MemoryV2 | MemoryV3

  /** The generated texts by what they are generated from; Raw is any other text. */
  datatype Content =
    | Toc(index: nat, version: Text, interfaces: Interfaces, transport: Transport)
    | Loader(loaderIndex: nat)
    | Raw(bytes: Text)

  datatype Name = TocFile | LoaderFile | PayloadFile

  /** Irregular covers redirected, special and oversized files. */
  datatype Entry = Gone | Irregular | Regular(content: Content)

  datatype Dir = NoDir | NotPlain | Plain(toc: Entry, loader: Entry, payload: Entry, others: nat)
  {
    function Get(name: Name): Entry
      requires Plain?
    {
      match name case TocFile => toc case LoaderFile => loader case PayloadFile => payload
    }

    function Set(name: Name, e: Entry): Dir
      requires Plain?
    {
      match name
      case TocFile => this.(toc := e)
      case LoaderFile => this.(loader := e)
      case PayloadFile => this.(payload := e)
    }

    function Count(): nat
      requires Plain?
    {
      (if toc.Gone? then 0 else 1) + (if loader.Gone? then 0 else 1) + (if payload.Gone? then 0 else 1) + others
    }
  }

  datatype Stored = Absent | Unreadable | Stored(pool: Pool)

  datatype Files = Files(manifest: Stored, slots: seq<Dir>)

  datatype Failure = Refused | Conflicting

  datatype Outcome = Done | Failed(failure: Failure) | Interrupted

  datatype Write = Save(pool: Pool) | Mkdir(index: int) | Put(slot: int, name: Name, content: Content)

  datatype Plan = Plan(writes: seq<Write>, result: Outcome)

  /** The digest of a text, and the orders in which one call visits the files of each slot: the map of
      the installation's pass and the map of the migration are ranged over separately. */
  datatype Context = Context(sum: Content -> Text, statics: nat -> seq<Name>, order: nat -> seq<Name>)

  ghost predicate Sound(c: Context) {
    && (forall x, y :: c.sum(x) == c.sum(y) ==> x == y)
    && (forall x {:trigger c.sum(x)} :: c.sum(x) != [])
    && (forall i, name :: name in c.order(i))
    && (forall i, name :: name in c.statics(i))
  }

  const INERT_CONTENT: Content := Raw(INERT)

  // ------------------------------------------------------------ durable steps

  function Apply(d: Files, w: Write): (r: Files)
    ensures |r.slots| == |d.slots|
  {
    match w
    case Save(pool) => d.(manifest := Stored(pool))
    case Mkdir(i) =>
      if 1 <= i <= |d.slots| && d.slots[i - 1].NoDir? then
        d.(slots := d.slots[i - 1 := Plain(Gone, Gone, Gone, 0)])
      else d
    case Put(i, name, content) =>
      if 1 <= i <= |d.slots| && d.slots[i - 1].Plain? then
        d.(slots := d.slots[i - 1 := d.slots[i - 1].Set(name, Regular(content))])
      else d
  }

  lemma {:induction false} SameSlotCount(d: Files, ws: seq<Write>)
    ensures |Durable.ApplyAll(Apply, d, ws).slots| == |d.slots|
    decreases |ws|
  {
    if ws != [] { SameSlotCount(Apply(d, ws[0]), ws[1..]); }
  }

  function ApplyAll(d: Files, ws: seq<Write>): (r: Files)
    ensures |r.slots| == |d.slots|
  {
    SameSlotCount(d, ws);
    Durable.ApplyAll(Apply, d, ws)
  }

  function Cut(d: Files, ws: seq<Write>, left: nat): (r: Files)
    ensures |r.slots| == |d.slots|
  {
    SameSlotCount(d, if left < |ws| then ws[..left] else ws);
    Durable.Cut(Apply, d, ws, left)
  }

  // ----------------------------------------------------------- generated texts

  function StaticFor(i: nat, version: Text, schema: Schema, name: Name): Content {
    match name
    case TocFile =>
      Toc(i, version, if schema == V3 then Current else Oldest,
          if schema == V1 then MemoryV1 else if schema == V2 then MemoryV2 else MailboxProtocol)
    case LoaderFile => Loader(i)
    case PayloadFile => INERT_CONTENT
  }

  /** slotStaticMatches: the declared interfaces and transport may be older ones. */
  predicate StaticMatches(name: Name, actual: Content, want: Content) {
    actual == want ||
    (name == TocFile && actual.Toc? && want.Toc? && actual.index == want.index && actual.version == want.version &&
     (actual.interfaces == want.interfaces || want.interfaces == Current) &&
     (actual.transport == want.transport ||
      (want.transport == MailboxProtocol && (actual.transport == MemoryV3 || actual.transport == MailboxV1))))
  }

  /** What an upgrade to this version writes. */
  function Wanted(i: nat, version: Text, name: Name): Content {
    StaticFor(i, version, V3, name)
  }

  // --------------------------------------------------------------- inspection

  predicate ValidShape(pool: Pool) {
    var n := |pool.files|;
    pool.version != [] &&
    match pool.schema
    case V3 => (n == SLOT_COUNT || n == 200) && pool.source == NoSchema
    case V1 => n == 64 && pool.state == Ready && pool.source == NoSchema
    case V2 => n == 200 && pool.state == Ready && pool.source == NoSchema
    case Migration3 => MigrationShape(pool)
    case Migration4 => MigrationShape(pool)
    case _ => false
  }

  predicate MigrationShape(pool: Pool) {
    var n := |pool.files|;
    pool.state == Upgrading && pool.pendingVersion != [] &&
    ((pool.source == V1 && n == 64) || (pool.source == V2 && n == 200) ||
     (pool.source == V3 && (n == 200 || n == SLOT_COUNT)))
  }

  predicate SlotIntact(c: Context, pool: Pool, i: nat, dir: Dir)
    requires 1 <= i <= |pool.files|
  {
    dir.Plain? && dir.Count() == 3 && dir.toc.Regular? && dir.loader.Regular? && dir.payload.Regular? &&
    StaticMatches(TocFile, dir.toc.content, StaticFor(i, pool.version, pool.schema, TocFile)) &&
    StaticMatches(LoaderFile, dir.loader.content, StaticFor(i, pool.version, pool.schema, LoaderFile)) &&
    (c.sum(dir.payload.content) == pool.files[i - 1].payloadHash ||
        c.sum(dir.payload.content) == pool.files[i - 1].pendingHash)
  }

  /** inspectSlotPool accepts. */
  predicate Intact(c: Context, pool: Pool, version: Text, slots: seq<Dir>) {
    pool.state == Ready && pool.version == version && |pool.files| <= |slots| &&
    forall k :: 0 <= k < |pool.files| ==> SlotIntact(c, pool, k + 1, slots[k])
  }

  /** InspectSlots accepts. */
  predicate Accepted(c: Context, d: Files, version: Text) {
    d.manifest.Stored? && ValidShape(d.manifest.pool) && d.manifest.pool.schema == V3 &&
    |d.manifest.pool.files| == SLOT_COUNT && Intact(c, d.manifest.pool, version, d.slots)
  }

  predicate Unresolved(pool: Pool) {
    exists k :: 0 <= k < |pool.files| && (pool.files[k].pendingHash != [] || pool.files[k].Reserved())
  }

  predicate NoneBeyond(slots: seq<Dir>, n: nat) {
    forall k :: n <= k < |slots| ==> slots[k].NoDir?
  }

  // ------------------------------------------------------------------ migration

  predicate EntryAccepted(c: Context, pool: Pool, version: Text, i: nat, name: Name, e: Entry)
    requires 1 <= i
  {
    var existing := i <= |pool.files|;
    match e
    case Gone => !existing
    case Irregular => false
    case Regular(content) =>
      var hash := c.sum(content);
      var previous := StaticFor(i, pool.version, pool.source, name);
      var legacy := StaticFor(i, version, pool.source, name);
      var migrating := pool.schema == Migration4 && name != PayloadFile;
      var allowed := if !existing then []
                     else if name == PayloadFile then pool.files[i - 1].payloadHash else c.sum(previous);
      var target := if existing && migrating then c.sum(legacy) else [];
      hash == c.sum(Wanted(i, version, name)) ||
      (allowed != [] &&
       (hash == allowed || hash == target || (name != PayloadFile && StaticMatches(name, content, previous)) ||
        (migrating && StaticMatches(name, content, legacy))))
  }

  predicate SlotAccepted(c: Context, pool: Pool, version: Text, i: nat, dir: Dir)
    requires 1 <= i
  {
    var existing := i <= |pool.files|;
    match dir
    case NoDir => !existing
    case NotPlain => false
    case Plain(toc, loader, payload, others) =>
      (existing ==> dir.Count() == 3) && others == 0 &&
      EntryAccepted(c, pool, version, i, TocFile, toc) &&
      EntryAccepted(c, pool, version, i, LoaderFile, loader) &&
      EntryAccepted(c, pool, version, i, PayloadFile, payload)
  }

  /** The validation before any replacement. */
  predicate AllAccepted(c: Context, pool: Pool, version: Text, slots: seq<Dir>) {
    forall k :: 0 <= k < |slots| ==> SlotAccepted(c, pool, version, k + 1, slots[k])
  }

  function Mkdirs(slots: seq<Dir>, i: nat): seq<Write>
    requires 1 <= i
    decreases |slots| - i
  {
    if i > |slots| then []
    else (if slots[i - 1].NoDir? then [Mkdir(i)] else []) + Mkdirs(slots, i + 1)
  }

  predicate Outdated(c: Context, version: Text, i: nat, name: Name, dir: Dir) {
    dir.Plain? && dir.Get(name).Regular? ==> c.sum(dir.Get(name).content) != c.sum(Wanted(i, version, name))
  }

  function SlotPuts(c: Context, version: Text, i: nat, dir: Dir, names: seq<Name>): seq<Write> {
    if names == [] then []
    else
      (if Outdated(c, version, i, names[0], dir) then [Put(i, names[0], Wanted(i, version, names[0]))] else []) +
      SlotPuts(c, version, i, dir, names[1..])
  }

  function Puts(c: Context, version: Text, slots: seq<Dir>, i: nat): seq<Write>
    requires 1 <= i
    decreases |slots| - i
  {
    if i > |slots| then []
    else SlotPuts(c, version, i, slots[i - 1], c.order(i)) + Puts(c, version, slots, i + 1)
  }

  function FreshFile(c: Context): SlotFile {
    SlotProtocol.SlotFile(c.sum(INERT_CONTENT), [], [], [], [], false, [], false)
  }

  function FinalPool(c: Context, version: Text): Pool {
    Pool(V3, NoSchema, version, [], Ready, seq(SLOT_COUNT, (k: nat) => FreshFile(c)))
  }

  function Intent(pool: Pool, version: Text): Pool {
    pool.(state := Upgrading, pendingVersion := version, source := pool.schema, schema := Migration4)
  }

  /** The second half of upgradeSlotPool, once the intent is durable. */
  function MigratePlan(c: Context, d: Files, pool: Pool, version: Text): Plan {
    if pool.state != Upgrading || pool.pendingVersion != version then Plan([], Failed(Conflicting))
    else
      var adopted := if pool.schema == Migration3 then pool.(schema := Migration4) else pool;
      var saves := if pool.schema == Migration3 then [Save(adopted)] else [];
      if Unresolved(adopted) then Plan(saves, Failed(Conflicting))
      else if !AllAccepted(c, adopted, version, d.slots) then Plan(saves, Failed(Refused))
      else
        Plan(saves + (Mkdirs(d.slots, 1) + (Puts(c, version, d.slots, 1) + [Save(FinalPool(c, version))])), Done)
  }

  /** upgradeSlotPool. */
  function UpgradePlan(c: Context, d: Files, pool: Pool, version: Text): Plan {
    if pool.state != Ready then MigratePlan(c, d, pool, version)
    else if !Intact(c, pool, pool.version, d.slots) then Plan([], Failed(Refused))
    else if Unresolved(pool) then Plan([], Failed(Conflicting))
    else if !NoneBeyond(d.slots, |pool.files|) then Plan([], Failed(Refused))
    else
      var intent := Intent(pool, version);
      var rest := MigratePlan(c, d, intent, version);
      Plan([Save(intent)] + rest.writes, rest.result)
  }

  // --------------------------------------------------------------- installation

  datatype Verdict = Continue | Migrate | Refuse

  /** What one slot's checks lead to: its writes, its directory afterwards and the verdict. */
  datatype SlotStep = SlotStep(writes: seq<Write>, dir: Dir, verdict: Verdict)

  function StaticStep(c: Context, pool: Pool, i: nat, dir: Dir, names: seq<Name>): (r: SlotStep)
    requires dir.Plain?
    ensures r.dir.Plain?
    decreases |names|
  {
    if names == [] then SlotStep([], dir, Continue)
    else if names[0] == PayloadFile then StaticStep(c, pool, i, dir, names[1..])
    else
      var want := StaticFor(i, pool.version, pool.schema, names[0]);
      match dir.Get(names[0])
      case Regular(actual) =>
        if c.sum(actual) == c.sum(want) then StaticStep(c, pool, i, dir, names[1..])
        else SlotStep([], dir, if pool.state == Ready && StaticMatches(names[0], actual, want) then Migrate else Refuse)
      case Irregular => SlotStep([], dir, Refuse)
      case Gone =>
        if pool.state != Installing then SlotStep([], dir, Refuse)
        else
          var rest := StaticStep(c, pool, i, dir.Set(names[0], Regular(want)), names[1..]);
          rest.(writes := [Put(i, names[0], want)] + rest.writes)
  }

  function ExpectedPayload(c: Context, f: SlotFile): Text {
    if f.payloadHash == [] then c.sum(INERT_CONTENT) else f.payloadHash
  }

  function PayloadStep(c: Context, pool: Pool, i: nat, dir: Dir): SlotStep
    requires dir.Plain? && 1 <= i <= |pool.files|
  {
    var expected := ExpectedPayload(c, pool.files[i - 1]);
    match dir.payload
    case Irregular => SlotStep([], dir, Refuse)
    case Gone =>
      if pool.state != Installing then SlotStep([], dir, Refuse)
      else
        var after := dir.Set(PayloadFile, Regular(INERT_CONTENT));
        SlotStep([Put(i, PayloadFile, INERT_CONTENT)], after,
                 if c.sum(INERT_CONTENT) == expected && after.Count() == 3 then Continue else Refuse)
    case Regular(actual) =>
      SlotStep([], dir, if c.sum(actual) == expected && dir.Count() == 3 then Continue else Refuse)
  }

  function OneSlot(c: Context, pool: Pool, i: nat, dir: Dir): SlotStep
    requires 1 <= i <= |pool.files|
  {
    if dir.NotPlain? then SlotStep([], dir, Refuse)
    else
      var made := if dir.NoDir? then [Mkdir(i)] else [];
      var begun := if dir.NoDir? then Plain(Gone, Gone, Gone, 0) else dir;
      var statics := StaticStep(c, pool, i, begun, c.statics(i));
      if statics.verdict != Continue then statics.(writes := made + statics.writes)
      else
        var last := PayloadStep(c, pool, i, statics.dir);
        last.(writes := made + (statics.writes + last.writes))
  }

  function WithHash(c: Context, pool: Pool, i: nat): (r: Pool)
    requires 1 <= i <= |pool.files|
    ensures |r.files| == |pool.files|
  {
    pool.(files := pool.files[i - 1 := pool.files[i - 1].(payloadHash := ExpectedPayload(c, pool.files[i - 1]))])
  }

  predicate Outmoded(pool: Pool, version: Text) {
    pool.schema != V3 || pool.version != version || |pool.files| != SLOT_COUNT
  }

  /** installSlotPool's pass over the slots from i on, then the save that makes it ready. */
  function SlotsPlan(c: Context, d: Files, pool: Pool, version: Text, i: nat): Plan
    requires 1 <= i <= |pool.files| + 1
    decreases |pool.files| + 1 - i
  {
    if i > |pool.files| then
      var ready := pool.(state := Ready);
      if Outmoded(pool, version) then
        var rest := UpgradePlan(c, Apply(d, Save(ready)), ready, version);
        Plan([Save(ready)] + rest.writes, rest.result)
      else Plan([Save(ready)], Done)
    else if i > |d.slots| then Plan([], Failed(Refused))
    else
      var step := OneSlot(c, pool, i, d.slots[i - 1]);
      var d1 := ApplyAll(d, step.writes);
      match step.verdict
      case Refuse => Plan(step.writes, Failed(Refused))
      case Migrate =>
        var rest := UpgradePlan(c, d1, pool, version);
        Plan(step.writes + rest.writes, rest.result)
      case Continue =>
        var rest := SlotsPlan(c, d1, WithHash(c, pool, i), version, i + 1);
        Plan(step.writes + rest.writes, rest.result)
  }

  /** What comes after one slot's own writes. */
  ghost function After(c: Context, e: Files, pool: Pool, version: Text, i: nat, verdict: Verdict): seq<Write>
    requires 1 <= i <= |pool.files|
  {
    match verdict
    case Refuse => []
    case Migrate => UpgradePlan(c, e, pool, version).writes
    case Continue => SlotsPlan(c, e, WithHash(c, pool, i), version, i + 1).writes
  }

  lemma SlotsUnfold(c: Context, d: Files, pool: Pool, version: Text, i: nat)
    requires 1 <= i <= |pool.files| && i <= |d.slots|
    ensures var step := OneSlot(c, pool, i, d.slots[i - 1]);
            var e := ApplyAll(d, step.writes);
            var p := SlotsPlan(c, d, pool, version, i);
            && p.writes == step.writes + After(c, e, pool, version, i, step.verdict)
            && p.result == match step.verdict
                 case Refuse => Failed(Refused)
                 case Migrate => UpgradePlan(c, e, pool, version).result
                 case Continue => SlotsPlan(c, e, WithHash(c, pool, i), version, i + 1).result
  {
    var step := OneSlot(c, pool, i, d.slots[i - 1]);
    assert step.writes + [] == step.writes;
  }

  function NewPool(version: Text): Pool {
    Pool(V3, NoSchema, version, [], Installing,
         seq(SLOT_COUNT, (k: nat) => SlotProtocol.SlotFile([], [], [], [], [], false, [], false)))
  }

  /** installSlotPool. */
  function InstallPlan(c: Context, d: Files, version: Text): Plan {
    match d.manifest
    case Unreadable => Plan([], Failed(Refused))
    case Absent =>
      if !NoneBeyond(d.slots, 0) then Plan([], Failed(Refused))
      else
        var rest := SlotsPlan(c, Apply(d, Save(NewPool(version))), NewPool(version), version, 1);
        Plan([Save(NewPool(version))] + rest.writes, rest.result)
    case Stored(pool) =>
      if !ValidShape(pool) then Plan([], Failed(Refused))
      else if pool.state == Upgrading || (pool.state == Ready && Outmoded(pool, version)) then
        UpgradePlan(c, d, pool, version)
      else if pool.state != Ready && pool.state != Installing then Plan([], Failed(Refused))
      else SlotsPlan(c, d, pool, version, 1)
  }
}
