/** Reset of the slot pool (internal/delivery/slot_reset.go), on values: the originals are
    archived whole, then an initial pool is installed, under one intent with three phases. */
module SlotReset {
  import opened Wrappers
  import opened Texts
  import opened SlotPayload
  import opened SlotInstall
  import opened SlotInstallProofs
  import Durable
  import Replacement

  type Receipt = Replacement.Receipt

  datatype Stage = Archiving | Populating | Settled

  /** One recorded digest per slot path and one for the marker; empty means absent. */
  datatype Intent = Intent(
    parent: Text, archive: Text, version: Text, stage: Stage, receipt: Receipt, slots: seq<Text>, marker: Text)

  /** `extra`: the archive holds a name that no member has. */
  datatype Disk = Disk(source: Files, archive: Option<Files>, extra: bool, intent: Option<Intent>)

  datatype Outcome = Complete | Rejected | Died

  datatype Write =
    | CreateIntent(intent: Intent)
    | MakeArchive
    | MoveSlot(index: int)
    | MoveMarker
    | SaveStage(stage: Stage)
    | Pooled(write: SlotInstall.Write)

  datatype Steps = Steps(writes: seq<Write>, result: Outcome)

  /** Content digests of a slot directory and of the marker; None where a link or a special
      file makes the content unreadable. `valid` is the digest format. */
  datatype Digests = Digests(dir: Dir -> Option<Text>, marker: Stored -> Option<Text>, valid: Text -> bool)

  ghost predicate Faithful(g: Digests) {
    && (forall x {:trigger g.dir(x)} :: g.dir(x).Some? ==> g.dir(x).value != [] && g.valid(g.dir(x).value))
    && (forall x {:trigger g.marker(x)} :: g.marker(x).Some? ==> g.marker(x).value != [] && g.valid(g.marker(x).value))
  }

  datatype Call = Call(parent: Text, archive: Text, version: Text, receipt: Receipt)

  function NoFiles(): Files {
    Files(Absent, seq(SLOT_COUNT, (k: nat) => NoDir))
  }

  predicate Sized(d: Disk) {
    |d.source.slots| == SLOT_COUNT && (d.archive.Some? ==> |d.archive.value.slots| == SLOT_COUNT)
  }

  function Apply(d: Disk, w: Write): Disk {
    match w
    case CreateIntent(intent) => if d.intent.None? then d.(intent := Some(intent)) else d
    case MakeArchive => if d.archive.None? then d.(archive := Some(NoFiles())) else d
    case MoveSlot(i) =>
      if d.archive.Some? && 1 <= i <= |d.source.slots| && i <= |d.archive.value.slots| &&
         !d.source.slots[i - 1].NoDir? && d.archive.value.slots[i - 1].NoDir? then
        var a := d.archive.value;
        d.(source := d.source.(slots := d.source.slots[i - 1 := NoDir]),
           archive := Some(a.(slots := a.slots[i - 1 := d.source.slots[i - 1]])))
      else d
    case MoveMarker =>
      if d.archive.Some? && !d.source.manifest.Absent? && d.archive.value.manifest.Absent? then
        d.(source := d.source.(manifest := Absent), archive := Some(d.archive.value.(manifest := d.source.manifest)))
      else d
    case SaveStage(stage) => if d.intent.Some? then d.(intent := Some(d.intent.value.(stage := stage))) else d
    case Pooled(p) => d.(source := SlotInstall.Apply(d.source, p))
  }

  function ApplyAll(d: Disk, ws: seq<Write>): Disk {
    Durable.ApplyAll(Apply, d, ws)
  }

  function Cut(d: Disk, ws: seq<Write>, left: nat): Disk {
    Durable.Cut(Apply, d, ws, left)
  }

  // --------------------------------------------------------------------- checks

  predicate AllDigested(g: Digests, f: Files) {
    (forall k :: 0 <= k < |f.slots| ==> f.slots[k].NoDir? || g.dir(f.slots[k]).Some?) &&
    (f.manifest.Absent? || g.marker(f.manifest).Some?)
  }

  function DirDigest(g: Digests, dir: Dir): Text {
    if dir.NoDir? || g.dir(dir).None? then [] else g.dir(dir).value
  }

  function MarkerDigest(g: Digests, m: Stored): Text {
    if m.Absent? || g.marker(m).None? then [] else g.marker(m).value
  }

  function NewIntent(g: Digests, d: Disk, call: Call): Intent {
    Intent(call.parent, call.archive, call.version, Archiving, call.receipt,
           seq(|d.source.slots|, k requires 0 <= k < |d.source.slots| => DirDigest(g, d.source.slots[k])),
           MarkerDigest(g, d.source.manifest))
  }

  predicate ValidDigest(g: Digests, t: Text) {
    t == [] || g.valid(t)
  }

  /** validSlotResetIntent. */
  predicate ValidIntent(g: Digests, n: Intent, call: Call) {
    n.parent == call.parent && n.archive == call.archive && n.version == call.version && n.receipt == call.receipt &&
    |n.slots| == SLOT_COUNT && (forall k :: 0 <= k < |n.slots| ==> ValidDigest(g, n.slots[k])) &&
        ValidDigest(g, n.marker)
  }

  /** checkSlotResetArchiveNames. */
  predicate ArchiveNames(d: Disk, n: Intent)
    requires Sized(d) && d.archive.Some? && |n.slots| == SLOT_COUNT
  {
    !d.extra && (forall k :: 0 <= k < SLOT_COUNT ==> d.archive.value.slots[k].NoDir? || n.slots[k] != []) &&
    (d.archive.value.manifest.Absent? || n.marker != [])
  }

  predicate DirChecked(g: Digests, stage: Stage, digest: Text, s: Dir, t: Dir) {
    if stage == Archiving then
      if digest == [] then s.NoDir? && t.NoDir?
      else s.NoDir? != t.NoDir? && g.dir(if s.NoDir? then t else s) == Some(digest)
    else if t.NoDir? then digest == [] else g.dir(t) == Some(digest)
  }

  predicate MarkerChecked(g: Digests, stage: Stage, digest: Text, s: Stored, t: Stored) {
    if stage == Archiving then
      if digest == [] then s.Absent? && t.Absent?
      else s.Absent? != t.Absent? && g.marker(if s.Absent? then t else s) == Some(digest)
    else if t.Absent? then digest == [] else g.marker(t) == Some(digest)
  }

  predicate MembersChecked(g: Digests, d: Disk, n: Intent)
    requires Sized(d) && d.archive.Some? && |n.slots| == SLOT_COUNT
  {
    (forall k :: 0 <= k < SLOT_COUNT ==> DirChecked(g, n.stage, n.slots[k], d.source.slots[k],
        d.archive.value.slots[k])) &&
    MarkerChecked(g, n.stage, n.marker, d.source.manifest, d.archive.value.manifest)
  }

  // ------------------------------------------------------------------- operation

  function SlotMoves(d: Disk, n: Intent, i: nat): seq<Write>
    requires Sized(d) && |n.slots| == SLOT_COUNT && 1 <= i <= SLOT_COUNT + 1
    decreases |n.slots| + 1 - i
  {
    if i > SLOT_COUNT then []
    else
      (if n.slots[i - 1] == [] || d.source.slots[i - 1].NoDir? then [] else [MoveSlot(i)]) + SlotMoves(d, n, i + 1)
  }

  function MarkerMoves(d: Disk, n: Intent): seq<Write> {
    if n.marker == [] || d.source.manifest.Absent? then [] else [MoveMarker]
  }

  function PoolWrites(ws: seq<SlotInstall.Write>): (r: seq<Write>)
    ensures |r| == |ws|
  {
    if ws == [] then [] else [Pooled(ws[0])] + PoolWrites(ws[1..])
  }

  /** From the "installing" stage on. */
  function PopulatePlan(c: Context, d: Disk, version: Text): Steps {
    var p := InstallPlan(c, d.source, version);
    if p.result != Done then Steps(PoolWrites(p.writes), Rejected)
    else
      Steps(PoolWrites(p.writes) + [SaveStage(Settled)],
            if Accepted(c, SlotInstall.ApplyAll(d.source, p.writes), version) then Complete else Rejected)
  }

  function ArchivePlan(c: Context, d: Disk, n: Intent, version: Text): Steps
    requires Sized(d) && |n.slots| == SLOT_COUNT
  {
    var moves := SlotMoves(d, n, 1) + (MarkerMoves(d, n) + [SaveStage(Populating)]);
    var rest := PopulatePlan(c, ApplyAll(d, moves), version);
    Steps(moves + rest.writes, rest.result)
  }

  function CheckedPlan(c: Context, g: Digests, d: Disk, n: Intent, version: Text): Steps
    requires Sized(d) && d.archive.Some? && |n.slots| == SLOT_COUNT
  {
    if !ArchiveNames(d, n) || !MembersChecked(g, d, n) then Steps([], Rejected)
    else
      match n.stage
      case Archiving => ArchivePlan(c, d, n, version)
      case Populating => PopulatePlan(c, d, version)
      case Settled => Steps([], if Accepted(c, d.source, version) then Complete else Rejected)
  }

  function ResumePlan(c: Context, g: Digests, d: Disk, call: Call, n: Intent): Steps
    requires Sized(d)
  {
    if !ValidIntent(g, n, call) then Steps([], Rejected)
    else if d.archive.Some? then CheckedPlan(c, g, d, n, call.version)
    else
      var rest := CheckedPlan(c, g, Apply(d, MakeArchive), n, call.version);
      Steps([MakeArchive] + rest.writes, rest.result)
  }

  /** ResetAddonSlots, beneath a clean managed main addon with the call's receipt. */
  function ResetPlan(c: Context, g: Digests, d: Disk, call: Call): Steps
    requires Sized(d)
  {
    match d.intent
    case Some(n) => ResumePlan(c, g, d, call, n)
    case None =>
      if d.archive.Some? || !AllDigested(g, d.source) then Steps([], Rejected)
      else
        var n := NewIntent(g, d, call);
        var rest := ResumePlan(c, g, Apply(d, CreateIntent(n)), call, n);
        Steps([CreateIntent(n)] + rest.writes, rest.result)
  }

  // ------------------------------------------------------------ the exact states

  /** Nothing archived yet; every member present can be digested. */
  predicate Original(g: Digests, d: Disk) {
    Sized(d) && d.archive.None? && !d.extra && d.intent.None? && AllDigested(g, d.source)
  }

  /** d with its first s members archived: 500 slots, then the marker. */
  function Staged(d: Disk, n: Intent, s: nat): (e: Disk)
    requires Sized(d)
    ensures Sized(e)
  {
    Disk(
      Files(if s > SLOT_COUNT then Absent else d.source.manifest,
            seq(SLOT_COUNT, k requires 0 <= k < SLOT_COUNT => if k < s then NoDir else d.source.slots[k])),
      Some(Files(if s > SLOT_COUNT then d.source.manifest else Absent,
                 seq(SLOT_COUNT, k requires 0 <= k < SLOT_COUNT => if k < s then d.source.slots[k] else NoDir))),
      false, Some(n))
  }

  /** The originals are archived and the new pool is being installed, or is installed. */
  ghost predicate Replacing(c: Context, d: Disk, n: Intent, version: Text, e: Disk) {
    && e == Disk(e.source, Some(d.source), false, Some(n.(stage := Populating)))
    && SlotInstallProofs.Phase(c, version, e.source) && Own(c, version, e.source)
  }

  predicate Replaced(c: Context, d: Disk, n: Intent, version: Text, e: Disk) {
    e == Disk(e.source, Some(d.source), false, Some(n.(stage := Settled))) && Finished(c, version, e.source)
  }

  /** Everything a run of interrupted resets of d may leave. */
  ghost predicate Reachable(c: Context, g: Digests, d: Disk, call: Call, e: Disk)
    requires Sized(d)
  {
    var n := NewIntent(g, d, call);
    e == d || e == d.(intent := Some(n)) || (exists s :: 0 <= s <= SLOT_COUNT + 1 && e == Staged(d, n, s)) ||
    Replacing(c, d, n, call.version, e) || Replaced(c, d, n, call.version, e)
  }
}
