/** The journaled replacement of an installed tree and its cleanup
    (internal/delivery/upgrade.go and update.go), on values. */
module Replacement {
  import opened Wrappers
  import opened Texts
  import Durable

  /** Identity of a release's files: paths with their digests. */
  datatype Receipt = Receipt(version: Text, resources: map<Text, Text>)

  /** An installed directory: its receipt file, if any, and every other file's digest. */
  datatype Tree = Tree(receipt: Option<Receipt>, files: map<Text, Text>)

  datatype State = Absent | Unmanaged | Modified(receipt: Receipt) | Managed(receipt: Receipt)

  /** replacement.json and the cleanup marker. */
  datatype Record = Record(target: Text, previous: Receipt, next: Receipt)

  /** The recovery directory; `extra` are names the toolkit never creates there. */
  datatype Archive = Archive(previous: Option<Tree>, next: Option<Tree>, record: Option<Record>, locks: bool,
      extra: set<Text>)

  datatype Disk = Disk(target: Option<Tree>, archive: Option<Archive>, marker: Option<Record>)

  datatype Error = Conflict | Installation | Missing | RemoveFailed

  datatype Outcome = Done | Failed(error: Error) | Interrupted

  /** One removal that os.RemoveAll performs on its own. */
  datatype Deletion = File(name: Text) | ReceiptFile | PreviousDirectory | RecordFile | Locks | ArchiveDirectory

  /** The durable steps; the two moves are atomic renames that never replace. */
  datatype Write =
    | PublishArchive(archive: Archive)
    | MoveTargetToPrevious
    | MoveNextToTarget
    | InstallTarget(tree: Tree)
    | SaveMarker(record: Record)
    | Delete(deletion: Deletion)
    | RemoveMarker

  datatype Plan = Plan(writes: seq<Write>, result: Outcome)

  function Inspect(t: Option<Tree>): State {
    match t
    case None => Absent
    case Some(tree) =>
      match tree.receipt
      case None => Unmanaged
      case Some(r) => if tree.files == r.resources then Managed(r) else Modified(r)
  }

  function InstalledTree(r: Receipt): Tree {
    Tree(Some(r), r.resources)
  }

  function DeleteIn(a: Archive, x: Deletion): Option<Archive> {
    match x
    case File(name) =>
      Some(match a.previous case None => a case Some(t) => a.(previous := Some(t.(files := t.files - {name}))))
    case ReceiptFile =>
      Some(match a.previous case None => a case Some(t) => a.(previous := Some(t.(receipt := None))))
    case PreviousDirectory =>
      Some(if a.previous == Some(Tree(None, map[])) then a.(previous := None) else a)
    case RecordFile => Some(a.(record := None))
    case Locks => Some(a.(locks := false))
    case ArchiveDirectory =>
      if a == Archive(None, None, None, false, {}) then None else Some(a)
  }

  function Apply(d: Disk, w: Write): Disk {
    match w
    case PublishArchive(a) => if d.archive.None? then d.(archive := Some(a)) else d
    case MoveTargetToPrevious =>
      if d.target.Some? && d.archive.Some? && d.archive.value.previous.None? then
        d.(target := None, archive := Some(d.archive.value.(previous := d.target)))
      else d
    case MoveNextToTarget =>
      if d.target.None? && d.archive.Some? && d.archive.value.next.Some? then
        d.(target := d.archive.value.next, archive := Some(d.archive.value.(next := None)))
      else d
    case InstallTarget(t) => if d.target.None? then d.(target := Some(t)) else d
    case SaveMarker(r) => d.(marker := Some(r))
    case Delete(x) => if d.archive.Some? then d.(archive := DeleteIn(d.archive.value, x)) else d
    case RemoveMarker => d.(marker := None)
  }

  function ApplyAll(d: Disk, ws: seq<Write>): Disk {
    Durable.ApplyAll(Apply, d, ws)
  }

  function Cut(d: Disk, ws: seq<Write>, left: nat): Disk {
    Durable.Cut(Apply, d, ws, left)
  }

  // ------------------------------------------------------------ the operations

  /** resumeReplacement. */
  function ResumePlan(d: Disk, target: Text, record: Record): Plan {
    if record.target != target || d.archive.None? then Plan([], Failed(Installation))
    else
      var current, previous, next :=
        Inspect(d.target), Inspect(d.archive.value.previous), Inspect(d.archive.value.next);
      var oldValid := previous == Managed(record.previous);
      if oldValid && current == Managed(record.next) && next == Absent then Plan([], Done)
      else if next != Managed(record.next) then Plan([], Failed(Conflict))
      else if previous == Absent && current == Managed(record.previous) then
        Plan([MoveTargetToPrevious, MoveNextToTarget], Done)
      else if !oldValid || current != Absent then Plan([], Failed(Conflict))
      else Plan([MoveNextToTarget], Done)
  }

  /** UpgradeInstallation: publish the recovery directory whole, then resume it. */
  function UpgradePlan(d: Disk, target: Text, wanted: Receipt): Plan {
    var current := Inspect(d.target);
    if !current.Managed? || d.archive.Some? then Plan([], Failed(Conflict))
    else
      var record := Record(target, current.receipt, wanted);
      var archive := Archive(None, Some(InstalledTree(wanted)), Some(record), true, {});
      var rest := ResumePlan(Apply(d, PublishArchive(archive)), target, record);
      Plan([PublishArchive(archive)] + rest.writes, rest.result)
  }

  /** InstallFresh. */
  function InstallPlan(d: Disk, wanted: Receipt): Plan {
    var current := Inspect(d.target);
    if current == Managed(wanted) then Plan([], Done)
    else if current != Absent then Plan([], Failed(Conflict))
    else Plan([InstallTarget(InstalledTree(wanted))], Done)
  }

  function Deletions(order: seq<Deletion>): (ws: seq<Write>)
    ensures |ws| == |order|
    ensures forall i :: 0 <= i < |order| ==> ws[i] == Delete(order[i])
  {
    if order == [] then [] else [Delete(order[0])] + Deletions(order[1..])
  }

  /** The recursive delete in whatever order it visits, then the marker. */
  function RemovalPlan(d: Disk, order: seq<Deletion>): Plan {
    if d.archive.None? then Plan([RemoveMarker], Done)
    else if d.archive.value.next.Some? || d.archive.value.extra != {} then Plan([], Failed(Conflict))
    else if ApplyAll(d, Deletions(order)).archive.Some? then Plan(Deletions(order), Failed(RemoveFailed))
    else Plan(Deletions(order) + [RemoveMarker], Done)
  }

  /** discardReplacement. */
  function DiscardPlan(d: Disk, target: Text, wanted: Receipt, order: seq<Deletion>): Plan {
    if Inspect(d.target) != Managed(wanted) then Plan([], Failed(Conflict))
    else
      var journal := if d.marker.Some? then d.marker else if d.archive.Some? then d.archive.value.record else None;
      if journal.None? then Plan([], Failed(Missing))
      else if journal.value.target != target || journal.value.next != wanted then Plan([], Failed(Installation))
      else if d.marker.Some? then RemovalPlan(d, order)
      else
        var resumed := ResumePlan(d, target, journal.value);
        if resumed.result != Done then resumed
        else
          var d1 := Apply(ApplyAll(d, resumed.writes), SaveMarker(journal.value));
          var rest := RemovalPlan(d1, order);
          Plan(resumed.writes + [SaveMarker(journal.value)] + rest.writes, rest.result)
  }

  /** The record that selects an unfinished update of this target. */
  function PendingRecovery(d: Disk, target: Text): Option<Record> {
    var journal := if d.marker.Some? then d.marker else if d.archive.Some? then d.archive.value.record else None;
    if journal.Some? && journal.value.target == target then journal else None
  }

  /** The first half of one target of UpdateManaged: resume, clean up, install or upgrade. */
  function AdvancePlan(d: Disk, target: Text, wanted: Receipt, order: seq<Deletion>): Plan {
    var pending := PendingRecovery(d, target);
    if pending.Some? && pending.value.next != wanted then Plan([], Failed(Conflict))
    else if Inspect(d.target).Unmanaged? || Inspect(d.target).Modified? then Plan([], Failed(Conflict))
    else if d.marker.Some? then DiscardPlan(d, target, wanted, order)
    else if d.archive.Some? then
      match d.archive.value.record
      case None => Plan([], Failed(Missing))
      case Some(record) => ResumePlan(d, target, record)
    else
      var install := InstallPlan(d, wanted);
      if install.result == Failed(Conflict) then UpgradePlan(d, target, wanted) else install
  }

  /** One target of UpdateManaged. */
  function UpdatePlan(d: Disk, target: Text, wanted: Receipt, order: seq<Deletion>): Plan {
    var first := AdvancePlan(d, target, wanted, order);
    if first.result != Done then first
    else
      var d1 := ApplyAll(d, first.writes);
      if d1.archive.None? then first
      else
        var rest := DiscardPlan(d1, target, wanted, order);
        Plan(first.writes + rest.writes, rest.result)
  }
}
