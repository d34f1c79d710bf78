/** The capture archive (internal/evidence/archive.go), on values: immutable manifests in a
    metadata store, their blobs, and removal that first looks for references. */
module Archive {
  import opened Wrappers
  import opened Texts
  import opened Sorting
  import Durable

  const PAGE := 1000
  const PAGES := 100
  const CAPTURE: Text := "capture/"
  const KEEP: Text := "evidence/keep/"

  type Id = Text
  type Blob = Text

  datatype CaptureRef = CaptureRef(id: Id, blob: Blob, dependencies: seq<Id>, body: Text)

  /** A stored document: a capture manifest, a retention record, or anything else with the
      identifiers its text quotes. */
  datatype Value = Capture(ref: CaptureRef) | Keep(id: Id, blob: Blob) | Other(quotes: set<Id>)

  /** The metadata with its keys in order, and the blobs. */
  datatype Store = Store(docs: map<Text, Value>, listing: seq<Text>, blobs: set<Blob>)

  datatype Check = Hit | Miss | Fault

  /** The content digest of a manifest without its identifier, and the references that only a
      manifest's payload holds. */
  datatype Setting = Setting(digest: (Blob, seq<Id>, Text) -> Id, payload: (Value, CaptureRef) -> Check)

  datatype Outcome = Done | Rejected | Died

  datatype Write = AddBlob(blob: Blob) | AddDocument(key: Text, value: Value) | DeleteDocuments(keys: set<Text>)
      | RemoveBlob(blob: Blob)

  datatype Plan = Plan(writes: seq<Write>, result: Outcome)

  function CaptureKey(id: Id): Text {
    CAPTURE + id
  }

  function KeepKey(id: Id): Text {
    KEEP + id
  }

  // ------------------------------------------------------------- the metadata store

  function WithoutKeys(keys: seq<Text>, gone: set<Text>): seq<Text> {
    if keys == [] then []
    else (if keys[0] in gone then [] else [keys[0]]) + WithoutKeys(keys[1..], gone)
  }

  function Apply(s: Store, w: Write): Store {
    match w
    case AddBlob(b) => s.(blobs := s.blobs + {b})
    case AddDocument(key, value) => s.(docs := s.docs[key := value], listing := InsertText(s.listing, key))
    case DeleteDocuments(keys) => s.(docs := s.docs - keys, listing := WithoutKeys(s.listing, keys))
    case RemoveBlob(b) => s.(blobs := s.blobs - {b})
  }

  function ApplyAll(s: Store, ws: seq<Write>): Store {
    Durable.ApplyAll(Apply, s, ws)
  }

  function Cut(s: Store, ws: seq<Write>, left: nat): Store {
    Durable.Cut(Apply, s, ws, left)
  }

  /** The keys with a prefix that follow a given key, in order. */
  function Matching(keys: seq<Text>, prefix: Text, after: Text): seq<Text> {
    if keys == [] then []
    else
      (if Prefix(prefix, keys[0]) && Below(after, keys[0]) then [keys[0]] else []) +
      Matching(keys[1..], prefix, after)
  }

  /** ListDocuments: one page of keys. */
  function ListPage(keys: seq<Text>, prefix: Text, after: Text): seq<Text> {
    var all := Matching(keys, prefix, after);
    if |all| < PAGE then all else all[..PAGE]
  }

  // ------------------------------------------------------------------------- scans

  datatype Decision = Found | NotFound | Failed | TooMany

  /** What a scan decides: by the first document that matters, within the page limit. */
  function Decide(all: seq<Text>, check: Text -> Check, seen: nat): Decision
    decreases |all|
  {
    if seen == PAGE * PAGES then TooMany
    else if all == [] then NotFound
    else
      match check(all[0])
      case Hit => Found
      case Fault => Failed
      case Miss => Decide(all[1..], check, seen + 1)
  }

  /** A scan that finds nothing has looked at the whole store. */
  lemma {:induction false} NothingFound(all: seq<Text>, check: Text -> Check, seen: nat)
    ensures Decide(all, check, seen) == NotFound ==> forall i :: 0 <= i < |all| ==> check(all[i]) == Miss
    decreases |all|
  {
    if seen != PAGE * PAGES && all != [] && check(all[0]) == Miss {
      NothingFound(all[1..], check, seen + 1);
      if Decide(all, check, seen) == NotFound {
        forall i | 0 <= i < |all|
          ensures check(all[i]) == Miss
        {
          if i > 0 { assert all[i] == all[1..][i - 1]; }
        }
      }
    }
  }

  /** A store within the limit is always decided. */
  lemma {:induction false} SmallDecided(all: seq<Text>, check: Text -> Check, seen: nat)
    requires seen + |all| < PAGE * PAGES && forall i :: 0 <= i < |all| ==> check(all[i]) != Fault
    ensures Decide(all, check, seen) == NotFound || Decide(all, check, seen) == Found
    ensures Decide(all, check, seen) == Found <==> exists i :: 0 <= i < |all| && check(all[i]) == Hit
    decreases |all|
  {
    if all != [] && check(all[0]) == Miss {
      assert forall i :: 0 <= i < |all[1..]| ==> all[1..][i] == all[i + 1];
      SmallDecided(all[1..], check, seen + 1);
      if i :| 0 <= i < |all| && check(all[i]) == Hit {
        assert all[1..][i - 1] == all[i];
      }
    }
  }

  // -------------------------------------------------------------------- operations

  function Inspect(e: Setting, s: Store, id: Id): Option<CaptureRef> {
    if CaptureKey(id) !in s.docs then None
    else
      match s.docs[CaptureKey(id)]
      case Capture(ref) =>
        if ref.id == id && e.digest(ref.blob, ref.dependencies, ref.body) == id then Some(ref) else None
      case _ => None
  }

  predicate Quotes(v: Value, id: Id) {
    match v
    case Capture(ref) => ref.id == id || id in ref.dependencies
    case Keep(kept, _) => kept == id
    case Other(quotes) => id in quotes
  }

  /** One document's part in findExternalReference. */
  function ReferenceCheck(e: Setting, s: Store, target: CaptureRef, key: Text): Check {
    if key == CaptureKey(target.id) || key == KeepKey(target.id) || key !in s.docs then Miss
    else if Quotes(s.docs[key], target.id) then Hit
    else if Prefix(CAPTURE, key) then e.payload(s.docs[key], target)
    else Miss
  }

  /** One document's part in blobSharedByAnotherCapture. */
  function ShareCheck(s: Store, target: CaptureRef, key: Text): Check {
    if key == CaptureKey(target.id) || key !in s.docs then Miss
    else if s.docs[key].Capture? && s.docs[key].ref.blob == target.blob then Hit
    else Miss
  }

  function References(e: Setting, s: Store, target: CaptureRef): Decision {
    Decide(Matching(s.listing, [], []), (key: Text) => ReferenceCheck(e, s, target, key), 0)
  }

  function Shares(s: Store, target: CaptureRef): Decision {
    Decide(Matching(s.listing, CAPTURE, CAPTURE), (key: Text) => ShareCheck(s, target, key), 0)
  }

  datatype Draft = Draft(valid: bool, blob: Blob, dependencies: seq<Id>, body: Text)

  function AllInspected(e: Setting, s: Store, ids: seq<Id>): bool {
    ids == [] || (Inspect(e, s, ids[0]).Some? && AllInspected(e, s, ids[1..]))
  }

  /** CommitCapture: the blob first, then the manifest that names it. */
  function CommitPlan(e: Setting, s: Store, draft: Draft): Plan {
    if !draft.valid || !AllInspected(e, s, draft.dependencies) then Plan([], Rejected)
    else
      var id := e.digest(draft.blob, draft.dependencies, draft.body);
      var value := Capture(CaptureRef(id, draft.blob, draft.dependencies, draft.body));
      if CaptureKey(id) !in s.docs then Plan([AddBlob(draft.blob), AddDocument(CaptureKey(id), value)], Done)
      else Plan([AddBlob(draft.blob)], if s.docs[CaptureKey(id)] == value then Done else Rejected)
  }

  function KeepPlan(e: Setting, s: Store, id: Id): Plan {
    match Inspect(e, s, id)
    case None => Plan([], Rejected)
    case Some(ref) =>
      if KeepKey(id) !in s.docs then Plan([AddDocument(KeepKey(id), Keep(id, ref.blob))], Done)
      else Plan([], if s.docs[KeepKey(id)] == Keep(id, ref.blob) then Done else Rejected)
  }

  /** RemoveCapture: manifest and retention record in one transaction, then the blob unless
      another capture has it. */
  function RemovePlan(e: Setting, s: Store, id: Id): Plan {
    match Inspect(e, s, id)
    case None => Plan([], Rejected)
    case Some(ref) =>
      if KeepKey(id) in s.docs && s.docs[KeepKey(id)] != Keep(id, ref.blob) then Plan([], Rejected)
      else if References(e, s, ref) != NotFound then Plan([], Rejected)
      else
        var shares := Shares(s, ref);
        var gone := {CaptureKey(id)} + (if KeepKey(id) in s.docs then {KeepKey(id)} else {});
        if shares == Found then Plan([DeleteDocuments(gone)], Done)
        else if shares == NotFound then Plan([DeleteDocuments(gone), RemoveBlob(ref.blob)], Done)
        else Plan([], Rejected)
  }

  datatype Op = Commit(draft: Draft) | KeepOp(id: Id) | Remove(id: Id)

  function PlanOf(e: Setting, s: Store, op: Op): Plan {
    match op
    case Commit(draft) => CommitPlan(e, s, draft)
    case KeepOp(id) => KeepPlan(e, s, id)
    case Remove(id) => RemovePlan(e, s, id)
  }

  function Run(e: Setting, s: Store, ops: seq<(Op, nat)>): Store
    decreases |ops|
  {
    if ops == [] then s else Run(e, Cut(s, PlanOf(e, s, ops[0].0).writes, ops[0].1), ops[1..])
  }

  // --------------------------------------------------------------------- invariant

  ghost predicate CaptureWhole(s: Store, key: Text) {
    key in s.docs && s.docs[key].Capture? ==>
      var ref := s.docs[key].ref;
      ref.id != [] && key == CaptureKey(ref.id) && ref.blob in s.blobs &&
      forall d :: d in ref.dependencies ==> StoredCapture(s, d)
  }

  predicate StoredCapture(s: Store, id: Id) {
    CaptureKey(id) in s.docs && s.docs[CaptureKey(id)].Capture? && s.docs[CaptureKey(id)].ref.id == id
  }

  ghost predicate KeepWhole(s: Store, key: Text) {
    key in s.docs && s.docs[key].Keep? ==> key == KeepKey(s.docs[key].id) && StoredCapture(s, s.docs[key].id)
  }

  /** Every stored capture has its blob and its dependencies, every retention record its
      capture, and the listing is the keys in order. */
  ghost predicate Inv(s: Store) {
    && Ordered(s.listing) && (forall key :: key in s.listing <==> key in s.docs)
    && (forall key :: key in s.docs ==> key != [] && CaptureWhole(s, key) && KeepWhole(s, key))
  }
}
