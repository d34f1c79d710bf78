/** The installed pool as the reservation protocol sees it. */
module SlotPoolView {
  import opened Wrappers
  import opened Texts
  import opened SlotPayload
  import opened SlotInstall
  import SlotInstallProofs
  import SlotProtocol

  predicate ExactStatics(version: Text, i: nat, dir: Dir) {
    dir.Plain? && dir.Count() == 3 && dir.toc.Regular? && dir.loader.Regular? &&
    StaticMatches(TocFile, dir.toc.content, StaticFor(i, version, V3, TocFile)) &&
    StaticMatches(LoaderFile, dir.loader.content, StaticFor(i, version, V3, LoaderFile))
  }

  function ViewDir(text: Content -> Text, version: Text, i: nat, dir: Dir): SlotProtocol.SlotDir {
    SlotProtocol.SlotDir(dir.Plain?, ExactStatics(version, i, dir),
      if dir.Plain? && dir.payload.Regular? then Some(text(dir.payload.content)) else None)
  }

  function ViewPool(pool: Pool): SlotProtocol.SlotPool {
    SlotProtocol.SlotPool(if pool.schema == V3 then SlotProtocol.POOL_SCHEMA else [], pool.version,
      if pool.state == Ready then SlotProtocol.READY else [], pool.files)
  }

  function View(text: Content -> Text, d: Files): SlotProtocol.Disk {
    if !d.manifest.Stored? || !ValidShape(d.manifest.pool) then
      SlotProtocol.Disk(if d.manifest.Absent? then SlotProtocol.Missing else SlotProtocol.Malformed, [])
    else
      var version := d.manifest.pool.version;
      SlotProtocol.Disk(SlotProtocol.Readable(ViewPool(d.manifest.pool)),
        seq(|d.slots|, k requires 0 <= k < |d.slots| => ViewDir(text, version, k + 1, d.slots[k])))
  }

  ghost predicate Agree(k: SlotProtocol.Codec, text: Content -> Text, c: Context) {
    forall x {:trigger c.sum(x)} :: c.sum(x) == k.sum(text(x))
  }

  lemma SlotAgrees(k: SlotProtocol.Codec, text: Content -> Text, c: Context, pool: Pool, i: nat, dir: Dir)
    requires Agree(k, text, c) && pool.schema == V3 && 1 <= i <= |pool.files|
    ensures SlotIntact(c, pool, i, dir) <==>
            SlotProtocol.SlotProblem(k, pool.files[i - 1], ViewDir(text, pool.version, i, dir)) == None
  {
    if dir.Plain? && dir.payload.Regular? {
      assert c.sum(dir.payload.content) == k.sum(text(dir.payload.content));
    }
  }

  lemma {:induction false} ProblemFree(k: SlotProtocol.Codec, text: Content -> Text, c: Context, d: Files, i: nat)
    requires Agree(k, text, c) && d.manifest.Stored? && ValidShape(d.manifest.pool) && d.manifest.pool.schema == V3
    requires |d.manifest.pool.files| == |d.slots| && i <= |d.slots|
    ensures (SlotProtocol.FirstProblem(k, d.manifest.pool.files, View(text, d).slots, i) == None) <==>
            (forall j :: i <= j < |d.slots| ==> SlotIntact(c, d.manifest.pool, j + 1, d.slots[j]))
    decreases |d.slots| - i
  {
    if i < |d.slots| {
      SlotAgrees(k, text, c, d.manifest.pool, i + 1, d.slots[i]);
      ProblemFree(k, text, c, d, i + 1);
    }
  }

  /** The two inspections are one. */
  lemma InspectionsAgree(k: SlotProtocol.Codec, text: Content -> Text, c: Context, d: Files, version: Text)
    requires Agree(k, text, c) && |d.slots| == SLOT_COUNT
    ensures Accepted(c, d, version) <==> SlotProtocol.Inspect(k, View(text, d), version) == None
  {
    if d.manifest.Stored? && ValidShape(d.manifest.pool) && d.manifest.pool.schema == V3 &&
       |d.manifest.pool.files| == SLOT_COUNT {
      ProblemFree(k, text, c, d, 0);
    }
  }

  /** A finished installation is where the reservation protocol's runs may start. */
  lemma FinishedMeetsInvariant(k: SlotProtocol.Codec, text: Content -> Text, c: Context, d: Files, version: Text)
    requires Agree(k, text, c) && version != [] && SlotInstallProofs.Finished(c, version, d)
    ensures SlotProtocol.Inv(k, View(text, d))
  {
    var v := View(text, d);
    forall i | 0 <= i < SLOT_COUNT
      ensures SlotProtocol.SlotInv(k, v.manifest.pool.files[i], v.slots[i])
    {
      assert SlotInstallProofs.WholeSlot(version, i, d.slots[i]);
      assert c.sum(INERT_CONTENT) == k.sum(text(INERT_CONTENT));
    }
  }
}
