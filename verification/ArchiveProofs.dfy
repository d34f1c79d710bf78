/** Referential integrity of the archive over every run of commits, retentions and removals,
    with a process dying after any durable step. */
module ArchiveProofs {
  import opened Wrappers
  import opened Texts
  import opened Sorting
  import opened Archive

  ghost predicate Sound(e: Setting) {
    forall b, d, t {:trigger e.digest(b, d, t)} :: e.digest(b, d, t) != []
  }

  // ------------------------------------------------------------------ keys and lists

  lemma KeysApart(a: Id, b: Id)
    ensures CaptureKey(a) == CaptureKey(b) ==> a == b
    ensures KeepKey(a) == KeepKey(b) ==> a == b
    ensures CaptureKey(a) != KeepKey(b) && CaptureKey(a) != [] && KeepKey(a) != []
    ensures Prefix(CAPTURE, CaptureKey(a))
  {
    assert CaptureKey(a)[8..] == a && CaptureKey(b)[8..] == b && KeepKey(a)[14..] == a && KeepKey(b)[14..] == b;
    assert CaptureKey(a)[0] == 'c' && KeepKey(b)[0] == 'e';
    assert CaptureKey(a)[..8] == CAPTURE;
  }

  lemma {:induction false} BelowLonger(a: Text, b: Text)
    requires b != []
    ensures Below(a, a + b)
    decreases |a|
  {
    if a != [] {
      assert (a + b)[1..] == a[1..] + b;
      BelowLonger(a[1..], b);
    }
  }

  lemma {:induction false} MatchingMembers(keys: seq<Text>, prefix: Text, after: Text)
    ensures forall k :: k in Matching(keys, prefix, after) <==> k in keys && Prefix(prefix, k) && Below(after, k)
    decreases |keys|
  {
    if keys != [] {
      MatchingMembers(keys[1..], prefix, after);
      assert forall k :: k in keys <==> k == keys[0] || k in keys[1..];
    }
  }

  lemma {:induction false} WithoutMembers(keys: seq<Text>, gone: set<Text>)
    ensures forall k :: k in WithoutKeys(keys, gone) <==> k in keys && k !in gone
    decreases |keys|
  {
    if keys != [] {
      WithoutMembers(keys[1..], gone);
      assert forall k :: k in keys <==> k == keys[0] || k in keys[1..];
    }
  }

  lemma OrderedTail(keys: seq<Text>)
    requires Ordered(keys) && keys != []
    ensures Ordered(keys[1..]) && forall k :: k in keys[1..] ==> Below(keys[0], k)
  {
    forall i, j | 0 <= i < j < |keys[1..]|
      ensures Below(keys[1..][i], keys[1..][j])
    {
      assert Below(keys[i + 1], keys[j + 1]);
    }
    forall k | k in keys[1..]
      ensures Below(keys[0], k)
    {
      var i :| 0 <= i < |keys[1..]| && keys[1..][i] == k;
      assert Below(keys[0], keys[i + 1]);
    }
  }

  lemma OrderedCons(head: Text, rest: seq<Text>)
    requires Ordered(rest) && forall k :: k in rest ==> Below(head, k)
    ensures Ordered([head] + rest)
  {
    forall i, j | 0 <= i < j < |[head] + rest|
      ensures Below(([head] + rest)[i], ([head] + rest)[j])
    {
      assert ([head] + rest)[j] == rest[j - 1];
      if i > 0 { assert ([head] + rest)[i] == rest[i - 1]; } else { assert rest[j - 1] in rest; }
    }
  }

  lemma {:induction false} WithoutOrdered(keys: seq<Text>, gone: set<Text>)
    requires Ordered(keys)
    ensures Ordered(WithoutKeys(keys, gone))
    decreases |keys|
  {
    if keys != [] {
      OrderedTail(keys);
      WithoutOrdered(keys[1..], gone);
      WithoutMembers(keys[1..], gone);
      if keys[0] in gone {
        assert [] + WithoutKeys(keys[1..], gone) == WithoutKeys(keys[1..], gone);
      } else {
        OrderedCons(keys[0], WithoutKeys(keys[1..], gone));
      }
    }
  }

  // ------------------------------------------------------------- durable steps

  lemma BlobAdded(s: Store, b: Blob)
    requires Inv(s)
    ensures Inv(Apply(s, AddBlob(b)))
  {
    var t := Apply(s, AddBlob(b));
    forall key | key in t.docs
      ensures key != [] && CaptureWhole(t, key) && KeepWhole(t, key)
    {
      assert CaptureWhole(s, key) && KeepWhole(s, key);
    }
  }

  lemma StoredStays(s: Store, key: Text, value: Value, id: Id)
    requires StoredCapture(s, id) && key !in s.docs
    ensures StoredCapture(Apply(s, AddDocument(key, value)), id)
  {
  }

  lemma DocumentAdded(s: Store, key: Text, value: Value)
    requires Inv(s) && key !in s.docs && key != []
    requires var t := Apply(s, AddDocument(key, value)); CaptureWhole(t, key) && KeepWhole(t, key)
    ensures Inv(Apply(s, AddDocument(key, value)))
  {
    var t := Apply(s, AddDocument(key, value));
    InsertTextOrdered(s.listing, key);
    InsertTextMembers(s.listing, key);
    forall k | k in t.docs
      ensures k != [] && CaptureWhole(t, k) && KeepWhole(t, k)
    {
      if k != key {
        assert CaptureWhole(s, k) && KeepWhole(s, k);
      }
    }
  }

  /** No other document names the capture. */
  ghost predicate Unreferenced(s: Store, id: Id) {
    forall key :: key in s.docs && key != CaptureKey(id) && key != KeepKey(id) ==> !Quotes(s.docs[key], id)
  }

  lemma ReferencesDecided(e: Setting, s: Store, target: CaptureRef)
    requires Inv(s) && References(e, s, target) == NotFound
    ensures Unreferenced(s, target.id)
  {
    var all := Matching(s.listing, [], []);
    var check := (key: Text) => ReferenceCheck(e, s, target, key);
    MatchingMembers(s.listing, [], []);
    NothingFound(all, check, 0);
    forall key | key in s.docs && key != CaptureKey(target.id) && key != KeepKey(target.id)
      ensures !Quotes(s.docs[key], target.id)
    {
      assert Prefix([], key) && Below([], key) && key in all;
      var i :| 0 <= i < |all| && all[i] == key;
      assert check(all[i]) == Miss;
    }
  }

  ghost predicate Unshared(s: Store, target: CaptureRef) {
    forall key :: key in s.docs && key != CaptureKey(target.id) && s.docs[key].Capture? ==>
        s.docs[key].ref.blob != target.blob
  }

  lemma SharesDecided(s: Store, target: CaptureRef)
    requires Inv(s) && Shares(s, target) == NotFound
    ensures Unshared(s, target)
  {
    var all := Matching(s.listing, CAPTURE, CAPTURE);
    var check := (key: Text) => ShareCheck(s, target, key);
    MatchingMembers(s.listing, CAPTURE, CAPTURE);
    NothingFound(all, check, 0);
    forall key | key in s.docs && key != CaptureKey(target.id) && s.docs[key].Capture?
      ensures s.docs[key].ref.blob != target.blob
    {
      assert CaptureWhole(s, key);
      KeysApart(s.docs[key].ref.id, []);
      BelowLonger(CAPTURE, s.docs[key].ref.id);
      assert key in all;
      var i :| 0 <= i < |all| && all[i] == key;
      assert check(all[i]) == Miss;
    }
  }

  lemma StoredSurvives(s: Store, id: Id, gone: set<Text>, other: Id)
    requires gone <= {CaptureKey(id), KeepKey(id)} && StoredCapture(s, other) && other != id
    ensures StoredCapture(Apply(s, DeleteDocuments(gone)), other)
  {
    KeysApart(other, id);
  }

  lemma CaptureDeleted(s: Store, id: Id, gone: set<Text>)
    requires Inv(s) && Unreferenced(s, id) && StoredCapture(s, id)
    requires CaptureKey(id) in gone && gone <= {CaptureKey(id), KeepKey(id)} &&
             (KeepKey(id) in s.docs ==> KeepKey(id) in gone)
    ensures Inv(Apply(s, DeleteDocuments(gone)))
  {
    var t := Apply(s, DeleteDocuments(gone));
    WithoutOrdered(s.listing, gone);
    WithoutMembers(s.listing, gone);
    forall key | key in t.docs
      ensures key != [] && CaptureWhole(t, key) && KeepWhole(t, key)
    {
      assert CaptureWhole(s, key) && KeepWhole(s, key) && !Quotes(s.docs[key], id);
      if s.docs[key].Capture? {
        forall d | d in s.docs[key].ref.dependencies
          ensures StoredCapture(t, d)
        {
          StoredSurvives(s, id, gone, d);
        }
      } else if s.docs[key].Keep? {
        StoredSurvives(s, id, gone, s.docs[key].id);
      }
    }
  }

  lemma BlobRemoved(s: Store, b: Blob)
    requires Inv(s) && forall key :: key in s.docs && s.docs[key].Capture? ==> s.docs[key].ref.blob != b
    ensures Inv(Apply(s, RemoveBlob(b)))
  {
    var t := Apply(s, RemoveBlob(b));
    forall key | key in t.docs
      ensures key != [] && CaptureWhole(t, key) && KeepWhole(t, key)
    {
      assert CaptureWhole(s, key) && KeepWhole(s, key);
    }
  }

  // ------------------------------------------------------------------ operations

  ghost predicate Stays(s: Store, ws: seq<Write>)
    decreases |ws|
  {
    Inv(s) && (ws != [] ==> Stays(Apply(s, ws[0]), ws[1..]))
  }

  lemma {:induction false} CutStays(s: Store, ws: seq<Write>, left: nat)
    requires Stays(s, ws)
    ensures Inv(Cut(s, ws, left))
    decreases |ws|
  {
    if left > 0 && ws != [] {
      CutStays(Apply(s, ws[0]), ws[1..], left - 1);
      if left < |ws| { assert ws[..left][1..] == ws[1..][..left - 1]; }
    }
  }

  lemma StaysOne(s: Store, w: Write)
    requires Inv(s) && Inv(Apply(s, w))
    ensures Stays(s, [w])
  {
    assert [w][1..] == [];
    assert Stays(Apply(s, w), []);
  }

  lemma StaysTwo(s: Store, v: Write, w: Write)
    requires Inv(s) && Inv(Apply(s, v)) && Inv(Apply(Apply(s, v), w))
    ensures Stays(s, [v, w])
  {
    StaysOne(Apply(s, v), w);
    assert [v, w][1..] == [w];
  }

  lemma {:induction false} InspectedStored(e: Setting, s: Store, ids: seq<Id>)
    requires AllInspected(e, s, ids)
    ensures forall d :: d in ids ==> StoredCapture(s, d)
    decreases |ids|
  {
    if ids != [] { InspectedStored(e, s, ids[1..]); }
  }

  lemma CommitStays(e: Setting, s: Store, draft: Draft)
    requires Sound(e) && Inv(s)
    ensures Stays(s, CommitPlan(e, s, draft).writes)
  {
    if draft.valid && AllInspected(e, s, draft.dependencies) {
      var id := e.digest(draft.blob, draft.dependencies, draft.body);
      var value := Capture(CaptureRef(id, draft.blob, draft.dependencies, draft.body));
      var t := Apply(s, AddBlob(draft.blob));
      BlobAdded(s, draft.blob);
      KeysApart(id, id);
      if CaptureKey(id) !in s.docs {
        InspectedStored(e, s, draft.dependencies);
        forall d | d in draft.dependencies
          ensures StoredCapture(Apply(t, AddDocument(CaptureKey(id), value)), d)
        {
          StoredStays(t, CaptureKey(id), value, d);
        }
        DocumentAdded(t, CaptureKey(id), value);
        StaysTwo(s, AddBlob(draft.blob), AddDocument(CaptureKey(id), value));
      } else {
        StaysOne(s, AddBlob(draft.blob));
      }
    }
  }

  lemma KeepStays(e: Setting, s: Store, id: Id)
    requires Inv(s)
    ensures Stays(s, KeepPlan(e, s, id).writes)
  {
    if Inspect(e, s, id).Some? && KeepKey(id) !in s.docs {
      var value := Keep(id, Inspect(e, s, id).value.blob);
      KeysApart(id, id);
      StoredStays(s, KeepKey(id), value, id);
      DocumentAdded(s, KeepKey(id), value);
      StaysOne(s, AddDocument(KeepKey(id), value));
    }
  }

  lemma RemoveStays(e: Setting, s: Store, id: Id)
    requires Inv(s)
    ensures Stays(s, RemovePlan(e, s, id).writes)
  {
    var p := RemovePlan(e, s, id);
    if p.writes != [] {
      var ref := Inspect(e, s, id).value;
      var gone := {CaptureKey(id)} + (if KeepKey(id) in s.docs then {KeepKey(id)} else {});
      ReferencesDecided(e, s, ref);
      CaptureDeleted(s, id, gone);
      var t := Apply(s, DeleteDocuments(gone));
      if Shares(s, ref) == NotFound {
        SharesDecided(s, ref);
        BlobRemoved(t, ref.blob);
        StaysTwo(s, DeleteDocuments(gone), RemoveBlob(ref.blob));
      } else {
        StaysOne(s, DeleteDocuments(gone));
      }
    }
  }

  /** In every state of every run, each stored capture's blob exists and all its declared
      dependencies are stored captures. */
  lemma {:induction false} RunKeepsInv(e: Setting, s: Store, ops: seq<(Op, nat)>)
    requires Sound(e) && Inv(s)
    ensures Inv(Run(e, s, ops))
    decreases |ops|
  {
    if ops != [] {
      match ops[0].0 {
        case Commit(draft) => CommitStays(e, s, draft);
        case KeepOp(id) => KeepStays(e, s, id);
        case Remove(id) => RemoveStays(e, s, id);
      }
      CutStays(s, PlanOf(e, s, ops[0].0).writes, ops[0].1);
      RunKeepsInv(e, Cut(s, PlanOf(e, s, ops[0].0).writes, ops[0].1), ops[1..]);
    }
  }

  /** A removal goes ahead only when it has looked at every document and none names the
      capture; and then a capture that depended on it cannot exist. */
  lemma RemovedOnlyUnreferenced(e: Setting, s: Store, id: Id)
    requires Inv(s) && RemovePlan(e, s, id).writes != []
    ensures Unreferenced(s, id) && StoredCapture(s, id)
    ensures RemovePlan(e, s, id).result == Done
    ensures forall b :: RemoveBlob(b) in RemovePlan(e, s, id).writes ==> Unshared(s, Inspect(e, s, id).value)
  {
    var ref := Inspect(e, s, id).value;
    ReferencesDecided(e, s, ref);
    if Shares(s, ref) == NotFound { SharesDecided(s, ref); }
  }

  /** An empty store is where every run may start. */
  lemma EmptyInv()
    ensures Inv(Store(map[], [], {}))
  {
  }
}
