/** The archive as the source runs it: paged scans, and one durable step at a time.
    `stepsLeft` is how many durable steps succeed before the process dies. */
module ArchiveStore {
  import opened Wrappers
  import opened Texts
  import opened Sorting
  import opened Archive
  import opened ArchiveProofs
  import Durable

  function Reported(p: Plan, left: nat): Outcome {
    if left < |p.writes| then Died else p.result
  }

  lemma CutSmall(s: Store, ws: seq<Write>, left: nat)
    ensures ws == [] ==> Cut(s, ws, left) == s
    ensures |ws| == 1 ==> Cut(s, ws, left) == if left == 0 then s else Apply(s, ws[0])
    ensures |ws| == 2 && left < 2 ==> Cut(s, ws, left) == if left == 0 then s else Apply(s, ws[0])
    ensures |ws| == 2 && left >= 2 ==> Cut(s, ws, left) == Apply(Apply(s, ws[0]), ws[1])
  {
    if |ws| == 1 { Durable.ApplyOne(Apply, s, ws[0]); assert ws == [ws[0]]; }
    if |ws| == 2 {
      Durable.ApplyOne(Apply, s, ws[0]);
      Durable.ApplyOne(Apply, Apply(s, ws[0]), ws[1]);
      assert ws[1..] == [ws[1]] && ws[..1] == [ws[0]];
    }
  }

  // ------------------------------------------------------------------------- paging

  lemma {:induction false} SameMatching(keys: seq<Text>, prefix: Text, after: Text, later: Text)
    requires forall k :: k in keys ==> (Below(after, k) && Below(later, k))
    ensures Matching(keys, prefix, after) == Matching(keys, prefix, later)
    decreases |keys|
  {
    if keys != [] {
      assert keys[0] in keys && forall k :: k in keys[1..] ==> k in keys;
      SameMatching(keys[1..], prefix, after, later);
    }
  }

  /** The page after a key is what follows that key in the whole listing. */
  lemma {:induction false} MatchingRest(keys: seq<Text>, prefix: Text, after: Text, j: nat)
    requires Ordered(keys) && 0 < j <= |Matching(keys, prefix, after)|
    ensures Matching(keys, prefix, Matching(keys, prefix, after)[j - 1]) == Matching(keys, prefix, after)[j..]
    decreases |keys|
  {
    var all, rest := Matching(keys, prefix, after), Matching(keys[1..], prefix, after);
    OrderedTail(keys);
    MatchingMembers(keys[1..], prefix, after);
    if Prefix(prefix, keys[0]) && Below(after, keys[0]) {
      assert all == [keys[0]] + rest;
      if j == 1 {
        forall k | k in keys[1..]
          ensures Below(after, k)
        {
          BelowTransitive(after, keys[0], k);
        }
        SameMatching(keys[1..], prefix, after, keys[0]);
        BelowIrreflexive(keys[0]);
        assert [] + rest == rest && all[1..] == rest;
      } else {
        MatchingRest(keys[1..], prefix, after, j - 1);
        SkipFirst(keys, prefix, rest[j - 2]);
      }
    } else {
      assert all == rest;
      MatchingRest(keys[1..], prefix, after, j);
      SkipFirst(keys, prefix, rest[j - 1]);
    }
  }

  lemma SkipFirst(keys: seq<Text>, prefix: Text, later: Text)
    requires keys != [] && Below(keys[0], later)
    ensures Matching(keys, prefix, later) == Matching(keys[1..], prefix, later)
  {
    if Below(later, keys[0]) {
      BelowTransitive(keys[0], later, keys[0]);
    }
    BelowIrreflexive(keys[0]);
    assert [] + Matching(keys[1..], prefix, later) == Matching(keys[1..], prefix, later);
  }

  class CaptureArchive {
    const setting: Setting
    var docs: map<Text, Value>
    var listing: seq<Text>
    var blobs: set<Blob>
    var stepsLeft: nat

    constructor (setting: Setting, s: Store, stepsLeft: nat)
      ensures this.setting == setting && State() == s && this.stepsLeft == stepsLeft
    {
      this.setting := setting;
      docs, listing, blobs := s.docs, s.listing, s.blobs;
      this.stepsLeft := stepsLeft;
    }

    function State(): Store
      reads this
    {
      Store(docs, listing, blobs)
    }

    twostate predicate Performed(p: Plan, r: Outcome)
      reads this
    {
      State() == Cut(old(State()), p.writes, old(stepsLeft)) && r == Reported(p, old(stepsLeft))
    }

    method Step(w: Write) returns (ok: bool)
      modifies this
      ensures ok == (old(stepsLeft) > 0)
      ensures State() == if ok then Apply(old(State()), w) else old(State())
      ensures stepsLeft == if ok then old(stepsLeft) - 1 else 0
    {
      if stepsLeft == 0 {
        return false;
      }
      stepsLeft := stepsLeft - 1;
      match w {
        case AddBlob(b) => blobs := blobs + {b};
        case AddDocument(key, value) =>
          docs := docs[key := value];
          listing := InsertText(listing, key);
        case DeleteDocuments(keys) =>
          docs := docs - keys;
          listing := WithoutKeys(listing, keys);
        case RemoveBlob(b) => blobs := blobs - {b};
      }
      return true;
    }

    /** The documents of one page, until one of them matters. */
    method CheckPage(found: seq<Text>, check: Text -> Check, ghost rest: seq<Text>, ghost seen: nat)
        returns (d: Option<Decision>)
      requires found <= rest && seen + |found| <= PAGE * PAGES
      ensures d.Some? ==> Decide(rest, check, seen) == d.value
      ensures d.None? ==> Decide(rest, check, seen) == Decide(rest[|found|..], check, seen + |found|)
    {
      var i := 0;
      while i < |found|
        invariant 0 <= i <= |found| && Decide(rest, check, seen) == Decide(rest[i..], check, seen + i)
      {
        assert rest[i..][0] == found[i] && rest[i..][1..] == rest[i + 1..];
        var c := check(found[i]);
        if c == Hit {
          return Some(Found);
        }
        if c == Fault {
          return Some(Failed);
        }
        i := i + 1;
      }
      return None;
    }

    /** A hundred pages of a thousand documents, each page from the last key of the one before. */
    method Scan(prefix: Text, start: Text, check: Text -> Check) returns (d: Decision)
      requires Ordered(listing)
      ensures d == Decide(Matching(listing, prefix, start), check, 0)
    {
      ghost var whole := Decide(Matching(listing, prefix, start), check, 0);
      var after := start;
      var page := 0;
      while page < PAGES
        invariant 0 <= page <= PAGES
        invariant whole == Decide(Matching(listing, prefix, after), check, page * PAGE)
      {
        ghost var rest := Matching(listing, prefix, after);
        var found := ListPage(listing, prefix, after);
        if |found| == 0 {
          return NotFound;
        }
        var decided := CheckPage(found, check, rest, page * PAGE);
        if decided.Some? {
          return decided.value;
        }
        if |found| < PAGE {
          assert rest[|found|..] == [];
          return NotFound;
        }
        MatchingRest(listing, prefix, after, PAGE);
        after := found[|found| - 1];
        page := page + 1;
      }
      return TooMany;
    }

    method FindExternalReference(target: CaptureRef) returns (d: Decision)
      requires Ordered(listing)
      ensures d == References(setting, State(), target)
    {
      var s, e := State(), setting;
      var check := (key: Text) => ReferenceCheck(e, s, target, key);
      d := Scan([], [], check);
    }

    method BlobSharedByAnotherCapture(target: CaptureRef) returns (d: Decision)
      requires Ordered(listing)
      ensures d == Shares(State(), target)
    {
      var s := State();
      var check := (key: Text) => ShareCheck(s, target, key);
      d := Scan(CAPTURE, CAPTURE, check);
    }

    method CommitCapture(draft: Draft) returns (r: Outcome)
      modifies this
      ensures Performed(CommitPlan(setting, old(State()), draft), r)
    {
      ghost var p := CommitPlan(setting, State(), draft);
      CutSmall(State(), p.writes, stepsLeft);
      if !draft.valid {
        return Rejected;
      }
      for i := 0 to |draft.dependencies|
        invariant unchanged(this)
        invariant AllInspected(setting, State(), draft.dependencies) <==>
                  AllInspected(setting, State(), draft.dependencies[i..])
      {
        assert draft.dependencies[i..][0] == draft.dependencies[i] &&
               draft.dependencies[i..][1..] == draft.dependencies[i + 1..];
        if Inspect(setting, State(), draft.dependencies[i]).None? {
          return Rejected;
        }
      }
      var ok := Step(AddBlob(draft.blob));
      if !ok {
        return Died;
      }
      var id := setting.digest(draft.blob, draft.dependencies, draft.body);
      var value := Capture(CaptureRef(id, draft.blob, draft.dependencies, draft.body));
      if CaptureKey(id) in docs {
        return if docs[CaptureKey(id)] == value then Done else Rejected;
      }
      ok := Step(AddDocument(CaptureKey(id), value));
      return if ok then Done else Died;
    }

    method KeepCapture(id: Id) returns (r: Outcome)
      modifies this
      ensures Performed(KeepPlan(setting, old(State()), id), r)
    {
      ghost var p := KeepPlan(setting, State(), id);
      CutSmall(State(), p.writes, stepsLeft);
      var ref := Inspect(setting, State(), id);
      if ref.None? {
        return Rejected;
      }
      var record := Keep(id, ref.value.blob);
      if KeepKey(id) in docs {
        return if docs[KeepKey(id)] == record then Done else Rejected;
      }
      var ok := Step(AddDocument(KeepKey(id), record));
      return if ok then Done else Died;
    }

    method RemoveCapture(id: Id) returns (r: Outcome)
      requires Ordered(listing)
      modifies this
      ensures Performed(RemovePlan(setting, old(State()), id), r)
    {
      ghost var p := RemovePlan(setting, State(), id);
      CutSmall(State(), p.writes, stepsLeft);
      var ref := Inspect(setting, State(), id);
      if ref.None? {
        return Rejected;
      }
      if KeepKey(id) in docs && docs[KeepKey(id)] != Keep(id, ref.value.blob) {
        return Rejected;
      }
      var referenced := FindExternalReference(ref.value);
      if referenced != NotFound {
        return Rejected;
      }
      var shared := BlobSharedByAnotherCapture(ref.value);
      if shared != Found && shared != NotFound {
        return Rejected;
      }
      var removals := {CaptureKey(id)};
      assert removals + {} == removals;
      if KeepKey(id) in docs {
        removals := removals + {KeepKey(id)};
      }
      var ok := Step(DeleteDocuments(removals));
      if !ok {
        return Died;
      }
      if shared == Found {
        return Done;
      }
      ok := Step(RemoveBlob(ref.value.blob));
      return if ok then Done else Died;
    }
  }
}
