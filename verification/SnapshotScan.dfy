/** Reading the selected records of a published snapshot, by its offsets or without them
    (internal/codebase/derived_index.go, scanSelected and scanLegacy). */
module SnapshotScan {
  import opened Wrappers
  import opened Texts
  import opened Sorting
  import opened RecordLookup
  import opened DerivedIndex

  /** What an entry says of its record for lookups. */
  function Entries(spans: seq<Span>, entry: Text -> RecordOffset): (r: seq<RecordOffset>)
    ensures |r| == |spans| && forall i :: 0 <= i < |r| ==> r[i] == entry(spans[i].fields)
  {
    seq(|spans|, i requires 0 <= i < |spans| => entry(spans[i].fields))
  }

  /** The lines that pass a test, in file order. */
  function Selected(lines: seq<Text>, test: Text -> bool): seq<Text>
    decreases |lines|
  {
    if lines == [] then []
    else
      var last := lines[|lines| - 1];
      Selected(lines[..|lines| - 1], test) + (if test(last) then [last] else [])
  }

  /** The lines at the visited positions, unless one of them does not read. */
  function ReadAt(file: Text, spans: seq<Span>, visited: seq<nat>, k: Codec): Option<seq<Text>>
    requires forall i :: 0 <= i < |visited| ==> visited[i] < |spans|
    decreases |visited|
  {
    if visited == [] then Some([])
    else
      var last := |visited| - 1;
      var front, raw := ReadAt(file, spans, visited[..last], k), ReadRecord(file, spans[visited[last]], k);
      if front.Some? && raw.Some? then Some(front.value + [raw.value]) else None
  }

  method ReadPositions(file: Text, spans: seq<Span>, visited: seq<nat>, k: Codec) returns (r: Option<seq<Text>>)
    requires forall i :: 0 <= i < |visited| ==> visited[i] < |spans|
    ensures r == ReadAt(file, spans, visited, k)
  {
    var lines: seq<Text> := [];
    for i := 0 to |visited|
      invariant ReadAt(file, spans, visited[..i], k) == Some(lines)
    {
      assert visited[..i + 1][..i] == visited[..i];
      var raw := ReadRecord(file, spans[visited[i]], k);
      if raw.None? {
        NoneLater(file, spans, visited, k, i + 1);
        return None;
      }
      lines := lines + [raw.value];
    }
    assert visited[..|visited|] == visited;
    return Some(lines);
  }

  /** scanSelected over offsets: every selected record is read and checked. */
  method ScanByOffsets(cache: SnapshotCache, file: Text, spans: seq<Span>, k: Codec,
                       selects: RecordOffset -> bool, keys: seq<LookupKey>)
    returns (r: Option<seq<Text>>)
    requires cache.Valid() && |cache.offsets| == |spans|
    requires forall e :: selects(e) && keys != [] ==> Listed(cache.loaded, keys, e)
    modifies cache
    ensures cache.Valid()
    ensures var visited := FullScan(cache.offsets, selects, |cache.offsets|);
            (forall i :: 0 <= i < |visited| ==> visited[i] < |spans|) && r == ReadAt(file, spans, visited, k)
  {
    var visited := cache.ScanSelected(selects, keys);
    KeyedScanIsFullScan(cache.loaded, cache.offsets, selects, keys, cache.indexed, visited);
    FullScanBelow(cache.offsets, selects, |cache.offsets|);
    r := ReadPositions(file, spans, visited, k);
  }

  lemma {:induction false} NoneLater(file: Text, spans: seq<Span>, visited: seq<nat>, k: Codec, n: nat)
    requires forall i :: 0 <= i < |visited| ==> visited[i] < |spans|
    requires n <= |visited| && ReadAt(file, spans, visited[..n], k) == None
    ensures ReadAt(file, spans, visited, k) == None
    decreases |visited| - n
  {
    if n == |visited| {
      assert visited[..n] == visited;
    } else {
      assert visited[..n + 1][..n] == visited[..n];
      NoneLater(file, spans, visited, k, n + 1);
    }
  }

  /** scanLegacy: every line of the file, by what its record says. */
  method ScanByLines(file: Text, k: Codec, test: Text -> bool) returns (r: seq<Text>)
    ensures r == Selected(Scanned(file), test)
  {
    var lines := Scanned(file);
    r := [];
    for i := 0 to |lines|
      invariant r == Selected(lines[..i], test)
    {
      assert lines[..i + 1][..i] == lines[..i];
      if test(lines[i]) {
        r := r + [lines[i]];
      }
    }
    assert lines[..|lines|] == lines;
  }

  lemma {:induction false} SpanFields(lines: seq<Text>, start: nat, k: Codec, i: nat)
    requires i < |lines|
    ensures |SpansFrom(lines, start, k)| == |lines| && SpansFrom(lines, start, k)[i].fields == k.fields(lines[i])
    decreases |lines|
  {
    SpansLength(lines, start, k);
    if i > 0 { SpanFields(lines[1..], start + |lines[0]| + 1, k, i - 1); }
  }

  lemma FullScanBelow(es: seq<RecordOffset>, selects: RecordOffset -> bool, n: nat)
    requires n <= |es|
    ensures forall i :: 0 <= i < |FullScan(es, selects, n)| ==> FullScan(es, selects, n)[i] < n
  {
    FullScanMembers(es, selects, n);
    var r := FullScan(es, selects, n);
    assert forall i :: 0 <= i < |r| ==> r[i] in r;
  }

  /** Reading the entries that a scan of all selects gives the lines whose records it selects. */
  lemma {:induction false} FullScanReads(lines: seq<Text>, k: Codec, spans: seq<Span>, es: seq<RecordOffset>,
                                         selects: RecordOffset -> bool, test: Text -> bool, n: nat)
    requires n <= |lines| == |es| && spans == SpansFrom(lines, 0, k) && |spans| == |lines|
    requires forall i :: 0 <= i < |lines| ==> selects(es[i]) == test(lines[i])
    ensures forall i :: 0 <= i < |FullScan(es, selects, n)| ==> FullScan(es, selects, n)[i] < |spans|
    ensures ReadAt(Unlines(lines), spans, FullScan(es, selects, n), k) == Some(Selected(lines[..n], test))
  {
    FullScanBelow(es, selects, n);
    if n > 0 {
      FullScanReads(lines, k, spans, es, selects, test, n - 1);
      WrittenReadBack(lines, [], k, n - 1);
      assert [] + Unlines(lines) == Unlines(lines);
      SelectedNext(lines, test, n - 1);
      FullScanNext(es, selects, n - 1);
      if selects(es[n - 1]) {
        ReadNext(Unlines(lines), spans, FullScan(es, selects, n - 1), n - 1, k);
      }
    }
  }

  lemma FullScanNext(es: seq<RecordOffset>, selects: RecordOffset -> bool, n: nat)
    requires n < |es|
    ensures FullScan(es, selects, n + 1) ==
            if selects(es[n]) then FullScan(es, selects, n) + [n] else FullScan(es, selects, n)
  {
    assert FullScan(es, selects, n) + [] == FullScan(es, selects, n);
  }

  lemma ReadNext(file: Text, spans: seq<Span>, visited: seq<nat>, p: nat, k: Codec)
    requires p < |spans| && forall i :: 0 <= i < |visited| ==> visited[i] < |spans|
    ensures var front, raw := ReadAt(file, spans, visited, k), ReadRecord(file, spans[p], k);
            ReadAt(file, spans, visited + [p], k) ==
            if front.Some? && raw.Some? then Some(front.value + [raw.value]) else None
  {
    assert (visited + [p])[..|visited|] == visited;
  }

  lemma SelectedNext(lines: seq<Text>, test: Text -> bool, n: nat)
    requires n < |lines|
    ensures Selected(lines[..n + 1], test) ==
            if test(lines[n]) then Selected(lines[..n], test) + [lines[n]] else Selected(lines[..n], test)
  {
    assert lines[..n + 1][..n] == lines[..n];
    assert Selected(lines[..n], test) + [] == Selected(lines[..n], test);
  }

  lemma EntriesSelect(lines: seq<Text>, k: Codec, entry: Text -> RecordOffset)
    ensures |SpansFrom(lines, 0, k)| == |lines|
    ensures forall i :: 0 <= i < |lines| ==> Entries(SpansFrom(lines, 0, k), entry)[i] == entry(k.fields(lines[i]))
  {
    SpansLength(lines, 0, k);
    forall i | 0 <= i < |lines|
      ensures Entries(SpansFrom(lines, 0, k), entry)[i] == entry(k.fields(lines[i]))
    {
      SpanFields(lines, 0, k, i);
    }
  }

  /** A published snapshot is read alike by its offsets, whatever the keys, and line by line: both give
      exactly the written records that are selected, in file order. */
  lemma SelectedAlike(lines: seq<Text>, k: Codec, entry: Text -> RecordOffset, selects: RecordOffset -> bool)
    requires Faithful(k) && Encoded(lines, k) && AllShorter(lines) && !Published(lines, k).budget
    ensures var s, spans := Published(lines, k), SpansFrom(lines, 0, k);
            var es := Entries(spans, entry);
            var test := (line: Text) => selects(entry(k.fields(line)));
            && LoadedFrom(s, k) == Indexed(spans)
            && (forall i :: 0 <= i < |FullScan(es, selects, |es|)| ==> FullScan(es, selects, |es|)[i] < |spans|)
            && ReadAt(s.records, spans, FullScan(es, selects, |es|), k) == Some(Selected(lines, test))
            && Selected(Scanned(s.records), test) == Selected(lines, test)
  {
    PublishedLoads(lines, k);
    EncodedScanned(lines, k);
    EntriesSelect(lines, k, entry);
    var spans := SpansFrom(lines, 0, k);
    var test := (line: Text) => selects(entry(k.fields(line)));
    FullScanReads(lines, k, spans, Entries(spans, entry), selects, test, |lines|);
    assert lines[..|lines|] == lines;
  }

  /** The whole way: the offsets that a load of a published snapshot gives, scanned with keys that cover
      the selection, read exactly the selected lines that were written. */
  method ScanPublished(cache: SnapshotCache, ghost lines: seq<Text>, s: Snapshot, k: Codec,
                       entry: Text -> RecordOffset, selects: RecordOffset -> bool, keys: seq<LookupKey>)
    returns (r: Option<seq<Text>>)
    requires Faithful(k) && Encoded(lines, k) && AllShorter(lines) && s == Published(lines, k) && !s.budget
    requires cache.Valid() && cache.offsets == Entries(SpansFrom(lines, 0, k), entry)
    requires forall e :: selects(e) && keys != [] ==> Listed(cache.loaded, keys, e)
    modifies cache
    ensures r == Some(Selected(lines, line => selects(entry(k.fields(line)))))
  {
    SelectedAlike(lines, k, entry, selects);
    var loaded := LoadDerived(s, k);
    r := ScanByOffsets(cache, s.records, loaded.spans, k, selects, keys);
  }
}
