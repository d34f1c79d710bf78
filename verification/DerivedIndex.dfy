/** Record offsets: written beside the records, checked on load, rebuilt when missing
    (internal/codebase/index.go and derived_index.go). */
module DerivedIndex {
  import opened Wrappers
  import opened Texts

  const MAX_LINE := 0x10_0000
  const HASH_LENGTH := 64
  const MAX_DERIVED_BYTES := 0x800_0000
  const MAX_DERIVED_RECORDS := 1_000_000

  /** One offset entry; fields are what the entry copies from its record for lookups. */
  datatype Span = Span(offset: int, length: int, hash: Text, fields: Text)

  datatype Derived = Derived(recordsHash: Text, entries: seq<Span>)

  /** What stays opaque: the digest, the lookup fields of a record, the length of an encoded entry,
      the offsets file and its reading, and which lines are records at all. */
  datatype Codec = Codec(sum: Text -> Text, fields: Text -> Text, entrySize: Span -> nat,
                         encode: Derived -> Text, decode: Text -> Option<Derived>, isRecord: Text -> bool)

  ghost predicate Faithful(k: Codec) {
    && (forall x {:trigger k.sum(x)} :: |k.sum(x)| == HASH_LENGTH)
    && (forall d {:trigger k.encode(d)} :: k.encode(d) != [] && k.decode(k.encode(d)) == Some(d))
    && !k.isRecord([])
  }

  /** Lines as the encoder emits them: each one a record, without control characters. */
  ghost predicate Encoded(lines: seq<Text>, k: Codec) {
    forall i :: 0 <= i < |lines| ==> k.isRecord(lines[i]) && '\n' !in lines[i] && '\r' !in lines[i]
  }

  function SpanOf(line: Text, offset: nat, k: Codec): Span {
    Span(offset, |line|, k.sum(line), k.fields(line))
  }

  function SpansFrom(lines: seq<Text>, start: nat, k: Codec): seq<Span> {
    if lines == [] then [] else [SpanOf(lines[0], start, k)] + SpansFrom(lines[1..], start + |lines[0]| + 1, k)
  }

  lemma {:induction false} SpansAppend(lines: seq<Text>, line: Text, start: nat, k: Codec)
    ensures SpansFrom(lines + [line], start, k) ==
            SpansFrom(lines, start, k) + [SpanOf(line, start + |Unlines(lines)|, k)]
  {
    if lines == [] {
      assert [] + [line] == [line];
    } else {
      var next := start + |lines[0]| + 1;
      assert (lines + [line])[1..] == lines[1..] + [line];
      SpansAppend(lines[1..], line, next, k);
      var last := SpanOf(line, next + |Unlines(lines[1..])|, k);
      var first := SpanOf(lines[0], start, k);
      assert SpansFrom(lines + [line], start, k) == [first] + (SpansFrom(lines[1..], next, k) + [last]);
      assert [first] + (SpansFrom(lines[1..], next, k) + [last]) == [first] + SpansFrom(lines[1..], next, k) + [last];
    }
  }

  // --------------------------------------------------------------- the offsets budget

  /** Encoded entries and a separator each. */
  function EntryBytes(spans: seq<Span>, k: Codec): nat {
    if spans == [] then 0 else EntryBytes(spans[..|spans| - 1], k) + k.entrySize(spans[|spans| - 1]) + 1
  }

  predicate Overflows(spans: seq<Span>, k: Codec) {
    |spans| > MAX_DERIVED_RECORDS || EntryBytes(spans, k) > MAX_DERIVED_BYTES - 1024
  }

  /** The offsets under collection: dropped for good once they exceed a budget. */
  datatype Offsets = Offsets(entries: seq<Span>, bytes: nat, overflow: bool)

  ghost predicate Collected(o: Offsets, lines: seq<Text>, k: Codec) {
    var spans := SpansFrom(lines, 0, k);
    && o.overflow == Overflows(spans, k)
    && (o.overflow ==> o.entries == []) && (!o.overflow ==> o.entries == spans && o.bytes == EntryBytes(spans, k))
  }

  function Collect(o: Offsets, entry: Span, k: Codec): Offsets {
    if o.overflow then o
    else if |o.entries| >= MAX_DERIVED_RECORDS || o.bytes + k.entrySize(entry) + 1 > MAX_DERIVED_BYTES - 1024 then
      Offsets([], o.bytes, true)
    else Offsets(o.entries + [entry], o.bytes + k.entrySize(entry) + 1, false)
  }

  lemma CollectKeeps(o: Offsets, lines: seq<Text>, line: Text, k: Codec)
    requires Collected(o, lines, k)
    ensures Collected(Collect(o, SpanOf(line, |Unlines(lines)|, k), k), lines + [line], k)
  {
    SpansAppend(lines, line, 0, k);
    var spans, entry := SpansFrom(lines, 0, k), SpanOf(line, |Unlines(lines)|, k);
    assert (spans + [entry])[..|spans|] == spans;
  }

  /** buildIndex's write closure: the records file, its offsets and the running position. */
  class Writer {
    const k: Codec
    var bytes: Text
    var offsets: Offsets
    var position: nat
    ghost var lines: seq<Text>

    ghost predicate Valid()
      reads this
    {
      bytes == Unlines(lines) && Collected(offsets, lines, k) && position == |bytes|
    }

    constructor (k: Codec)
      ensures Valid() && lines == [] && this.k == k
    {
      this.k := k;
      bytes, offsets, position, lines := [], Offsets([], 0, false), 0, [];
    }

    method Write(data: Text) returns (ok: bool)
      requires Valid()
      modifies this
      ensures Valid()
      ensures ok == (|data| <= MAX_LINE)
      ensures lines == if ok then old(lines) + [data] else old(lines)
    {
      if |data| > MAX_LINE {
        return false;
      }
      CollectKeeps(offsets, lines, data, k);
      UnlinesAppend(lines, [data]);
      assert Unlines([data]) == data + "\n" + Unlines([]);
      lines := lines + [data];
      bytes := bytes + data;
      offsets := Collect(offsets, SpanOf(data, position, k), k);
      position := position + |data| + 1;
      bytes := bytes + "\n";
      return true;
    }

    /** The manifest and the offsets file that are published with the records. */
    method Publish() returns (s: Snapshot)
      requires Valid()
      ensures s == Published(lines, k)
    {
      var recordsHash := k.sum(bytes);
      if offsets.overflow {
        return Snapshot(bytes, recordsHash, [], 0, true, None);
      }
      var raw := k.encode(Derived(recordsHash, offsets.entries));
      if |raw| <= MAX_DERIVED_BYTES {
        return Snapshot(bytes, recordsHash, k.sum(raw), |raw|, false, Some(raw));
      }
      return Snapshot(bytes, recordsHash, [], 0, true, None);
    }
  }

  /** Records and offsets files with the manifest's entries about them; budget is its derived state. */
  datatype Snapshot = Snapshot(records: Text, recordsHash: Text, derivedHash: Text, derivedBytes: int,
                               budget: bool, sidecar: Option<Text>)

  function Published(lines: seq<Text>, k: Codec): Snapshot {
    var records, spans := Unlines(lines), SpansFrom(lines, 0, k);
    var raw := k.encode(Derived(k.sum(records), spans));
    if Overflows(spans, k) || |raw| > MAX_DERIVED_BYTES then Snapshot(records, k.sum(records), [], 0, true, None)
    else Snapshot(records, k.sum(records), k.sum(raw), |raw|, false, Some(raw))
  }

  /** The entries start at zero, touch, end at the file's length and carry full digests. */
  ghost predicate Tiles(spans: seq<Span>, start: int, end: int)
    decreases |spans|
  {
    if spans == [] then start == end
    else
      spans[0].offset == start && 1 <= spans[0].length < MAX_LINE && |spans[0].hash| == HASH_LENGTH &&
      Tiles(spans[1..], start + spans[0].length + 1, end)
  }

  /** loadDerived's pass over the decoded entries. */
  method CheckTiling(spans: seq<Span>, recordBytes: int) returns (ok: bool)
    ensures ok <==> Tiles(spans, 0, recordBytes)
  {
    var end := 0;
    for i := 0 to |spans|
      invariant Tiles(spans, 0, recordBytes) <==> Tiles(spans[i..], end, recordBytes)
    {
      assert spans[i..][0] == spans[i] && spans[i..][1..] == spans[i + 1..];
      var s := spans[i];
      if s.offset != end || s.length < 1 || s.length >= MAX_LINE || |s.hash| != HASH_LENGTH {
        return false;
      }
      end := end + spans[i].length + 1;
    }
    return end == recordBytes;
  }

  /** scanSelected's read of one entry: the raw line, if it is terminated and authentic. */
  function ReadRecord(file: Text, s: Span, k: Codec): Option<Text> {
    if s.offset < 0 || s.length < 0 || s.offset + s.length + 1 > |file| then None
    else
      var raw := file[s.offset..s.offset + s.length];
      if file[s.offset + s.length] != '\n' || k.sum(raw) != s.hash then None else Some(raw)
  }

  /** What was written is read back: entry i holds exactly line i. */
  lemma {:induction false} WrittenReadBack(lines: seq<Text>, before: Text, k: Codec, i: nat)
    requires i < |lines|
    ensures |SpansFrom(lines, |before|, k)| == |lines|
    ensures ReadRecord(before + Unlines(lines), SpansFrom(lines, |before|, k)[i], k) == Some(lines[i])
    decreases |lines|
  {
    var file := before + Unlines(lines);
    var next := before + lines[0] + "\n";
    assert next + Unlines(lines[1..]) == file;
    if i == 0 {
      SpansLength(lines, |before|, k);
      assert file[|before|..|before| + |lines[0]|] == lines[0];
      assert file[|before| + |lines[0]|] == '\n';
    } else {
      WrittenReadBack(lines[1..], next, k, i - 1);
      SpansLength(lines, |before|, k);
    }
  }

  lemma {:induction false} SpansLength(lines: seq<Text>, start: nat, k: Codec)
    ensures |SpansFrom(lines, start, k)| == |lines|
  {
    if lines != [] { SpansLength(lines[1..], start + |lines[0]| + 1, k); }
  }

  /** Every entry of a tiling reads successfully from the file. */
  ghost predicate AllRead(file: Text, spans: seq<Span>, k: Codec) {
    forall i :: 0 <= i < |spans| ==> ReadRecord(file, spans[i], k).Some?
  }

  lemma AllReadTail(file: Text, spans: seq<Span>, k: Codec)
    requires spans != [] && AllRead(file, spans, k)
    ensures AllRead(file, spans[1..], k)
  {
    forall i | 0 <= i < |spans[1..]|
      ensures ReadRecord(file, spans[1..][i], k).Some?
    {
      assert spans[1..][i] == spans[i + 1];
    }
  }

  lemma LineThenRest(file: Text, start: nat, length: nat)
    requires start + length < |file| && file[start + length] == '\n'
    ensures file[start..] == file[start..start + length] + "\n" + file[start + length + 1..]
  {
  }

  function Raws(file: Text, spans: seq<Span>, k: Codec): seq<Text>
    requires AllRead(file, spans, k)
  {
    if spans == [] then [] else
      AllReadTail(file, spans, k);
      [ReadRecord(file, spans[0], k).value] + Raws(file, spans[1..], k)
  }

  /** The same places and digests: reading a record does not check its lookup fields. */
  predicate SamePlaces(a: seq<Span>, b: seq<Span>) {
    |a| == |b| && forall i :: 0 <= i < |a| ==> a[i].(fields := []) == b[i].(fields := [])
  }

  /** A line read by its entry goes before the lines of the entries after it. */
  lemma LinePrepended(file: Text, s: Span, raw: Text, rest: seq<Text>, later: seq<Span>, k: Codec)
    requires ReadRecord(file, s, k) == Some(raw)
    requires Unlines(rest) == file[s.offset + s.length + 1..]
    requires SamePlaces(later, SpansFrom(rest, s.offset + s.length + 1, k))
    ensures Unlines([raw] + rest) == file[s.offset..]
    ensures SamePlaces([s] + later, SpansFrom([raw] + rest, s.offset, k))
  {
    LineThenRest(file, s.offset, s.length);
    assert ([raw] + rest)[1..] == rest;
  }

  /** Entries that tile a file and all read successfully cut it into its lines, in order
      and without gaps: positions are line numbers. */
  lemma {:induction false} TilingIsSplit(file: Text, spans: seq<Span>, start: nat, k: Codec)
    requires start <= |file| && Tiles(spans, start, |file|) && AllRead(file, spans, k)
    ensures Unlines(Raws(file, spans, k)) == file[start..]
    ensures SamePlaces(spans, SpansFrom(Raws(file, spans, k), start, k))
    decreases |spans|
  {
    if spans != [] {
      var s := spans[0];
      assert ReadRecord(file, s, k).Some?;
      AllReadTail(file, spans, k);
      TilingIsSplit(file, spans[1..], start + s.length + 1, k);
      LinePrepended(file, s, ReadRecord(file, s, k).value, Raws(file, spans[1..], k), spans[1..], k);
      assert spans == [s] + spans[1..];
    }
  }

  // -------------------------------------------------------- rebuilding offsets

  function DropCR(line: Text): Text {
    if line != [] && line[|line| - 1] == '\r' then line[..|line| - 1] else line
  }

  function DropCRs(lines: seq<Text>): (r: seq<Text>)
    ensures |r| == |lines|
  {
    if lines == [] then [] else [DropCR(lines[0])] + DropCRs(lines[1..])
  }

  /** The pieces a scanner meets: a last empty one is none. */
  function Pieces(file: Text): seq<Text> {
    var pieces := Lines(file);
    if pieces[|pieces| - 1] == [] then pieces[..|pieces| - 1] else pieces
  }

  /** bufio.ScanLines over a whole file. */
  function Scanned(file: Text): seq<Text> {
    DropCRs(Pieces(file))
  }

  /** The scanner's buffer holds a line and its newline, or fails. */
  ghost predicate Scannable(pieces: seq<Text>, k: Codec) {
    forall i :: 0 <= i < |pieces| ==> |pieces[i]| < MAX_LINE && k.isRecord(DropCR(pieces[i]))
  }

  lemma {:induction false} DroppedAt(pieces: seq<Text>, i: nat)
    requires i < |pieces|
    ensures DropCRs(pieces)[i] == DropCR(pieces[i])
  {
    if i > 0 { DroppedAt(pieces[1..], i - 1); }
  }

  lemma ScannableNext(pieces: seq<Text>, i: nat, k: Codec)
    requires i < |pieces| && Scannable(pieces[..i], k)
    requires |pieces[i]| < MAX_LINE && k.isRecord(DropCR(pieces[i]))
    ensures Scannable(pieces[..i + 1], k)
  {
    assert pieces[..i + 1] == pieces[..i] + [pieces[i]];
  }

  lemma NextCollected(o: Offsets, lines: seq<Text>, i: nat, k: Codec)
    requires i < |lines| && Collected(o, lines[..i], k)
    ensures Collected(Collect(o, SpanOf(lines[i], |Unlines(lines[..i])|, k), k), lines[..i + 1], k)
    ensures |Unlines(lines[..i + 1])| == |Unlines(lines[..i])| + |lines[i]| + 1
  {
    assert lines[..i + 1] == lines[..i] + [lines[i]];
    CollectKeeps(o, lines[..i], lines[i], k);
    UnlinesNext(lines, i);
  }

  /** What a load leaves: an error, a cache that scans its records, or offsets to read by. */
  datatype Loaded = Refused | Scanning | Indexed(spans: seq<Span>)

  /** What rebuildOffsets leaves. */
  ghost function Rebuilt(s: Snapshot, k: Codec): Loaded {
    var lines := Scanned(s.records);
    var spans := SpansFrom(lines, 0, k);
    var raw := k.encode(Derived(s.recordsHash, spans));
    if !Scannable(Pieces(s.records), k) || k.sum(s.records) != s.recordsHash then Refused
    else if |Unlines(lines)| != |s.records| || Overflows(spans, k) then Scanning
    else if s.derivedHash != [] && (|raw| != s.derivedBytes || k.sum(raw) != s.derivedHash) then Refused
    else Indexed(spans)
  }

  method RebuildOffsets(s: Snapshot, k: Codec) returns (r: Loaded)
    ensures r == Rebuilt(s, k)
  {
    var pieces := Pieces(s.records);
    var lines := DropCRs(pieces);
    var offsets := Offsets([], 0, false);
    var position := 0;
    for i := 0 to |lines|
      invariant Collected(offsets, lines[..i], k) && position == |Unlines(lines[..i])|
      invariant Scannable(pieces[..i], k)
    {
      DroppedAt(pieces, i);
      if |pieces[i]| >= MAX_LINE || !k.isRecord(lines[i]) {
        assert pieces[i] in pieces;
        return Refused;
      }
      NextCollected(offsets, lines, i, k);
      ScannableNext(pieces, i, k);
      offsets := Collect(offsets, SpanOf(lines[i], position, k), k);
      position := position + |lines[i]| + 1;
    }
    assert lines[..|lines|] == lines && pieces[..|lines|] == pieces;
    if k.sum(s.records) != s.recordsHash {
      return Refused;
    }
    if position != |s.records| || offsets.overflow {
      return Scanning;
    }
    if s.derivedHash != [] {
      var raw := k.encode(Derived(s.recordsHash, offsets.entries));
      if |raw| != s.derivedBytes || k.sum(raw) != s.derivedHash {
        return Refused;
      }
    }
    return Indexed(offsets.entries);
  }

  lemma {:induction false} DropNothing(lines: seq<Text>)
    requires forall i :: 0 <= i < |lines| ==> '\r' !in lines[i]
    ensures DropCRs(lines) == lines
  {
    if lines != [] {
      DropNothing(lines[1..]);
      assert lines == [lines[0]] + lines[1..];
    }
  }

  // -------------------------------------------------------- loading a snapshot

  /** What loadDerived leaves in a cache that holds no offsets yet. */
  ghost function LoadedFrom(s: Snapshot, k: Codec): Loaded {
    if s.derivedHash == [] then
      if s.derivedBytes != 0 then Refused else if s.budget then Scanning else Rebuilt(s, k)
    else if s.budget || |s.derivedHash| != HASH_LENGTH || !(1 <= s.derivedBytes <= MAX_DERIVED_BYTES) then Refused
    else if s.sidecar == None then Rebuilt(s, k)
    else
      var raw := s.sidecar.value;
      if |raw| != s.derivedBytes || k.sum(raw) != s.derivedHash || k.decode(raw) == None then Refused
      else
        var d := k.decode(raw).value;
        if d.recordsHash != s.recordsHash || |d.entries| > MAX_DERIVED_RECORDS then Refused
        else if Tiles(d.entries, 0, |s.records|) then Indexed(d.entries) else Refused
  }

  method LoadDerived(s: Snapshot, k: Codec) returns (r: Loaded)
    ensures r == LoadedFrom(s, k)
  {
    if s.derivedHash == [] {
      if s.derivedBytes != 0 {
        return Refused;
      }
      if s.budget {
        return Scanning;
      }
      r := RebuildOffsets(s, k);
      return;
    }
    if s.budget || |s.derivedHash| != HASH_LENGTH || s.derivedBytes < 1 || s.derivedBytes > MAX_DERIVED_BYTES {
      return Refused;
    }
    if s.sidecar == None {
      r := RebuildOffsets(s, k);
      return;
    }
    var raw := s.sidecar.value;
    if |raw| != s.derivedBytes || k.sum(raw) != s.derivedHash || k.decode(raw) == None {
      return Refused;
    }
    var d := k.decode(raw).value;
    if d.recordsHash != s.recordsHash || |d.entries| > MAX_DERIVED_RECORDS {
      return Refused;
    }
    var ok := CheckTiling(d.entries, |s.records|);
    return if ok then Indexed(d.entries) else Refused;
  }

  /** No line is as long as the longest one that may be written. */
  ghost predicate AllShorter(lines: seq<Text>) {
    forall i :: 0 <= i < |lines| ==> |lines[i]| < MAX_LINE
  }

  lemma {:induction false} TilesExactly(lines: seq<Text>, start: nat, k: Codec)
    requires Faithful(k)
    ensures Tiles(SpansFrom(lines, start, k), start, start + |Unlines(lines)|)
            <==> forall i :: 0 <= i < |lines| ==> 1 <= |lines[i]| < MAX_LINE
  {
    if lines != [] {
      TilesExactly(lines[1..], start + |lines[0]| + 1, k);
      assert forall i :: 1 <= i < |lines| ==> lines[i] == lines[1..][i - 1];
    }
  }

  lemma PiecesOfUnlines(lines: seq<Text>)
    requires forall i :: 0 <= i < |lines| ==> '\n' !in lines[i]
    ensures Pieces(Unlines(lines)) == lines
  {
    LinesOfUnlines(lines);
    assert (lines + [[]])[..|lines|] == lines;
  }

  lemma EncodedScanned(lines: seq<Text>, k: Codec)
    requires Encoded(lines, k)
    ensures Pieces(Unlines(lines)) == Scanned(Unlines(lines)) == lines
    ensures Scannable(lines, k) <==> AllShorter(lines)
  {
    PiecesOfUnlines(lines);
    DropNothing(lines);
    forall i | 0 <= i < |lines|
      ensures DropCR(lines[i]) == lines[i]
    {
      assert lines[i] != [] ==> lines[i][|lines[i]| - 1] in lines[i];
    }
  }

  /** A published snapshot answers alike with its offsets file and without it: it gives back the
      offsets that were written exactly when no record has the longest length that writing accepts,
      and it scans when the offsets were over their budget. */
  lemma PublishedLoads(lines: seq<Text>, k: Codec)
    requires Faithful(k) && Encoded(lines, k)
    ensures var s, spans := Published(lines, k), SpansFrom(lines, 0, k);
            LoadedFrom(s, k) == LoadedFrom(s.(sidecar := None), k) ==
            if s.budget then Scanning else if AllShorter(lines) then Indexed(spans) else Refused
  {
    EncodedScanned(lines, k);
    TilesExactly(lines, 0, k);
    assert forall i :: 0 <= i < |lines| ==> lines[i] != [];
  }

  /** Writing accepts a record of exactly the limit, and no load accepts its entries. */
  lemma LongestIsLost(lines: seq<Text>, line: Text, k: Codec)
    requires Faithful(k) && Encoded(lines + [line], k) && |line| == MAX_LINE
    requires !Published(lines + [line], k).budget
    ensures LoadedFrom(Published(lines + [line], k), k) == Refused
    ensures !Tiles(SpansFrom(lines + [line], 0, k), 0, |Unlines(lines + [line])|)
  {
    var all := lines + [line];
    assert all[|lines|] == line;
    PublishedLoads(all, k);
    TilesExactly(all, 0, k);
  }
}
