/** Postings over the record offsets of an opened snapshot
    (internal/codebase/record_lookup.go). */
module RecordLookup {
  import opened Texts
  import opened Sorting

  datatype RecordField =
    | RecordKind | RecordDeclarationPath | RecordName | RecordTarget | RecordID | RecordDocument
    | RecordLoadTarget | RecordSearchName | RecordSearchPrefix

  datatype LookupKey = LookupKey(field: RecordField, value: Text)

  datatype RecordOffset = RecordOffset(
    offset: int, length: int, hash: Text, kind: Text, path: Text, symbolKind: Text, name: Text,
    target: Text, id: Text, category: Text, signature: Text, line: int)

  /** The path a load directive resolves to. */
  type PathResolver = (Text, Text) -> Text

  predicate SymbolOf(e: RecordOffset) {
    e.kind == "symbol"
  }

  predicate DeclarationOf(e: RecordOffset) {
    e.kind == "symbol" && e.symbolKind == "declaration"
  }

  /** `value` is what follows the dot at position j. */
  predicate AfterDot(name: Text, j: int, value: Text) {
    0 <= j < |name| && name[j] == '.' && name[j + 1..] == value
  }

  ghost predicate DottedSuffix(name: Text, value: Text) {
    exists j :: AfterDot(name, j, value)
  }

  /** The record is listed under the key, once postings of that field exist. Empty
      values are never posted. */
  ghost predicate Posted(loaded: PathResolver, key: LookupKey, e: RecordOffset) {
    key.value != [] &&
    match key.field
    case RecordKind => e.kind == key.value
    case RecordDocument => e.kind == "document" && e.path == key.value
    case RecordName => SymbolOf(e) && e.name == key.value
    case RecordTarget => SymbolOf(e) && e.target == key.value
    case RecordLoadTarget => SymbolOf(e) && e.symbolKind == "load" && loaded(e.path, e.target) == key.value
    case RecordSearchName => DeclarationOf(e) && DottedSuffix(e.name, key.value)
    case RecordID => DeclarationOf(e) && e.id == key.value
    case RecordDeclarationPath => DeclarationOf(e) && e.path == key.value
    case RecordSearchPrefix => false
  }

  /** The record has a posted name that starts with the value. */
  ghost predicate PrefixPosted(loaded: PathResolver, value: Text, e: RecordOffset) {
    exists name :: Prefix(value, name) &&
      (Posted(loaded, LookupKey(RecordName, name), e) || Posted(loaded, LookupKey(RecordSearchName, name), e))
  }

  ghost predicate Hits(loaded: PathResolver, key: LookupKey, e: RecordOffset) {
    if key.field == RecordSearchPrefix then PrefixPosted(loaded, key.value, e) else Posted(loaded, key, e)
  }

  ghost predicate Listed(loaded: PathResolver, keys: seq<LookupKey>, e: RecordOffset) {
    exists k :: 0 <= k < |keys| && Hits(loaded, keys[k], e)
  }

  lemma ListedNext(loaded: PathResolver, keys: seq<LookupKey>, k: nat, e: RecordOffset)
    requires k < |keys|
    ensures Listed(loaded, keys[..k + 1], e) <==> Listed(loaded, keys[..k], e) || Hits(loaded, keys[k], e)
  {
    assert keys[..k + 1] == keys[..k] + [keys[k]];
    if Listed(loaded, keys[..k], e) {
      var m :| 0 <= m < k && Hits(loaded, keys[..k][m], e);
      assert keys[..k + 1][m] == keys[..k][m];
    }
    if Hits(loaded, keys[k], e) {
      assert keys[..k + 1][k] == keys[k];
    }
  }

  /** Every accepted record among the first n, in order: the filtered full scan. */
  function FullScan(es: seq<RecordOffset>, selects: RecordOffset -> bool, n: nat): (r: seq<nat>)
    requires n <= |es|
  {
    if n == 0 then [] else FullScan(es, selects, n - 1) + (if selects(es[n - 1]) then [n - 1] else [])
  }

  lemma {:induction false} FullScanMembers(es: seq<RecordOffset>, selects: RecordOffset -> bool, n: nat)
    requires n <= |es|
    ensures Increasing(FullScan(es, selects, n))
    ensures forall p: nat :: p in FullScan(es, selects, n) <==> p < n && selects(es[p])
  {
    if n > 0 {
      FullScanMembers(es, selects, n - 1);
      var before := FullScan(es, selects, n - 1);
      forall k | 0 <= k < |before| ensures before[k] < n - 1 {
        assert before[k] in before;
      }
    }
  }

  /** The record is selected and, in an indexed keyed scan, listed under some key. */
  ghost predicate Accepted(loaded: PathResolver, es: seq<RecordOffset>, selects: RecordOffset -> bool,
                           keys: seq<LookupKey>, indexed: bool, p: nat) {
    p < |es| && selects(es[p]) && (keys != [] && indexed ==> Listed(loaded, keys, es[p]))
  }

  /** When every accepted record is listed under some key, the keyed scan visits exactly
      the records of the filtered full scan, in the same order and once each. */
  lemma KeyedScanIsFullScan(loaded: PathResolver, es: seq<RecordOffset>, selects: RecordOffset -> bool,
                            keys: seq<LookupKey>, indexed: bool, visited: seq<nat>)
    requires Increasing(visited)
    requires forall p: nat :: p in visited <==> Accepted(loaded, es, selects, keys, indexed, p)
    requires forall p: nat :: p < |es| && selects(es[p]) && keys != [] ==> Listed(loaded, keys, es[p])
    ensures visited == FullScan(es, selects, |es|)
  {
    FullScanMembers(es, selects, |es|);
    IncreasingUnique(visited, FullScan(es, selects, |es|));
  }

  predicate Lazy(f: RecordField) {
    f == RecordID || f == RecordDeclarationPath
  }

  type Postings = map<LookupKey, seq<nat>>

  function Posting(ps: Postings, key: LookupKey): seq<nat> {
    if key in ps then ps[key] else []
  }

  ghost predicate Available(f: RecordField, declarations: bool) {
    f != RecordSearchPrefix && (Lazy(f) ==> declarations)
  }

  /** Every posting lists exactly its records among the first n. */
  ghost predicate Lists(loaded: PathResolver, es: seq<RecordOffset>, ps: Postings, declarations: bool, n: nat)
    requires n <= |es|
  {
    forall key, p: nat {:trigger p in Posting(ps, key)} :: p in Posting(ps, key) <==>
      p < n && Available(key.field, declarations) && Posted(loaded, key, es[p])
  }

  /** The names are exactly the values some name posting lists. */
  ghost predicate NamesListed(ps: Postings, names: seq<Text>) {
    forall v: Text :: v in names <==>
      Posting(ps, LookupKey(RecordName, v)) != [] || Posting(ps, LookupKey(RecordSearchName, v)) != []
  }

  /** `after` also lists position p under the keys that satisfy `more`, and nothing else. */
  ghost predicate Grown(before: Postings, after: Postings, p: nat, more: LookupKey -> bool) {
    forall key, q: nat {:trigger q in Posting(after, key)} ::
      q in Posting(after, key) <==> q in Posting(before, key) || (q == p && more(key))
  }

  lemma GrownTwice(a: Postings, b: Postings, c: Postings, p: nat, m: LookupKey -> bool, n: LookupKey -> bool)
    requires Grown(a, b, p, m) && Grown(b, c, p, n)
    ensures Grown(a, c, p, key => m(key) || n(key))
  {
  }

  predicate One(key: LookupKey, field: RecordField, value: Text) {
    value != [] && key == LookupKey(field, value)
  }

  ghost predicate SuffixKey(key: LookupKey, name: Text, n: int) {
    key.field == RecordSearchName && key.value != [] && exists m :: m < n && AfterDot(name, m, key.value)
  }

  lemma SuffixKeyNext(key: LookupKey, name: Text, j: nat)
    requires j < |name|
    ensures SuffixKey(key, name, j + 1) <==>
            SuffixKey(key, name, j) || (name[j] == '.' && One(key, RecordSearchName, name[j + 1..]))
  {
    if name[j] == '.' && One(key, RecordSearchName, name[j + 1..]) {
      assert AfterDot(name, j, key.value);
    }
  }

  /** The keys one entry is added under when the lookups are first built. */
  ghost predicate EagerKey(loaded: PathResolver, key: LookupKey, e: RecordOffset) {
    || One(key, RecordKind, e.kind)
    || (e.kind == "document" && One(key, RecordDocument, e.path))
    || (e.kind == "symbol" && SymbolKey(loaded, key, e))
  }

  ghost predicate SymbolKey(loaded: PathResolver, key: LookupKey, e: RecordOffset) {
    || One(key, RecordName, e.name)
    || One(key, RecordTarget, e.target)
    || (e.symbolKind == "load" && One(key, RecordLoadTarget, loaded(e.path, e.target)))
    || (e.symbolKind == "declaration" && SuffixKey(key, e.name, |e.name|))
  }

  lemma EagerKeysPosted(loaded: PathResolver, key: LookupKey, e: RecordOffset)
    ensures EagerKey(loaded, key, e) <==> Available(key.field, false) && Posted(loaded, key, e)
  {
    if DottedSuffix(e.name, key.value) {
      var j :| AfterDot(e.name, j, key.value);
      assert j < |e.name|;
    }
  }

  class SnapshotCache {
    const loaded: PathResolver
    const offsets: seq<RecordOffset>
    const indexed: bool  // false when no offsets could be loaded or rebuilt
    var built: bool
    var postings: Postings
    var names: seq<Text>
    var namesSorted: bool
    var declarationsReady: bool

    constructor (loaded: PathResolver, offsets: seq<RecordOffset>, indexed: bool)
      ensures this.loaded == loaded && this.offsets == offsets && this.indexed == indexed && Valid()
    {
      this.loaded := loaded;
      this.offsets := offsets;
      this.indexed := indexed;
      built, postings, names, namesSorted, declarationsReady := false, map[], [], false, false;
    }

    ghost predicate Valid()
      reads this
    {
      && (!built ==> !namesSorted && !declarationsReady)
      && (built ==> Lists(loaded, offsets, postings, declarationsReady, |offsets|) && NamesListed(postings, names))
      && (namesSorted ==> Ordered(names))
    }

    method Add(field: RecordField, value: Text, position: nat)
      requires NamesListed(postings, names)
      modifies `postings, `names
      ensures NamesListed(postings, names)
      ensures Grown(old(postings), postings, position, key => One(key, field, value))
    {
      if value == [] {
        return;
      }
      var key := LookupKey(field, value);
      var had := Posting(postings, key);
      if (field == RecordName || field == RecordSearchName) && had == [] {
        names := names + [value];
      }
      postings := postings[key := had + [position]];
    }

    /** One position per suffix that follows a dot. */
    method AddSuffixes(name: Text, position: nat)
      requires NamesListed(postings, names)
      modifies `postings, `names
      ensures NamesListed(postings, names)
      ensures Grown(old(postings), postings, position, key => SuffixKey(key, name, |name|))
    {
      for j := 0 to |name|
        invariant NamesListed(postings, names)
        invariant Grown(old(postings), postings, position, key => SuffixKey(key, name, j))
      {
        ghost var before := postings;
        if name[j] == '.' {
          Add(RecordSearchName, name[j + 1..], position);
        }
        forall key ensures SuffixKey(key, name, j + 1) <==>
            SuffixKey(key, name, j) || (name[j] == '.' && One(key, RecordSearchName, name[j + 1..])) {
          SuffixKeyNext(key, name, j);
        }
      }
    }
  
    method AddSymbol(i: nat)
      requires i < |offsets| && NamesListed(postings, names)
      modifies `postings, `names
      ensures NamesListed(postings, names)
      ensures Grown(old(postings), postings, i, key => SymbolKey(loaded, key, offsets[i]))
    {
      var e := offsets[i];
      Add(RecordName, e.name, i);
      Add(RecordTarget, e.target, i);
      if e.symbolKind == "load" {
        Add(RecordLoadTarget, loaded(e.path, e.target), i);
      }
      if e.symbolKind == "declaration" {
        AddSuffixes(e.name, i);
      }
    }

    method AddEntry(i: nat)
      requires i < |offsets| && NamesListed(postings, names)
      modifies `postings, `names
      ensures NamesListed(postings, names)
      ensures Grown(old(postings), postings, i, key => EagerKey(loaded, key, offsets[i]))
    {
      var e := offsets[i];
      Add(RecordKind, e.kind, i);
      if e.kind == "document" {
        Add(RecordDocument, e.path, i);
      }
      if e.kind == "symbol" {
        AddSymbol(i);
      }
    }

    /** Built once; afterwards every eager posting lists exactly its records. */
    method BuildLookups()
      requires Valid()
      modifies this
      ensures Valid() && built
      ensures old(built) ==> postings == old(postings) && names == old(names) && namesSorted == old(namesSorted)
      ensures declarationsReady == old(declarationsReady)
    {
      if built {
        return;
      }
      postings, names := map[], [];
      assert forall key :: Posting(postings, key) == [];
      for i := 0 to |offsets|
        invariant NamesListed(postings, names) && Lists(loaded, offsets, postings, false, i)
        invariant !built && !namesSorted && !declarationsReady
      {
        ghost var before := postings;
        AddEntry(i);
        forall key ensures EagerKey(loaded, key, offsets[i])
            <==> Available(key.field, false) && Posted(loaded, key, offsets[i]) {
          EagerKeysPosted(loaded, key, offsets[i]);
        }
        GrownLists(loaded, offsets, before, postings, i);
      }
      built := true;
    }

    /** ID and path postings, allocated on the first query that needs them. */
    method AddDeclarations()
      requires Valid() && built && !declarationsReady
      modifies `postings, `declarationsReady
      ensures Valid() && declarationsReady
    {
      ghost var before := postings;
      for i := 0 to |offsets|
        invariant NamesListed(postings, names) && !declarationsReady
        invariant DeclarationsListed(loaded, offsets, before, postings, i)
      {
        ghost var ps := postings;
        AddDeclaration(i);
        GrownDeclarations(loaded, offsets, before, ps, postings, i, i + 1);
      }
      declarationsReady := true;
      DeclarationsComplete(loaded, offsets, before, postings);
    }

    method AddDeclaration(i: nat)
      requires i < |offsets| && NamesListed(postings, names)
      modifies `postings
      ensures NamesListed(postings, names)
      ensures Grown(old(postings), postings, i, (key: LookupKey) => Lazy(key.field) && Posted(loaded, key, offsets[i]))
    {
      var e := offsets[i];
      if e.kind == "symbol" && e.symbolKind == "declaration" {
        AddPosting(RecordID, e.id, i);
        AddPosting(RecordDeclarationPath, e.path, i);
      }
    }

    method AddPosting(field: RecordField, value: Text, position: nat)
      requires NamesListed(postings, names) && Lazy(field)
      modifies `postings
      ensures NamesListed(postings, names)
      ensures Grown(old(postings), postings, position, key => One(key, field, value))
    {
      if value != [] {
        var key := LookupKey(field, value);
        postings := postings[key := Posting(postings, key) + [position]];
      }
    }

    /** The postings of every listed name that starts with the value. */
    method SelectPrefix(value: Text) returns (selected: seq<nat>)
      requires Valid() && built
      modifies `names, `namesSorted
      ensures Valid()
      ensures forall p: nat :: p in selected <==> p < |offsets| && PrefixPosted(loaded, value, offsets[p])
    {
      if !namesSorted {
        SortedTextsProperties(names);
        names := SortedTexts(names);
        namesSorted := true;
      }
      selected := WalkPrefix(postings, names, value);
      forall p: nat
        ensures p in selected <==> p < |offsets| && PrefixPosted(loaded, value, offsets[p])
      {
        PrefixHits(loaded, offsets, postings, declarationsReady, names, value, p);
      }
    }

    /** lookupOffsets: the positions of all records some key selects, in order, once each. */
    method LookupOffsets(keys: seq<LookupKey>) returns (positions: seq<nat>)
      requires Valid()
      modifies this
      ensures Valid() && built
      ensures Increasing(positions)
      ensures forall p: nat :: p in positions <==> p < |offsets| && Listed(loaded, keys, offsets[p])
    {
      BuildLookups();
      var selected: seq<nat> := [];
      for k := 0 to |keys|
        invariant Valid() && built
        invariant forall p: nat :: p in selected <==> p < |offsets| && Listed(loaded, keys[..k], offsets[p])
      {
        var found := SelectKey(keys[k]);
        forall p: nat | p < |offsets|
          ensures Listed(loaded, keys[..k + 1], offsets[p])
                  <==> Listed(loaded, keys[..k], offsets[p]) || Hits(loaded, keys[k], offsets[p])
        {
          ListedNext(loaded, keys, k, offsets[p]);
        }
        selected := selected + found;
      }
      assert keys[..|keys|] == keys;
      positions := SortedDistinct(selected);
    }

    /** scanSelected: the records a key lists and the selection accepts, in file order,
        once each. Without keys, or without an index, every record is a candidate. */
    method ScanSelected(selects: RecordOffset -> bool, keys: seq<LookupKey>) returns (visited: seq<nat>)
      requires Valid()
      modifies this
      ensures Valid()
      ensures Increasing(visited)
      ensures forall p: nat :: p in visited <==> Accepted(loaded, offsets, selects, keys, indexed, p)
    {
      var keyed := indexed && |keys| > 0;
      var positions := [];
      if keyed {
        positions := LookupOffsets(keys);
      }
      var count := if keyed then |positions| else |offsets|;
      ghost var candidates: seq<nat> := if keyed then positions else seq(|offsets|, i => i);
      forall p: nat
        ensures p in candidates <==> p < |offsets| && (keyed ==> Listed(loaded, keys, offsets[p]))
      {
        if !keyed && p < |offsets| { assert candidates[p] == p; }
      }
      visited := [];
      for i := 0 to count
        invariant Increasing(visited)
        invariant forall p: nat :: p in visited <==> p in candidates[..i] && p < |offsets| && selects(offsets[p])
      {
        var position := i;
        if keyed {
          position := positions[i];
        }
        assert position == candidates[i] && position in candidates;
        assert candidates[..i + 1] == candidates[..i] + [position];
        if selects(offsets[position]) {
          forall k | 0 <= k < |visited| ensures visited[k] < position {
            assert visited[k] in visited;
          }
          visited := visited + [position];
        }
      }
      assert candidates[..count] == candidates;
    }

    method SelectKey(key: LookupKey) returns (found: seq<nat>)
      requires Valid() && built
      modifies this
      ensures Valid() && built
      ensures forall p: nat :: p in found <==> p < |offsets| && Hits(loaded, key, offsets[p])
    {
      if key.field == RecordSearchPrefix {
        found := SelectPrefix(key.value);
      } else {
        if (key.field == RecordID || key.field == RecordDeclarationPath) && key.value != [] && !declarationsReady {
          AddDeclarations();
        }
        found := Posting(postings, key);
        PostingHits(loaded, offsets, postings, declarationsReady, key);
      }
    }
  }

  ghost predicate DeclarationsListed(loaded: PathResolver, es: seq<RecordOffset>, before: Postings, after: Postings,
      n: nat)
    requires n <= |es|
  {
    forall key, p: nat {:trigger p in Posting(after, key)} :: p in Posting(after, key) <==>
      p in Posting(before, key) || (p < n && Lazy(key.field) && Posted(loaded, key, es[p]))
  }

  /** Position p is listed under the k-th name, which starts with the value. */
  ghost predicate NameHit(ps: Postings, names: seq<Text>, value: Text, k: int, p: nat) {
    0 <= k < |names| && Prefix(value, names[k]) && NamePosted(ps, names[k], p)
  }

  ghost predicate NamePosted(ps: Postings, name: Text, p: nat) {
    p in Posting(ps, LookupKey(RecordSearchName, name)) || p in Posting(ps, LookupKey(RecordName, name))
  }

  ghost predicate HitWithin(ps: Postings, names: seq<Text>, at: nat, end: nat, p: nat) {
    exists k :: at <= k < end && k < |names| && NamePosted(ps, names[k], p)
  }

  /** sort.SearchStrings: the first position whose name is not below the value. */
  method SearchStrings(names: seq<Text>, value: Text) returns (at: nat)
    requires Ordered(names)
    ensures at <= |names|
    ensures forall i :: 0 <= i < at ==> Below(names[i], value)
    ensures forall i :: at <= i < |names| ==> !Below(names[i], value)
  {
    var lo, hi := 0, |names|;
    while lo < hi
      invariant lo <= hi <= |names|
      invariant forall i :: 0 <= i < lo ==> Below(names[i], value)
      invariant forall i :: hi <= i < |names| ==> !Below(names[i], value)
    {
      var mid := (lo + hi) / 2;
      if Below(names[mid], value) {
        forall i | 0 <= i < mid ensures Below(names[i], value) {
          BelowTransitive(names[i], names[mid], value);
        }
        lo := mid + 1;
      } else {
        forall i | mid < i < |names| ensures !Below(names[i], value) {
          if Below(names[i], value) {
            BelowTransitive(names[mid], names[i], value);
          }
        }
        hi := mid;
      }
    }
    at := lo;
  }

  /** The walk over the contiguous range from the binary search finds every name that
      starts with the value. */
  method WalkPrefix(ps: Postings, names: seq<Text>, value: Text) returns (selected: seq<nat>)
    requires Ordered(names)
    ensures forall p: nat :: p in selected <==> exists k :: NameHit(ps, names, value, k, p)
  {
    var at := SearchStrings(names, value);
    var i := at;
    selected := [];
    while i < |names| && Prefix(value, names[i])
      invariant at <= i <= |names|
      invariant forall k :: at <= k < i ==> Prefix(value, names[k])
      invariant forall p: nat :: p in selected <==> HitWithin(ps, names, at, i, p)
    {
      ghost var before, j := selected, i + 1;
      selected := selected + Posting(ps, LookupKey(RecordSearchName, names[i]));
      selected := selected + Posting(ps, LookupKey(RecordName, names[i]));
      forall p: nat
        ensures p in selected <==> HitWithin(ps, names, at, j, p)
      {
        HitWithinNext(ps, names, at, i, j, p);
        assert p in selected <==> p in before || NamePosted(ps, names[i], p);
      }
      i := i + 1;
    }
    PrefixRange(names, value, at, i);
    forall p: nat
      ensures HitWithin(ps, names, at, i, p) <==> exists k :: NameHit(ps, names, value, k, p)
    {
      if HitWithin(ps, names, at, i, p) {
        var k :| at <= k < i && k < |names| && NamePosted(ps, names[k], p);
        assert NameHit(ps, names, value, k, p);
      }
    }
  }

  lemma HitWithinNext(ps: Postings, names: seq<Text>, at: nat, i: nat, j: nat, p: nat)
    requires at <= i < |names| && j == i + 1
    ensures HitWithin(ps, names, at, j, p) <==> HitWithin(ps, names, at, i, p) || NamePosted(ps, names[i], p)
  {
    if HitWithin(ps, names, at, i, p) {
      var k :| at <= k < i && k < |names| && NamePosted(ps, names[k], p);
      assert at <= k < j;
    }
  }

  /** Among ordered names the range from the binary search to the first non-member is
      exactly the names with the prefix. */
  lemma PrefixRange(names: seq<Text>, value: Text, at: nat, end: nat)
    requires Ordered(names) && at <= end <= |names|
    requires forall i :: 0 <= i < at ==> Below(names[i], value)
    requires forall i :: at <= i < |names| ==> !Below(names[i], value)
    requires forall k :: at <= k < end ==> Prefix(value, names[k])
    requires end < |names| ==> !Prefix(value, names[end])
    ensures forall k :: 0 <= k < |names| ==> (Prefix(value, names[k]) <==> at <= k < end)
  {
    forall k | 0 <= k < |names|
      ensures Prefix(value, names[k]) <==> at <= k < end
    {
      if k < at && Prefix(value, names[k]) {
        PrefixNotAbove(value, names[k]);
      } else if k >= end {
        PrefixRangeEnds(value, names[end], names[k]);
      }
    }
  }

  lemma PrefixHits(loaded: PathResolver, es: seq<RecordOffset>, ps: Postings, declarations: bool, names: seq<Text>,
                   value: Text, p: nat)
    requires Lists(loaded, es, ps, declarations, |es|) && NamesListed(ps, names)
    ensures (exists k :: NameHit(ps, names, value, k, p)) <==> p < |es| && PrefixPosted(loaded, value, es[p])
  {
    if k :| NameHit(ps, names, value, k, p) {
      assert p < |es| && (Posted(loaded, LookupKey(RecordSearchName, names[k]), es[p]) ||
             Posted(loaded, LookupKey(RecordName, names[k]), es[p]));
    } else if p < |es| && PrefixPosted(loaded, value, es[p]) {
      var name :| Prefix(value, name) &&
        (Posted(loaded, LookupKey(RecordName, name), es[p]) ||
            Posted(loaded, LookupKey(RecordSearchName, name), es[p]));
      assert NamePosted(ps, name, p);
      assert name in names;
      var k :| 0 <= k < |names| && names[k] == name;
      assert NameHit(ps, names, value, k, p);
    }
  }

  lemma PostingHits(loaded: PathResolver, es: seq<RecordOffset>, ps: Postings, declarations: bool, key: LookupKey)
    requires Lists(loaded, es, ps, declarations, |es|)
    requires key.field != RecordSearchPrefix && (Available(key.field, declarations) || key.value == [])
    ensures forall p: nat :: p in Posting(ps, key) <==> p < |es| && Hits(loaded, key, es[p])
  {
    forall p: nat
      ensures p in Posting(ps, key) <==> p < |es| && Hits(loaded, key, es[p])
    {
      assert p in Posting(ps, key) <==> p < |es| && Available(key.field, declarations) && Posted(loaded, key, es[p]);
    }
  }

  lemma DeclarationsComplete(loaded: PathResolver, es: seq<RecordOffset>, before: Postings, after: Postings)
    requires Lists(loaded, es, before, false, |es|) && DeclarationsListed(loaded, es, before, after, |es|)
    ensures Lists(loaded, es, after, true, |es|)
  {
    forall key, p: nat
      ensures p in Posting(after, key) <==> p < |es| && Available(key.field, true) && Posted(loaded, key, es[p])
    {
      assert p in Posting(before, key) <==> p < |es| && Available(key.field, false) && Posted(loaded, key, es[p]);
    }
  }

  lemma GrownDeclarations(loaded: PathResolver, es: seq<RecordOffset>, before: Postings, ps: Postings,
      after: Postings, i: nat, j: nat)
    requires i < |es| && j == i + 1 && DeclarationsListed(loaded, es, before, ps, i)
    requires Grown(ps, after, i, (key: LookupKey) => Lazy(key.field) && Posted(loaded, key, es[i]))
    ensures DeclarationsListed(loaded, es, before, after, j)
  {
    forall key, p: nat
      ensures p in Posting(after, key) <==>
              p in Posting(before, key) || (p < j && Lazy(key.field) && Posted(loaded, key, es[p]))
    {
      var more := (key: LookupKey) => Lazy(key.field) && Posted(loaded, key, es[i]);
      assert Grown(ps, after, i, more);
      assert p in Posting(after, key) <==> p in Posting(ps, key) || (p == i && more(key));
    }
  }

  lemma GrownLists(loaded: PathResolver, es: seq<RecordOffset>, before: Postings, after: Postings, i: nat)
    requires i < |es| && Lists(loaded, es, before, false, i)
    requires Grown(before, after, i, key => EagerKey(loaded, key, es[i]))
    requires forall key :: EagerKey(loaded, key, es[i]) <==> Available(key.field, false) && Posted(loaded, key, es[i])
    ensures Lists(loaded, es, after, false, i + 1)
  {
  }
}
