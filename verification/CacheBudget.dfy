/** The source byte budget: reservations under one capacity lease, eviction of caches, and
    the index writer that spends its grants (internal/codebase/cache_budget.go, index.go). */
module CacheBudget {
  import opened Wrappers
  import opened Texts

  const SOURCE_BUDGET := 0x1_0000_0000
  const CHUNK := 0x80_0000
  const MAX_RECORD := 0x10_0000
  const MAX_DERIVED := 0x800_0000

  /** The reclaimable caches of the namespace by path, with their bytes. */
  type Caches = map<Text, nat>

  /** What trying to reclaim one cache comes to: its lease is busy or fails, its removal fails,
      it stays although optional, or it is removed. */
  datatype Fate = Busy | LeaseFails | ReclaimFails | Kept | Removed

  /** The path that must stay, and case folding of paths. */
  datatype Setting = Setting(protectedPath: Text, fold: Text -> Text)

  /** One cache that an eviction pass comes to, and what trying to reclaim it comes to this time. */
  datatype Try = Try(path: Text, fate: Fate)

  datatype Outcome = Fits | TooSmall | Broken

  datatype Sweep = Sweep(caches: Caches, used: int, outcome: Outcome)

  predicate Candidate(e: Setting, caches: Caches, path: Text) {
    path in caches && (e.protectedPath == [] || e.fold(path) != e.fold(e.protectedPath))
  }

  function Max(a: int, b: int): int {
    if a > b then a else b
  }

  /** The eviction pass: oldest first, until the claim fits. */
  function SweepFrom(e: Setting, caches: Caches, used: int, claim: int, budget: int, order: seq<Try>): Sweep
    decreases |order|
  {
    if used + claim <= budget then Sweep(caches, used, Fits)
    else if order == [] then Sweep(caches, used, TooSmall)
    else if !Candidate(e, caches, order[0].path) then SweepFrom(e, caches, used, claim, budget, order[1..])
    else
      match order[0].fate
      case Busy => SweepFrom(e, caches, used, claim, budget, order[1..])
      case LeaseFails => Sweep(caches, used, Broken)
      case ReclaimFails => Sweep(caches, used, Broken)
      case Kept => SweepFrom(e, caches, used, claim, budget, order[1..])
      case Removed =>
        var p := order[0].path;
        SweepFrom(e, caches - {p}, Max(0, used - caches[p]), claim, budget, order[1..])
  }

  // ----------------------------------------------------------------- total bytes

  lemma NoKeys(m: Caches)
    ensures m.Keys == {} ==> m == map[]
  {
  }

  ghost function Pick(m: Caches): (k: Text)
    requires m != map[]
    ensures k in m
  {
    NoKeys(m);
    var k :| k in m.Keys;
    k
  }

  lemma FewerKeys(m: Caches, k: Text)
    requires k in m
    ensures (m - {k}).Keys == m.Keys - {k} && |(m - {k}).Keys| < |m.Keys|
  {
  }

  ghost function Total(m: Caches): nat
    decreases |m.Keys|
  {
    if m == map[] then 0
    else
      FewerKeys(m, Pick(m));
      m[Pick(m)] + Total(m - {Pick(m)})
  }

  lemma {:induction false} TotalWithout(m: Caches, k: Text)
    requires k in m
    ensures Total(m) == m[k] + Total(m - {k})
    decreases |m.Keys|
  {
    var p := Pick(m);
    if p != k {
      FewerKeys(m, p);
      FewerKeys(m, k);
      TotalWithout(m - {p}, k);
      assert (m - {p}) - {k} == (m - {k}) - {p};
      TotalWithout(m - {k}, p);
    }
  }

  // --------------------------------------------------------------------- evictions

  /** Caches went only as removable candidates that this pass reclaimed; those that stay are unchanged. */
  predicate Spared(e: Setting, before: Caches, after: Caches, order: seq<Try>) {
    && (forall p :: p in after ==> p in before && after[p] == before[p])
    && (forall p :: p in before && p !in after ==> Candidate(e, before, p) && Try(p, Removed) in order)
  }

  /** What an eviction pass never does: lose count of bytes, touch the protected path or a
      cache that was not reclaimed, or change a cache that stays. */
  lemma {:induction false} SweepSound(e: Setting, caches: Caches, used: int, claim: int, budget: int, order: seq<Try>,
                                      kept: nat)
    requires Total(caches) + kept <= used
    ensures var s := SweepFrom(e, caches, used, claim, budget, order);
            && Total(s.caches) + kept <= s.used <= used
            && (s.outcome == Fits ==> s.used + claim <= budget)
            && Spared(e, caches, s.caches, order)
    decreases |order|
  {
    if used + claim > budget && order != [] {
      var t := order[0];
      assert t in order && forall x :: x in order[1..] ==> x in order;
      if Candidate(e, caches, t.path) && t.fate == Removed {
        TotalWithout(caches, t.path);
        SweepSound(e, caches - {t.path}, Max(0, used - caches[t.path]), claim, budget, order[1..], kept);
      } else if !Candidate(e, caches, t.path) || t.fate == Busy || t.fate == Kept {
        SweepSound(e, caches, used, claim, budget, order[1..], kept);
      }
    }
  }

  lemma SparedTogether(e: Setting, a: Caches, b: Caches, c: Caches, first: seq<Try>, second: seq<Try>)
    requires (Spared(e, a, b, first) || a == b) && (Spared(e, b, c, second) || b == c)
    ensures Spared(e, a, c, first + second)
  {
  }

  /** Every candidate that the pass came to and that is still there was busy or would not go. */
  predicate Exhausted(e: Setting, caches: Caches, order: seq<Try>) {
    forall t :: t in order && Candidate(e, caches, t.path) ==> t.fate == Busy || t.fate == Kept
  }

  /** It gives up only when every cache it may still evict is busy or would not go. */
  lemma {:induction false} SweepGivesUp(e: Setting, caches: Caches, used: int, claim: int, budget: int, order: seq<Try>)
    requires SweepFrom(e, caches, used, claim, budget, order).outcome == TooSmall
    ensures var s := SweepFrom(e, caches, used, claim, budget, order);
            s.used + claim > budget && Exhausted(e, s.caches, order)
    decreases |order|
  {
    if order != [] {
      var t := order[0];
      assert forall x :: x in order ==> x == t || x in order[1..];
      if Candidate(e, caches, t.path) && t.fate == Removed {
        SweepGivesUp(e, caches - {t.path}, Max(0, used - caches[t.path]), claim, budget, order[1..]);
        SweepSubset(e, caches - {t.path}, Max(0, used - caches[t.path]), claim, budget, order[1..]);
      } else {
        SweepGivesUp(e, caches, used, claim, budget, order[1..]);
        SweepSubset(e, caches, used, claim, budget, order[1..]);
      }
    }
  }

  lemma {:induction false} SweepSubset(e: Setting, caches: Caches, used: int, claim: int, budget: int, order: seq<Try>)
    ensures SweepFrom(e, caches, used, claim, budget, order).caches.Keys <= caches.Keys
    decreases |order|
  {
    if used + claim > budget && order != [] {
      var t := order[0];
      if Candidate(e, caches, t.path) && t.fate == Removed {
        SweepSubset(e, caches - {t.path}, Max(0, used - caches[t.path]), claim, budget, order[1..]);
      } else if !Candidate(e, caches, t.path) || t.fate == Busy || t.fate == Kept {
        SweepSubset(e, caches, used, claim, budget, order[1..]);
      }
    }
  }

  // ---------------------------------------------------------------------- the lease

  datatype Failure = InvalidReservation | OverBudget | EvictionFailed

  /** One capacity lease over the namespace: the caches, the bytes that are never reclaimed,
      the bytes staged under this lease, and what it counts. */
  class CapacityLease {
    const setting: Setting
    const budget: nat
    const fixed: nat
    var caches: Caches
    var staged: nat
    var baselineUsed: int
    var reserved: int

    /** Before this lease staged anything its count covers the whole namespace, and what it
        staged is covered by what it reserved. */
    ghost predicate Valid()
      reads this
    {
      Total(caches) + fixed <= baselineUsed && staged <= reserved && baselineUsed + reserved <= budget
    }

    /** Bytes in the namespace. */
    ghost function Bytes(): nat
      reads this
    {
      Total(caches) + fixed + staged
    }

    lemma NamespaceWithinBudget()
      requires Valid()
      ensures Bytes() <= budget
    {
    }

    /** The evictions of one pass: only removable candidates, never the protected path. */
    twostate predicate OnlyEvicted(order: seq<Try>)
      reads this
    {
      Spared(setting, old(caches), caches, order)
    }

    constructor (setting: Setting, budget: nat, fixed: nat, caches: Caches, used: int, reserved: int)
      requires Total(caches) + fixed <= used && 0 <= reserved && used + reserved <= budget
      ensures Valid() && this.setting == setting && this.budget == budget && this.reserved == reserved && staged == 0
      ensures this.caches == caches && this.fixed == fixed && baselineUsed == used
    {
      this.setting, this.budget, this.fixed := setting, budget, fixed;
      this.caches, staged, baselineUsed, this.reserved := caches, 0, used, reserved;
    }

    /** Grow: reserves more while the same lock is held, without a second walk. */
    method Grow(additional: int, order: seq<Try>) returns (r: Option<Failure>)
      requires Valid()
      modifies this`caches, this`baselineUsed, this`reserved
      ensures Valid() && OnlyEvicted(order)
      ensures reserved == old(reserved) + (if r.None? then additional else 0) && (r.None? ==> additional >= 0)
      ensures r == Some(OverBudget) && additional >= 0 && old(reserved) + additional <= budget ==>
                Exhausted(setting, caches, order)
      ensures old(baselineUsed) + old(reserved) + additional <= budget && additional >= 0 ==>
                r.None? && caches == old(caches)
    {
      if additional < 0 {
        return Some(InvalidReservation);
      }
      if additional > budget || reserved > budget - additional {
        return Some(OverBudget);
      }
      if baselineUsed + reserved + additional > budget {
        ghost var sweep := SweepFrom(setting, caches, baselineUsed, reserved + additional, budget, order);
        SweepSound(setting, caches, baselineUsed, reserved + additional, budget, order, fixed);
        if sweep.outcome == TooSmall {
          SweepGivesUp(setting, caches, baselineUsed, reserved + additional, budget, order);
        }
        var swept := Evict(reserved + additional, order);
        if swept == Broken {
          return Some(EvictionFailed);
        }
        if swept == TooSmall {
          return Some(OverBudget);
        }
      }
      reserved := reserved + additional;
      return None;
    }

    /** The eviction loop. */
    method Evict(claim: int, order: seq<Try>) returns (outcome: Outcome)
      modifies this`caches, this`baselineUsed
      ensures Sweep(caches, baselineUsed, outcome) ==
              SweepFrom(setting, old(caches), old(baselineUsed), claim, budget, order)
    {
      ghost var sweep := SweepFrom(setting, caches, baselineUsed, claim, budget, order);
      var projected := baselineUsed + claim;
      var i := 0;
      while i < |order| && projected > budget
        invariant 0 <= i <= |order| && projected == baselineUsed + claim
        invariant SweepFrom(setting, caches, baselineUsed, claim, budget, order[i..]) == sweep
      {
        var candidate := order[i];
        assert order[i..][0] == candidate && order[i..][1..] == order[i + 1..];
        if Candidate(setting, caches, candidate.path) {
          var fate := candidate.fate;
          if fate == LeaseFails || fate == ReclaimFails {
            return Broken;
          }
          if fate == Removed {
            baselineUsed := Max(0, baselineUsed - caches[candidate.path]);
            caches := caches - {candidate.path};
            projected := baselineUsed + claim;
          }
        }
        i := i + 1;
      }
      return if projected > budget then TooSmall else Fits;
    }
  }

  /** reserveSourceCapacityBudget: the first claim, against a walk of the whole namespace. */
  method ReserveSourceCapacity(setting: Setting, additional: int, budget: int, fixed: nat, caches: Caches, walked: nat,
                               order: seq<Try>)
    returns (r: Result<CapacityLease, Failure>)
    requires walked == Total(caches) + fixed
    ensures r.Ok? ==> fresh(r.value) && r.value.Valid() && r.value.reserved == additional && r.value.budget == budget
                      && r.value.setting == setting && r.value.staged == 0
    ensures r.Ok? <==> 0 <= additional <= budget <= SOURCE_BUDGET &&
                       SweepFrom(setting, caches, walked, additional, budget, order).outcome == Fits
    ensures r.Ok? ==> r.value.caches == SweepFrom(setting, caches, walked, additional, budget, order).caches
  {
    if budget < 0 || budget > SOURCE_BUDGET || additional < 0 || additional > budget {
      return Err(InvalidReservation);
    }
    var used: int, left, i := walked, caches, 0;
    ghost var sweep := SweepFrom(setting, caches, walked, additional, budget, order);
    while i < |order| && used + additional > budget
      invariant 0 <= i <= |order| && Total(left) + fixed <= used
      invariant SweepFrom(setting, left, used, additional, budget, order[i..]) == sweep
    {
      var candidate := order[i];
      assert order[i..][0] == candidate && order[i..][1..] == order[i + 1..];
      if Candidate(setting, left, candidate.path) {
        var fate := candidate.fate;
        if fate == LeaseFails || fate == ReclaimFails {
          return Err(EvictionFailed);
        }
        if fate == Removed {
          TotalWithout(left, candidate.path);
          used := Max(0, used - left[candidate.path]);
          left := left - {candidate.path};
        }
      }
      i := i + 1;
    }
    if used + additional > budget {
      assert order[i..] == [];
      return Err(OverBudget);
    }
    var lease := new CapacityLease(setting, budget, fixed, left, used, additional);
    return Ok(lease);
  }

  // --------------------------------------------------------------- the index writer

  /** buildIndex's reserve and write closures over one lease. */
  class IndexWriter {
    const lease: CapacityLease
    var granted: int
    var consumed: int

    ghost predicate Valid()
      reads this, lease
    {
      lease.Valid() && granted == lease.reserved && lease.staged <= consumed <= granted
    }

    constructor (lease: CapacityLease)
      requires lease.Valid() && lease.reserved == CHUNK && lease.staged == 0
      ensures Valid() && this.lease == lease
    {
      this.lease := lease;
      granted, consumed := CHUNK, 0;
    }

    /** reserve: grants come in chunks, and only what is granted is consumed. */
    method Reserve(bytes: int, order: seq<Try>) returns (r: Option<Failure>)
      requires Valid()
      modifies this, lease`caches, lease`baselineUsed, lease`reserved
      ensures Valid() && lease.OnlyEvicted(order)
      ensures consumed == old(consumed) + (if r.None? then bytes else 0) && (r.None? ==> bytes >= 0)
      ensures bytes >= 0 && old(consumed) + bytes <= old(granted) ==>
                r.None? && granted == old(granted) && lease.caches == old(lease.caches)
    {
      if bytes < 0 {
        return Some(InvalidReservation);
      }
      if consumed + bytes > granted {
        var more := Max(CHUNK, consumed + bytes - granted);
        r := lease.Grow(more, order);
        if r.Some? {
          return;
        }
        granted := granted + more;
      }
      consumed := consumed + bytes;
      return None;
    }

    /** Any staged file: reserved before a byte of it is written. */
    method Stage(bytes: nat, order: seq<Try>) returns (r: Option<Failure>)
      requires Valid()
      modifies this, lease`caches, lease`baselineUsed, lease`reserved, lease`staged
      ensures Valid() && lease.OnlyEvicted(order)
      ensures lease.staged == old(lease.staged) + (if r.None? then bytes else 0)
      ensures lease.staged <= granted == lease.reserved && lease.Bytes() <= lease.budget
      ensures consumed == old(consumed) + (if r.None? then bytes else 0)
      ensures old(consumed) + bytes <= old(granted) ==> r.None? && lease.caches == old(lease.caches)
    {
      lease.NamespaceWithinBudget();
      r := Reserve(bytes, order);
      lease.NamespaceWithinBudget();
      if r.Some? {
        return;
      }
      lease.staged := lease.staged + bytes;
      lease.NamespaceWithinBudget();
    }

    /** One record and its newline. */
    method Write(length: nat, order: seq<Try>) returns (r: Option<Failure>)
      requires Valid()
      modifies this, lease`caches, lease`baselineUsed, lease`reserved, lease`staged
      ensures Valid() && lease.OnlyEvicted(order)
      ensures lease.staged == old(lease.staged) + (if r.None? then length + 1 else 0)
      ensures lease.staged <= granted == lease.reserved && lease.Bytes() <= lease.budget
      ensures length > MAX_RECORD ==> r == Some(OverBudget) && consumed == old(consumed)
    {
      lease.NamespaceWithinBudget();
      if length > MAX_RECORD {
        return Some(OverBudget);
      }
      r := Stage(length + 1, order);
    }

    /** The end of a build: the offsets file, unless it is over its own limit, and the manifest. */
    method Finish(offsets: Option<nat>, manifest: nat, order: seq<Try>, later: seq<Try>) returns (r: Option<Failure>)
      requires Valid()
      modifies this, lease`caches, lease`baselineUsed, lease`reserved, lease`staged
      ensures Valid() && lease.OnlyEvicted(order + later)
      ensures var kept := if offsets.Some? && offsets.value <= MAX_DERIVED then offsets.value else 0;
              r.None? ==> lease.staged == old(lease.staged) + kept + manifest
      ensures lease.staged <= granted == lease.reserved && lease.Bytes() <= lease.budget
    {
      ghost var before := lease.caches;
      r := None;
      lease.NamespaceWithinBudget();
      if offsets.Some? && offsets.value <= MAX_DERIVED {
        r := Stage(offsets.value, order);
      }
      SparedTogether(lease.setting, before, lease.caches, lease.caches, order, later);
      if r.Some? {
        return;
      }
      ghost var middle := lease.caches;
      r := Stage(manifest, later);
      SparedTogether(lease.setting, before, middle, lease.caches, order, later);
    }
  }
}
