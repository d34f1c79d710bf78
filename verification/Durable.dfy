/** Durable steps one after another, and what is left of them when a process dies part-way.
    Every operation on disk is a list of such steps over its own kind of disk. */
module Durable {

  function ApplyAll<D, W>(apply: (D, W) -> D, d: D, ws: seq<W>): D
    decreases |ws|
  {
    if ws == [] then d else ApplyAll(apply, apply(d, ws[0]), ws[1..])
  }

  /** The disk after a process that could perform only `left` steps. */
  function Cut<D, W>(apply: (D, W) -> D, d: D, ws: seq<W>, left: nat): D {
    ApplyAll(apply, d, if left < |ws| then ws[..left] else ws)
  }

  lemma {:induction false} ApplyAppend<D, W>(apply: (D, W) -> D, d: D, a: seq<W>, b: seq<W>)
    ensures ApplyAll(apply, d, a + b) == ApplyAll(apply, ApplyAll(apply, d, a), b)
    decreases |a|
  {
    if a == [] {
      assert a + b == b;
    } else {
      assert (a + b)[1..] == a[1..] + b;
      ApplyAppend(apply, apply(d, a[0]), a[1..], b);
    }
  }

  lemma ApplyOne<D, W>(apply: (D, W) -> D, d: D, w: W)
    ensures ApplyAll(apply, d, [w]) == apply(d, w)
  {
    assert [w][1..] == [];
    assert ApplyAll(apply, apply(d, w), []) == apply(d, w);
  }

  lemma CutOne<D, W>(apply: (D, W) -> D, d: D, w: W, left: nat)
    ensures Cut(apply, d, [w], left) == if left == 0 then d else apply(d, w)
    ensures ApplyAll(apply, d, [w]) == apply(d, w)
  {
    ApplyOne(apply, d, w);
    assert [w][..0] == [];
  }

  lemma CutNone<D, W>(apply: (D, W) -> D, d: D, ws: seq<W>)
    ensures Cut(apply, d, ws, 0) == d
  {
    assert ws[..0] == [];
  }

  /** A death in the first part of a plan, or in the second. */
  lemma CutChain<D, W>(apply: (D, W) -> D, d: D, a: seq<W>, b: seq<W>, left: nat)
    ensures left < |a| ==> Cut(apply, d, a + b, left) == Cut(apply, d, a, left)
    ensures left >= |a| ==> Cut(apply, d, a + b, left) == Cut(apply, ApplyAll(apply, d, a), b, left - |a|)
  {
    if left < |a| {
      assert (a + b)[..left] == a[..left];
    } else if left < |a + b| {
      assert (a + b)[..left] == a + b[..left - |a|];
      ApplyAppend(apply, d, a, b[..left - |a|]);
    } else {
      ApplyAppend(apply, d, a, b);
    }
  }

  lemma Regrouped<W>(a: seq<W>, b: seq<W>, c: seq<W>)
    ensures a + (b + c) == (a + b) + c
  {
  }

  /** One step of a plan of which `done` is done. */
  lemma Middle<D, W>(apply: (D, W) -> D, d: D, done: seq<W>, w: W, rest: seq<W>, left: nat)
    ensures done + ([w] + rest) == (done + [w]) + rest
    ensures ApplyAll(apply, d, done + [w]) == apply(ApplyAll(apply, d, done), w)
    ensures left == |done| ==> Cut(apply, d, done + ([w] + rest), left) == ApplyAll(apply, d, done)
  {
    Regrouped(done, [w], rest);
    ApplyAppend(apply, d, done, [w]);
    ApplyOne(apply, ApplyAll(apply, d, done), w);
    CutChain(apply, d, done, [w] + rest, left);
    CutNone(apply, ApplyAll(apply, d, done), [w] + rest);
  }
}
