/** The broker's bounded queue and its wake token, under every interleaving of submitters,
    departing callers and the one worker (internal/command/source_broker.go). */
module BrokerQueue {
  import opened Wrappers

  const CAPACITY := 16

  /** Tasks are told apart by the order in which they were accepted. */
  type Task = nat

  /** What the queue's own fields hold. */
  datatype Queue = Queue(pending: seq<Task>, wake: bool)

  function Submitted(q: Queue, t: Task): (Queue, bool) {
    if |q.pending| >= CAPACITY then (q, false) else (Queue(q.pending + [t], true), true)
  }

  /** The task's place, or the length where it is not pending. */
  function Place(pending: seq<Task>, t: Task): (i: nat)
    ensures i <= |pending| && (i < |pending| ==> pending[i] == t) && forall j :: 0 <= j < i ==> pending[j] != t
  {
    if pending == [] then 0 else if pending[0] == t then 0 else 1 + Place(pending[1..], t)
  }

  function Without(pending: seq<Task>, t: Task): seq<Task> {
    var i := Place(pending, t);
    if i < |pending| then pending[..i] + pending[i + 1..] else pending
  }

  function Removed(q: Queue, t: Task): Queue {
    q.(pending := Without(q.pending, t))
  }

  function Taken(q: Queue): (Queue, Option<Task>) {
    if q.pending == [] then (q, None) else (Queue(q.pending[1..], q.wake || |q.pending| > 1), Some(q.pending[0]))
  }

  /** sourceBrokerQueue: each method runs under the mutex. */
  class SourceBrokerQueue {
    var pending: seq<Task>
    /** The token of the wake channel, whose capacity is one. */
    var wake: bool

    constructor ()
      ensures State() == Queue([], false)
    {
      pending, wake := [], false;
    }

    function State(): Queue
      reads this
    {
      Queue(pending, wake)
    }

    method Submit(t: Task) returns (ok: bool)
      modifies this
      ensures (State(), ok) == Submitted(old(State()), t)
    {
      if |pending| >= CAPACITY {
        return false;
      }
      pending := pending + [t];
      if !wake {
        wake := true;
      }
      return true;
    }

    method Remove(t: Task)
      modifies this
      ensures State() == Removed(old(State()), t)
    {
      var i := 0;
      while i < |pending|
        invariant 0 <= i <= |pending| && unchanged(this) && forall j :: 0 <= j < i ==> pending[j] != t
      {
        if pending[i] == t {
          PlaceFound(pending, t, i);
          pending := pending[..i] + pending[i + 1..];
          return;
        }
        i := i + 1;
      }
      PlaceAbsent(pending, t);
    }

    method Next() returns (task: Option<Task>)
      modifies this
      ensures (State(), task) == Taken(old(State()))
    {
      if |pending| == 0 {
        return None;
      }
      task := Some(pending[0]);
      pending := pending[1..];
      if |pending| > 0 && !wake {
        wake := true;
      }
    }
  }

  lemma PlaceAbsent(pending: seq<Task>, t: Task)
    ensures t in pending <==> Place(pending, t) < |pending|
  {
  }

  lemma PlaceFound(pending: seq<Task>, t: Task, i: nat)
    requires i < |pending| && pending[i] == t && forall j :: 0 <= j < i ==> pending[j] != t
    ensures Place(pending, t) == i
  {
  }

  // ---------------------------------------------------------------- interleavings

  /** Where the worker is: waiting, between receiving the token and next, or with a task. */
  datatype Worker = Waiting | Woken | Serving(task: Task) | Retiring(task: Task) | Stopped

  /** The whole state with its history: accepted counts the submitted tasks; a full reply
      channel holds the task's response. */
  datatype System = System(
    queue: Queue, worker: Worker, accepted: nat, delivered: seq<Task>, removed: set<Task>, full: set<Task>,
    replied: set<Task>)

  /** One step of some goroutine. Retire answers a task that ends the worker, which then waits until
      that task's caller is done. Blocked is a send to a full reply channel. */
  datatype Event = Submit | Leave(task: Task) | Receive | Next | Reply | Retire | Collect(task: Task) | Done | Stop

  datatype Result = Stepped(system: System) | Refused | Blocked

  /** What a step does; Refused where it cannot happen in this state. */
  function Step(s: System, e: Event): Result {
    match e
    case Submit =>
      var (q, ok) := Submitted(s.queue, s.accepted);
      Stepped(if ok then s.(queue := q, accepted := s.accepted + 1) else s)
    case Leave(t) =>
      Stepped(s.(queue := Removed(s.queue, t), removed := if t in s.queue.pending then s.removed + {t} else s.removed))
    case Receive =>
      if s.worker.Waiting? && s.queue.wake then Stepped(s.(queue := s.queue.(wake := false), worker := Woken))
      else Refused
    case Next =>
      if !s.worker.Woken? then Refused
      else
        var (q, task) := Taken(s.queue);
        Stepped(match task
                case None => s.(queue := q, worker := Waiting)
                case Some(t) => s.(queue := q, worker := Serving(t), delivered := s.delivered + [t]))
    case Reply =>
      if !s.worker.Serving? then Refused
      else if s.worker.task in s.full then Blocked
      else Stepped(s.(worker := Waiting, full := s.full + {s.worker.task}, replied := s.replied + {s.worker.task}))
    case Retire =>
      if !s.worker.Serving? then Refused
      else if s.worker.task in s.full then Blocked
      else
        var t := s.worker.task;
        Stepped(s.(worker := Retiring(t), full := s.full + {t}, replied := s.replied + {t}))
    case Done => if s.worker.Retiring? then Stepped(s.(worker := Stopped)) else Refused
    case Collect(t) => if t in s.full then Stepped(s.(full := s.full - {t})) else Refused
    case Stop => if s.worker.Waiting? then Stepped(s.(worker := Stopped)) else Refused
  }

  const START: System := System(Queue([], false), Waiting, 0, [], {}, {}, {})

  // -------------------------------------------------------------------- invariants

  ghost predicate Increasing(s: seq<Task>) {
    forall i, j :: 0 <= i < j < |s| ==> s[i] < s[j]
  }

  /** A pending task has a wake token, or a worker that received one and will call next. */
  ghost predicate Awake(s: System) {
    s.queue.pending != [] ==> s.queue.wake || s.worker.Woken?
  }

  /** Deliveries, then what is pending, in the order of acceptance and each task once. */
  ghost predicate InOrder(s: System) {
    Increasing(s.delivered + s.queue.pending) && forall t :: t in s.delivered + s.queue.pending ==> t < s.accepted
  }

  /** Every accepted task is delivered, pending or withdrawn, and only one of them. */
  ghost predicate Conserved(s: System) {
    && (forall t :: t in s.removed ==> t < s.accepted && t !in s.delivered && t !in s.queue.pending)
    && (forall t :: 0 <= t < s.accepted ==> t in s.removed || t in s.delivered || t in s.queue.pending)
  }

  /** Only a delivered task the worker has finished with has had its reply. */
  ghost predicate RepliedOnce(s: System) {
    && s.full <= s.replied
    && (forall t :: t in s.replied ==> t in s.delivered)
    && (s.worker.Serving? ==>
          s.delivered != [] && s.worker.task == s.delivered[|s.delivered| - 1] && s.worker.task !in s.replied)
  }

  ghost predicate Inv(s: System) {
    |s.queue.pending| <= CAPACITY && Awake(s) && InOrder(s) && Conserved(s) && RepliedOnce(s)
  }

  lemma IncreasingMore(s: seq<Task>, t: Task)
    requires Increasing(s) && forall x :: x in s ==> x < t
    ensures Increasing(s + [t])
  {
    assert forall i :: 0 <= i < |s| ==> s[i] in s;
  }

  lemma IncreasingDrop(a: seq<Task>, i: nat, b: seq<Task>)
    requires i < |b| && Increasing(a + b)
    ensures Increasing(a + (b[..i] + b[i + 1..]))
    ensures b[i] !in a && b[i] !in b[..i] + b[i + 1..]
    ensures forall x :: x in b && x != b[i] ==> x in b[..i] + b[i + 1..]
    ensures forall x :: x in b[..i] + b[i + 1..] ==> x in b
  {
    var whole, c := a + b, b[..i] + b[i + 1..];
    assert forall k :: 0 <= k < |b| ==> whole[|a| + k] == b[k];
    assert forall k :: 0 <= k < |a| ==> whole[k] == a[k];
    forall j, k | 0 <= j < k < |a + c|
      ensures (a + c)[j] < (a + c)[k]
    {
      var j' := if j < |a| + i then j else j + 1;
      var k' := if k < |a| + i then k else k + 1;
      assert (a + c)[j] == whole[j'] && (a + c)[k] == whole[k'];
    }
    assert whole[|a| + i] == b[i];
    forall x | x in b && x != b[i]
      ensures x in c
    {
      var m :| 0 <= m < |b| && b[m] == x;
      assert c[if m < i then m else m - 1] == x;
    }
  }

  lemma SubmitKeeps(s: System)
    requires Inv(s)
    ensures Inv(Step(s, Submit).system)
  {
    var t := s.accepted;
    if |s.queue.pending| < CAPACITY {
      assert s.delivered + (s.queue.pending + [t]) == (s.delivered + s.queue.pending) + [t];
      IncreasingMore(s.delivered + s.queue.pending, t);
    }
  }

  lemma SameMembers(a: seq<Task>, b: seq<Task>)
    ensures forall x :: x in a + b <==> x in a || x in b
  {
  }

  lemma LeaveKeeps(s: System, t: Task)
    requires Inv(s)
    ensures Inv(Step(s, Leave(t)).system)
  {
    var i := Place(s.queue.pending, t);
    PlaceAbsent(s.queue.pending, t);
    if i < |s.queue.pending| {
      var pending, r := s.queue.pending, Step(s, Leave(t)).system;
      var rest := r.queue.pending;
      assert rest == pending[..i] + pending[i + 1..] && pending[i] == t;
      IncreasingDrop(s.delivered, i, pending);
      SameMembers(s.delivered, pending);
      SameMembers(s.delivered, rest);
      assert t in pending && t in s.delivered + pending;
      assert InOrder(r);
      forall x | 0 <= x < r.accepted
        ensures x in r.removed || x in r.delivered || x in r.queue.pending
      {
        if x in pending && x != t { assert x in rest; }
      }
      assert Conserved(r);
    }
  }

  lemma NextKeeps(s: System)
    requires Inv(s) && s.worker.Woken?
    ensures Inv(Step(s, Next).system)
  {
    var pending := s.queue.pending;
    if pending != [] {
      assert (s.delivered + [pending[0]]) + pending[1..] == s.delivered + pending;
      IncreasingDrop(s.delivered, 0, pending);
      assert pending == [pending[0]] + pending[1..];
    }
  }

  lemma StepKeeps(s: System, e: Event)
    requires Inv(s) && Step(s, e).Stepped?
    ensures Inv(Step(s, e).system)
  {
    match e
    case Submit => SubmitKeeps(s);
    case Leave(t) => LeaveKeeps(s, t);
    case Next => NextKeeps(s);
    case _ =>
  }

  /** The worker never waits for a reply channel: it is empty whenever it answers. */
  lemma NeverBlocks(s: System, e: Event)
    requires Inv(s)
    ensures !Step(s, e).Blocked?
  {
  }

  /** The states of a run; steps that cannot happen are passed over. */
  function Run(s: System, events: seq<Event>): System
    decreases |events|
  {
    if events == [] then s
    else Run(if Step(s, events[0]).Stepped? then Step(s, events[0]).system else s, events[1..])
  }

  lemma {:induction false} RunKeeps(s: System, events: seq<Event>)
    requires Inv(s)
    ensures Inv(Run(s, events))
    decreases |events|
  {
    if events != [] {
      if Step(s, events[0]).Stepped? { StepKeeps(s, events[0]); }
      RunKeeps(if Step(s, events[0]).Stepped? then Step(s, events[0]).system else s, events[1..]);
    }
  }

  /** After any interleaving: at most sixteen pending; a pending task never goes unnoticed;
      deliveries are in the order of acceptance and at most one each; no accepted task is lost;
      and the worker's next reply would not block. */
  lemma EveryInterleaving(events: seq<Event>)
    ensures var s := Run(START, events);
            && |s.queue.pending| <= CAPACITY && Awake(s) && Increasing(s.delivered) && Conserved(s)
            && !Step(s, Reply).Blocked? && !Step(s, Retire).Blocked?
            && (s.queue.pending != [] && s.worker.Waiting? ==> Step(s, Receive).Stepped?)
            && (s.queue.pending != [] && s.worker.Woken? ==>
                  Step(s, Next).system.delivered == s.delivered + [s.queue.pending[0]])
  {
    RunKeeps(START, events);
    var s := Run(START, events);
    var whole := s.delivered + s.queue.pending;
    assert forall i :: 0 <= i < |s.delivered| ==> whole[i] == s.delivered[i];
  }

  predicate Over(worker: Worker) {
    worker.Stopped? || worker.Retiring?
  }

  /** Once the worker is retiring or has stopped nothing is delivered or answered any more; what is
      pending then only waits to be withdrawn. */
  lemma {:induction false} StoppedForGood(s: System, events: seq<Event>)
    requires Inv(s) && Over(s.worker)
    ensures var r := Run(s, events);
            && Over(r.worker) && r.delivered == s.delivered && r.replied == s.replied
            && forall t :: t in s.queue.pending ==> t in r.queue.pending || t in r.removed
    decreases |events|
  {
    if events != [] && Step(s, events[0]).Stepped? {
      var next := Step(s, events[0]).system;
      StepKeeps(s, events[0]);
      StoppedForGood(next, events[1..]);
      var r := Run(next, events[1..]);
      forall t | t in s.queue.pending
        ensures t in r.queue.pending || t in r.removed
      {
        StillThere(s, events[0], t);
        if t in next.removed { RemovedStays(next, events[1..], t); }
      }
    } else if events != [] {
      StoppedForGood(s, events[1..]);
    }
  }

  lemma StillThere(s: System, e: Event, t: Task)
    requires Inv(s) && Over(s.worker) && t in s.queue.pending && Step(s, e).Stepped?
    ensures t in Step(s, e).system.queue.pending || t in Step(s, e).system.removed
  {
    StepKeeps(s, e);
    var j :| 0 <= j < |s.queue.pending| && s.queue.pending[j] == t;
    IncreasingDrop(s.delivered, j, s.queue.pending);
    assert t in s.delivered + s.queue.pending;
  }

  lemma {:induction false} RemovedStays(s: System, events: seq<Event>, t: Task)
    requires t in s.removed
    ensures t in Run(s, events).removed
    decreases |events|
  {
    if events != [] {
      RemovedStays(if Step(s, events[0]).Stepped? then Step(s, events[0]).system else s, events[1..], t);
    }
  }

  /** The worker may stop with a task pending: an idle timer can win against a token that is there. */
  lemma StopStrands(events: seq<Event>)
    requires events == [Submit, Stop]
    ensures var s := Run(START, events);
            s.worker.Stopped? && s.queue.pending == [0] && s.queue.wake
  {
    var one := Step(START, Submit).system;
    assert [] + [0] == one.queue.pending;
    assert events[1..] == [Stop] && [Stop][1..] == [];
    assert Run(one, [Stop]) == Run(Step(one, Stop).system, []);
  }
}
