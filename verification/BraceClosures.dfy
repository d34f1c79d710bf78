/** The last lines of Lua table constructors (internal/addoncheck/lua.go): a stack over the
    braces fills a queue per line, and the syntax walk takes from the queues. */
module BraceClosures {
  import opened Wrappers

  /** The syntax tree as far as it can hold table constructors. Nothing stands for an absent
      part; Pair is one field of a constructor. */
  datatype Node =
    | Nothing
    | Name
    | Call(func: Node, receiver: Node, args: Nodes)
    | Function(body: Nodes)
    | Index(owner: Node, key: Node)
    | Table(open: nat, close: nat, fields: Nodes)
    | Pair(fieldKey: Node, value: Node)
    | Binary(left: Node, right: Node)
    | Unary(operand: Node)
    | FuncDef(stmts: Nodes)
    | LocalAssign(exprs: Nodes)
    | Assign(targets: Nodes, values: Nodes)
    | CallStmt(call: Node)
    | Do(block: Nodes)
    | While(condition: Node, block: Nodes)
    | Repeat(block: Nodes, condition: Node)
    | If(condition: Node, thenBlock: Nodes, elseBlock: Nodes)
    | NumberFor(init: Node, limit: Node, step: Node, block: Nodes)
    | GenericFor(iterators: Nodes, block: Nodes)
    | Return(results: Nodes)

  datatype Nodes = End | More(head: Node, tail: Nodes)

  datatype Brace = Open(line: nat) | Close(line: nat)

  // -------------------------------------------------------- the text of a program

  /** The braces of a construct in the order of its text. */
  function Braces(n: Node): seq<Brace> {
    match n
    case Nothing => []
    case Name => []
    case Call(func, receiver, args) => Braces(func) + Braces(receiver) + BracesOf(args)
    case Function(body) => BracesOf(body)
    case Index(owner, key) => Braces(owner) + Braces(key)
    case Table(open, close, fields) => [Open(open)] + BracesOf(fields) + [Close(close)]
    case Pair(key, value) => Braces(key) + Braces(value)
    case Binary(left, right) => Braces(left) + Braces(right)
    case Unary(operand) => Braces(operand)
    case FuncDef(stmts) => BracesOf(stmts)
    case LocalAssign(exprs) => BracesOf(exprs)
    case Assign(targets, values) => BracesOf(targets) + BracesOf(values)
    case CallStmt(call) => Braces(call)
    case Do(block) => BracesOf(block)
    case While(condition, block) => Braces(condition) + BracesOf(block)
    case Repeat(block, condition) => BracesOf(block) + Braces(condition)
    case If(condition, thenBlock, elseBlock) => Braces(condition) + BracesOf(thenBlock) + BracesOf(elseBlock)
    case NumberFor(init, limit, step, block) => Braces(init) + Braces(limit) + Braces(step) + BracesOf(block)
    case GenericFor(iterators, block) => BracesOf(iterators) + BracesOf(block)
    case Return(results) => BracesOf(results)
  }

  function BracesOf(ns: Nodes): seq<Brace> {
    match ns case End => [] case More(head, tail) => Braces(head) + BracesOf(tail)
  }

  /** The constructors of a brace text, outermost first and then in order: their opening and
      their own closing lines. */
  datatype Span = Span(open: nat, close: nat)

  function Tables(n: Node): seq<Span> {
    match n
    case Nothing => []
    case Name => []
    case Call(func, receiver, args) => Tables(func) + Tables(receiver) + TablesOf(args)
    case Function(body) => TablesOf(body)
    case Index(owner, key) => Tables(owner) + Tables(key)
    case Table(open, close, fields) => [Span(open, close)] + TablesOf(fields)
    case Pair(key, value) => Tables(key) + Tables(value)
    case Binary(left, right) => Tables(left) + Tables(right)
    case Unary(operand) => Tables(operand)
    case FuncDef(stmts) => TablesOf(stmts)
    case LocalAssign(exprs) => TablesOf(exprs)
    case Assign(targets, values) => TablesOf(targets) + TablesOf(values)
    case CallStmt(call) => Tables(call)
    case Do(block) => TablesOf(block)
    case While(condition, block) => Tables(condition) + TablesOf(block)
    case Repeat(block, condition) => TablesOf(block) + Tables(condition)
    case If(condition, thenBlock, elseBlock) => Tables(condition) + TablesOf(thenBlock) + TablesOf(elseBlock)
    case NumberFor(init, limit, step, block) => Tables(init) + Tables(limit) + Tables(step) + TablesOf(block)
    case GenericFor(iterators, block) => TablesOf(iterators) + TablesOf(block)
    case Return(results) => TablesOf(results)
  }

  function TablesOf(ns: Nodes): seq<Span> {
    match ns case End => [] case More(head, tail) => Tables(head) + TablesOf(tail)
  }

  /** The closing lines of the constructors that open on one line. */
  function Queue(spans: seq<Span>, line: nat): seq<nat> {
    if spans == [] then []
    else (if spans[0].open == line then [spans[0].close] else []) + Queue(spans[1..], line)
  }

  lemma Regrouped<T>(a: seq<T>, b: seq<T>, c: seq<T>)
    ensures a + (b + c) == (a + b) + c
  {
  }

  lemma {:induction false} QueueTogether(a: seq<Span>, b: seq<Span>, line: nat)
    ensures Queue(a + b, line) == Queue(a, line) + Queue(b, line)
    decreases |a|
  {
    if a == [] {
      assert a + b == b && [] + Queue(b, line) == Queue(b, line);
    } else {
      assert (a + b)[1..] == a[1..] + b && (a + b)[0] == a[0];
      QueueTogether(a[1..], b, line);
      Regrouped(if a[0].open == line then [a[0].close] else [], Queue(a[1..], line), Queue(b, line));
    }
  }

  // ----------------------------------------------------------------- the scanner

  datatype Opening = Opening(line: nat, index: nat)

  datatype Scan = Scan(stack: seq<Opening>, ends: map<nat, seq<nat>>)

  function At(ends: map<nat, seq<nat>>, line: nat): seq<nat> {
    if line in ends then ends[line] else []
  }

  function Opened(s: Scan, line: nat): Scan {
    Scan(s.stack + [Opening(line, |At(s.ends, line)|)], s.ends[line := At(s.ends, line) + [line]])
  }

  function Closed(s: Scan, line: nat): Scan {
    if s.stack == [] then s
    else
      var last := s.stack[|s.stack| - 1];
      Scan(s.stack[..|s.stack| - 1],
           if last.index < |At(s.ends, last.line)| then
             s.ends[last.line := At(s.ends, last.line)[last.index := line]]
           else s.ends)
  }

  function Applied(s: Scan, b: Brace): Scan {
    match b case Open(line) => Opened(s, line) case Close(line) => Closed(s, line)
  }

  /** The state after a text of braces. */
  function Scanned(s: Scan, braces: seq<Brace>): Scan
    decreases |braces|
  {
    if braces == [] then s
    else
      Applied(Scanned(s, braces[..|braces| - 1]), braces[|braces| - 1])
  }

  lemma {:induction false} ScannedTogether(s: Scan, a: seq<Brace>, b: seq<Brace>)
    ensures Scanned(s, a + b) == Scanned(Scanned(s, a), b)
    decreases |b|
  {
    if b == [] {
      assert a + b == a;
    } else {
      assert (a + b)[..|a + b| - 1] == a + b[..|b| - 1];
      ScannedTogether(s, a, b[..|b| - 1]);
    }
  }

  /** Every index on the stack is the place of an entry of its line. */
  predicate Placed(s: Scan) {
    forall k :: 0 <= k < |s.stack| ==> s.stack[k].index < |At(s.ends, s.stack[k].line)|
  }

  lemma {:induction false} ScannedPlaced(s: Scan, braces: seq<Brace>)
    requires Placed(s)
    ensures Placed(Scanned(s, braces))
    decreases |braces|
  {
    if braces != [] { ScannedPlaced(s, braces[..|braces| - 1]); }
  }

  lemma ScannedNext(braces: seq<Brace>, i: nat)
    requires i < |braces|
    ensures Placed(Scanned(Scan([], map[]), braces[..i + 1]))
    ensures Scanned(Scan([], map[]), braces[..i + 1]) == Applied(Scanned(Scan([], map[]), braces[..i]), braces[i])
  {
    assert braces[..i + 1][..i] == braces[..i];
    ScannedPlaced(Scan([], map[]), braces[..i + 1]);
  }

  method ScanBraces(braces: seq<Brace>) returns (ends: map<nat, seq<nat>>)
    ensures ends == Scanned(Scan([], map[]), braces).ends
  {
    ends := map[];
    var stack: seq<Opening> := [];
    for i := 0 to |braces|
      invariant Scan(stack, ends) == Scanned(Scan([], map[]), braces[..i]) && Placed(Scan(stack, ends))
    {
      ScannedNext(braces, i);
      match braces[i] {
        case Open(line) =>
          stack := stack + [Opening(line, |At(ends, line)|)];
          ends := ends[line := At(ends, line) + [line]];
        case Close(line) =>
          if |stack| > 0 {
            var last := stack[|stack| - 1];
            stack := stack[..|stack| - 1];
            ends := ends[last.line := At(ends, last.line)[last.index := line]];
          }
      }
    }
    assert braces[..|braces|] == braces;
  }

  /** A balanced text leaves the stack as it was and adds the closing lines of its
      constructors to the queue of the line each opens on. */
  ghost predicate Adds(s: Scan, braces: seq<Brace>, spans: seq<Span>) {
    Scanned(s, braces).stack == s.stack && Grown(s.ends, Scanned(s, braces).ends, spans)
  }

  ghost predicate Grown(before: map<nat, seq<nat>>, after: map<nat, seq<nat>>, spans: seq<Span>) {
    forall line: nat {:trigger Queue(spans, line)} {:trigger GrownAt(before, after, spans, line)} ::
      GrownAt(before, after, spans, line)
  }

  predicate GrownAt(before: map<nat, seq<nat>>, after: map<nat, seq<nat>>, spans: seq<Span>, line: nat) {
    At(after, line) == At(before, line) + Queue(spans, line)
  }

  lemma AddsNothing(s: Scan)
    ensures Adds(s, [], [])
  {
    forall line: nat
      ensures GrownAt(s.ends, s.ends, [], line)
    {
      assert At(s.ends, line) + [] == At(s.ends, line);
    }
  }

  lemma AddsTogether(s: Scan, a: seq<Brace>, x: seq<Span>, b: seq<Brace>, y: seq<Span>)
    requires Adds(s, a, x) && Adds(Scanned(s, a), b, y)
    ensures Adds(s, a + b, x + y)
  {
    ScannedTogether(s, a, b);
    var t, u := Scanned(s, a), Scanned(s, a + b);
    forall line: nat
      ensures GrownAt(s.ends, u.ends, x + y, line)
    {
      QueueTogether(x, y, line);
      assert GrownAt(t.ends, u.ends, y, line) && GrownAt(s.ends, t.ends, x, line);
      Regrouped(At(s.ends, line), Queue(x, line), Queue(y, line));
    }
  }

  lemma OpenedAt(s: Scan, open: nat, line: nat)
    ensures At(Opened(s, open).ends, line) == if line == open then At(s.ends, line) + [open] else At(s.ends, line)
  {
  }

  lemma ClosedAt(s: Scan, below: seq<Opening>, open: nat, index: nat, close: nat, line: nat)
    requires s.stack == below + [Opening(open, index)] && index < |At(s.ends, open)|
    ensures Closed(s, close).stack == below
    ensures At(Closed(s, close).ends, line) ==
            if line == open then At(s.ends, line)[index := close] else At(s.ends, line)
  {
  }

  lemma PatchedQueue(before: seq<nat>, open: nat, close: nat, queue: seq<nat>)
    ensures ((before + [open]) + queue)[|before| := close] == before + ([close] + queue)
  {
  }

  lemma QueueCons(span: Span, spans: seq<Span>, line: nat)
    ensures Queue([span] + spans, line) == if span.open == line then [span.close] + Queue(spans, line)
            else Queue(spans, line)
  {
    assert ([span] + spans)[1..] == spans && [] + Queue(spans, line) == Queue(spans, line);
  }

  lemma TableQueue(s: Scan, open: nat, close: nat, t: Scan, spans: seq<Span>, line: nat)
    requires t.stack == Opened(s, open).stack && GrownAt(Opened(s, open).ends, t.ends, spans, open)
    requires GrownAt(Opened(s, open).ends, t.ends, spans, line)
    ensures Closed(t, close).stack == s.stack
    ensures GrownAt(s.ends, Closed(t, close).ends, [Span(open, close)] + spans, line)
  {
    var before := At(s.ends, open);
    OpenedAt(s, open, open);
    OpenedAt(s, open, line);
    ClosedAt(t, s.stack, open, |before|, close, line);
    PatchedQueue(before, open, close, Queue(spans, open));
    QueueCons(Span(open, close), spans, line);
  }

  /** A pair of braces around a balanced text. */
  lemma AddsTable(s: Scan, open: nat, close: nat, inner: seq<Brace>, spans: seq<Span>)
    requires Adds(Opened(s, open), inner, spans)
    ensures Adds(s, [Open(open)] + inner + [Close(close)], [Span(open, close)] + spans)
  {
    var t := Scanned(Opened(s, open), inner);
    OneBrace(s, Open(open));
    ScannedTogether(s, [Open(open)], inner);
    ScannedTogether(s, [Open(open)] + inner, [Close(close)]);
    OneBrace(t, Close(close));
    forall line: nat
      ensures Closed(t, close).stack == s.stack
      ensures GrownAt(s.ends, Closed(t, close).ends, [Span(open, close)] + spans, line)
    {
      assert GrownAt(Opened(s, open).ends, t.ends, spans, open) && GrownAt(Opened(s, open).ends, t.ends, spans, line);
      TableQueue(s, open, close, t, spans, line);
    }
    TableQueue(s, open, close, t, spans, open);
  }

  lemma OneBrace(s: Scan, b: Brace)
    ensures Scanned(s, [b]) == Applied(s, b)
  {
    assert [b][..0] == [];
    assert Scanned(s, []) == s;
  }

  /** The braces of any construct add exactly the closing lines of its constructors. */
  lemma {:induction false} NodeAdds(s: Scan, n: Node)
    ensures Adds(s, Braces(n), Tables(n))
    decreases n
  {
    match n
    case Nothing => AddsNothing(s);
    case Name => AddsNothing(s);
    case Call(func, receiver, args) =>
      NodeAdds(s, func);
      NodeAdds(Scanned(s, Braces(func)), receiver);
      AddsTogether(s, Braces(func), Tables(func), Braces(receiver), Tables(receiver));
      NodesAdd(Scanned(s, Braces(func) + Braces(receiver)), args);
      AddsTogether(s, Braces(func) + Braces(receiver), Tables(func) + Tables(receiver), BracesOf(args), TablesOf(args));
    case Function(body) => NodesAdd(s, body);
    case Index(owner, key) =>
      NodeAdds(s, owner);
      NodeAdds(Scanned(s, Braces(owner)), key);
      AddsTogether(s, Braces(owner), Tables(owner), Braces(key), Tables(key));
    case Table(open, close, fields) =>
      NodesAdd(Opened(s, open), fields);
      AddsTable(s, open, close, BracesOf(fields), TablesOf(fields));
    case Pair(key, value) =>
      NodeAdds(s, key);
      NodeAdds(Scanned(s, Braces(key)), value);
      AddsTogether(s, Braces(key), Tables(key), Braces(value), Tables(value));
    case Binary(left, right) =>
      NodeAdds(s, left);
      NodeAdds(Scanned(s, Braces(left)), right);
      AddsTogether(s, Braces(left), Tables(left), Braces(right), Tables(right));
    case Unary(operand) => NodeAdds(s, operand);
    case CallStmt(call) => NodeAdds(s, call);
    case _ => StatementAdds(s, n);
  }

  lemma {:induction false} StatementAdds(s: Scan, n: Node)
    requires n.FuncDef? || n.LocalAssign? || n.Assign? || n.Do? || n.While? || n.Repeat? || n.If? || n.NumberFor? ||
             n.GenericFor? || n.Return?
    ensures Adds(s, Braces(n), Tables(n))
    decreases n, 0
  {
    match n
    case FuncDef(stmts) => NodesAdd(s, stmts);
    case LocalAssign(exprs) => NodesAdd(s, exprs);
    case Assign(targets, values) =>
      NodesAdd(s, targets);
      NodesAdd(Scanned(s, BracesOf(targets)), values);
      AddsTogether(s, BracesOf(targets), TablesOf(targets), BracesOf(values), TablesOf(values));
    case Do(block) => NodesAdd(s, block);
    case While(condition, block) =>
      NodeAdds(s, condition);
      NodesAdd(Scanned(s, Braces(condition)), block);
      AddsTogether(s, Braces(condition), Tables(condition), BracesOf(block), TablesOf(block));
    case Repeat(block, condition) =>
      NodesAdd(s, block);
      NodeAdds(Scanned(s, BracesOf(block)), condition);
      AddsTogether(s, BracesOf(block), TablesOf(block), Braces(condition), Tables(condition));
    case If(condition, thenBlock, elseBlock) =>
      NodeAdds(s, condition);
      NodesAdd(Scanned(s, Braces(condition)), thenBlock);
      AddsTogether(s, Braces(condition), Tables(condition), BracesOf(thenBlock), TablesOf(thenBlock));
      NodesAdd(Scanned(s, Braces(condition) + BracesOf(thenBlock)), elseBlock);
      AddsTogether(s, Braces(condition) + BracesOf(thenBlock), Tables(condition) + TablesOf(thenBlock),
                   BracesOf(elseBlock), TablesOf(elseBlock));
    case NumberFor(init, limit, step, block) =>
      NodeAdds(s, init);
      NodeAdds(Scanned(s, Braces(init)), limit);
      AddsTogether(s, Braces(init), Tables(init), Braces(limit), Tables(limit));
      NodeAdds(Scanned(s, Braces(init) + Braces(limit)), step);
      AddsTogether(s, Braces(init) + Braces(limit), Tables(init) + Tables(limit), Braces(step), Tables(step));
      NodesAdd(Scanned(s, Braces(init) + Braces(limit) + Braces(step)), block);
      AddsTogether(s, Braces(init) + Braces(limit) + Braces(step), Tables(init) + Tables(limit) + Tables(step),
                   BracesOf(block), TablesOf(block));
    case GenericFor(iterators, block) =>
      NodesAdd(s, iterators);
      NodesAdd(Scanned(s, BracesOf(iterators)), block);
      AddsTogether(s, BracesOf(iterators), TablesOf(iterators), BracesOf(block), TablesOf(block));
    case Return(results) => NodesAdd(s, results);
  }

  lemma {:induction false} NodesAdd(s: Scan, ns: Nodes)
    ensures Adds(s, BracesOf(ns), TablesOf(ns))
    decreases ns
  {
    match ns
    case End => AddsNothing(s);
    case More(head, tail) =>
      NodeAdds(s, head);
      NodesAdd(Scanned(s, Braces(head)), tail);
      AddsTogether(s, Braces(head), Tables(head), BracesOf(tail), TablesOf(tail));
  }

  // -------------------------------------------------------------------- the walk

  /** What is left over after taking the head of one line's queue. */
  function Taken(ends: map<nat, seq<nat>>, line: nat): map<nat, seq<nat>> {
    if At(ends, line) == [] then ends else ends[line := At(ends, line)[1..]]
  }

  function AllTaken(ends: map<nat, seq<nat>>, spans: seq<Span>): map<nat, seq<nat>>
    decreases |spans|
  {
    if spans == [] then ends else AllTaken(Taken(ends, spans[0].open), spans[1..])
  }

  /** The last lines a walk that takes from these queues sets, constructor by constructor. */
  function LastLines(ends: map<nat, seq<nat>>, spans: seq<Span>): seq<Option<nat>>
    decreases |spans|
  {
    if spans == [] then []
    else
      var queue := At(ends, spans[0].open);
      [if queue == [] then None else Some(queue[0])] + LastLines(Taken(ends, spans[0].open), spans[1..])
  }

  lemma {:induction false} TakenTogether(ends: map<nat, seq<nat>>, a: seq<Span>, b: seq<Span>)
    ensures AllTaken(ends, a + b) == AllTaken(AllTaken(ends, a), b)
    ensures LastLines(ends, a + b) == LastLines(ends, a) + LastLines(AllTaken(ends, a), b)
    decreases |a|
  {
    if a == [] {
      assert a + b == b && [] + LastLines(ends, b) == LastLines(ends, b);
    } else {
      assert (a + b)[1..] == a[1..] + b && (a + b)[0] == a[0];
      var e := Taken(ends, a[0].open);
      TakenTogether(e, a[1..], b);
      var queue := At(ends, a[0].open);
      Regrouped([if queue == [] then None else Some(queue[0])], LastLines(e, a[1..]),
          LastLines(AllTaken(e, a[1..]), b));
    }
  }

  function Closings(spans: seq<Span>): seq<Option<nat>> {
    if spans == [] then [] else [Some(spans[0].close)] + Closings(spans[1..])
  }

  /** Taking in walk order gives each constructor its own closing line. */
  lemma {:induction false} OwnClosings(ends: map<nat, seq<nat>>, spans: seq<Span>)
    requires forall line: nat :: Queue(spans, line) <= At(ends, line)
    ensures LastLines(ends, spans) == Closings(spans)
    decreases |spans|
  {
    if spans != [] {
      var open := spans[0].open;
      assert Queue(spans, open) == [spans[0].close] + Queue(spans[1..], open);
      assert Queue(spans, open)[0] == spans[0].close;
      forall line: nat
        ensures Queue(spans[1..], line) <= At(Taken(ends, open), line)
      {
        assert Queue(spans, line) <= At(ends, line);
        if line == open {
          assert At(ends, open)[1..][..|Queue(spans[1..], open)|] == At(ends, open)[..|Queue(spans, open)|][1..];
          assert ([spans[0].close] + Queue(spans[1..], open))[1..] == Queue(spans[1..], open);
        } else {
          assert [] + Queue(spans[1..], line) == Queue(spans[1..], line);
        }
      }
      OwnClosings(Taken(ends, open), spans[1..]);
    }
  }

  /** For every program: the scan of its braces followed by the walk sets on each constructor
      the line of its own closing brace. */
  lemma EveryTableEnds(program: Nodes)
    ensures LastLines(Scanned(Scan([], map[]), BracesOf(program)).ends, TablesOf(program)) ==
            Closings(TablesOf(program))
  {
    var ends := Scanned(Scan([], map[]), BracesOf(program)).ends;
    NodesAdd(Scan([], map[]), program);
    forall line: nat
      ensures Queue(TablesOf(program), line) <= At(ends, line)
    {
      assert GrownAt(map[], ends, TablesOf(program), line);
      assert [] + Queue(TablesOf(program), line) == Queue(TablesOf(program), line);
    }
    OwnClosings(ends, TablesOf(program));
  }
}
