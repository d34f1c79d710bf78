/** The syntax walk that gives every table constructor its last line
    (internal/addoncheck/lua.go). */
module SyntaxWalk {
  import opened Wrappers
  import opened BraceClosures

  /** Two parts of a walk, one after the other. */
  lemma Composed(ends: map<nat, seq<nat>>, lines: seq<Option<nat>>, a: seq<Span>, b: seq<Span>)
    ensures AllTaken(AllTaken(ends, a), b) == AllTaken(ends, a + b)
    ensures (lines + LastLines(ends, a)) + LastLines(AllTaken(ends, a), b) == lines + LastLines(ends, a + b)
  {
    TakenTogether(ends, a, b);
    Regrouped(lines, LastLines(ends, a), LastLines(AllTaken(ends, a), b));
  }

  lemma TableFirst(ends: map<nat, seq<nat>>, lines: seq<Option<nat>>, open: nat, close: nat, inner: seq<Span>)
    ensures var queue, spans := At(ends, open), [Span(open, close)] + inner;
            && AllTaken(Taken(ends, open), inner) == AllTaken(ends, spans)
            && (lines + [if queue == [] then None else Some(queue[0])]) + LastLines(Taken(ends, open), inner) ==
               lines + LastLines(ends, spans)
  {
    assert ([Span(open, close)] + inner)[1..] == inner;
    var queue := At(ends, open);
    Regrouped(lines, [if queue == [] then None else Some(queue[0])], LastLines(Taken(ends, open), inner));
  }

  class SyntaxWalker {
    var tableEnds: map<nat, seq<nat>>
    /** The last lines set so far, in walk order; None where no line was left to set. */
    var lastLines: seq<Option<nat>>

    constructor (tableEnds: map<nat, seq<nat>>)
      ensures this.tableEnds == tableEnds && lastLines == []
    {
      this.tableEnds := tableEnds;
      lastLines := [];
    }

    /** The walk over some constructors has taken their lines from the queues. */
    twostate predicate Walked(spans: seq<Span>)
      reads this
    {
      tableEnds == AllTaken(old(tableEnds), spans) && lastLines == old(lastLines) + LastLines(old(tableEnds), spans)
    }

    method TakeEnd(line: nat)
      modifies this
      ensures tableEnds == Taken(old(tableEnds), line)
      ensures var ends := At(old(tableEnds), line);
              lastLines == old(lastLines) + [if ends == [] then None else Some(ends[0])]
    {
      var ends := At(tableEnds, line);
      if |ends| > 0 {
        lastLines := lastLines + [Some(ends[0])];
        tableEnds := tableEnds[line := ends[1..]];
      } else {
        lastLines := lastLines + [None];
      }
    }

    method Expression(n: Node)
      modifies this
      ensures Walked(Tables(n))
      decreases n
    {
      ghost var ends, lines := tableEnds, lastLines;
      match n {
        case Nothing => assert lines + [] == lines;
        case Name => assert lines + [] == lines;
        case Call(func, receiver, args) =>
          Expression(func);
          Expression(receiver);
          Composed(ends, lines, Tables(func), Tables(receiver));
          Walk(args);
          Composed(ends, lines, Tables(func) + Tables(receiver), TablesOf(args));
        case Function(body) => Walk(body);
        case Index(owner, key) =>
          Expression(owner);
          Expression(key);
          Composed(ends, lines, Tables(owner), Tables(key));
        case Table(open, close, fields) =>
          TakeEnd(open);
          Walk(fields);
          TableFirst(ends, lines, open, close, TablesOf(fields));
        case Pair(key, value) =>
          Expression(key);
          Expression(value);
          Composed(ends, lines, Tables(key), Tables(value));
        case Binary(left, right) =>
          Expression(left);
          Expression(right);
          Composed(ends, lines, Tables(left), Tables(right));
        case Unary(operand) => Expression(operand);
        case CallStmt(call) => Expression(call);
        case _ => Statement(n);
      }
    }

    method Statement(n: Node)
      requires n.FuncDef? || n.LocalAssign? || n.Assign? || n.Do? || n.While? || n.Repeat? || n.If? || n.NumberFor? ||
               n.GenericFor? || n.Return?
      modifies this
      ensures Walked(Tables(n))
      decreases n, 0, 1
    {
      ghost var ends, lines := tableEnds, lastLines;
      match n {
        case FuncDef(stmts) => Walk(stmts);
        case LocalAssign(exprs) => Walk(exprs);
        case Assign(targets, values) =>
          Walk(targets);
          Walk(values);
          Composed(ends, lines, TablesOf(targets), TablesOf(values));
        case Do(block) => Walk(block);
        case While(condition, block) =>
          Expression(condition);
          Walk(block);
          Composed(ends, lines, Tables(condition), TablesOf(block));
        case Repeat(block, condition) =>
          Walk(block);
          Expression(condition);
          Composed(ends, lines, TablesOf(block), Tables(condition));
        case If(_, _, _) => Branch(n);
        case NumberFor(_, _, _, _) => Branch(n);
        case GenericFor(iterators, block) =>
          Walk(iterators);
          Walk(block);
          Composed(ends, lines, TablesOf(iterators), TablesOf(block));
        case Return(results) => Walk(results);
      }
    }

    /** The statements of more than two parts. */
    method Branch(n: Node)
      requires n.If? || n.NumberFor?
      modifies this
      ensures Walked(Tables(n))
      decreases n, 0, 0
    {
      ghost var ends, lines := tableEnds, lastLines;
      match n {
        case If(condition, thenBlock, elseBlock) =>
          Expression(condition);
          Walk(thenBlock);
          Composed(ends, lines, Tables(condition), TablesOf(thenBlock));
          Walk(elseBlock);
          Composed(ends, lines, Tables(condition) + TablesOf(thenBlock), TablesOf(elseBlock));
        case NumberFor(init, limit, step, block) =>
          Expression(init);
          Expression(limit);
          Composed(ends, lines, Tables(init), Tables(limit));
          Expression(step);
          Composed(ends, lines, Tables(init) + Tables(limit), Tables(step));
          Walk(block);
          Composed(ends, lines, Tables(init) + Tables(limit) + Tables(step), TablesOf(block));
      }
    }

    /** A list of statements, arguments or fields, in order. */
    method Walk(ns: Nodes)
      modifies this
      ensures Walked(TablesOf(ns))
      decreases ns
    {
      ghost var ends, lines := tableEnds, lastLines;
      match ns {
        case End => assert lines + [] == lines;
        case More(head, tail) =>
          Expression(head);
          Walk(tail);
          Composed(ends, lines, Tables(head), TablesOf(tail));
      }
    }
  }

  /** scanProgram: braces first, then the walk; each constructor, in walk order, gets the line
      of its own closing brace. */
  method ScanProgram(program: Nodes) returns (lastLines: seq<Option<nat>>)
    ensures lastLines == Closings(TablesOf(program))
  {
    var ends := ScanBraces(BracesOf(program));
    var walker := new SyntaxWalker(ends);
    walker.Walk(program);
    EveryTableEnds(program);
    lastLines := walker.lastLines;
    assert [] + LastLines(ends, TablesOf(program)) == LastLines(ends, TablesOf(program));
  }
}
