/** The seek-back machine, run on the lines of a structured program, does exactly what the
    program means: same plain lines, same order, same store, same number of lines read. */
module FlowRefinement {
  import opened Flowcontrol
  import opened FlowPrograms
  import opened Segments

  /** The first line, the middle and the end of a bracketed statement. */
  lemma AtBlock(lines: seq<Line>, pos: nat, line: Line, body: seq<Line>, rest: seq<Line>)
    requires At(lines, pos, [line] + body + rest)
    ensures pos < |lines| && lines[pos] == line
    ensures At(lines, pos + 1, body) && At(lines, pos + 1 + |body|, rest)
  {
    AtAppend(lines, pos, [line] + body, rest);
    AtAppend(lines, pos, [line], body);
    assert lines[pos..pos + 1][0] == line;
  }

  lemma AtLine(lines: seq<Line>, pos: nat, line: Line)
    requires At(lines, pos, [line])
    ensures pos < |lines| && lines[pos] == line
  {
    assert lines[pos..pos + 1][0] == line;
  }

  /** A stack on which a statement can start: not skipping, and its top label is known. */
  predicate Ready(ctx: Context, outer: set<nat>) {
    ctx == [] || (!Top(ctx).skip && !Top(ctx).brk && Top(ctx).oLabel in outer)
  }

  predicate InDo(ctx: Context) {
    TopIs(ctx, {Do})
  }

  /** Still skipping; if stopped, then by a skipped line that fails: a plain line whose first
      word is unreadable or an unknown command. */
  ghost predicate StuckSkipping<S>(env: Env<S>, lines: seq<Line>, r: Result<S>) {
    && r.m.skip
    && (r.Aborted? ==>
          && 0 < r.m.pos <= |lines|
          && r.status == SkipStatus(env, lines[r.m.pos - 1], r.m.world.store) != Ok)
  }

  /** The machine's result is what the outcome promises, continuing at `end` with stack `ctx`. */
  ghost predicate Agrees<S>(env: Env<S>, lines: seq<Line>, r: Result<S>, o: Outcome<S>, ctx: Context, end: nat) {
    match o
    case Done(w, f) => r == Run(env, lines, Machine(ctx, end, TopSkips(ctx), w), f)
    case OutOfFuel(w) => r.Timeout? && r.m.world == w
    case Failed(w, e) => r.Aborted? && r.status == e && r.m.world == w
    case Stuck(w) => r.m.world == w && StuckSkipping(env, lines, r)
  }

  // ----- Skipping --------------------------------------------------------------------------

  predicate Inert(line: Line, l: nat) {
    line.OWord? ==> line.oLabel != l || line.op in {RaiseAlarm, RaiseError}
  }

  lemma ScopedLinesInert(p: Prog, outer: set<nat>, l: nat)
    requires Scoped(p, outer) && l in outer
    ensures forall line <- Flatten(p) :: Inert(line, l)
    decreases p
  {
    if p.Cons? {
      ScopedStmtInert(p.head, outer, l);
      ScopedLinesInert(p.tail, outer, l);
    }
  }

  lemma ScopedStmtInert(s: Stmt, outer: set<nat>, l: nat)
    requires ScopedStmt(s, outer) && l in outer
    ensures forall line <- FlattenStmt(s) :: Inert(line, l)
    decreases s
  {
    match s
    case Code(_) | AlarmStmt(_, _) | ErrorStmt(_, _) =>
    case IfStmt(k, _, thn, rest) =>
      ScopedLinesInert(thn, outer + {k}, l);
      ScopedChainInert(k, rest, outer + {k}, l);
    case RepeatStmt(k, _, body) => ScopedLinesInert(body, outer + {k}, l);
    case DoStmt(k, body, _) => ScopedLinesInert(body, outer + {k}, l);
    case WhileStmt(k, _, body) => ScopedLinesInert(body, outer + {k}, l);
  }

  lemma ScopedChainInert(k: nat, c: Chain, outer: set<nat>, l: nat)
    requires ScopedChain(c, outer) && l in outer && k != l
    ensures forall line <- FlattenChain(k, c) :: Inert(line, l)
    decreases c
  {
    match c
    case EndChain =>
    case ElseChain(body) => ScopedLinesInert(body, outer, l);
    case ElseIfChain(_, body, rest) =>
      ScopedLinesInert(body, outer, l);
      ScopedChainInert(k, rest, outer, l);
  }

  /** Under a skipping entry, a line with another label changes nothing; under a skipping
      WHILE entry, no line at all changes anything.  Only a plain line whose first word cannot
      be read and an unknown command fail. */
  lemma SkippedStep<S>(env: Env<S>, line: Line, m: Machine<S>)
    requires TopSkips(m.context) && m.skip && !Top(m.context).brk
    requires Inert(line, Top(m.context).oLabel) || Top(m.context).op == While
    ensures Step(env, line, m) == (m, SkipStatus(env, line, m.world.store))
  {
    if line.OWord? {
      assert m.world.trace + [] == m.world.trace;
      assert Flow(env, true, m.context, m.pos, m.world.store, line.oLabel, line.op, line.expr)
          == Effect(m.context, m.pos, SkipStatus(env, line, m.world.store), []);
    }
  }

  /** The machine's result `r` on skipped lines, as `Pass` says: the machine only moves on. */
  ghost predicate Passed<S>(env: Env<S>, lines: seq<Line>, m: Machine<S>, o: Outcome<S>, end: nat, r: Result<S>) {
    match o
    case Done(w, f) => r == Run(env, lines, m.(pos := end), f)
    case OutOfFuel(_) => r == Timeout(m.(pos := r.m.pos))
    case Failed(_, e) => r == Aborted(m.(pos := r.m.pos), e) && StuckSkipping(env, lines, r)
    case Stuck(_) => false
  }

  lemma {:induction false} SkippedLines<S>(env: Env<S>, lines: seq<Line>, m: Machine<S>, segment: seq<Line>, fuel: nat)
    requires TopSkips(m.context) && m.skip && !Top(m.context).brk && At(lines, m.pos, segment)
    requires (forall line <- segment :: Inert(line, Top(m.context).oLabel)) || Top(m.context).op == While
    ensures Passed(env, lines, m, Pass(env, Coded, segment, m.world, fuel), m.pos + |segment|, Run(env, lines, m, fuel))
    decreases |segment|
  {
    hide Step;
    if segment != [] && fuel > 0 {
      AtHead(lines, m.pos, segment);
      SkippedStep(env, lines[m.pos], m.(pos := m.pos + 1));
      if SkipStatus(env, lines[m.pos], m.world.store) == Ok {
        SkippedLines(env, lines, m.(pos := m.pos + 1), segment[1..], fuel - 1);
      }
    }
  }

  lemma AtHead(lines: seq<Line>, pos: nat, segment: seq<Line>)
    requires At(lines, pos, segment) && segment != []
    ensures lines[pos] == segment[0] && At(lines, pos + 1, segment[1..])
  {
    assert segment == [segment[0]] + segment[1..];
    AtAppend(lines, pos, [segment[0]], segment[1..]);
    AtLine(lines, pos, segment[0]);
  }

  /** Once a WHILE entry skips, every remaining line of the file is passed over, whatever it
      is, and the entry is still there at the end. */
  lemma SkippingWhileNeverEnds<S>(env: Env<S>, lines: seq<Line>, m: Machine<S>, fuel: nat)
    requires TopSkips(m.context) && m.skip && !Top(m.context).brk && Top(m.context).op == While && m.pos <= |lines|
    ensures var r := Run(env, lines, m, fuel);
            && r.m.world == m.world && r.m.context == m.context && StuckSkipping(env, lines, r)
            && match Pass(env, Coded, lines[m.pos..], m.world, fuel)
               case Done(_, _) => r.Finished?
               case OutOfFuel(_) => r.Timeout?
               case Failed(_, e) => r == Aborted(r.m, e)
               case Stuck(_) => false
  {
    SkippedLines(env, lines, m, lines[m.pos..], fuel);
  }

  lemma SkippedBody<S>(env: Env<S>, lines: seq<Line>, m: Machine<S>, p: Prog, outer: set<nat>, fuel: nat)
    requires TopSkips(m.context) && m.skip && !Top(m.context).brk && Top(m.context).oLabel in outer
    requires Scoped(p, outer) && At(lines, m.pos, Flatten(p))
    ensures Agrees(env, lines, Run(env, lines, m, fuel), Pass(env, Coded, Flatten(p), m.world, fuel),
                   m.context, m.pos + |Flatten(p)|)
  {
    hide Run;
    ScopedLinesInert(p, outer, Top(m.context).oLabel);
    SkippedLines(env, lines, m, Flatten(p), fuel);
  }

  lemma {:induction false} PassAppend<S>(env: Env<S>, rd: Reading, a: seq<Line>, b: seq<Line>, w: World<S>, fuel: nat)
    ensures Pass(env, rd, a + b, w, fuel) ==
            match Pass(env, rd, a, w, fuel)
            case Done(w1, f1) => Pass(env, rd, b, w1, f1)
            case other => other
    decreases |a|
  {
    if a == [] {
      assert a + b == b;
    } else if fuel > 0 {
      assert (a + b)[1..] == a[1..] + b;
      PassAppend(env, rd, a[1..], b, w, fuel - 1);
    }
  }

  lemma PassOWord<S>(env: Env<S>, line: Line, w: World<S>, fuel: nat)
    requires line.OWord? && line.op != Unknown
    ensures Pass(env, Coded, [line], w, fuel) == Spend(w, fuel, 1)
  {
    assert [line][1..] == [];
  }

  /** One step of `Run`: an o-word that raises no alarm. */
  lemma OneLine<S>(env: Env<S>, lines: seq<Line>, m: Machine<S>, line: Line, e: Effect, fuel: nat)
    requires m.pos < |lines| && lines[m.pos] == line && line.OWord? && line.op != Unknown
    requires Flow(env, true, m.context, m.pos + 1, m.world.store, line.oLabel, line.op, line.expr) == e
    requires e.alarm == []
    ensures var m' := Machine(e.context, e.pos, TopSkips(e.context), m.world);
            Run(env, lines, m, fuel)
            == if fuel == 0 then Timeout(m)
               else if e.status == Ok then Run(env, lines, m', fuel - 1)
               else Aborted(m', e.status)
  {
    hide Flow;
    assert m.world.trace + [] == m.world.trace;
  }

  lemma EndIfPops<S>(env: Env<S>, base: Context, e: Entry, pos: nat, store: S, expr: string)
    requires e.op == If || e.op == ElseIf || e.op == Else
    ensures Flow(env, true, base + [e], pos, store, e.oLabel, EndIf, expr) == Keep(base, pos)
  {
    assert Pop(base + [e]) == base;
  }

  lemma HandledSkips<S>(env: Env<S>, base: Context, e: Entry, pos: nat, store: S, op: Op, expr: string)
    requires (e.op == If || e.op == ElseIf) && e.handled && (op == ElseIf || op == Else)
    ensures Flow(env, true, base + [e], pos, store, e.oLabel, op, expr) == Keep(base + [e.(skip := true)], pos)
  {
    assert Pop(base + [e]) == base;
  }

  lemma EndIfLine<S>(env: Env<S>, lines: seq<Line>, base: Context, e: Entry, pos: nat, w: World<S>, fuel: nat)
    requires e.op == If || e.op == ElseIf || e.op == Else
    requires At(lines, pos, [OWord(e.oLabel, EndIf, "")])
    ensures Agrees(env, lines, Run(env, lines, Machine(base + [e], pos, e.skip, w), fuel),
                   Pass(env, Coded, [OWord(e.oLabel, EndIf, "")], w, fuel), base, pos + 1)
  {
    hide Pass;
    hide SkipStatus;
    hide Run;
    hide Flow;
    AtLine(lines, pos, OWord(e.oLabel, EndIf, ""));
    EndIfPops(env, base, e, pos + 1, w.store, "");
    PassOWord(env, OWord(e.oLabel, EndIf, ""), w, fuel);
    OneLine(env, lines, Machine(base + [e], pos, e.skip, w), lines[pos], Keep(base, pos + 1), fuel);
  }

  /** ELSE or ELSEIF after a branch has run: the line and its body are passed over. */
  lemma HandledBranch<S>(env: Env<S>, lines: seq<Line>, op: Op, cond: string, body: Prog, outer: set<nat>,
                         base: Context, e: Entry, pos: nat, w: World<S>, fuel: nat)
    requires (e.op == If || e.op == ElseIf) && e.handled && !e.brk && e.oLabel in outer && (op == ElseIf || op == Else)
    requires Scoped(body, outer) && pos < |lines| && lines[pos] == OWord(e.oLabel, op, cond)
    requires At(lines, pos + 1, Flatten(body))
    ensures Agrees(env, lines, Run(env, lines, Machine(base + [e], pos, e.skip, w), fuel),
                   Pass(env, Coded, [OWord(e.oLabel, op, cond)] + Flatten(body), w, fuel),
                   base + [e.(skip := true)], pos + 1 + |Flatten(body)|)
  {
    hide Pass;
    hide SkipStatus;
    hide Run;
    hide Flow;
    var ctx := base + [e.(skip := true)];
    HandledSkips(env, base, e, pos + 1, w.store, op, cond);
    OneLine(env, lines, Machine(base + [e], pos, e.skip, w), lines[pos], Keep(ctx, pos + 1), fuel);
    PassOWord(env, lines[pos], w, fuel);
    PassAppend(env, Coded, [lines[pos]], Flatten(body), w, fuel);
    if fuel > 0 {
      SkippedBody(env, lines, Machine(ctx, pos + 1, true, w), body, outer, fuel - 1);
    }
  }

  /** After a branch has run, the rest of the IF is passed over and its entry popped. */
  lemma {:induction false} HandledChain<S>(env: Env<S>, lines: seq<Line>, l: nat, c: Chain, outer: set<nat>,
                                           base: Context, e: Entry, pos: nat, w: World<S>, fuel: nat)
    requires e.oLabel == l && (e.op == If || e.op == ElseIf) && e.handled && !e.brk && l in outer
    requires ScopedChain(c, outer) && At(lines, pos, FlattenChain(l, c))
    ensures Agrees(env, lines, Run(env, lines, Machine(base + [e], pos, e.skip, w), fuel),
                   Pass(env, Coded, FlattenChain(l, c), w, fuel), base, pos + |FlattenChain(l, c)|)
    decreases fuel
  {
    hide Pass;
    hide Run;
    hide Flow;
    hide At;
    var e' := e.(skip := true);
    match c
    case EndChain =>
      EndIfLine(env, lines, base, e, pos, w, fuel);
    case ElseChain(body) =>
      AtBlock(lines, pos, OWord(l, Else, ""), Flatten(body), [OWord(l, EndIf, "")]);
      HandledBranch(env, lines, Else, "", body, outer, base, e, pos, w, fuel);
      var first := [OWord(l, Else, "")] + Flatten(body);
      PassAppend(env, Coded, first, [OWord(l, EndIf, "")], w, fuel);
      if Pass(env, Coded, first, w, fuel).Done? {
        EndIfLine(env, lines, base, e', pos + |first|, w, fuel - |first|);
      }
    case ElseIfChain(cond, body, rest) =>
      AtBlock(lines, pos, OWord(l, ElseIf, cond), Flatten(body), FlattenChain(l, rest));
      HandledBranch(env, lines, ElseIf, cond, body, outer, base, e, pos, w, fuel);
      var first := [OWord(l, ElseIf, cond)] + Flatten(body);
      PassAppend(env, Coded, first, FlattenChain(l, rest), w, fuel);
      if Pass(env, Coded, first, w, fuel).Done? {
        HandledChain(env, lines, l, rest, outer, base, e', pos + |first|, w, fuel - |first|);
      }
  }

  // ----- What each bracketing line does to the stack ---------------------------------------

  function IfEntry(l: nat, taken: bool): Entry {
    Entry(l, If, 0, "", 0, !taken, taken, false)
  }

  function RepeatEntry(l: nat, pos: nat, n: nat): Entry {
    Entry(l, Repeat, pos, "", n, false, false, false)
  }

  /** The entry of a REPEAT or WHILE whose first value is zero. */
  function Skipped(l: nat, op: Op): Entry {
    Entry(l, op, 0, "", 0, true, false, false)
  }

  function DoEntry(l: nat, pos: nat): Entry {
    Entry(l, Do, pos, "", 0, false, false, false)
  }

  function WhileEntry(l: nat, pos: nat, cond: string): Entry {
    Entry(l, While, pos, cond, 0, false, false, false)
  }

  lemma IfLine<S>(env: Env<S>, ctx: Context, outer: set<nat>, pos: nat, store: S, l: nat, c: string)
    requires Ready(ctx, outer)
    ensures Flow(env, true, ctx, pos, store, l, If, c) ==
            match env.eval(c, store)
            case Bad(s) => Fail([], pos, s)
            case Val(v) => Keep(ctx + [IfEntry(l, v != 0.0)], pos)
  {}

  lemma RepeatLine<S>(env: Env<S>, ctx: Context, outer: set<nat>, pos: nat, store: S, l: nat, c: string)
    requires Ready(ctx, outer)
    ensures Flow(env, true, ctx, pos, store, l, Repeat, c) ==
            match env.eval(c, store)
            case Bad(s) => Fail([], pos, s)
            case Val(v) =>
              Keep(ctx + [if v == 0.0 then Skipped(l, Repeat) else RepeatEntry(l, pos, env.toCount(v))], pos)
  {}

  lemma DoLine<S>(env: Env<S>, ctx: Context, outer: set<nat>, pos: nat, store: S, l: nat, c: string)
    requires Ready(ctx, outer)
    ensures Flow(env, true, ctx, pos, store, l, Do, c) == Keep(ctx + [DoEntry(l, pos)], pos)
  {}

  lemma WhileLine<S>(env: Env<S>, ctx: Context, outer: set<nat>, pos: nat, store: S, l: nat, c: string)
    requires Ready(ctx, outer) && !InDo(ctx)
    ensures Flow(env, true, ctx, pos, store, l, While, c) ==
            match env.eval(c, store)
            case Bad(s) => Fail([], pos, s)
            case Val(v) => Keep(ctx + [if v == 0.0 then Skipped(l, While) else WhileEntry(l, pos, c)], pos)
  {}

  /** A WHILE line with the DO's label closes the DO; with another label it does nothing. */
  lemma WhileUnderDo<S>(env: Env<S>, base: Context, e: Entry, pos: nat, store: S, l: nat, c: string)
    requires e.op == Do && !e.skip && !e.brk
    ensures Flow(env, true, base + [e], pos, store, l, While, c) ==
            match env.eval(c, store)
            case Bad(s) => Fail([], pos, s)
            case Val(v) =>
              if l != e.oLabel then Keep(base + [e], pos)
              else if v != 0.0 then Keep(base + [e], e.filePos) else Keep(base, pos)
  {
    assert Pop(base + [e]) == base;
  }

  lemma EndWhileUnderDo<S>(env: Env<S>, base: Context, e: Entry, pos: nat, store: S, l: nat, c: string)
    requires e.op == Do && !e.skip
    ensures Flow(env, true, base + [e], pos, store, l, EndWhile, c) == Fail([], pos, SyntaxError)
  {}

  lemma EndRepeatLine<S>(env: Env<S>, base: Context, e: Entry, pos: nat, store: S, c: string)
    requires e.op == Repeat
    ensures Flow(env, true, base + [e], pos, store, e.oLabel, EndRepeat, c) ==
            if e.repeats > 1 then Keep(base + [e.(repeats := e.repeats - 1)], e.filePos) else Keep(base, pos)
  {
    assert Pop(base + [e]) == base;
  }

  lemma EndWhileLine<S>(env: Env<S>, base: Context, e: Entry, pos: nat, store: S, c: string)
    requires e.op == While && !e.skip
    ensures Flow(env, true, base + [e], pos, store, e.oLabel, EndWhile, c) ==
            match env.eval(e.expr, store)
            case Bad(s) => Fail([], pos, s)
            case Val(v) => if v != 0.0 then Keep(base + [e], e.filePos) else Keep(base, pos)
  {
    assert Pop(base + [e]) == base;
  }

  lemma UnhandledLines<S>(env: Env<S>, base: Context, e: Entry, pos: nat, store: S, c: string)
    requires (e.op == If || e.op == ElseIf) && !e.handled && e.skip
    ensures Flow(env, true, base + [e], pos, store, e.oLabel, Else, c)
         == Keep(base + [e.(skip := false, op := Else)], pos)
    ensures Flow(env, true, base + [e], pos, store, e.oLabel, ElseIf, c) ==
            match env.eval(c, store)
            case Bad(s) => Fail([], pos, s)
            case Val(v) =>
              Keep(base + [if v == 0.0 then e else e.(skip := false, op := ElseIf, handled := true)], pos)
  {
    assert Pop(base + [e]) == base;
  }

  lemma PlainLine<S>(env: Env<S>, lines: seq<Line>, ctx: Context, pos: nat, t: string, w: World<S>, fuel: nat)
    requires pos < |lines| && lines[pos] == Plain(t)
    ensures var (store, status) := env.exec(t, w.store);
            var m := Machine(ctx, pos + 1, false, World(store, w.trace + [Ran(t)]));
            Run(env, lines, Machine(ctx, pos, false, w), fuel)
            == if fuel == 0 then Timeout(Machine(ctx, pos, false, w))
               else if status == Ok then Run(env, lines, m, fuel - 1)
               else Aborted(m, status)
  {}

  /** An ALARM line that is not skipped raises its alarm, if its code can be evaluated. */
  lemma AlarmLine<S>(env: Env<S>, lines: seq<Line>, ctx: Context, outer: set<nat>, pos: nat, l: nat, c: string,
                     w: World<S>, fuel: nat)
    requires Ready(ctx, outer) && pos < |lines| && lines[pos] == OWord(l, RaiseAlarm, c)
    ensures var trace := w.trace + match env.eval(c, w.store) case Bad(_) => [] case Val(v) => [Alarm(v)];
            Run(env, lines, Machine(ctx, pos, false, w), fuel)
            == if fuel == 0 then Timeout(Machine(ctx, pos, false, w))
               else Run(env, lines, Machine(ctx, pos + 1, false, World(w.store, trace)), fuel - 1)
  {}

  /** An ERROR line that is not skipped stops the job with its code and empties the stack, if
      the code can be evaluated and is not zero. */
  lemma ErrorLine<S>(env: Env<S>, lines: seq<Line>, ctx: Context, outer: set<nat>, pos: nat, l: nat, c: string,
                     w: World<S>, fuel: nat)
    requires Ready(ctx, outer) && pos < |lines| && lines[pos] == OWord(l, RaiseError, c)
    ensures var status := match env.eval(c, w.store) case Bad(_) => Ok case Val(v) => env.toStatus(v);
            Run(env, lines, Machine(ctx, pos, false, w), fuel)
            == if fuel == 0 then Timeout(Machine(ctx, pos, false, w))
               else if status == Ok then Run(env, lines, Machine(ctx, pos + 1, false, w), fuel - 1)
               else Aborted(Machine([], pos + 1, false, w), status)
  {
    assert w.trace + [] == w.trace;
  }

  // ----- Simulation ------------------------------------------------------------------------

  lemma {:induction false} SimProg<S>(env: Env<S>, lines: seq<Line>, p: Prog, outer: set<nat>,
                                      ctx: Context, pos: nat, w: World<S>, fuel: nat)
    requires Scoped(p, outer) && Ready(ctx, outer) && At(lines, pos, Flatten(p))
    ensures Agrees(env, lines, Run(env, lines, Machine(ctx, pos, false, w), fuel),
                   Exec(env, Coded, p, InDo(ctx), w, fuel), ctx, pos + |Flatten(p)|)
    decreases fuel, p, 0
  {
    hide Run;
    hide At;
    if p.Cons? {
      AtAppend(lines, pos, FlattenStmt(p.head), Flatten(p.tail));
      SimStmt(env, lines, p.head, outer, ctx, pos, w, fuel);
      var o := ExecStmt(env, Coded, p.head, InDo(ctx), w, fuel);
      if o.Done? {
        SimProg(env, lines, p.tail, outer, ctx, pos + |FlattenStmt(p.head)|, o.w, o.fuel);
      }
    }
  }

  lemma {:induction false} SimStmt<S>(env: Env<S>, lines: seq<Line>, s: Stmt, outer: set<nat>,
                                      ctx: Context, pos: nat, w: World<S>, fuel: nat)
    requires ScopedStmt(s, outer) && Ready(ctx, outer) && At(lines, pos, FlattenStmt(s))
    ensures Agrees(env, lines, Run(env, lines, Machine(ctx, pos, false, w), fuel),
                   ExecStmt(env, Coded, s, InDo(ctx), w, fuel), ctx, pos + |FlattenStmt(s)|)
    decreases fuel, s, 1
  {
    hide Run;
    hide At;
    match s
    case Code(t) =>
      AtLine(lines, pos, Plain(t));
      PlainLine(env, lines, ctx, pos, t, w, fuel);
    case AlarmStmt(l, c) =>
      AtLine(lines, pos, OWord(l, RaiseAlarm, c));
      AlarmLine(env, lines, ctx, outer, pos, l, c, w, fuel);
      assert w.trace + [] == w.trace;
    case ErrorStmt(l, c) =>
      AtLine(lines, pos, OWord(l, RaiseError, c));
      ErrorLine(env, lines, ctx, outer, pos, l, c, w, fuel);
    case IfStmt(_, _, _, _) => SimIf(env, lines, s, outer, ctx, pos, w, fuel);
    case RepeatStmt(_, _, _) => SimRepeat(env, lines, s, outer, ctx, pos, w, fuel);
    case DoStmt(_, _, _) => SimDo(env, lines, s, outer, ctx, pos, w, fuel);
    case WhileStmt(_, _, _) => SimWhile(env, lines, s, outer, ctx, pos, w, fuel);
  }

  lemma {:induction false} SimIf<S>(env: Env<S>, lines: seq<Line>, s: Stmt, outer: set<nat>,
                                    ctx: Context, pos: nat, w: World<S>, fuel: nat)
    requires s.IfStmt? && ScopedStmt(s, outer) && Ready(ctx, outer) && At(lines, pos, FlattenStmt(s))
    ensures Agrees(env, lines, Run(env, lines, Machine(ctx, pos, false, w), fuel),
                   ExecStmt(env, Coded, s, InDo(ctx), w, fuel), ctx, pos + |FlattenStmt(s)|)
    decreases fuel, s, 0
  {
    hide Pass;
    hide Exec;
    hide Pass;
    hide SkipStatus;
    hide Run;
    hide At;
    hide Flow;
    var IfStmt(l, c, thn, rest) := s;
    var line := OWord(l, If, c);
    AtBlock(lines, pos, line, Flatten(thn), FlattenChain(l, rest));
    IfLine(env, ctx, outer, pos + 1, w.store, l, c);
    var eff := Flow(env, true, ctx, pos + 1, w.store, l, If, c);
    OneLine(env, lines, Machine(ctx, pos, false, w), line, eff, fuel);
    if fuel > 0 && eff.status == Ok {
      var mid := pos + 1 + |Flatten(thn)|;
      var taken := env.eval(c, w.store).v != 0.0;
      var ctx' := ctx + [IfEntry(l, taken)];
      if taken {
        SimProg(env, lines, thn, outer + {l}, ctx', pos + 1, w, fuel - 1);
        var o := Exec(env, Coded, thn, false, w, fuel - 1);
        if o.Done? {
          HandledChain(env, lines, l, rest, outer + {l}, ctx, IfEntry(l, true), mid, o.w, o.fuel);
        }
      } else {
        SkippedBody(env, lines, Machine(ctx', pos + 1, true, w), thn, outer + {l}, fuel - 1);
        if Pass(env, Coded, Flatten(thn), w, fuel - 1).Done? {
          SimChain(env, lines, l, rest, outer + {l}, ctx, IfEntry(l, false), mid, w, fuel - 1 - |Flatten(thn)|);
        }
      }
    }
  }

  lemma {:induction false} SimChain<S>(env: Env<S>, lines: seq<Line>, l: nat, c: Chain, outer: set<nat>,
                                       base: Context, e: Entry, pos: nat, w: World<S>, fuel: nat)
    requires e.oLabel == l && (e.op == If || e.op == ElseIf) && !e.handled && e.skip && !e.brk && l in outer
    requires ScopedChain(c, outer) && At(lines, pos, FlattenChain(l, c))
    ensures Agrees(env, lines, Run(env, lines, Machine(base + [e], pos, true, w), fuel),
                   ExecChain(env, Coded, l, c, w, fuel), base, pos + |FlattenChain(l, c)|)
    decreases fuel, c, 1
  {
    hide Pass;
    hide Pass;
    hide SkipStatus;
    hide Run;
    hide At;
    hide Flow;
    match c
    case EndChain =>
      EndIfLine(env, lines, base, e, pos, w, fuel);
      PassOWord(env, OWord(l, EndIf, ""), w, fuel);
    case ElseChain(body) =>
      var line := OWord(l, Else, "");
      AtBlock(lines, pos, line, Flatten(body), [OWord(l, EndIf, "")]);
      UnhandledLines(env, base, e, pos + 1, w.store, "");
      var e' := e.(skip := false, op := Else);
      OneLine(env, lines, Machine(base + [e], pos, true, w), line, Keep(base + [e'], pos + 1), fuel);
      if fuel > 0 {
        SimProg(env, lines, body, outer, base + [e'], pos + 1, w, fuel - 1);
        var o := Exec(env, Coded, body, false, w, fuel - 1);
        if o.Done? {
          EndIfLine(env, lines, base, e', pos + 1 + |Flatten(body)|, o.w, o.fuel);
          PassOWord(env, OWord(l, EndIf, ""), o.w, o.fuel);
        }
      }
    case ElseIfChain(_, _, _) =>
      SimElseIf(env, lines, l, c, outer, base, e, pos, w, fuel);
  }

  lemma {:induction false} SimElseIf<S>(env: Env<S>, lines: seq<Line>, l: nat, c: Chain, outer: set<nat>,
                                        base: Context, e: Entry, pos: nat, w: World<S>, fuel: nat)
    requires c.ElseIfChain?
    requires e.oLabel == l && (e.op == If || e.op == ElseIf) && !e.handled && e.skip && !e.brk && l in outer
    requires ScopedChain(c, outer) && At(lines, pos, FlattenChain(l, c))
    ensures Agrees(env, lines, Run(env, lines, Machine(base + [e], pos, true, w), fuel),
                   ExecChain(env, Coded, l, c, w, fuel), base, pos + |FlattenChain(l, c)|)
    decreases fuel, c, 0
  {
    hide Pass;
    hide Exec;
    hide ExecStmt;
    hide FlattenStmt;
    hide Run;
    hide At;
    hide Flow;
    var ElseIfChain(cond, body, rest) := c;
    var line := OWord(l, ElseIf, cond);
    AtBlock(lines, pos, line, Flatten(body), FlattenChain(l, rest));
    UnhandledLines(env, base, e, pos + 1, w.store, cond);
    var eff := Flow(env, true, base + [e], pos + 1, w.store, l, ElseIf, cond);
    OneLine(env, lines, Machine(base + [e], pos, true, w), line, eff, fuel);
    if fuel > 0 && eff.status == Ok {
      var mid := pos + 1 + |Flatten(body)|;
      if env.eval(cond, w.store).v != 0.0 {
        var e' := e.(skip := false, op := ElseIf, handled := true);
        SimProg(env, lines, body, outer, base + [e'], pos + 1, w, fuel - 1);
        var o := Exec(env, Coded, body, false, w, fuel - 1);
        if o.Done? {
          HandledChain(env, lines, l, rest, outer, base, e', mid, o.w, o.fuel);
        }
      } else {
        SkippedBody(env, lines, Machine(base + [e], pos + 1, true, w), body, outer, fuel - 1);
        if Pass(env, Coded, Flatten(body), w, fuel - 1).Done? {
          SimChain(env, lines, l, rest, outer, base, e, mid, w, fuel - 1 - |Flatten(body)|);
        }
      }
    }
  }

  lemma {:induction false} SimRepeat<S>(env: Env<S>, lines: seq<Line>, s: Stmt, outer: set<nat>,
                                        ctx: Context, pos: nat, w: World<S>, fuel: nat)
    requires s.RepeatStmt? && ScopedStmt(s, outer) && Ready(ctx, outer) && At(lines, pos, FlattenStmt(s))
    ensures Agrees(env, lines, Run(env, lines, Machine(ctx, pos, false, w), fuel),
                   ExecStmt(env, Coded, s, InDo(ctx), w, fuel), ctx, pos + |FlattenStmt(s)|)
    decreases fuel, s, 0
  {
    hide Pass;
    hide Pass;
    hide SkipStatus;
    hide Run;
    hide At;
    hide Flow;
    var RepeatStmt(l, c, body) := s;
    var line := OWord(l, Repeat, c);
    AtBlock(lines, pos, line, Flatten(body), [OWord(l, EndRepeat, "")]);
    RepeatLine(env, ctx, outer, pos + 1, w.store, l, c);
    var eff := Flow(env, true, ctx, pos + 1, w.store, l, Repeat, c);
    OneLine(env, lines, Machine(ctx, pos, false, w), line, eff, fuel);
    if fuel > 0 && eff.status == Ok {
      var v := env.eval(c, w.store).v;
      if v == 0.0 {
        SkippedRepeat(env, lines, l, body, outer + {l}, ctx, pos + 1, w, fuel - 1);
      } else {
        var k := env.toCount(v);
        SimRepeatLoop(env, lines, l, body, outer + {l}, ctx, k, if k == 0 then 1 else k, pos + 1, w, fuel - 1);
      }
    }
  }

  lemma SkippedRepeat<S>(env: Env<S>, lines: seq<Line>, l: nat, body: Prog, outer: set<nat>,
                         base: Context, pos: nat, w: World<S>, fuel: nat)
    requires l in outer && Scoped(body, outer)
    requires At(lines, pos, Flatten(body)) && At(lines, pos + |Flatten(body)|, [OWord(l, EndRepeat, "")])
    ensures Agrees(env, lines, Run(env, lines, Machine(base + [Skipped(l, Repeat)], pos, true, w), fuel),
                   Pass(env, Coded, Flatten(body) + [OWord(l, EndRepeat, "")], w, fuel),
                   base, pos + |Flatten(body)| + 1)
  {
    hide Pass;
    hide SkipStatus;
    hide Run;
    hide At;
    hide Flow;
    var e := Skipped(l, Repeat);
    SkippedBody(env, lines, Machine(base + [e], pos, true, w), body, outer, fuel);
    PassAppend(env, Coded, Flatten(body), [OWord(l, EndRepeat, "")], w, fuel);
    if Pass(env, Coded, Flatten(body), w, fuel).Done? {
      PassOWord(env, OWord(l, EndRepeat, ""), w, fuel - |Flatten(body)|);
      var end := pos + |Flatten(body)|;
      AtLine(lines, end, OWord(l, EndRepeat, ""));
      EndRepeatLine(env, base, e, end + 1, w.store, "");
      OneLine(env, lines, Machine(base + [e], end, true, w), lines[end], Keep(base, end + 1), fuel - |Flatten(body)|);
    }
  }

  lemma {:induction false} SimRepeatLoop<S>(env: Env<S>, lines: seq<Line>, l: nat, body: Prog, outer: set<nat>,
                                            base: Context, k: nat, n: nat, pos: nat, w: World<S>, fuel: nat)
    requires n == (if k == 0 then 1 else k) && l in outer && Scoped(body, outer)
    requires At(lines, pos, Flatten(body)) && At(lines, pos + |Flatten(body)|, [OWord(l, EndRepeat, "")])
    ensures Agrees(env, lines, Run(env, lines, Machine(base + [RepeatEntry(l, pos, k)], pos, false, w), fuel),
                   RepeatLoop(env, Coded, body, n, w, fuel), base, pos + |Flatten(body)| + 1)
    decreases fuel, body, 1
  {
    hide Pass;
    hide Pass;
    hide SkipStatus;
    hide Exec;
    hide Flatten;
    hide Run;
    hide At;
    hide Flow;
    var e := RepeatEntry(l, pos, k);
    SimProg(env, lines, body, outer, base + [e], pos, w, fuel);
    var o := Exec(env, Coded, body, false, w, fuel);
    if o.Done? {
      var end := pos + |Flatten(body)|;
      AtLine(lines, end, OWord(l, EndRepeat, ""));
      EndRepeatLine(env, base, e, end + 1, o.w.store, "");
      var eff := Flow(env, true, base + [e], end + 1, o.w.store, l, EndRepeat, "");
      OneLine(env, lines, Machine(base + [e], end, false, o.w), lines[end], eff, o.fuel);
      if o.fuel > 0 && n > 1 {
        assert e.(repeats := k - 1) == RepeatEntry(l, pos, k - 1);
        SimRepeatLoop(env, lines, l, body, outer, base, k - 1, n - 1, pos, o.w, o.fuel - 1);
      }
    }
  }

  lemma {:induction false} SimDo<S>(env: Env<S>, lines: seq<Line>, s: Stmt, outer: set<nat>,
                                    ctx: Context, pos: nat, w: World<S>, fuel: nat)
    requires s.DoStmt? && ScopedStmt(s, outer) && Ready(ctx, outer) && At(lines, pos, FlattenStmt(s))
    ensures Agrees(env, lines, Run(env, lines, Machine(ctx, pos, false, w), fuel),
                   ExecStmt(env, Coded, s, InDo(ctx), w, fuel), ctx, pos + |FlattenStmt(s)|)
    decreases fuel, s, 0
  {
    hide Run;
    hide At;
    hide Flow;
    var DoStmt(l, body, c) := s;
    var line := OWord(l, Do, "");
    AtBlock(lines, pos, line, Flatten(body), [OWord(l, While, c)]);
    DoLine(env, ctx, outer, pos + 1, w.store, l, "");
    OneLine(env, lines, Machine(ctx, pos, false, w), line, Keep(ctx + [DoEntry(l, pos + 1)], pos + 1), fuel);
    if fuel > 0 {
      SimDoLoop(env, lines, l, body, c, outer + {l}, ctx, pos + 1, w, fuel - 1);
    }
  }

  lemma {:induction false} SimDoLoop<S>(env: Env<S>, lines: seq<Line>, l: nat, body: Prog, c: string, outer: set<nat>,
                                        base: Context, pos: nat, w: World<S>, fuel: nat)
    requires l in outer && Scoped(body, outer)
    requires At(lines, pos, Flatten(body)) && At(lines, pos + |Flatten(body)|, [OWord(l, While, c)])
    ensures Agrees(env, lines, Run(env, lines, Machine(base + [DoEntry(l, pos)], pos, false, w), fuel),
                   DoLoop(env, Coded, body, c, w, fuel), base, pos + |Flatten(body)| + 1)
    decreases fuel, body, 1
  {
    hide Pass;
    hide Pass;
    hide SkipStatus;
    hide Exec;
    hide Flatten;
    hide Run;
    hide At;
    hide Flow;
    var e := DoEntry(l, pos);
    SimProg(env, lines, body, outer, base + [e], pos, w, fuel);
    var o := Exec(env, Coded, body, true, w, fuel);
    if o.Done? {
      var end := pos + |Flatten(body)|;
      AtLine(lines, end, OWord(l, While, c));
      WhileUnderDo(env, base, e, end + 1, o.w.store, l, c);
      var eff := Flow(env, true, base + [e], end + 1, o.w.store, l, While, c);
      OneLine(env, lines, Machine(base + [e], end, false, o.w), lines[end], eff, o.fuel);
      if o.fuel > 0 && eff.status == Ok && env.eval(c, o.w.store).v != 0.0 {
        SimDoLoop(env, lines, l, body, c, outer, base, pos, o.w, o.fuel - 1);
      }
    }
  }

  lemma {:induction false} SimWhile<S>(env: Env<S>, lines: seq<Line>, s: Stmt, outer: set<nat>,
                                       ctx: Context, pos: nat, w: World<S>, fuel: nat)
    requires s.WhileStmt? && ScopedStmt(s, outer) && Ready(ctx, outer) && At(lines, pos, FlattenStmt(s))
    ensures Agrees(env, lines, Run(env, lines, Machine(ctx, pos, false, w), fuel),
                   ExecStmt(env, Coded, s, InDo(ctx), w, fuel), ctx, pos + |FlattenStmt(s)|)
    decreases fuel, s, 0
  {
    hide Pass;
    hide SkipStatus;
    hide Exec;
    hide ExecStmt;
    hide Agrees;
    hide Run;
    hide At;
    hide Flow;
    var WhileStmt(l, c, body) := s;
    var line := OWord(l, While, c);
    AtBlock(lines, pos, line, Flatten(body), [OWord(l, EndWhile, "")]);
    assert |FlattenStmt(s)| == |Flatten(body)| + 2;
    if InDo(ctx) {
      SimSwallowedWhile(env, lines, s, outer, ctx, pos, w, fuel);
    } else {
      SimFreeWhile(env, lines, s, outer, ctx, pos, w, fuel);
    }
  }

  /** A WHILE directly in a DO. */
  lemma {:induction false} SimSwallowedWhile<S>(env: Env<S>, lines: seq<Line>, s: Stmt, outer: set<nat>,
                                                ctx: Context, pos: nat, w: World<S>, fuel: nat)
    requires s.WhileStmt? && ScopedStmt(s, outer) && Ready(ctx, outer) && InDo(ctx)
    requires pos < |lines| && lines[pos] == OWord(s.oLabel, While, s.cond) && At(lines, pos + 1, Flatten(s.body))
    requires At(lines, pos + 1 + |Flatten(s.body)|, [OWord(s.oLabel, EndWhile, "")])
    ensures Agrees(env, lines, Run(env, lines, Machine(ctx, pos, false, w), fuel),
                   ExecStmt(env, Coded, s, true, w, fuel), ctx, pos + |Flatten(s.body)| + 2)
    decreases fuel, s.body, 2
  {
    hide Pass;
    hide SkipStatus;
    hide Exec;
    hide Run;
    hide At;
    hide Flow;
    hide Flatten;
    var WhileStmt(l, c, body) := s;
    assert ctx == Pop(ctx) + [Top(ctx)];
    WhileUnderDo(env, Pop(ctx), Top(ctx), pos + 1, w.store, l, c);
    var eff := Flow(env, true, ctx, pos + 1, w.store, l, While, c);
    OneLine(env, lines, Machine(ctx, pos, false, w), lines[pos], eff, fuel);
    if fuel > 0 && eff.status == Ok {
      SimWhileInDo(env, lines, s, outer, ctx, pos + 1, w, fuel - 1);
    }
  }

  /** A WHILE that is not directly in a DO. */
  lemma {:induction false} SimFreeWhile<S>(env: Env<S>, lines: seq<Line>, s: Stmt, outer: set<nat>,
                                           ctx: Context, pos: nat, w: World<S>, fuel: nat)
    requires s.WhileStmt? && ScopedStmt(s, outer) && Ready(ctx, outer) && !InDo(ctx)
    requires pos < |lines| && lines[pos] == OWord(s.oLabel, While, s.cond) && At(lines, pos + 1, Flatten(s.body))
    requires At(lines, pos + 1 + |Flatten(s.body)|, [OWord(s.oLabel, EndWhile, "")])
    ensures Agrees(env, lines, Run(env, lines, Machine(ctx, pos, false, w), fuel),
                   ExecStmt(env, Coded, s, false, w, fuel), ctx, pos + |Flatten(s.body)| + 2)
    decreases fuel, s.body, 2
  {
    hide Pass;
    hide SkipStatus;
    hide Exec;
    hide Flatten;
    hide Run;
    hide At;
    hide Flow;
    var WhileStmt(l, c, body) := s;
    WhileLine(env, ctx, outer, pos + 1, w.store, l, c);
    var eff := Flow(env, true, ctx, pos + 1, w.store, l, While, c);
    OneLine(env, lines, Machine(ctx, pos, false, w), lines[pos], eff, fuel);
    if fuel > 0 && eff.status == Ok {
      if env.eval(c, w.store).v != 0.0 {
        SimWhileLoop(env, lines, l, body, c, outer + {l}, ctx, pos + 1, w, fuel - 1);
      } else {
        SkippingWhileNeverEnds(env, lines, Machine(ctx + [Skipped(l, While)], pos + 1, true, w), fuel - 1);
      }
    }
  }

  /** The body of a WHILE that the DO around it swallowed, up to the failing ENDWHILE. */
  lemma {:induction false} SimWhileInDo<S>(env: Env<S>, lines: seq<Line>, s: Stmt, outer: set<nat>,
                                           ctx: Context, pos: nat, w: World<S>, fuel: nat)
    requires s.WhileStmt? && ScopedStmt(s, outer) && Ready(ctx, outer) && InDo(ctx)
    requires At(lines, pos, Flatten(s.body)) && At(lines, pos + |Flatten(s.body)|, [OWord(s.oLabel, EndWhile, "")])
    ensures Agrees(env, lines, Run(env, lines, Machine(ctx, pos, false, w), fuel),
                   match Exec(env, Coded, s.body, true, w, fuel)
                   case Done(w1, f1) => if f1 == 0 then OutOfFuel(w1) else Failed(w1, SyntaxError)
                   case other => other, ctx, 0)
    decreases fuel, s, 0
  {
    hide Run;
    hide At;
    hide Flow;
    SimProg(env, lines, s.body, outer + {s.oLabel}, ctx, pos, w, fuel);
    var o := Exec(env, Coded, s.body, true, w, fuel);
    if o.Done? {
      var end := pos + |Flatten(s.body)|;
      AtLine(lines, end, OWord(s.oLabel, EndWhile, ""));
      assert ctx == Pop(ctx) + [Top(ctx)];
      EndWhileUnderDo(env, Pop(ctx), Top(ctx), end + 1, o.w.store, s.oLabel, "");
      OneLine(env, lines, Machine(ctx, end, false, o.w), lines[end], Fail([], end + 1, SyntaxError), o.fuel);
    }
  }

  lemma {:induction false} SimWhileLoop<S>(env: Env<S>, lines: seq<Line>, l: nat, body: Prog, c: string,
                                           outer: set<nat>,
                                           base: Context, pos: nat, w: World<S>, fuel: nat)
    requires l in outer && Scoped(body, outer)
    requires At(lines, pos, Flatten(body)) && At(lines, pos + |Flatten(body)|, [OWord(l, EndWhile, "")])
    ensures Agrees(env, lines, Run(env, lines, Machine(base + [WhileEntry(l, pos, c)], pos, false, w), fuel),
                   WhileLoop(env, Coded, body, c, w, fuel), base, pos + |Flatten(body)| + 1)
    decreases fuel, body, 1
  {
    hide Pass;
    hide Pass;
    hide SkipStatus;
    hide Exec;
    hide Flatten;
    hide Run;
    hide At;
    hide Flow;
    var e := WhileEntry(l, pos, c);
    SimProg(env, lines, body, outer, base + [e], pos, w, fuel);
    var o := Exec(env, Coded, body, false, w, fuel);
    if o.Done? {
      var end := pos + |Flatten(body)|;
      AtLine(lines, end, OWord(l, EndWhile, ""));
      EndWhileLine(env, base, e, end + 1, o.w.store, "");
      var eff := Flow(env, true, base + [e], end + 1, o.w.store, l, EndWhile, "");
      OneLine(env, lines, Machine(base + [e], end, false, o.w), lines[end], eff, o.fuel);
      if o.fuel > 0 && eff.status == Ok && env.eval(c, o.w.store).v != 0.0 {
        SimWhileLoop(env, lines, l, body, c, outer, base, pos, o.w, o.fuel - 1);
      }
    }
  }
}
