/** Running whole files of o-words: the invariant of the context stack over every run, and
    the agreement of the seek-back machine with structured programs. */
module FlowPrograms {
  import opened Flowcontrol

  // ----- The machine over a file -----------------------------------------------------------

  datatype Machine<S> = Machine(context: Context, pos: nat, skip: bool, world: World<S>)

  /** Executes the line just read; `m.pos` is already past it.  While blocks are skipped, a
      plain line is not executed, but its first word is read and may be in error, and an
      o-word line with a comment is blanked before it is looked at. */
  function Step<S>(env: Env<S>, line: Line, m: Machine<S>): (Machine<S>, Status) {
    if line.Plain? then
      if m.skip then (m, env.peek(line.text, m.world.store))
      else
        var (store, status) := env.exec(line.text, m.world.store);
        (m.(world := World(store, m.world.trace + [Ran(line.text)])), status)
    else if line.Noted? && m.skip then (m, Ok)
    else
      var e := Flow(env, true, m.context, m.pos, m.world.store, line.oLabel, line.op, line.expr);
      var skip := if line.op == Unknown then m.skip else TopSkips(e.context);
      (Machine(e.context, e.pos, skip, m.world.(trace := m.world.trace + e.alarm)), e.status)
  }

  datatype Result<S> = Finished(m: Machine<S>) | Timeout(m: Machine<S>) | Aborted(m: Machine<S>, status: Status)

  /** Reads and executes lines until the end of the file, an error, or `fuel` lines. */
  function Run<S>(env: Env<S>, lines: seq<Line>, m: Machine<S>, fuel: nat): Result<S>
    decreases fuel
  {
    if m.pos >= |lines| then Finished(m)
    else if fuel == 0 then Timeout(m)
    else
      var (m', status) := Step(env, lines[m.pos], m.(pos := m.pos + 1));
      if status == Ok then Run(env, lines, m', fuel - 1) else Aborted(m', status)
  }

  /** The interpreter reading a file line by line. */
  method RunInPlace<S>(env: Env<S>, lines: seq<Line>, it: Interpreter<S>, start: S, fuel: nat)
    returns (store: S, status: Status, timeout: bool)
    modifies it
    ensures var m := Machine(old(it.context), old(it.pos), old(it.skipBlocks), World(start, old(it.trace)));
            var now := Machine(it.context, it.pos, it.skipBlocks, World(store, it.trace));
            Run(env, lines, m, fuel)
            == if status != Ok then Aborted(now, status) else if timeout then Timeout(now) else Finished(now)
  {
    hide Flow;
    ghost var result := Run(env, lines, Machine(it.context, it.pos, it.skipBlocks, World(start, it.trace)), fuel);
    store, status, timeout := start, Ok, false;
    var left := fuel;
    while it.pos < |lines|
      invariant status == Ok && !timeout
      invariant Run(env, lines, Machine(it.context, it.pos, it.skipBlocks, World(store, it.trace)), left) == result
      decreases left
    {
      if left == 0 {
        timeout := true;
        return;
      }
      left := left - 1;
      var line := lines[it.pos];
      it.pos := it.pos + 1;
      if line.Plain? {
        if it.skipBlocks {
          status := env.peek(line.text, store);
        } else {
          var done := env.exec(line.text, store);
          store, status := done.0, done.1;
          it.trace := it.trace + [Ran(line.text)];
        }
      } else if line.OWord? || !it.skipBlocks {
        status := it.Execute(env, true, store, line.oLabel, line.op, line.expr);
      }
      if status != Ok {
        return;
      }
    }
  }

  // ----- Invariant of every run ------------------------------------------------------------

  /** Only the top entry can be skipping, and no entry is ever marked broken. */
  ghost predicate Disciplined(ctx: Context) {
    && (forall i :: 0 <= i < |ctx| - 1 ==> !ctx[i].skip)
    && (forall i :: 0 <= i < |ctx| ==> !ctx[i].brk)
  }

  ghost predicate Sound<S>(m: Machine<S>) {
    Disciplined(m.context) && m.skip == TopSkips(m.context)
  }

  lemma UnwindIsPrefix(ctx: Context, l: nat)
    ensures Unwind(ctx, l) <= ctx
    ensures Unwind(ctx, l) == [] || Top(Unwind(ctx, l)).oLabel == l
    ensures Unwind(ctx, l) == [] <==> forall e <- ctx :: e.oLabel != l
  {
    if ctx != [] && Top(ctx).oLabel != l {
      UnwindIsPrefix(Pop(ctx), l);
      assert ctx == Pop(ctx) + [Top(ctx)];
    }
  }

  /** `c` differs from `ctx` by pops, then by one push or one change of the top entry. */
  ghost predicate OneEdit(ctx: Context, c: Context) {
    && |c| <= |ctx| + 1
    && (c != [] ==> Pop(c) <= ctx && !Top(c).brk)
    && (|c| > |ctx| ==> !TopSkips(ctx))
  }

  lemma DispatchIf<S>(env: Env<S>, active: bool, ctx: Context, pos: nat, store: S, l: nat, op: Op, expr: string)
    requires Disciplined(ctx) && op in {If, ElseIf, Else, EndIf}
    ensures OneEdit(ctx, Dispatch(env, active, ctx, pos, store, l, op, expr).context)
  {}

  lemma DispatchOpen<S>(env: Env<S>, active: bool, ctx: Context, pos: nat, store: S, l: nat, op: Op, expr: string)
    requires Disciplined(ctx) && op in {Do, While, Repeat, Return, RaiseAlarm, RaiseError, Unknown}
    ensures OneEdit(ctx, Dispatch(env, active, ctx, pos, store, l, op, expr).context)
  {}

  lemma DispatchClose<S>(env: Env<S>, active: bool, ctx: Context, pos: nat, store: S, l: nat, op: Op, expr: string)
    requires Disciplined(ctx) && op in {EndWhile, EndRepeat, Break, Continue}
    ensures OneEdit(ctx, Dispatch(env, active, ctx, pos, store, l, op, expr).context)
  {
    UnwindIsPrefix(ctx, l);
  }

  /** Every o-word, in or out of a job, keeps the discipline; the skip flag it hands back says
      whether any live entry is skipping; any error leaves an empty stack and no skipping,
      except that a name that is no command leaves the stack alone. */
  lemma FlowKeepsDiscipline<S>(env: Env<S>, active: bool, ctx: Context, pos: nat, store: S,
                               l: nat, op: Op, expr: string)
    requires Disciplined(ctx)
    ensures var e := Flow(env, active, ctx, pos, store, l, op, expr);
            && Disciplined(e.context)
            && (TopSkips(e.context) <==> exists x <- e.context :: x.skip)
            && (e.status != Ok ==> e.context == (if op == Unknown then ctx else []) && e.pos == pos)
            && (op == Unknown ==> e.status != Ok)
            && |e.context| <= |ctx| + 1
  {
    var c := Dispatch(env, active, ctx, pos, store, l, op, expr).context;
    assert OneEdit(ctx, c) by {
      if op in {If, ElseIf, Else, EndIf} {
        DispatchIf(env, active, ctx, pos, store, l, op, expr);
      } else if op in {EndWhile, EndRepeat, Break, Continue} {
        DispatchClose(env, active, ctx, pos, store, l, op, expr);
      } else {
        DispatchOpen(env, active, ctx, pos, store, l, op, expr);
      }
    }
    OneEditKeepsDiscipline(ctx, c);
    OneEditKeepsDiscipline(ctx, []);
  }

  lemma OneEditKeepsDiscipline(ctx: Context, c: Context)
    requires Disciplined(ctx) && OneEdit(ctx, c)
    ensures Disciplined(c)
    ensures TopSkips(c) <==> exists x <- c :: x.skip
  {
    forall i | 0 <= i < |c| - 1 ensures !c[i].skip && !c[i].brk {
      assert c[i] == Pop(c)[i] == ctx[i];
    }
  }

  /** A BREAK that is not skipped fails, whatever encloses it: SyntaxError when its label is
      on the stack, and a read of an empty stack's top when it is not. */
  lemma BreakAlwaysFails<S>(env: Env<S>, ctx: Context, pos: nat, store: S, l: nat, expr: string)
    requires !TopSkips(ctx)
    ensures var e := Flow(env, true, ctx, pos, store, l, Break, expr);
            e.context == [] && e.status == if exists x <- ctx :: x.oLabel == l then SyntaxError else Undefined
  {
    UnwindIsPrefix(ctx, l);
  }

  lemma StepKeepsSound<S>(env: Env<S>, line: Line, m: Machine<S>)
    requires Sound(m)
    ensures var (m', status) := Step(env, line, m);
            && Sound(m')
            && (status != Ok ==>
                  m'.pos == m.pos && m'.context == if line.Plain? || line.op == Unknown then m.context else [])
  {
    hide Dispatch;
    if !line.Plain? {
      FlowKeepsDiscipline(env, true, m.context, m.pos, m.world.store, line.oLabel, line.op, line.expr);
    }
  }

  /** In every state of every run only the top entry can be skipping, and the skip flag says
      whether some live entry is.  A run that a command stops leaves an empty stack; one that
      a plain line or an unknown command stops, executed or skipped, leaves the stack as it
      is. */
  lemma {:induction false} RunKeepsSound<S>(env: Env<S>, lines: seq<Line>, m: Machine<S>, fuel: nat)
    requires Sound(m)
    ensures var r := Run(env, lines, m, fuel);
            && Sound(r.m)
            && (r.m.skip <==> exists x <- r.m.context :: x.skip)
            && (r.Aborted? ==>
                  && 0 < r.m.pos <= |lines|
                  && var line := lines[r.m.pos - 1];
                     (!line.Plain? && line.op != Unknown ==> r.m.context == [] && !r.m.skip))
    decreases fuel
  {
    hide Step;
    if m.pos < |lines| && fuel > 0 {
      StepKeepsSound(env, lines[m.pos], m.(pos := m.pos + 1));
      var (m', status) := Step(env, lines[m.pos], m.(pos := m.pos + 1));
      if status == Ok {
        RunKeepsSound(env, lines, m', fuel - 1);
      }
    }
    SoundSkips(Run(env, lines, m, fuel).m);
  }

  lemma SoundSkips<S>(m: Machine<S>)
    requires Sound(m)
    ensures m.skip <==> exists x <- m.context :: x.skip
  {
    OneEditKeepsDiscipline(m.context, m.context);
  }

  // ----- Structured programs ---------------------------------------------------------------

  datatype Prog = Nil | Cons(head: Stmt, tail: Prog)

  datatype Stmt =
    | Code(text: string)
    | AlarmStmt(oLabel: nat, code: string)
    | ErrorStmt(oLabel: nat, code: string)
    | IfStmt(oLabel: nat, cond: string, thn: Prog, rest: Chain)
    | RepeatStmt(oLabel: nat, count: string, body: Prog)
    | DoStmt(oLabel: nat, body: Prog, cond: string)
    | WhileStmt(oLabel: nat, cond: string, body: Prog)

  /** What follows the first branch of an IF. */
  datatype Chain = EndChain | ElseChain(body: Prog) | ElseIfChain(cond: string, body: Prog, rest: Chain)

  function Flatten(p: Prog): seq<Line>
    decreases p
  {
    match p
    case Nil => []
    case Cons(s, t) => FlattenStmt(s) + Flatten(t)
  }

  function FlattenStmt(s: Stmt): seq<Line>
    decreases s
  {
    match s
    case Code(t) => [Plain(t)]
    case AlarmStmt(l, c) => [OWord(l, RaiseAlarm, c)]
    case ErrorStmt(l, c) => [OWord(l, RaiseError, c)]
    case IfStmt(l, c, thn, rest) => [OWord(l, If, c)] + Flatten(thn) + FlattenChain(l, rest)
    case RepeatStmt(l, c, body) => [OWord(l, Repeat, c)] + Flatten(body) + [OWord(l, EndRepeat, "")]
    case DoStmt(l, body, c) => [OWord(l, Do, "")] + Flatten(body) + [OWord(l, While, c)]
    case WhileStmt(l, c, body) => [OWord(l, While, c)] + Flatten(body) + [OWord(l, EndWhile, "")]
  }

  function FlattenChain(l: nat, c: Chain): seq<Line>
    decreases c
  {
    match c
    case EndChain => [OWord(l, EndIf, "")]
    case ElseChain(body) => [OWord(l, Else, "")] + Flatten(body) + [OWord(l, EndIf, "")]
    case ElseIfChain(cond, body, rest) => [OWord(l, ElseIf, cond)] + Flatten(body) + FlattenChain(l, rest)
  }

  /** No statement reuses a label of a statement around it. */
  predicate Scoped(p: Prog, outer: set<nat>) {
    match p
    case Nil => true
    case Cons(s, t) => ScopedStmt(s, outer) && Scoped(t, outer)
  }

  predicate ScopedStmt(s: Stmt, outer: set<nat>) {
    match s
    case Code(_) | AlarmStmt(_, _) | ErrorStmt(_, _) => true
    case IfStmt(l, _, thn, rest) => l !in outer && Scoped(thn, outer + {l}) && ScopedChain(rest, outer + {l})
    case RepeatStmt(l, _, body) => l !in outer && Scoped(body, outer + {l})
    case DoStmt(l, body, _) => l !in outer && Scoped(body, outer + {l})
    case WhileStmt(l, _, body) => l !in outer && Scoped(body, outer + {l})
  }

  predicate ScopedChain(c: Chain, outer: set<nat>) {
    match c
    case EndChain => true
    case ElseChain(body) => Scoped(body, outer)
    case ElseIfChain(_, body, rest) => Scoped(body, outer) && ScopedChain(rest, outer)
  }

  // ----- Structured semantics --------------------------------------------------------------

  /** How a statement can end.  `Stuck`: everything that follows is skipped for good. */
  datatype Outcome<S> =
    | Done(w: World<S>, fuel: nat)
    | OutOfFuel(w: World<S>)
    | Failed(w: World<S>, status: Status)
    | Stuck(w: World<S>)

  /** Runs a program; a line passed costs one unit of fuel.  In the `Ideal` reading WHILE is
      the usual pre-tested loop and what is skipped has no effect.  In the `Coded` reading a
      WHILE whose first test is zero sticks, a WHILE directly in the body of a DO (`inDo`)
      runs its body once and fails at its ENDWHILE, and a plain line that is skipped fails
      when its first word cannot be read. */
  datatype Reading = Ideal | Coded

  /** Passing over `n` lines. */
  function Spend<S>(w: World<S>, fuel: nat, n: nat): Outcome<S> {
    if fuel < n then OutOfFuel(w) else Done(w, fuel - n)
  }

  /** The status with which a skipped line is passed over. */
  function SkipStatus<S>(env: Env<S>, line: Line, store: S): Status {
    match line
    case Plain(t) => env.peek(t, store)
    case OWord(_, op, _) => if op == Unknown then SyntaxError else Ok
    case Noted(_, _, _) => Ok
  }

  /** Skipping lines that leave the stack alone. */
  function Pass<S>(env: Env<S>, rd: Reading, lines: seq<Line>, w: World<S>, fuel: nat): (r: Outcome<S>)
    ensures r.Done? ==> fuel >= |lines| && r == Done(w, fuel - |lines|)
    ensures rd == Ideal ==> r == Spend(w, fuel, |lines|)
    ensures !r.Stuck? && r.w == w && (r.Failed? ==> r.status != Ok)
  {
    if lines == [] then Done(w, fuel)
    else if fuel == 0 then OutOfFuel(w)
    else if rd == Coded && SkipStatus(env, lines[0], w.store) != Ok then
      Failed(w, SkipStatus(env, lines[0], w.store))
    else Pass(env, rd, lines[1..], w, fuel - 1)
  }

  function Exec<S>(env: Env<S>, rd: Reading, p: Prog, inDo: bool, w: World<S>, fuel: nat): (r: Outcome<S>)
    ensures r.Done? ==> r.fuel <= fuel
    decreases fuel, p, 0
  {
    match p
    case Nil => Done(w, fuel)
    case Cons(s, t) =>
      match ExecStmt(env, rd, s, inDo, w, fuel)
      case Done(w1, f1) => Exec(env, rd, t, inDo, w1, f1)
      case other => other
  }

  function ExecStmt<S>(env: Env<S>, rd: Reading, s: Stmt, inDo: bool, w: World<S>, fuel: nat): (r: Outcome<S>)
    ensures r.Done? ==> r.fuel <= fuel
    decreases fuel, s, 0
  {
    if fuel == 0 then OutOfFuel(w) else
    match s
    case Code(t) =>
      var (store, status) := env.exec(t, w.store);
      var after := World(store, w.trace + [Ran(t)]);
      if status == Ok then Done(after, fuel - 1) else Failed(after, status)
    case AlarmStmt(_, c) =>
      (match env.eval(c, w.store)
       case Bad(_) => Done(w, fuel - 1)
       case Val(v) => Done(w.(trace := w.trace + [Alarm(v)]), fuel - 1))
    case ErrorStmt(_, c) =>
      (match env.eval(c, w.store)
       case Bad(_) => Done(w, fuel - 1)
       case Val(v) => if env.toStatus(v) == Ok then Done(w, fuel - 1) else Failed(w, env.toStatus(v)))
    case IfStmt(l, c, thn, rest) => ExecBranch(env, rd, l, c, thn, rest, w, fuel)
    case RepeatStmt(l, c, body) =>
      (match env.eval(c, w.store)
       case Bad(e) => Failed(w, e)
       case Val(v) =>
         if v == 0.0 then Pass(env, rd, Flatten(body) + [OWord(l, EndRepeat, "")], w, fuel - 1)
         else RepeatLoop(env, rd, body, if env.toCount(v) == 0 then 1 else env.toCount(v), w, fuel - 1))
    case DoStmt(l, body, c) => DoLoop(env, rd, body, c, w, fuel - 1)
    case WhileStmt(l, c, body) =>
      (match env.eval(c, w.store)
       case Bad(e) => Failed(w, e)
       case Val(v) =>
         if rd == Coded && inDo then
           match Exec(env, rd, body, true, w, fuel - 1)
           case Done(w1, f1) => if f1 == 0 then OutOfFuel(w1) else Failed(w1, SyntaxError)
           case other => other
         else if v != 0.0 then WhileLoop(env, rd, body, c, w, fuel - 1)
         else if rd == Coded then Stuck(w)
         else Spend(w, fuel - 1, |Flatten(body)| + 1))
  }

  /** The rest of an IF none of whose branches has run yet. */
  function ExecChain<S>(env: Env<S>, rd: Reading, l: nat, c: Chain, w: World<S>, fuel: nat): (r: Outcome<S>)
    ensures r.Done? ==> r.fuel <= fuel
    decreases fuel, c, 0
  {
    if fuel == 0 then OutOfFuel(w) else
    match c
    case EndChain => Done(w, fuel - 1)
    case ElseChain(body) =>
      (match Exec(env, rd, body, false, w, fuel - 1)
       case Done(w1, f1) => Spend(w1, f1, 1)
       case other => other)
    case ElseIfChain(cond, body, rest) => ExecBranch(env, rd, l, cond, body, rest, w, fuel)
  }

  /** An IF or ELSEIF line, its branch and what follows it. */
  function ExecBranch<S>(env: Env<S>, rd: Reading, l: nat, c: string, body: Prog, rest: Chain, w: World<S>, fuel: nat)
    : (r: Outcome<S>)
    requires fuel > 0
    ensures r.Done? ==> r.fuel <= fuel
    decreases fuel, body, 1
  {
    match env.eval(c, w.store)
    case Bad(e) => Failed(w, e)
    case Val(v) =>
      if v != 0.0 then
        match Exec(env, rd, body, false, w, fuel - 1)
        case Done(w1, f1) => Pass(env, rd, FlattenChain(l, rest), w1, f1)
        case other => other
      else
        match Pass(env, rd, Flatten(body), w, fuel - 1)
        case Done(w1, f1) => ExecChain(env, rd, l, rest, w1, f1)
        case other => other
  }

  /** `n` passes over a REPEAT body. */
  function RepeatLoop<S>(env: Env<S>, rd: Reading, body: Prog, n: nat, w: World<S>, fuel: nat): (r: Outcome<S>)
    requires n > 0
    ensures r.Done? ==> r.fuel <= fuel
    decreases fuel, body, 1
  {
    match Exec(env, rd, body, false, w, fuel)
    case Done(w1, f1) =>
      if f1 == 0 then OutOfFuel(w1)
      else if n == 1 then Done(w1, f1 - 1)
      else RepeatLoop(env, rd, body, n - 1, w1, f1 - 1)
    case other => other
  }

  function DoLoop<S>(env: Env<S>, rd: Reading, body: Prog, cond: string, w: World<S>, fuel: nat): (r: Outcome<S>)
    ensures r.Done? ==> r.fuel <= fuel
    decreases fuel, body, 1
  {
    match Exec(env, rd, body, true, w, fuel)
    case Done(w1, f1) =>
      if f1 == 0 then OutOfFuel(w1) else
      (match env.eval(cond, w1.store)
       case Bad(e) => Failed(w1, e)
       case Val(v) => if v != 0.0 then DoLoop(env, rd, body, cond, w1, f1 - 1) else Done(w1, f1 - 1))
    case other => other
  }

  /** A WHILE loop whose first test has succeeded. */
  function WhileLoop<S>(env: Env<S>, rd: Reading, body: Prog, cond: string, w: World<S>, fuel: nat): (r: Outcome<S>)
    ensures r.Done? ==> r.fuel <= fuel
    decreases fuel, body, 1
  {
    match Exec(env, rd, body, false, w, fuel)
    case Done(w1, f1) =>
      if f1 == 0 then OutOfFuel(w1) else
      (match env.eval(cond, w1.store)
       case Bad(e) => Failed(w1, e)
       case Val(v) => if v != 0.0 then WhileLoop(env, rd, body, cond, w1, f1 - 1) else Done(w1, f1 - 1))
    case other => other
  }
}
