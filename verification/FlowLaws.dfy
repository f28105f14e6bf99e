/** Laws of single o-words, and of the structured meaning itself, that do not go through the
    stack machine's own definition. */
module FlowLaws {
  import opened Flowcontrol
  import opened FlowPrograms
  import opened FlowMeaning

  // ----- Single o-words --------------------------------------------------------------------

  /** The commands that need a running job. */
  predicate NeedsJob(op: Op) {
    op in {Do, While, EndWhile, Repeat, EndRepeat, Break, Continue, Return}
  }

  /** Outside a job these commands fail, skipped or not; all others do what they do inside. */
  lemma OutsideAJob<S>(env: Env<S>, ctx: Context, pos: nat, store: S, l: nat, op: Op, x: string)
    ensures Flow(env, false, ctx, pos, store, l, op, x)
         == if NeedsJob(op) then Effect([], pos, NotExecutingMacro, []) else Flow(env, true, ctx, pos, store, l, op, x)
  {}

  /** The entries that an o-word continues or closes. */
  function Partners(op: Op): set<Op> {
    match op
    case ElseIf | Else => {If, ElseIf}
    case EndIf => {If, ElseIf, Else}
    case EndWhile => {While}
    case EndRepeat => {Repeat}
    case _ => {}
  }

  /** When nothing is skipped, such an o-word fails exactly when the top entry is none of its
      partners (or its own condition fails), and changes nothing when the label is another's. */
  lemma StrayWords<S>(env: Env<S>, ctx: Context, pos: nat, store: S, l: nat, op: Op, x: string)
    requires !TopSkips(ctx) && Partners(op) != {}
    ensures var e := Flow(env, true, ctx, pos, store, l, op, x);
            && (!TopIs(ctx, Partners(op)) ==> e == Effect([], pos, SyntaxError, []))
            && (TopIs(ctx, Partners(op)) && Top(ctx).oLabel != l ==> e == Effect(ctx, pos, Ok, []))
            && (TopIs(ctx, Partners(op)) && Top(ctx).oLabel == l && e.status != Ok ==>
                  && (op == ElseIf ==> env.eval(x, store) == Bad(e.status))
                  && (op == EndWhile ==> env.eval(Top(ctx).expr, store) == Bad(e.status))
                  && op in {ElseIf, EndWhile})
  {}

  /** RETURN in a job does nothing. */
  lemma ReturnDoesNothing<S>(env: Env<S>, ctx: Context, pos: nat, store: S, l: nat, x: string)
    ensures Flow(env, true, ctx, pos, store, l, Return, x) == Effect(ctx, pos, Ok, [])
  {}

  /** In every state of every run that is not skipping, an ERROR whose code evaluates to an error
      stops the run with it and an empty stack; an unreadable or zero one does nothing. */
  lemma ErrorStops<S>(env: Env<S>, lines: seq<Line>, m: Machine<S>, l: nat, x: string, fuel: nat)
    requires Sound(m) && !m.skip && m.pos < |lines| && lines[m.pos] == OWord(l, RaiseError, x) && fuel > 0
    ensures var next := m.(pos := m.pos + 1);
            Run(env, lines, m, fuel)
            == match env.eval(x, m.world.store)
               case Bad(_) => Run(env, lines, next, fuel - 1)
               case Val(v) =>
                 if env.toStatus(v) == Ok then Run(env, lines, next, fuel - 1)
                 else Aborted(next.(context := []), env.toStatus(v))
  {
    assert m.world.trace + [] == m.world.trace;
    hide Run;
    RunStep(env, lines, m, fuel);
  }

  /** Likewise an ALARM appends its alarm to what has happened and the run goes on; an unreadable
      one does nothing. */
  lemma AlarmGoesOn<S>(env: Env<S>, lines: seq<Line>, m: Machine<S>, l: nat, x: string, fuel: nat)
    requires Sound(m) && !m.skip && m.pos < |lines| && lines[m.pos] == OWord(l, RaiseAlarm, x) && fuel > 0
    ensures var next := m.(pos := m.pos + 1);
            Run(env, lines, m, fuel)
            == match env.eval(x, m.world.store)
               case Bad(_) => Run(env, lines, next, fuel - 1)
               case Val(v) =>
                 Run(env, lines, next.(world := m.world.(trace := m.world.trace + [Alarm(v)])), fuel - 1)
  {
    assert m.world.trace + [] == m.world.trace;
    hide Run;
    RunStep(env, lines, m, fuel);
  }

  // ----- The structured meaning ------------------------------------------------------------

  function Append(p: Prog, q: Prog): Prog {
    match p
    case Nil => q
    case Cons(s, t) => Cons(s, Append(t, q))
  }

  /** `n` copies of a program. */
  function Copies(p: Prog, n: nat): Prog {
    if n == 0 then Nil else Append(p, Copies(p, n - 1))
  }

  lemma {:induction false} ExecAppend<S>(env: Env<S>, p: Prog, q: Prog, w: World<S>, fuel: nat)
    ensures Exec(env, Ideal, Append(p, q), false, w, fuel) ==
            match Exec(env, Ideal, p, false, w, fuel)
            case Done(w1, f1) => Exec(env, Ideal, q, false, w1, f1)
            case other => other
    decreases p
  {
    if p.Cons? {
      var o := ExecStmt(env, Ideal, p.head, false, w, fuel);
      if o.Done? {
        ExecAppend(env, p.tail, q, o.w, o.fuel);
      }
    }
  }

  /** A REPEAT that completes means that many copies of its body, with one line saved a pass. */
  lemma {:induction false} RepeatIsCopies<S>(env: Env<S>, body: Prog, n: nat, w: World<S>, fuel: nat)
    requires n > 0 && RepeatLoop(env, Ideal, body, n, w, fuel).Done?
    ensures var o := RepeatLoop(env, Ideal, body, n, w, fuel);
            Exec(env, Ideal, Copies(body, n), false, w, fuel) == Done(o.w, o.fuel + n)
    decreases n
  {
    hide Exec;
    var first := Exec(env, Ideal, body, false, w, fuel);
    ExecAppend(env, body, Copies(body, n - 1), w, fuel);
    if n > 1 {
      RepeatIsCopies(env, body, n - 1, first.w, first.fuel - 1);
      MoreFuel(env, Copies(body, n - 1), false, first.w, first.fuel - 1, 1);
    } else {
      ExecNothing(env, first.w, first.fuel);
    }
  }

  lemma ExecNothing<S>(env: Env<S>, w: World<S>, fuel: nat)
    ensures Exec(env, Ideal, Nil, false, w, fuel) == Done(w, fuel)
  {}

  /** A DO that completes stops where its condition is zero. */
  lemma {:induction false} DoEndsAtZero<S>(env: Env<S>, body: Prog, c: string, w: World<S>, fuel: nat)
    requires DoLoop(env, Ideal, body, c, w, fuel).Done?
    ensures env.eval(c, DoLoop(env, Ideal, body, c, w, fuel).w.store) == Val(0.0)
    decreases fuel
  {
    var o := Exec(env, Ideal, body, true, w, fuel);
    if Holds(env, c, o.w.store) {
      DoEndsAtZero(env, body, c, o.w, o.fuel - 1);
    }
  }

  /** A WHILE that completes stops where its condition is zero, and does nothing when it starts
      there. */
  lemma {:induction false} WhileEndsAtZero<S>(env: Env<S>, l: nat, body: Prog, c: string, w: World<S>, fuel: nat)
    requires ExecStmt(env, Ideal, WhileStmt(l, c, body), false, w, fuel).Done?
    ensures var o := ExecStmt(env, Ideal, WhileStmt(l, c, body), false, w, fuel);
            env.eval(c, o.w.store) == Val(0.0) && (env.eval(c, w.store) == Val(0.0) ==> o.w == w)
  {
    if Holds(env, c, w.store) {
      WhileLoopEndsAtZero(env, body, c, w, fuel - 1);
    }
  }

  lemma {:induction false} WhileLoopEndsAtZero<S>(env: Env<S>, body: Prog, c: string, w: World<S>, fuel: nat)
    requires WhileLoop(env, Ideal, body, c, w, fuel).Done?
    ensures env.eval(c, WhileLoop(env, Ideal, body, c, w, fuel).w.store) == Val(0.0)
    decreases fuel
  {
    var o := Exec(env, Ideal, body, false, w, fuel);
    if Holds(env, c, o.w.store) {
      WhileLoopEndsAtZero(env, body, c, o.w, o.fuel - 1);
    }
  }

  /** An IF whose condition is not zero runs its branch. */
  lemma IfTaken<S>(env: Env<S>, l: nat, c: string, thn: Prog, rest: Chain, w: World<S>, fuel: nat)
    requires fuel > 0 && Holds(env, c, w.store)
    ensures var o := ExecStmt(env, Ideal, IfStmt(l, c, thn, rest), false, w, fuel);
            var b := Exec(env, Ideal, thn, false, w, fuel - 1);
            o == if b.Done? then Spend(b.w, b.fuel, |FlattenChain(l, rest)|) else b
  {
    assert ExecStmt(env, Ideal, IfStmt(l, c, thn, rest), false, w, fuel)
        == ExecBranch(env, Ideal, l, c, thn, rest, w, fuel);
  }

  /** One whose condition is zero does, past its branch, what its rest would do as an IF of its
      own; ELSE runs when nothing before it did. */
  lemma IfNotTaken<S>(env: Env<S>, l: nat, c: string, thn: Prog, rest: Chain, w: World<S>, left: nat)
    requires left > 0 && env.eval(c, w.store) == Val(0.0)
    ensures var o := ExecStmt(env, Ideal, IfStmt(l, c, thn, rest), false, w, left + |Flatten(thn)| + 1);
            if rest.EndChain? then o == Done(w, left - 1)
            else if rest.ElseChain? then
              var b := Exec(env, Ideal, rest.body, false, w, left - 1);
              o == if b.Done? then Spend(b.w, b.fuel, 1) else b
            else
              o == ExecStmt(env, Ideal, IfStmt(l, rest.cond, rest.body, rest.rest), false, w, left)
  {
    var fuel := left + |Flatten(thn)| + 1;
    assert ExecStmt(env, Ideal, IfStmt(l, c, thn, rest), false, w, fuel)
        == ExecBranch(env, Ideal, l, c, thn, rest, w, fuel);
    assert Pass(env, Ideal, Flatten(thn), w, fuel - 1) == Spend(w, fuel - 1, |Flatten(thn)|) == Done(w, left);
    assert ExecBranch(env, Ideal, l, c, thn, rest, w, fuel) == ExecChain(env, Ideal, l, rest, w, left);
    if rest.ElseIfChain? {
      assert ExecChain(env, Ideal, l, rest, w, left)
          == ExecBranch(env, Ideal, l, rest.cond, rest.body, rest.rest, w, left);
    }
  }
}
