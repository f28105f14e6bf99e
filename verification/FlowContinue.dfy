/** CONTINUE against the line that closes its loop: when it does what reaching that line would
    do, and what happens in the rest of the body when it does not. */
module FlowContinue {
  import opened Flowcontrol
  import opened FlowPrograms
  import opened FlowRefinement
  import opened FlowMeaning

  /** The loop CONTINUE names is live: its entry is what unwinding comes to. */
  ghost predicate Names(ctx: Context, l: nat, op: Op) {
    Disciplined(ctx) && !TopSkips(ctx) && TopIs(Unwind(ctx, l), {op})
  }

  /** The same outcome; after an error the file position no longer matters. */
  predicate Same(a: Effect, b: Effect) {
    a.status == b.status && a.context == b.context && a.alarm == b.alarm && (a.status == Ok ==> a.pos == b.pos)
  }

  lemma NamedEntry(ctx: Context, l: nat)
    requires Disciplined(ctx) && !TopSkips(ctx) && Unwind(ctx, l) != []
    ensures var c := Unwind(ctx, l);
            && Top(c).oLabel == l && !Top(c).skip && !Top(c).brk
            && Disciplined(Pop(c)) && !TopSkips(Pop(c))
  {
    UnwindIsPrefix(ctx, l);
    var c := Unwind(ctx, l);
    assert Top(c) == ctx[|c| - 1];
    forall i | 0 <= i < |c| - 1 ensures Pop(c)[i] == ctx[i] {}
  }

  /** Which CONTINUEs fail: those that name no live entry or one that is no loop, and those
      that name a WHILE whose condition no longer evaluates. */
  lemma ContinueFails<S>(env: Env<S>, ctx: Context, pos: nat, store: S, l: nat, x: string)
    requires Disciplined(ctx) && !TopSkips(ctx)
    ensures var c := Unwind(ctx, l);
            Flow(env, true, ctx, pos, store, l, Continue, x).status
            == if forall e <- ctx :: e.oLabel != l then Undefined
               else if !TopIs(c, {Repeat, Do, While}) then SyntaxError
               else if Top(c).op == While && env.eval(Top(c).expr, store).Bad? then env.eval(Top(c).expr, store).status
               else Ok
  {
    UnwindIsPrefix(ctx, l);
    if Unwind(ctx, l) != [] {
      NamedEntry(ctx, l);
    }
  }

  /** In a REPEAT, CONTINUE does what reaching ENDREPEAT (the line before `end`) would do exactly
      when more passes are left; on the last pass it drops the loop's entry where it stands. */
  lemma ContinueInRepeat<S>(env: Env<S>, ctx: Context, pos: nat, end: nat, store: S, l: nat, x: string, y: string)
    requires Names(ctx, l, Repeat) && pos != end
    ensures var c := Unwind(ctx, l);
            var e := Flow(env, true, ctx, pos, store, l, Continue, x);
            && (Same(e, Flow(env, true, c, end, store, l, EndRepeat, y)) <==> Top(c).repeats > 1)
            && (Top(c).repeats <= 1 ==> e == Keep(Pop(c), pos))
  {
    NamedEntry(ctx, l);
  }

  /** In a WHILE, CONTINUE does what reaching ENDWHILE would do exactly when the condition is not
      found to be zero; when it is, it drops the loop's entry where it stands. */
  lemma ContinueInWhile<S>(env: Env<S>, ctx: Context, pos: nat, end: nat, store: S, l: nat, x: string, y: string)
    requires Names(ctx, l, While) && pos != end
    ensures var c := Unwind(ctx, l);
            var e := Flow(env, true, ctx, pos, store, l, Continue, x);
            && (Same(e, Flow(env, true, c, end, store, l, EndWhile, y)) <==> env.eval(Top(c).expr, store) != Val(0.0))
            && (env.eval(Top(c).expr, store) == Val(0.0) ==> e == Keep(Pop(c), pos))
  {
    NamedEntry(ctx, l);
  }

  /** In a DO, CONTINUE starts the next pass untested; so it does what reaching the closing WHILE
      would do exactly when that line's condition holds. */
  lemma ContinueInDo<S>(env: Env<S>, ctx: Context, pos: nat, end: nat, store: S, l: nat, x: string, cond: string)
    requires Names(ctx, l, Do)
    ensures var c := Unwind(ctx, l);
            var e := Flow(env, true, ctx, pos, store, l, Continue, x);
            && (Same(e, Flow(env, true, c, end, store, l, While, cond)) <==> Holds(env, cond, store))
            && e == Keep(c, Top(c).filePos)
  {
    NamedEntry(ctx, l);
    var c := Unwind(ctx, l);
    assert |Pop(c)| != |c|;
  }

  /** After a CONTINUE that dropped its loop's entry, the loop's own closing line fails exactly
      when the entry now on top is of another kind; otherwise, that entry having another label,
      the line does nothing. */
  lemma AfterDroppedLoop<S>(env: Env<S>, ctx: Context, end: nat, store: S, l: nat, op: Op, y: string)
    requires op == Repeat || op == While
    requires Names(ctx, l, op)
    requires var rest := Pop(Unwind(ctx, l)); rest != [] ==> Top(rest).oLabel != l
    ensures var rest := Pop(Unwind(ctx, l));
            var e := Flow(env, true, rest, end, store, l, if op == Repeat then EndRepeat else EndWhile, y);
            && (e.status != Ok <==> !TopIs(rest, {op}))
            && e == if TopIs(rest, {op}) then Keep(rest, end) else Fail([], end, SyntaxError)
  {
    NamedEntry(ctx, l);
  }

  // ----- Two files -------------------------------------------------------------------------

  /** A REPEAT whose body begins with CONTINUE. */
  function ContinueFile(l: nat, c: string, t: string): seq<Line> {
    [OWord(l, Repeat, c), OWord(l, Continue, ""), Plain(t), OWord(l, EndRepeat, "")]
  }

  /** CONTINUE on the last pass drops the loop's entry without leaving its body: however many
      passes are counted, the line after it runs once, and ENDREPEAT then fails. */
  lemma ContinueFailsAtTheEnd<S>(env: Env<S>, l: nat, c: string, t: string, w: World<S>, n: nat, fuel: nat)
    requires env.eval(c, w.store).Val? && env.eval(c, w.store).v != 0.0 && env.toCount(env.eval(c, w.store).v) == n
    requires env.exec(t, w.store).1 == Ok && fuel >= n + 4
    ensures Run(env, ContinueFile(l, c, t), Begin(w), fuel)
         == Aborted(Machine([], 4, false, World(env.exec(t, w.store).0, w.trace + [Ran(t)])), SyntaxError)
  {
    hide Run;
    hide Flow;
    var lines := ContinueFile(l, c, t);
    RepeatLine(env, [], {}, 1, w.store, l, c);
    assert [] + [RepeatEntry(l, 1, n)] == [RepeatEntry(l, 1, n)];
    OneLine(env, lines, Begin(w), lines[0], Keep([RepeatEntry(l, 1, n)], 1), fuel);
    ContinuePasses(env, l, c, t, w, n, fuel - 1);
  }

  lemma {:induction false} ContinuePasses<S>(env: Env<S>, l: nat, c: string, t: string, w: World<S>, n: nat, fuel: nat)
    requires env.exec(t, w.store).1 == Ok && fuel >= n + 3
    ensures Run(env, ContinueFile(l, c, t), Machine([RepeatEntry(l, 1, n)], 1, false, w), fuel)
         == Aborted(Machine([], 4, false, World(env.exec(t, w.store).0, w.trace + [Ran(t)])), SyntaxError)
    decreases n
  {
    hide Run;
    hide Flow;
    var lines, m := ContinueFile(l, c, t), Machine([RepeatEntry(l, 1, n)], 1, false, w);
    ContinueLine(env, l, n, w.store);
    if n > 1 {
      OneLine(env, lines, m, lines[1], Keep([RepeatEntry(l, 1, n - 1)], 1), fuel);
      ContinuePasses(env, l, c, t, w, n - 1, fuel - 1);
    } else {
      OneLine(env, lines, m, lines[1], Keep([], 2), fuel);
      PlainLine(env, lines, [], 2, t, w, fuel - 1);
      var after := World(env.exec(t, w.store).0, w.trace + [Ran(t)]);
      LoneEndRepeat(env, l, after.store);
      OneLine(env, lines, Machine([], 3, false, after), lines[3], Fail([], 4, SyntaxError), fuel - 2);
    }
  }

  lemma ContinueLine<S>(env: Env<S>, l: nat, n: nat, store: S)
    ensures Flow(env, true, [RepeatEntry(l, 1, n)], 2, store, l, Continue, "")
         == if n > 1 then Keep([RepeatEntry(l, 1, n - 1)], 1) else Keep([], 2)
  {}

  lemma LoneEndRepeat<S>(env: Env<S>, l: nat, store: S)
    ensures Flow(env, true, [], 4, store, l, EndRepeat, "") == Fail([], 4, SyntaxError)
  {}

  /** A REPEAT inside a REPEAT, whose body begins with CONTINUE. */
  function NestedFile(k: nat, l: nat, c: string, t: string): seq<Line> {
    [OWord(k, Repeat, c)] + ContinueFile(l, c, t) + [OWord(k, EndRepeat, "")]
  }

  /** Inside another REPEAT the dropped loop's ENDREPEAT does nothing: this file, with both counts
      one, is run to its end, having executed the line that CONTINUE should have passed by. */
  lemma NestedContinueIsMissed<S>(env: Env<S>, k: nat, l: nat, c: string, t: string, w: World<S>, fuel: nat)
    requires k != l && env.eval(c, w.store).Val? && env.eval(c, w.store).v != 0.0
    requires env.toCount(env.eval(c, w.store).v) == 1 && env.exec(t, w.store).1 == Ok && fuel >= 6
    ensures Run(env, NestedFile(k, l, c, t), Begin(w), fuel)
         == Finished(Machine([], 6, false, World(env.exec(t, w.store).0, w.trace + [Ran(t)])))
  {
    hide Run;
    hide Flow;
    var lines, outer, inner := NestedFile(k, l, c, t), RepeatEntry(k, 1, 1), RepeatEntry(l, 2, 1);
    RepeatLine(env, [], {}, 1, w.store, k, c);
    assert [] + [outer] == [outer] && [outer] + [inner] == [outer, inner];
    OneLine(env, lines, Begin(w), lines[0], Keep([outer], 1), fuel);
    RepeatLine(env, [outer], {k}, 2, w.store, l, c);
    OneLine(env, lines, Machine([outer], 1, false, w), lines[1], Keep([outer, inner], 2), fuel - 1);
    NestedContinueLines(env, k, l, w.store);
    OneLine(env, lines, Machine([outer, inner], 2, false, w), lines[2], Keep([outer], 3), fuel - 2);
    NestedRest(env, k, l, c, t, w, fuel - 3);
  }

  lemma NestedRest<S>(env: Env<S>, k: nat, l: nat, c: string, t: string, w: World<S>, fuel: nat)
    requires k != l && env.exec(t, w.store).1 == Ok && fuel >= 3
    ensures Run(env, NestedFile(k, l, c, t), Machine([RepeatEntry(k, 1, 1)], 3, false, w), fuel)
         == Finished(Machine([], 6, false, World(env.exec(t, w.store).0, w.trace + [Ran(t)])))
  {
    hide Run;
    hide Flow;
    var lines, outer := NestedFile(k, l, c, t), RepeatEntry(k, 1, 1);
    var after := World(env.exec(t, w.store).0, w.trace + [Ran(t)]);
    PlainLine(env, lines, [outer], 3, t, w, fuel);
    NestedContinueLines(env, k, l, after.store);
    OneLine(env, lines, Machine([outer], 4, false, after), lines[4], Keep([outer], 5), fuel - 1);
    EndRepeatLine(env, [], outer, 6, after.store, "");
    assert [] + [outer] == [outer];
    OneLine(env, lines, Machine([outer], 5, false, after), lines[5], Keep([], 6), fuel - 2);
    RunEnds(env, lines, Machine([], 6, false, after), fuel - 3);
  }

  lemma NestedContinueLines<S>(env: Env<S>, k: nat, l: nat, store: S)
    requires k != l
    ensures var outer, inner := RepeatEntry(k, 1, 1), RepeatEntry(l, 2, 1);
            && Flow(env, true, [outer, inner], 3, store, l, Continue, "") == Keep([outer], 3)
            && Flow(env, true, [outer], 5, store, l, EndRepeat, "") == Keep([outer], 5)
  {
    var outer, inner := RepeatEntry(k, 1, 1), RepeatEntry(l, 2, 1);
    assert Unwind([outer, inner], l) == [outer, inner] && Pop([outer, inner]) == [outer];
    ContinueInRepeat(env, [outer, inner], 3, 5, store, l, "", "");
    AfterDroppedLoop(env, [outer, inner], 5, store, l, Repeat, "");
  }
}
