/** Comments on o-word lines, and line numbers in front of them.  While blocks are skipped, a
    line with a comment is blanked, and a line that starts with a number is left, before its
    command is looked at; so either can change what an o-word does.  Both are called comments
    below. */
module FlowComments {
  import opened Flowcontrol
  import opened FlowPrograms
  import opened FlowRefinement
  import opened FlowMeaning

  /** The line without its comment. */
  function Bare(line: Line): Line {
    if line.Noted? then OWord(line.oLabel, line.op, line.expr) else line
  }

  function BareLines(lines: seq<Line>): (s: seq<Line>)
    ensures |s| == |lines| && forall i :: 0 <= i < |lines| ==> s[i] == Bare(lines[i])
  {
    seq(|lines|, i requires 0 <= i < |lines| => Bare(lines[i]))
  }

  /** The o-words that have something to do while the entry `t` is skipping: they end it, start
      another of its branches, or are refused as no commands. */
  predicate Acts<S>(env: Env<S>, t: Entry, store: S, l: nat, op: Op, expr: string) {
    op == Unknown ||
    (l == t.oLabel &&
     match op
     case EndIf => t.op in {If, ElseIf, Else}
     case Else => t.op in {If, ElseIf} && !t.handled
     case ElseIf => t.op in {If, ElseIf} && !t.handled && env.eval(expr, store) != Val(0.0)
     case EndRepeat => t.op == Repeat
     case _ => false)
  }

  /** The comment on this line hides a command that has something to do. */
  predicate Hides<S>(env: Env<S>, line: Line, m: Machine<S>) {
    line.Noted? && TopSkips(m.context) && Acts(env, Top(m.context), m.world.store, line.oLabel, line.op, line.expr)
  }

  /** One line, in any state of any run: its comment changes what it does exactly when it hides
      a command that has something to do. */
  lemma CommentMatters<S>(env: Env<S>, line: Line, m: Machine<S>)
    requires Sound(m)
    ensures Step(env, line, m) == Step(env, Bare(line), m) <==> !Hides(env, line, m)
  {
    if line.Noted? && m.skip {
      assert m.context == Pop(m.context) + [Top(m.context)];
      assert m.world.trace + [] == m.world.trace;
    }
  }

  /** Within `fuel` lines, the run of a file without its comments comes to a line whose comment
      would hide it. */
  predicate Hidden<S>(env: Env<S>, lines: seq<Line>, m: Machine<S>, fuel: nat)
    decreases fuel
  {
    m.pos < |lines| && fuel > 0 &&
    var at := m.(pos := m.pos + 1);
    var (m', status) := Step(env, Bare(lines[m.pos]), at);
    Hides(env, lines[m.pos], at) || (status == Ok && Hidden(env, lines, m', fuel - 1))
  }

  lemma {:induction false} UnhiddenRunsAlike<S>(env: Env<S>, lines: seq<Line>, m: Machine<S>, fuel: nat, less: nat)
    requires Sound(m) && !Hidden(env, lines, m, fuel) && less <= fuel
    ensures Run(env, lines, m, less) == Run(env, BareLines(lines), m, less)
    decreases fuel
  {
    hide Step;
    hide Hides;
    if m.pos < |lines| && less > 0 {
      var at := m.(pos := m.pos + 1);
      CommentMatters(env, lines[m.pos], at);
      StepKeepsSound(env, Bare(lines[m.pos]), at);
      var (m', status) := Step(env, Bare(lines[m.pos]), at);
      if status == Ok {
        UnhiddenRunsAlike(env, lines, m', fuel - 1, less - 1);
      }
    }
  }

  /** The number of lines after which the two runs differ. */
  lemma {:induction false} HiddenRunsDiffer<S>(env: Env<S>, lines: seq<Line>, m: Machine<S>, fuel: nat)
    returns (less: nat)
    requires Sound(m) && Hidden(env, lines, m, fuel)
    ensures less <= fuel && Run(env, lines, m, less) != Run(env, BareLines(lines), m, less)
    decreases fuel
  {
    hide Step;
    hide Hides;
    var at := m.(pos := m.pos + 1);
    CommentMatters(env, lines[m.pos], at);
    if Hides(env, lines[m.pos], at) {
      less := 1;
      RunStep(env, lines, m, 1);
      RunStep(env, BareLines(lines), m, 1);
      var a, b := Step(env, lines[m.pos], at), Step(env, Bare(lines[m.pos]), at);
      OneLineResult(env, lines, a.0);
      OneLineResult(env, BareLines(lines), b.0);
      assert a != b;
    } else {
      StepKeepsSound(env, Bare(lines[m.pos]), at);
      var n := HiddenRunsDiffer(env, lines, Step(env, Bare(lines[m.pos]), at).0, fuel - 1);
      less := n + 1;
      RunStep(env, lines, m, less);
      RunStep(env, BareLines(lines), m, less);
    }
  }

  lemma OneLineResult<S>(env: Env<S>, lines: seq<Line>, m: Machine<S>)
    ensures Run(env, lines, m, 0) == if m.pos >= |lines| then Finished(m) else Timeout(m)
  {}

  /** Any file, structured or not: its comments change nothing in its run, however many of its
      lines are read, exactly when none is met that hides a command with something to do. */
  lemma CommentsMatter<S>(env: Env<S>, lines: seq<Line>, m: Machine<S>, fuel: nat)
    requires Sound(m)
    ensures (forall n :: 0 <= n <= fuel ==> Run(env, lines, m, n) == Run(env, BareLines(lines), m, n))
            <==> !Hidden(env, lines, m, fuel)
  {
    hide Run;
    hide Hidden;
    if Hidden(env, lines, m, fuel) {
      var n := HiddenRunsDiffer(env, lines, m, fuel);
    } else {
      forall n | 0 <= n <= fuel ensures Run(env, lines, m, n) == Run(env, BareLines(lines), m, n) {
        UnhiddenRunsAlike(env, lines, m, fuel, n);
      }
    }
  }

  /** No ELSEIF, ELSE, ENDIF, ENDREPEAT or unknown command carries a comment. */
  predicate SafelyNoted(lines: seq<Line>) {
    forall line <- lines :: line.Noted? ==> line.op !in {ElseIf, Else, EndIf, EndRepeat, Unknown}
  }

  lemma {:induction false} SafelyNotedIsNotHidden<S>(env: Env<S>, lines: seq<Line>, m: Machine<S>, fuel: nat)
    requires SafelyNoted(lines)
    ensures !Hidden(env, lines, m, fuel)
    decreases fuel
  {
    hide Step;
    if m.pos < |lines| && fuel > 0 {
      assert lines[m.pos] in lines;
      SafelyNotedIsNotHidden(env, lines, Step(env, Bare(lines[m.pos]), m.(pos := m.pos + 1)).0, fuel - 1);
    }
  }

  /** A file that spells a well-scoped program with comments anywhere on its lines: while none
      met hides a command with something to do, it ends as the program does; and that is so
      for every run when no ELSEIF, ELSE, ENDIF or ENDREPEAT carries one. */
  lemma CommentedFileRunsProgram<S>(env: Env<S>, lines: seq<Line>, p: Prog, w: World<S>, fuel: nat)
    requires Scoped(p, {}) && BareLines(lines) == Flatten(p)
    requires SafelyNoted(lines) || !Hidden(env, lines, Begin(w), fuel)
    ensures var r := Run(env, lines, Begin(w), fuel);
            var ideal := Exec(env, Ideal, p, false, w, fuel);
            && Ends(env, Flatten(p), r, Exec(env, Coded, p, false, w, fuel))
            && (Completes(r) <==> ideal.Done? && Trips(env, p, false, w, fuel) == Smooth)
  {
    hide Run;
    hide Exec;
    hide Trips;
    hide Hidden;
    if SafelyNoted(lines) {
      SafelyNotedIsNotHidden(env, lines, Begin(w), fuel);
    }
    UnhiddenRunsAlike(env, lines, Begin(w), fuel, fuel);
    FileRunsProgram(env, p, w, fuel);
    FileRunsIdealProgram(env, p, w, fuel);
  }

  /** With a comment on its ENDIF, an IF that fails its test swallows the rest of the file, if
      no other o-word there is free of comments and every plain line can be read. */
  lemma CommentedEndIfSwallowsTheFile<S>(env: Env<S>, l: nat, c: string, rest: seq<Line>, w: World<S>, fuel: nat)
    requires env.eval(c, w.store) == Val(0.0)
    requires forall line <- rest :: line.Noted? || (line.Plain? && env.peek(line.text, w.store) == Ok)
    ensures var lines := [OWord(l, If, c), Noted(l, EndIf, "")] + rest;
            && (fuel >= 2 ==> Hidden(env, lines, Begin(w), fuel))
            && var r := Run(env, lines, Begin(w), fuel);
               !r.Aborted? && r.m.world == w && (r.Finished? ==> r.m.context == [IfEntry(l, false)])
  {
    hide Run;
    hide Flow;
    hide Pass;
    hide Unreads;
    var tail := [Noted(l, EndIf, "")] + rest;
    var lines := [OWord(l, If, c)] + tail;
    assert lines == [OWord(l, If, c), Noted(l, EndIf, "")] + rest;
    IfLine(env, [], {}, 1, w.store, l, c);
    assert [] + [IfEntry(l, false)] == [IfEntry(l, false)];
    OneLine(env, lines, Begin(w), lines[0], Keep([IfEntry(l, false)], 1), fuel);
    var m := Machine([IfEntry(l, false)], 1, true, w);
    if fuel > 0 {
      assert Step(env, lines[0], Begin(w).(pos := 1)) == (m, Ok) by { assert w.trace + [] == w.trace; }
      SkippedLines(env, lines, m, tail, fuel - 1);
      PassReads(env, tail, w, fuel - 1);
      OneLineResult(env, lines, m.(pos := |lines|));
      if fuel - 1 >= |tail| {
        RunEnds(env, lines, m.(pos := |lines|), fuel - 1 - |tail|);
      }
    }
  }
}
