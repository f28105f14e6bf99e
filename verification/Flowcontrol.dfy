/** O-word flow control: a stack machine that reads one line at a time and loops by
    seeking its file back.  `Flow` is the command dispatcher as coded; `Interpreter` is the
    same dispatcher updating its stack in place; `Run` drives it over a file.  */
module Flowcontrol {

  datatype Op =
    | If | ElseIf | Else | EndIf | Do | Continue | Break | While | EndWhile
    | Repeat | EndRepeat | Return | RaiseAlarm | RaiseError
    | Unknown  // a name that is no command

  /** `Undefined` is the top() of an empty std::stack. */
  datatype Status = Ok | SyntaxError | NotExecutingMacro | Other(code: int) | Undefined

  type Failure = s: Status | s != Ok witness SyntaxError

  datatype Value = Val(v: real) | Bad(status: Failure)

  /** What lies outside the dispatcher: the expression evaluator, the execution of a plain
      line, the reading of a skipped plain line's first word (Ok when the line is blank or
      carries a comment), and C++'s conversions of a float to a repeat count and to an error
      code. */
  datatype Env<!S> = Env(
    eval: (string, S) -> Value,
    exec: (string, S) -> (S, Status),
    peek: (string, S) -> Status,
    toCount: real -> nat,
    toStatus: real -> Status)

  datatype Event = Ran(text: string) | Alarm(code: real)

  datatype World<S> = World(store: S, trace: seq<Event>)

  datatype Entry = Entry(
    oLabel: nat, op: Op, filePos: nat, expr: string, repeats: nat,
    skip: bool, handled: bool, brk: bool)

  /** The context stack; its top is the last element. */
  type Context = seq<Entry>

  /** A line of a file.  `Noted` is an o-word line that also carries a comment, or that starts
      with another word such as a line number; while blocks are skipped, either way the command
      is not reached. */
  datatype Line =
    | Plain(text: string)
    | OWord(oLabel: nat, op: Op, expr: string)
    | Noted(oLabel: nat, op: Op, expr: string)

  function Top(ctx: Context): Entry
    requires ctx != []
  {
    ctx[|ctx| - 1]
  }

  function Pop(ctx: Context): Context
    requires ctx != []
  {
    ctx[..|ctx| - 1]
  }

  function SetTop(ctx: Context, e: Entry): Context
    requires ctx != []
  {
    Pop(ctx) + [e]
  }

  predicate TopSkips(ctx: Context) {
    ctx != [] && Top(ctx).skip
  }

  predicate TopIs(ctx: Context, ops: set<Op>) {
    ctx != [] && Top(ctx).op in ops
  }

  /** Pops entries until one carries `oLabel`; empties the stack when none does. */
  function Unwind(ctx: Context, oLabel: nat): Context {
    if ctx == [] || Top(ctx).oLabel == oLabel then ctx else Unwind(Pop(ctx), oLabel)
  }

  /** What one o-word does: the new stack, the new file position, the status and an alarm. */
  datatype Effect = Effect(context: Context, pos: nat, status: Status, alarm: seq<Event>)

  function Keep(ctx: Context, pos: nat): Effect {
    Effect(ctx, pos, Ok, [])
  }

  function Fail(ctx: Context, pos: nat, status: Status): Effect {
    Effect(ctx, pos, status, [])
  }

  /** The ENDREPEAT and CONTINUE decrement: loop again or drop the entry. */
  function CountDown(ctx: Context, pos: nat): Effect
    requires ctx != []
  {
    var t := Top(ctx);
    if t.repeats > 1 then Keep(SetTop(ctx, t.(repeats := t.repeats - 1)), t.filePos) else Keep(Pop(ctx), pos)
  }

  /** The ENDWHILE and CONTINUE test of a WHILE entry's saved expression. */
  function Retest<S>(env: Env<S>, ctx: Context, pos: nat, store: S): Effect
    requires ctx != []
  {
    var t := Top(ctx);
    if t.skip then Keep(Pop(ctx), pos) else
    match env.eval(t.expr, store)
    case Bad(e) => Fail(ctx, pos, e)
    case Val(v) => if v != 0.0 then Keep(ctx, t.filePos) else Keep(Pop(ctx), pos)
  }

  /** The switch of flowcontrol().  `pos` is the file position just after the o-word's line. */
  function Dispatch<S>(env: Env<S>, active: bool, ctx: Context, pos: nat, store: S,
                       oLabel: nat, op: Op, expr: string): Effect
  {
    var skipping := TopSkips(ctx);
    match op
    case If =>
      if skipping then Keep(ctx, pos) else
      (match env.eval(expr, store)
       case Bad(e) => Fail(ctx, pos, e)
       case Val(v) => Keep(ctx + [Entry(oLabel, If, 0, "", 0, v == 0.0, v != 0.0, false)], pos))
    case ElseIf =>
      if TopIs(ctx, {If, ElseIf}) then
        var t := Top(ctx);
        if oLabel != t.oLabel then Keep(ctx, pos)
        else if t.handled then Keep(SetTop(ctx, t.(skip := true)), pos)
        else match env.eval(expr, store)
          case Bad(e) => Fail(ctx, pos, e)
          case Val(v) =>
            if v == 0.0 then Keep(SetTop(ctx, t.(skip := true)), pos)
            else Keep(SetTop(ctx, t.(skip := false, op := ElseIf, handled := true)), pos)
      else if skipping then Keep(ctx, pos) else Fail(ctx, pos, SyntaxError)
    case Else =>
      if TopIs(ctx, {If, ElseIf}) then
        var t := Top(ctx);
        if oLabel != t.oLabel then Keep(ctx, pos)
        else if t.handled then Keep(SetTop(ctx, t.(skip := true)), pos)
        else Keep(SetTop(ctx, t.(skip := false, op := Else)), pos)
      else if skipping then Keep(ctx, pos) else Fail(ctx, pos, SyntaxError)
    case EndIf =>
      if TopIs(ctx, {If, ElseIf, Else}) then
        if oLabel == Top(ctx).oLabel then Keep(Pop(ctx), pos) else Keep(ctx, pos)
      else if skipping then Keep(ctx, pos) else Fail(ctx, pos, SyntaxError)
    case Do =>
      if !active then Fail(ctx, pos, NotExecutingMacro)
      else if skipping then Keep(ctx, pos)
      else Keep(ctx + [Entry(oLabel, Do, pos, "", 0, false, false, false)], pos)
    case While =>
      if !active then Fail(ctx, pos, NotExecutingMacro)
      else if ctx != [] && Top(ctx).brk then
        if Top(ctx).op == Do && oLabel == Top(ctx).oLabel then Keep(Pop(ctx), pos) else Keep(ctx, pos)
      else if skipping then Keep(ctx, pos)
      else (match env.eval(expr, store)
        case Bad(e) => Fail(ctx, pos, e)
        case Val(v) =>
          if TopIs(ctx, {Do}) then
            if oLabel != Top(ctx).oLabel then Keep(ctx, pos)
            else if v != 0.0 then Keep(ctx, Top(ctx).filePos)
            else Keep(Pop(ctx), pos)
          else if v == 0.0 then Keep(ctx + [Entry(oLabel, While, 0, "", 0, true, false, false)], pos)
          else Keep(ctx + [Entry(oLabel, While, pos, expr, 0, false, false, false)], pos))
    case EndWhile =>
      if !active then Fail(ctx, pos, NotExecutingMacro)
      else if TopIs(ctx, {While}) then
        if !skipping && oLabel == Top(ctx).oLabel then Retest(env, ctx, pos, store) else Keep(ctx, pos)
      else if skipping then Keep(ctx, pos) else Fail(ctx, pos, SyntaxError)
    case Repeat =>
      if !active then Fail(ctx, pos, NotExecutingMacro)
      else if skipping then Keep(ctx, pos)
      else (match env.eval(expr, store)
        case Bad(e) => Fail(ctx, pos, e)
        case Val(v) =>
          if v == 0.0 then Keep(ctx + [Entry(oLabel, Repeat, 0, "", 0, true, false, false)], pos)
          else Keep(ctx + [Entry(oLabel, Repeat, pos, "", env.toCount(v), false, false, false)], pos))
    case EndRepeat =>
      if !active then Fail(ctx, pos, NotExecutingMacro)
      else if TopIs(ctx, {Repeat}) then
        if oLabel == Top(ctx).oLabel then CountDown(ctx, pos) else Keep(ctx, pos)
      else if skipping then Keep(ctx, pos) else Fail(ctx, pos, SyntaxError)
    case Break =>
      // The emptiness test that recomputes last_op is inverted: a non-empty stack gives
      // Op_NoOp, which no loop kind matches.
      if !active then Fail(ctx, pos, NotExecutingMacro)
      else if skipping then Keep(ctx, pos)
      else if Unwind(ctx, oLabel) == [] then Fail([], pos, Undefined)
      else Fail(Unwind(ctx, oLabel), pos, SyntaxError)
    case Continue =>
      if !active then Fail(ctx, pos, NotExecutingMacro)
      else if skipping then Keep(ctx, pos)
      else
        var c := Unwind(ctx, oLabel);
        if c == [] then Fail([], pos, Undefined)
        else (match Top(c).op
          case Repeat => CountDown(c, pos)
          case Do => Keep(c, Top(c).filePos)
          case While => Retest(env, c, pos, store)
          case _ => Fail(c, pos, SyntaxError))
    case RaiseAlarm =>
      if skipping then Keep(ctx, pos) else
      (match env.eval(expr, store)
       case Bad(_) => Keep(ctx, pos)
       case Val(v) => Effect(ctx, pos, Ok, [Alarm(v)]))
    case RaiseError =>
      if skipping then Keep(ctx, pos) else
      (match env.eval(expr, store)
       case Bad(_) => Keep(ctx, pos)
       case Val(v) => Fail(ctx, pos, env.toStatus(v)))
    case Return =>
      if active then Keep(ctx, pos) else Fail(ctx, pos, NotExecutingMacro)
    case Unknown => Fail(ctx, pos, SyntaxError)
  }

  /** flowcontrol(): the switch, then the common exit that empties the stack on any error; but
      a name that is no command is refused before all that, skipped or not. */
  function Flow<S>(env: Env<S>, active: bool, ctx: Context, pos: nat, store: S,
                   oLabel: nat, op: Op, expr: string): Effect
  {
    var e := Dispatch(env, active, ctx, pos, store, oLabel, op, expr);
    if e.status == Ok || op == Unknown then e else e.(context := [])
  }

  /** The state left by a command in progress agrees with effect `e`; after an error the
      stack is about to be emptied, so its contents are not compared. */
  predicate Matches(e: Effect, ctx: Context, pos: nat, status: Status) {
    status == e.status && pos == e.pos && (status == Ok ==> ctx == e.context)
  }

  // ----- The dispatcher in place ---------------------------------------------------------

  class Interpreter<S> {
    var context: Context
    var skipBlocks: bool
    var pos: nat
    var trace: seq<Event>

    constructor ()
      ensures context == [] && !skipBlocks && pos == 0 && trace == []
    {
      context, skipBlocks, pos, trace := [], false, 0, [];
    }

    method Push(oLabel: nat, op: Op, skip: bool)
      modifies this`context
      ensures context == old(context) + [Entry(oLabel, op, 0, "", 0, skip, false, false)]
    {
      context := context + [Entry(oLabel, op, 0, "", 0, skip, false, false)];
    }

    method Pull() returns (pulled: bool)
      modifies this`context
      ensures pulled == (old(context) != [])
      ensures context == if pulled then Pop(old(context)) else []
    {
      pulled := context != [];
      if pulled {
        context := Pop(context);
      }
    }

    /** flowcontrol_init() */
    method Init()
      modifies this`context
      ensures context == []
    {
      while context != []
        decreases |context|
      {
        var _ := Pull();
      }
    }

    /** The search loop of BREAK and CONTINUE, without the read of an empty stack's top. */
    method PullTo(oLabel: nat)
      modifies this`context
      ensures context == Unwind(old(context), oLabel)
    {
      while context != [] && Top(context).oLabel != oLabel
        invariant Unwind(context, oLabel) == Unwind(old(context), oLabel)
        decreases |context|
      {
        var _ := Pull();
      }
    }

    method CountDownTop()
      requires context != []
      modifies this`context, this`pos
      ensures Keep(context, pos) == CountDown(old(context), old(pos))
    {
      var t := Top(context);
      if t.repeats != 0 {
        context := SetTop(context, t.(repeats := t.repeats - 1));
      }
      if t.repeats != 0 && Top(context).repeats != 0 {
        pos := t.filePos;
      } else {
        var _ := Pull();
      }
    }

    method RetestTop(env: Env<S>, store: S) returns (status: Status)
      requires context != []
      modifies this`context, this`pos
      ensures status == Retest(env, old(context), old(pos), store).status
      ensures status == Ok ==> Keep(context, pos) == Retest(env, old(context), old(pos), store)
      ensures status != Ok ==> pos == old(pos)
    {
      status := Ok;
      var t := Top(context);
      if !t.skip {
        match env.eval(t.expr, store) {
          case Bad(e) => status := e;
          case Val(v) =>
            context := SetTop(context, t.(skip := v == 0.0));
            assert v != 0.0 ==> context == old(context);
            if v != 0.0 {
              pos := t.filePos;
            }
        }
      }
      if Top(context).skip {
        var _ := Pull();
      }
    }

    /** The IF family: these commands never seek. */
    method ExecuteIf(env: Env<S>, store: S, oLabel: nat, op: Op, expr: string) returns (status: Status)
      requires op in {If, ElseIf, Else, EndIf}
      modifies this`context
      ensures Matches(Dispatch(env, true, old(context), pos, store, oLabel, op, expr), context, pos, status)
    {
      status := Ok;
      if op == If {
        if !TopSkips(context) {
          match env.eval(expr, store) {
            case Bad(e) => status := e;
            case Val(v) =>
              Push(oLabel, If, v == 0.0);
              context := SetTop(context, Top(context).(handled := v != 0.0));
          }
        }
      } else if TopIs(context, {If, ElseIf}) || (op == EndIf && TopIs(context, {Else})) {
        if oLabel == Top(context).oLabel {
          match op {
            case ElseIf => status := ElseIfTop(env, store, expr);
            case Else =>
              context := SetTop(context, Top(context).(skip := Top(context).handled));
              if !Top(context).skip {
                context := SetTop(context, Top(context).(op := Else));
              }
            case EndIf => var _ := Pull();
          }
        }
      } else if !TopSkips(context) {
        status := SyntaxError;
      }
    }

    method ElseIfTop(env: Env<S>, store: S, expr: string) returns (status: Status)
      requires TopIs(context, {If, ElseIf})
      modifies this`context
      ensures Matches(Dispatch(env, true, old(context), pos, store, Top(old(context)).oLabel, ElseIf, expr),
                      context, pos, status)
    {
      status := Ok;
      context := SetTop(context, Top(context).(skip := Top(context).handled));
      if !Top(context).skip {
        match env.eval(expr, store) {
          case Bad(e) => status := e;
          case Val(v) =>
            context := SetTop(context, Top(context).(skip := v == 0.0));
            if !Top(context).skip {
              context := SetTop(context, Top(context).(op := ElseIf, handled := true));
            }
        }
      }
    }

    /** DO, WHILE and REPEAT: the commands that open a loop (WHILE also closes a DO). */
    method ExecuteOpen(env: Env<S>, store: S, oLabel: nat, op: Op, expr: string) returns (status: Status)
      requires op in {Do, While, Repeat}
      modifies this`context, this`pos
      ensures Matches(Dispatch(env, true, old(context), old(pos), store, oLabel, op, expr), context, pos, status)
    {
      status := Ok;
      if op == While && context != [] && Top(context).brk {
        if Top(context).op == Do && oLabel == Top(context).oLabel {
          var _ := Pull();
        }
      } else if TopSkips(context) {
      } else if op == Do {
        Push(oLabel, Do, false);
        context := SetTop(context, Top(context).(filePos := pos));
      } else {
        match env.eval(expr, store) {
          case Bad(e) => status := e;
          case Val(v) =>
            if op == While && TopIs(context, {Do}) {
              if oLabel == Top(context).oLabel {
                if v != 0.0 {
                  pos := Top(context).filePos;
                } else {
                  var _ := Pull();
                }
              }
            } else {
              Push(oLabel, op, v == 0.0);
              if v != 0.0 && op == While {
                context := SetTop(context, Top(context).(expr := expr, filePos := pos));
              } else if v != 0.0 {
                context := SetTop(context, Top(context).(filePos := pos, repeats := env.toCount(v)));
              }
            }
        }
      }
    }

    /** ENDWHILE, ENDREPEAT, BREAK and CONTINUE. */
    method ExecuteClose(env: Env<S>, store: S, oLabel: nat, op: Op, expr: string) returns (status: Status)
      requires op in {EndWhile, EndRepeat, Break, Continue}
      modifies this`context, this`pos
      ensures Matches(Dispatch(env, true, old(context), old(pos), store, oLabel, op, expr), context, pos, status)
    {
      status := Ok;
      if op in {Break, Continue} {
        if !TopSkips(context) {
          PullTo(oLabel);
          if context == [] {
            status := Undefined;
          } else if op == Break {
            status := SyntaxError;
          } else {
            match Top(context).op {
              case Repeat => CountDownTop();
              case Do => pos := Top(context).filePos;
              case While => status := RetestTop(env, store);
              case _ => status := SyntaxError;
            }
          }
        }
      } else if op == EndWhile && TopIs(context, {While}) {
        if !TopSkips(context) && oLabel == Top(context).oLabel {
          status := RetestTop(env, store);
        }
      } else if op == EndRepeat && TopIs(context, {Repeat}) {
        if oLabel == Top(context).oLabel {
          CountDownTop();
        }
      } else if !TopSkips(context) {
        status := SyntaxError;
      }
    }

    /** flowcontrol(), with `pos` already past the o-word's line. */
    method Execute(env: Env<S>, active: bool, store: S, oLabel: nat, op: Op, expr: string) returns (status: Status)
      modifies this
      ensures var e := Flow(env, active, old(context), old(pos), store, oLabel, op, expr);
              && context == e.context && pos == e.pos && status == e.status
              && trace == old(trace) + e.alarm
      ensures skipBlocks == if op == Unknown then old(skipBlocks) else TopSkips(context)
    {
      if op == Unknown {
        return SyntaxError;
      }
      status := Ok;
      match op {
        case If | ElseIf | Else | EndIf =>
          status := ExecuteIf(env, store, oLabel, op, expr);
        case Do | While | Repeat =>
          if active {
            status := ExecuteOpen(env, store, oLabel, op, expr);
          } else {
            status := NotExecutingMacro;
          }
        case EndWhile | EndRepeat | Break | Continue =>
          if active {
            status := ExecuteClose(env, store, oLabel, op, expr);
          } else {
            status := NotExecutingMacro;
          }
        case RaiseAlarm =>
          if !TopSkips(context) && env.eval(expr, store).Val? {
            trace := trace + [Alarm(env.eval(expr, store).v)];
          }
        case RaiseError =>
          if !TopSkips(context) && env.eval(expr, store).Val? {
            status := env.toStatus(env.eval(expr, store).v);
          }
        case Return =>
          if !active {
            status := NotExecutingMacro;
          }
      }
      if status != Ok {
        Init();
      }
      skipBlocks := TopSkips(context);
    }
  }
}
