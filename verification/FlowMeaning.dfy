/** What a file of o-words does, against the usual meaning of its program: where the code
    departs from that meaning, and exactly which runs complete. */
module FlowMeaning {
  import opened Flowcontrol
  import opened FlowPrograms
  import opened FlowRefinement

  // ----- Whole files -----------------------------------------------------------------------

  /** The machine before the first line of a file, with an empty stack. */
  function Begin<S>(w: World<S>): Machine<S> {
    Machine([], 0, false, w)
  }

  /** How the run of a whole file must end, given the outcome of its program. */
  ghost predicate Ends<S>(env: Env<S>, lines: seq<Line>, r: Result<S>, o: Outcome<S>) {
    match o
    case Done(w, _) => r == Finished(Machine([], |lines|, false, w))
    case OutOfFuel(w) => r.Timeout? && r.m.world == w
    case Failed(w, e) => r.Aborted? && r.status == e && r.m.world == w
    case Stuck(w) => r.m.world == w && StuckSkipping(env, lines, r)
  }

  /** A file holding exactly a well-scoped program, run from the start with an empty stack.
      Lines read are counted exactly, so the two also agree on divergence: for each `fuel`
      either both are still running with the same trace, or both have stopped alike. */
  lemma FileRunsProgram<S>(env: Env<S>, p: Prog, w: World<S>, fuel: nat)
    requires Scoped(p, {})
    ensures Ends(env, Flatten(p), Run(env, Flatten(p), Begin(w), fuel), Exec(env, Coded, p, false, w, fuel))
  {
    hide Exec;
    hide Step;
    assert Flatten(p)[0..|Flatten(p)|] == Flatten(p);
    SimProg(env, Flatten(p), p, {}, [], 0, w, fuel);
  }

  // ----- Where the code departs from the usual meaning -------------------------------------

  /** The first thing on the way of a program's usual meaning that the code treats otherwise:
      a WHILE reached with a zero first test, a WHILE reached directly in the body of a DO, or
      a skipped plain line whose first word cannot be read. */
  datatype Trip = Smooth | ZeroTest | InsideDo | Unreadable

  /** One of the first `n` lines fails when it is skipped: its first word cannot be read. */
  predicate Unreads<S>(env: Env<S>, lines: seq<Line>, store: S, n: nat) {
    exists i :: 0 <= i < |lines| && i < n && SkipStatus(env, lines[i], store) != Ok
  }

  function PassTrip<S>(env: Env<S>, lines: seq<Line>, store: S, fuel: nat): Trip {
    if Unreads(env, lines, store, fuel) then Unreadable else Smooth
  }

  /** What the usual run of a program meets within `fuel` lines. */
  function Trips<S>(env: Env<S>, p: Prog, inDo: bool, w: World<S>, fuel: nat): Trip
    decreases fuel, p, 0
  {
    match p
    case Nil => Smooth
    case Cons(s, t) =>
      var first := TripsStmt(env, s, inDo, w, fuel);
      var o := ExecStmt(env, Ideal, s, inDo, w, fuel);
      if first != Smooth || !o.Done? then first else Trips(env, t, inDo, o.w, o.fuel)
  }

  function TripsStmt<S>(env: Env<S>, s: Stmt, inDo: bool, w: World<S>, fuel: nat): Trip
    decreases fuel, s, 0
  {
    if fuel == 0 then Smooth else
    match s
    case Code(_) | AlarmStmt(_, _) | ErrorStmt(_, _) => Smooth
    case IfStmt(l, c, thn, rest) => TripsBranch(env, l, c, thn, rest, w, fuel)
    case RepeatStmt(l, c, body) =>
      (match env.eval(c, w.store)
       case Bad(_) => Smooth
       case Val(v) =>
         if v == 0.0 then PassTrip(env, Flatten(body) + [OWord(l, EndRepeat, "")], w.store, fuel - 1)
         else TripsRepeat(env, body, if env.toCount(v) == 0 then 1 else env.toCount(v), w, fuel - 1))
    case DoStmt(_, body, c) => TripsDo(env, body, c, w, fuel - 1)
    case WhileStmt(_, c, body) =>
      match env.eval(c, w.store)
      case Bad(_) => Smooth
      case Val(v) => if inDo then InsideDo else if v == 0.0 then ZeroTest else TripsWhile(env, body, c, w, fuel - 1)
  }

  /** An IF or ELSEIF line, its branch and what follows it. */
  function TripsBranch<S>(env: Env<S>, l: nat, c: string, body: Prog, rest: Chain, w: World<S>, fuel: nat): Trip
    requires fuel > 0
    decreases fuel, body, 1
  {
    match env.eval(c, w.store)
    case Bad(_) => Smooth
    case Val(v) =>
      if v != 0.0 then
        var first := Trips(env, body, false, w, fuel - 1);
        var o := Exec(env, Ideal, body, false, w, fuel - 1);
        if first != Smooth || !o.Done? then first else PassTrip(env, FlattenChain(l, rest), o.w.store, o.fuel)
      else if Unreads(env, Flatten(body), w.store, fuel - 1) then Unreadable
      else if fuel - 1 < |Flatten(body)| then Smooth
      else TripsChain(env, l, rest, w, fuel - 1 - |Flatten(body)|)
  }

  function TripsChain<S>(env: Env<S>, l: nat, c: Chain, w: World<S>, fuel: nat): Trip
    decreases fuel, c, 0
  {
    if fuel == 0 then Smooth else
    match c
    case EndChain => Smooth
    case ElseChain(body) => Trips(env, body, false, w, fuel - 1)
    case ElseIfChain(cond, body, rest) => TripsBranch(env, l, cond, body, rest, w, fuel)
  }

  function TripsRepeat<S>(env: Env<S>, body: Prog, n: nat, w: World<S>, fuel: nat): Trip
    requires n > 0
    decreases fuel, body, 1
  {
    var first := Trips(env, body, false, w, fuel);
    var o := Exec(env, Ideal, body, false, w, fuel);
    if first != Smooth || !o.Done? || o.fuel == 0 || n == 1 then first
    else TripsRepeat(env, body, n - 1, o.w, o.fuel - 1)
  }

  function TripsDo<S>(env: Env<S>, body: Prog, c: string, w: World<S>, fuel: nat): Trip
    decreases fuel, body, 1
  {
    var first := Trips(env, body, true, w, fuel);
    var o := Exec(env, Ideal, body, true, w, fuel);
    if first != Smooth || !o.Done? || o.fuel == 0 || !Holds(env, c, o.w.store) then first
    else TripsDo(env, body, c, o.w, o.fuel - 1)
  }

  function TripsWhile<S>(env: Env<S>, body: Prog, c: string, w: World<S>, fuel: nat): Trip
    decreases fuel, body, 1
  {
    var first := Trips(env, body, false, w, fuel);
    var o := Exec(env, Ideal, body, false, w, fuel);
    if first != Smooth || !o.Done? || o.fuel == 0 || !Holds(env, c, o.w.store) then first
    else TripsWhile(env, body, c, o.w, o.fuel - 1)
  }

  /** The condition can be evaluated and is not zero. */
  predicate Holds<S>(env: Env<S>, c: string, store: S) {
    env.eval(c, store).Val? && env.eval(c, store).v != 0.0
  }

  lemma {:induction false} PassReads<S>(env: Env<S>, lines: seq<Line>, w: World<S>, fuel: nat)
    ensures var o := Pass(env, Coded, lines, w, fuel);
            if Unreads(env, lines, w.store, fuel) then o.Failed? else o == Spend(w, fuel, |lines|)
    decreases |lines|
  {
    if lines != [] && fuel > 0 {
      PassReads(env, lines[1..], w, fuel - 1);
      if i :| 0 <= i < |lines| && i < fuel && SkipStatus(env, lines[i], w.store) != Ok {
        assert i > 0 ==> lines[1..][i - 1] == lines[i];
      }
    }
  }

  /** What the coded outcome is, given the usual one and what the usual run meets. */
  predicate Explains<S(==)>(trip: Trip, coded: Outcome<S>, ideal: Outcome<S>) {
    && !ideal.Stuck?
    && match trip
       case Smooth => coded == ideal
       case ZeroTest => coded.Stuck?
       case InsideDo => !coded.Done?
       case Unreadable => coded.Failed?
  }

  /** For every program: what is coded is the usual meaning when nothing trips it, sticks at a
      WHILE with a zero first test, fails at a skipped line that cannot be read, and never
      completes once a WHILE is reached directly in a DO. */
  lemma {:induction false} CodedIsIdeal<S>(env: Env<S>, p: Prog, inDo: bool, w: World<S>, fuel: nat)
    ensures Explains(Trips(env, p, inDo, w, fuel),
                     Exec(env, Coded, p, inDo, w, fuel), Exec(env, Ideal, p, inDo, w, fuel))
    decreases fuel, p, 0
  {
    if p.Cons? {
      CodedIsIdealStmt(env, p.head, inDo, w, fuel);
      var i := ExecStmt(env, Ideal, p.head, inDo, w, fuel);
      if i.Done? {
        CodedIsIdeal(env, p.tail, inDo, i.w, i.fuel);
      }
    }
  }

  lemma {:induction false} CodedIsIdealStmt<S>(env: Env<S>, s: Stmt, inDo: bool, w: World<S>, fuel: nat)
    ensures Explains(TripsStmt(env, s, inDo, w, fuel),
                     ExecStmt(env, Coded, s, inDo, w, fuel), ExecStmt(env, Ideal, s, inDo, w, fuel))
    decreases fuel, s, 0
  {
    if fuel > 0 {
      match s
      case Code(_) | AlarmStmt(_, _) | ErrorStmt(_, _) =>
      case IfStmt(l, c, thn, rest) => CodedIsIdealBranch(env, l, c, thn, rest, w, fuel);
      case RepeatStmt(l, c, body) =>
        PassReads(env, Flatten(body) + [OWord(l, EndRepeat, "")], w, fuel - 1);
        if Holds(env, c, w.store) {
          var k := env.toCount(env.eval(c, w.store).v);
          CodedIsIdealRepeat(env, body, if k == 0 then 1 else k, w, fuel - 1);
        }
      case DoStmt(_, body, c) => CodedIsIdealDo(env, body, c, w, fuel - 1);
      case WhileStmt(_, c, body) => CodedIsIdealWhile(env, body, c, w, fuel - 1);
    }
  }

  lemma {:induction false} CodedIsIdealBranch<S>(env: Env<S>, l: nat, c: string, body: Prog, rest: Chain,
                                                 w: World<S>, fuel: nat)
    requires fuel > 0
    ensures Explains(TripsBranch(env, l, c, body, rest, w, fuel),
                     ExecBranch(env, Coded, l, c, body, rest, w, fuel),
                     ExecBranch(env, Ideal, l, c, body, rest, w, fuel))
    decreases fuel, body, 1
  {
    hide Pass;
    hide Unreads;
    hide Exec;
    hide ExecChain;
    hide Trips;
    hide TripsChain;
    hide FlattenChain;
    if Holds(env, c, w.store) {
      CodedIsIdeal(env, body, false, w, fuel - 1);
      var o := Exec(env, Ideal, body, false, w, fuel - 1);
      if o.Done? {
        PassReads(env, FlattenChain(l, rest), o.w, o.fuel);
      }
    } else {
      PassReads(env, Flatten(body), w, fuel - 1);
      if fuel - 1 >= |Flatten(body)| {
        CodedIsIdealChain(env, l, rest, w, fuel - 1 - |Flatten(body)|);
      }
    }
  }

  lemma {:induction false} CodedIsIdealChain<S>(env: Env<S>, l: nat, c: Chain, w: World<S>, fuel: nat)
    ensures Explains(TripsChain(env, l, c, w, fuel),
                     ExecChain(env, Coded, l, c, w, fuel), ExecChain(env, Ideal, l, c, w, fuel))
    decreases fuel, c, 0
  {
    if fuel > 0 {
      match c
      case EndChain =>
      case ElseChain(body) => CodedIsIdeal(env, body, false, w, fuel - 1);
      case ElseIfChain(cond, body, rest) => CodedIsIdealBranch(env, l, cond, body, rest, w, fuel);
    }
  }

  lemma {:induction false} CodedIsIdealRepeat<S>(env: Env<S>, body: Prog, n: nat, w: World<S>, fuel: nat)
    requires n > 0
    ensures Explains(TripsRepeat(env, body, n, w, fuel),
                     RepeatLoop(env, Coded, body, n, w, fuel), RepeatLoop(env, Ideal, body, n, w, fuel))
    decreases fuel, body, 1
  {
    CodedIsIdeal(env, body, false, w, fuel);
    var o := Exec(env, Ideal, body, false, w, fuel);
    if o.Done? && o.fuel > 0 && n > 1 {
      CodedIsIdealRepeat(env, body, n - 1, o.w, o.fuel - 1);
    }
  }

  lemma {:induction false} CodedIsIdealDo<S>(env: Env<S>, body: Prog, c: string, w: World<S>, fuel: nat)
    ensures Explains(TripsDo(env, body, c, w, fuel),
                     DoLoop(env, Coded, body, c, w, fuel), DoLoop(env, Ideal, body, c, w, fuel))
    decreases fuel, body, 1
  {
    CodedIsIdeal(env, body, true, w, fuel);
    var o := Exec(env, Ideal, body, true, w, fuel);
    if o.Done? && o.fuel > 0 && Holds(env, c, o.w.store) {
      CodedIsIdealDo(env, body, c, o.w, o.fuel - 1);
    }
  }

  lemma {:induction false} CodedIsIdealWhile<S>(env: Env<S>, body: Prog, c: string, w: World<S>, fuel: nat)
    ensures Explains(TripsWhile(env, body, c, w, fuel),
                     WhileLoop(env, Coded, body, c, w, fuel), WhileLoop(env, Ideal, body, c, w, fuel))
    decreases fuel, body, 1
  {
    CodedIsIdeal(env, body, false, w, fuel);
    var o := Exec(env, Ideal, body, false, w, fuel);
    if o.Done? && o.fuel > 0 && Holds(env, c, o.w.store) {
      CodedIsIdealWhile(env, body, c, o.w, o.fuel - 1);
    }
  }

  // ----- More fuel -------------------------------------------------------------------------

  /** With `k` more lines to spend, a usual outcome that was complete is the same outcome. */
  predicate Longer<S(==)>(trip: Trip, o: Outcome<S>, trip': Trip, o': Outcome<S>, k: nat) {
    && (o.Done? ==> o' == Done(o.w, o.fuel + k) && trip' == trip)
    && (trip != Smooth ==> trip' == trip)
  }

  lemma {:induction false} MoreFuel<S>(env: Env<S>, p: Prog, inDo: bool, w: World<S>, fuel: nat, k: nat)
    ensures Longer(Trips(env, p, inDo, w, fuel), Exec(env, Ideal, p, inDo, w, fuel),
                   Trips(env, p, inDo, w, fuel + k), Exec(env, Ideal, p, inDo, w, fuel + k), k)
    decreases fuel, p, 0
  {
    if p.Cons? {
      MoreFuelStmt(env, p.head, inDo, w, fuel, k);
      var o := ExecStmt(env, Ideal, p.head, inDo, w, fuel);
      if o.Done? {
        MoreFuel(env, p.tail, inDo, o.w, o.fuel, k);
      }
    }
  }

  lemma {:induction false} MoreFuelStmt<S>(env: Env<S>, s: Stmt, inDo: bool, w: World<S>, fuel: nat, k: nat)
    ensures Longer(TripsStmt(env, s, inDo, w, fuel), ExecStmt(env, Ideal, s, inDo, w, fuel),
                   TripsStmt(env, s, inDo, w, fuel + k), ExecStmt(env, Ideal, s, inDo, w, fuel + k), k)
    decreases fuel, s, 0
  {
    hide TripsBranch;
    hide ExecBranch;
    hide Unreads;
    hide Pass;
    if fuel > 0 {
      match s
      case Code(_) | AlarmStmt(_, _) | ErrorStmt(_, _) =>
      case IfStmt(l, c, thn, rest) => MoreFuelBranch(env, l, c, thn, rest, w, fuel, k);
      case RepeatStmt(l, c, body) =>
        MoreFuelPass(env, Flatten(body) + [OWord(l, EndRepeat, "")], w, fuel - 1, k);
        if Holds(env, c, w.store) {
          var n := env.toCount(env.eval(c, w.store).v);
          MoreFuelRepeat(env, body, if n == 0 then 1 else n, w, fuel - 1, k);
        }
      case DoStmt(_, body, c) => MoreFuelDo(env, body, c, w, fuel - 1, k);
      case WhileStmt(_, c, body) => MoreFuelWhile(env, body, c, w, fuel - 1, k);
    }
  }

  lemma MoreFuelPass<S>(env: Env<S>, lines: seq<Line>, w: World<S>, fuel: nat, k: nat)
    ensures Longer(PassTrip(env, lines, w.store, fuel), Spend(w, fuel, |lines|),
                   PassTrip(env, lines, w.store, fuel + k), Spend(w, fuel + k, |lines|), k)
  {}

  lemma {:induction false} MoreFuelBranch<S>(env: Env<S>, l: nat, c: string, body: Prog, rest: Chain,
                                             w: World<S>, fuel: nat, k: nat)
    requires fuel > 0
    ensures Longer(TripsBranch(env, l, c, body, rest, w, fuel), ExecBranch(env, Ideal, l, c, body, rest, w, fuel),
                   TripsBranch(env, l, c, body, rest, w, fuel + k),
                   ExecBranch(env, Ideal, l, c, body, rest, w, fuel + k), k)
    decreases fuel, body, 1
  {
    hide Pass;
    hide Unreads;
    hide Exec;
    hide ExecChain;
    hide Trips;
    hide TripsChain;
    hide FlattenChain;
    if Holds(env, c, w.store) {
      MoreFuel(env, body, false, w, fuel - 1, k);
      var o := Exec(env, Ideal, body, false, w, fuel - 1);
      if o.Done? {
        MoreFuelPass(env, FlattenChain(l, rest), o.w, o.fuel, k);
      }
    } else {
      MoreFuelPass(env, Flatten(body), w, fuel - 1, k);
      if fuel - 1 >= |Flatten(body)| {
        MoreFuelChain(env, l, rest, w, fuel - 1 - |Flatten(body)|, k);
      }
    }
  }

  lemma {:induction false} MoreFuelChain<S>(env: Env<S>, l: nat, c: Chain, w: World<S>, fuel: nat, k: nat)
    ensures Longer(TripsChain(env, l, c, w, fuel), ExecChain(env, Ideal, l, c, w, fuel),
                   TripsChain(env, l, c, w, fuel + k), ExecChain(env, Ideal, l, c, w, fuel + k), k)
    decreases fuel, c, 0
  {
    if fuel > 0 {
      match c
      case EndChain =>
      case ElseChain(body) => MoreFuel(env, body, false, w, fuel - 1, k);
      case ElseIfChain(cond, body, rest) => MoreFuelBranch(env, l, cond, body, rest, w, fuel, k);
    }
  }

  lemma {:induction false} MoreFuelRepeat<S>(env: Env<S>, body: Prog, n: nat, w: World<S>, fuel: nat, k: nat)
    requires n > 0
    ensures Longer(TripsRepeat(env, body, n, w, fuel), RepeatLoop(env, Ideal, body, n, w, fuel),
                   TripsRepeat(env, body, n, w, fuel + k), RepeatLoop(env, Ideal, body, n, w, fuel + k), k)
    decreases fuel, body, 1
  {
    MoreFuel(env, body, false, w, fuel, k);
    var o := Exec(env, Ideal, body, false, w, fuel);
    if o.Done? && o.fuel > 0 && n > 1 {
      MoreFuelRepeat(env, body, n - 1, o.w, o.fuel - 1, k);
    }
  }

  lemma {:induction false} MoreFuelDo<S>(env: Env<S>, body: Prog, c: string, w: World<S>, fuel: nat, k: nat)
    ensures Longer(TripsDo(env, body, c, w, fuel), DoLoop(env, Ideal, body, c, w, fuel),
                   TripsDo(env, body, c, w, fuel + k), DoLoop(env, Ideal, body, c, w, fuel + k), k)
    decreases fuel, body, 1
  {
    MoreFuel(env, body, true, w, fuel, k);
    var o := Exec(env, Ideal, body, true, w, fuel);
    if o.Done? && o.fuel > 0 && Holds(env, c, o.w.store) {
      MoreFuelDo(env, body, c, o.w, o.fuel - 1, k);
    }
  }

  lemma {:induction false} MoreFuelWhile<S>(env: Env<S>, body: Prog, c: string, w: World<S>, fuel: nat, k: nat)
    ensures Longer(TripsWhile(env, body, c, w, fuel), WhileLoop(env, Ideal, body, c, w, fuel),
                   TripsWhile(env, body, c, w, fuel + k), WhileLoop(env, Ideal, body, c, w, fuel + k), k)
    decreases fuel, body, 1
  {
    MoreFuel(env, body, false, w, fuel, k);
    var o := Exec(env, Ideal, body, false, w, fuel);
    if o.Done? && o.fuel > 0 && Holds(env, c, o.w.store) {
      MoreFuelWhile(env, body, c, o.w, o.fuel - 1, k);
    }
  }

  // ----- Main results ----------------------------------------------------------------------

  /** The whole file has been run and the next line will be executed. */
  predicate Completes<S>(r: Result<S>) {
    r.Finished? && !r.m.skip
  }

  /** The run of a well-scoped program's file against the program's usual meaning: it
      completes exactly when the usual run does and meets nothing that trips it, and then with
      the same trace, store and line count; otherwise it is what the first trip makes it. */
  lemma FileRunsIdealProgram<S>(env: Env<S>, p: Prog, w: World<S>, fuel: nat)
    requires Scoped(p, {})
    ensures var r := Run(env, Flatten(p), Begin(w), fuel);
            var ideal := Exec(env, Ideal, p, false, w, fuel);
            var trip := Trips(env, p, false, w, fuel);
            && (Completes(r) <==> ideal.Done? && trip == Smooth)
            && (trip == Smooth ==> Ends(env, Flatten(p), r, ideal))
            && (trip == ZeroTest ==> StuckSkipping(env, Flatten(p), r))
            && (trip == Unreadable ==> r.Aborted?)
  {
    hide Exec;
    hide Run;
    hide Trips;
    FileRunsProgram(env, p, w, fuel);
    CodedIsIdeal(env, p, false, w, fuel);
  }

  /** Once the usual run of a program meets a trip, however long the run of its file goes on it
      never completes: not after a WHILE directly in a DO, not after a WHILE whose first test
      is zero, not after a skipped line that cannot be read. */
  lemma TrippedNeverCompletes<S>(env: Env<S>, p: Prog, w: World<S>, fuel: nat, more: nat)
    requires Scoped(p, {}) && Trips(env, p, false, w, fuel) != Smooth
    ensures !Completes(Run(env, Flatten(p), Begin(w), more))
  {
    hide Exec;
    hide Run;
    hide Trips;
    FileRunsIdealProgram(env, p, w, more);
    if fuel <= more {
      MoreFuel(env, p, false, w, fuel, more - fuel);
    } else {
      MoreFuel(env, p, false, w, more, fuel - more);
    }
  }

  // ----- Programs that nothing trips -------------------------------------------------------

  /** No line ends a WHILE statement, and every plain line's first word can be read. */
  ghost predicate Tame<S(!new)>(env: Env<S>, lines: seq<Line>) {
    forall line <- lines ::
      if line.Plain? then forall store: S :: env.peek(line.text, store) == Ok else line.op !in {EndWhile, Unknown}
  }

  lemma TamePass<S(!new)>(env: Env<S>, lines: seq<Line>, store: S, fuel: nat)
    requires Tame(env, lines)
    ensures !Unreads(env, lines, store, fuel)
  {
    forall i | 0 <= i < |lines| ensures SkipStatus(env, lines[i], store) == Ok {
      assert lines[i] in lines;
    }
  }

  lemma {:induction false} TameIsSmooth<S(!new)>(env: Env<S>, p: Prog, inDo: bool, w: World<S>, fuel: nat)
    requires Tame(env, Flatten(p))
    ensures Trips(env, p, inDo, w, fuel) == Smooth
    decreases fuel, p, 0
  {
    if p.Cons? {
      TameIsSmoothStmt(env, p.head, inDo, w, fuel);
      var o := ExecStmt(env, Ideal, p.head, inDo, w, fuel);
      if o.Done? {
        TameIsSmooth(env, p.tail, inDo, o.w, o.fuel);
      }
    }
  }

  lemma {:induction false} TameIsSmoothStmt<S(!new)>(env: Env<S>, s: Stmt, inDo: bool, w: World<S>, fuel: nat)
    requires Tame(env, FlattenStmt(s))
    ensures TripsStmt(env, s, inDo, w, fuel) == Smooth
    decreases fuel, s, 0
  {
    hide Unreads;
    hide TripsBranch;
    hide TripsRepeat;
    hide TripsDo;
    if fuel > 0 {
      match s
      case Code(_) | AlarmStmt(_, _) | ErrorStmt(_, _) =>
      case IfStmt(l, c, thn, rest) => TameIsSmoothBranch(env, l, c, thn, rest, w, fuel);
      case RepeatStmt(l, c, body) =>
        TamePass(env, Flatten(body) + [OWord(l, EndRepeat, "")], w.store, fuel - 1);
        if Holds(env, c, w.store) {
          var n := env.toCount(env.eval(c, w.store).v);
          TameIsSmoothRepeat(env, body, if n == 0 then 1 else n, w, fuel - 1);
        }
      case DoStmt(_, body, c) => TameIsSmoothDo(env, body, c, w, fuel - 1);
      case WhileStmt(_, _, _) => assert false;
    }
  }

  lemma {:induction false} TameIsSmoothBranch<S(!new)>(env: Env<S>, l: nat, c: string, body: Prog, rest: Chain,
                                                       w: World<S>, fuel: nat)
    requires fuel > 0 && Tame(env, Flatten(body)) && Tame(env, FlattenChain(l, rest))
    ensures TripsBranch(env, l, c, body, rest, w, fuel) == Smooth
    decreases fuel, body, 1
  {
    hide Tame;
    hide Unreads;
    TameIsSmooth(env, body, false, w, fuel - 1);
    var o := Exec(env, Ideal, body, false, w, fuel - 1);
    if o.Done? {
      TamePass(env, FlattenChain(l, rest), o.w.store, o.fuel);
    }
    TamePass(env, Flatten(body), w.store, fuel - 1);
    if fuel - 1 >= |Flatten(body)| {
      TameIsSmoothChain(env, l, rest, w, fuel - 1 - |Flatten(body)|);
    }
  }

  lemma {:induction false} TameIsSmoothChain<S(!new)>(env: Env<S>, l: nat, c: Chain, w: World<S>, fuel: nat)
    requires Tame(env, FlattenChain(l, c))
    ensures TripsChain(env, l, c, w, fuel) == Smooth
    decreases fuel, c, 0
  {
    if fuel > 0 {
      match c
      case EndChain =>
      case ElseChain(body) => TameIsSmooth(env, body, false, w, fuel - 1);
      case ElseIfChain(cond, body, rest) => TameIsSmoothBranch(env, l, cond, body, rest, w, fuel);
    }
  }

  lemma {:induction false} TameIsSmoothRepeat<S(!new)>(env: Env<S>, body: Prog, n: nat, w: World<S>, fuel: nat)
    requires n > 0 && Tame(env, Flatten(body))
    ensures TripsRepeat(env, body, n, w, fuel) == Smooth
    decreases fuel, body, 1
  {
    hide Tame;
    TameIsSmooth(env, body, false, w, fuel);
    var o := Exec(env, Ideal, body, false, w, fuel);
    if o.Done? && o.fuel > 0 && n > 1 {
      TameIsSmoothRepeat(env, body, n - 1, o.w, o.fuel - 1);
    }
  }

  lemma {:induction false} TameIsSmoothDo<S(!new)>(env: Env<S>, body: Prog, c: string, w: World<S>, fuel: nat)
    requires Tame(env, Flatten(body))
    ensures TripsDo(env, body, c, w, fuel) == Smooth
    decreases fuel, body, 1
  {
    hide Tame;
    TameIsSmooth(env, body, true, w, fuel);
    var o := Exec(env, Ideal, body, true, w, fuel);
    if o.Done? && o.fuel > 0 && Holds(env, c, o.w.store) {
      TameIsSmoothDo(env, body, c, o.w, o.fuel - 1);
    }
  }

  /** Files of readable plain lines, IF, REPEAT and DO..WHILE do what structured programs mean. */
  lemma FileRunsTameProgram<S(!new)>(env: Env<S>, p: Prog, w: World<S>, fuel: nat)
    requires Scoped(p, {}) && Tame(env, Flatten(p))
    ensures Ends(env, Flatten(p), Run(env, Flatten(p), Begin(w), fuel), Exec(env, Ideal, p, false, w, fuel))
  {
    FileRunsIdealProgram(env, p, w, fuel);
    TameIsSmooth(env, p, false, w, fuel);
  }

  // ----- The smallest files that are tripped -----------------------------------------------

  /** After a WHILE whose first test is zero, a plain line that the usual meaning executes is
      never executed. */
  lemma ZeroWhileSwallowsTheFile<S>(env: Env<S>, l: nat, c: string, t: string, w: World<S>, fuel: nat)
    requires env.eval(c, w.store) == Val(0.0) && fuel >= 3
    ensures var p := Cons(WhileStmt(l, c, Nil), Cons(Code(t), Nil));
            var r := Run(env, Flatten(p), Begin(w), fuel);
            && Trips(env, p, false, w, fuel) == ZeroTest
            && Exec(env, Ideal, p, false, w, fuel).w.trace == w.trace + [Ran(t)]
            && r.m.world == w && r.m.skip
  {
    hide Run;
    var p := Cons(WhileStmt(l, c, Nil), Cons(Code(t), Nil));
    assert ScopedStmt(p.head, {}) && Scoped(p.tail, {});
    FileRunsProgram(env, p, w, fuel);
    assert ExecStmt(env, Coded, p.head, false, w, fuel) == Stuck(w);
    assert ExecStmt(env, Ideal, p.head, false, w, fuel) == Done(w, fuel - 2);
    var (store, status) := env.exec(t, w.store);
    var after := World(store, w.trace + [Ran(t)]);
    assert ExecStmt(env, Ideal, p.tail.head, false, w, fuel - 2)
        == if status == Ok then Done(after, fuel - 3) else Failed(after, status);
    assert Exec(env, Ideal, Nil, false, after, fuel - 3) == Done(after, fuel - 3);
  }

  /** In an IF that fails its test, a plain line whose first word cannot be read stops the job,
      and leaves the stack skipping: whatever is run next is skipped too. */
  lemma UnreadableLineStopsTheFile<S>(env: Env<S>, l: nat, c: string, t: string, w: World<S>, fuel: nat)
    requires env.eval(c, w.store) == Val(0.0) && env.peek(t, w.store) != Ok && fuel >= 3
    ensures var p := Cons(IfStmt(l, c, Cons(Code(t), Nil), EndChain), Nil);
            && Trips(env, p, false, w, fuel) == Unreadable
            && Exec(env, Ideal, p, false, w, fuel) == Done(w, fuel - 3)
            && Run(env, Flatten(p), Begin(w), fuel)
               == Aborted(Machine([IfEntry(l, false)], 2, true, w), env.peek(t, w.store))
  {
    hide Run;
    hide Flow;
    var p := Cons(IfStmt(l, c, Cons(Code(t), Nil), EndChain), Nil);
    var thn := p.head.thn;
    assert Flatten(thn) == [Plain(t)];
    var lines := Flatten(p);
    assert FlattenStmt(p.head) == [OWord(l, If, c), Plain(t), OWord(l, EndIf, "")];
    assert lines == FlattenStmt(p.head) + Flatten(Nil) == FlattenStmt(p.head);
    assert [] + [IfEntry(l, false)] == [IfEntry(l, false)];
    IfLine(env, [], {}, 1, w.store, l, c);
    var m := Machine([IfEntry(l, false)], 1, true, w);
    OneLine(env, lines, Begin(w), lines[0], Keep([] + [IfEntry(l, false)], 1), fuel);
    assert Run(env, lines, Begin(w), fuel) == Run(env, lines, m, fuel - 1);
    SkippedStep(env, lines[1], m.(pos := 2));
    RunStep(env, lines, m, fuel - 1);
    assert Unreads(env, Flatten(thn), w.store, fuel - 1) by { assert Flatten(thn)[0] == Plain(t); }
    assert ExecChain(env, Ideal, l, EndChain, w, fuel - 2) == Done(w, fuel - 3);
    assert ExecStmt(env, Ideal, p.head, false, w, fuel) == Done(w, fuel - 3);
    assert TripsStmt(env, p.head, false, w, fuel) == Unreadable;
  }

  lemma RunStep<S>(env: Env<S>, lines: seq<Line>, m: Machine<S>, fuel: nat)
    requires m.pos < |lines| && fuel > 0
    ensures var (m', status) := Step(env, lines[m.pos], m.(pos := m.pos + 1));
            Run(env, lines, m, fuel) == if status == Ok then Run(env, lines, m', fuel - 1) else Aborted(m', status)
  {
    hide Step;
  }

  lemma RunEnds<S>(env: Env<S>, lines: seq<Line>, m: Machine<S>, fuel: nat)
    requires m.pos >= |lines|
    ensures Run(env, lines, m, fuel) == Finished(m)
  {}
}
