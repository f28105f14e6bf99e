/** The stack of running jobs: starting a file closes the one that was running and remembers
    its position; ending a file reopens the one below. */
module JobStack {
  import opened Options

  /** A FileStream on the job stack; `pos` is meaningful while the file is open. */
  datatype File = File(name: nat, pos: nat, open: bool, saved: nat)

  /** The jobs, the running one last, and the channel that started the first. */
  datatype State = State(jobs: seq<File>, leader: Option<nat>)

  const IDLE := State([], None)

  function Save(f: File): File { f.(saved := f.pos, open := false) }

  function Restore(f: File, reopens: bool): File {
    if reopens then f.(open := true, pos := f.saved) else f.(open := false)
  }

  function Top(s: State): File
    requires s.jobs != []
  {
    s.jobs[|s.jobs| - 1]
  }

  function SetTop(s: State, f: File): State
    requires s.jobs != []
  {
    s.(jobs := s.jobs[|s.jobs| - 1 := f])
  }

  function Pop(s: State): State
    requires s.jobs != []
  {
    State(s.jobs[..|s.jobs| - 1], if |s.jobs| == 1 then None else s.leader)
  }

  datatype Op =
    | RunFile(name: nat, out: nat, opens: bool, reopens: bool)  // the file command
    | EndFile(reopens: bool)                                    // end of file: unnest
    | Abort
    | Read(n: nat)                                              // the running file moves on
    | Seek(pos: nat)                                            // flow control loops

  predicate Enabled(s: State, op: Op) {
    (op.Read? || op.Seek?) ==> s.jobs != [] && Top(s).open
  }

  function Step(s: State, op: Op): State
    requires Enabled(s, op)
  {
    match op
    case RunFile(name, out, opens, reopens) =>
      var saved := if s.jobs == [] then s else SetTop(s, Save(Top(s)));
      if opens then State(saved.jobs + [File(name, 0, true, 0)], if s.jobs == [] then Some(out) else s.leader)
      else if s.jobs == [] then s
      else SetTop(saved, Restore(Top(saved), reopens))
    case EndFile(reopens) =>
      if s.jobs == [] then s
      else var p := Pop(s); if p.jobs == [] then p else SetTop(p, Restore(Top(p), reopens))
    case Abort => IDLE.(leader := if s.jobs == [] then s.leader else None)
    case Read(n) => SetTop(s, Top(s).(pos := Top(s).pos + n))
    case Seek(pos) => SetTop(s, Top(s).(pos := pos))
  }

  // ----- In place --------------------------------------------------------------------------

  class Job {
    var jobs: seq<File>
    var leader: Option<nat>

    ghost function Now(): State
      reads this
    {
      State(jobs, leader)
    }

    constructor ()
      ensures Now() == IDLE
    {
      jobs, leader := [], None;
    }

    method SaveTop()
      modifies this`jobs
      ensures Now() == if old(jobs) == [] then old(Now()) else SetTop(old(Now()), Save(Top(old(Now()))))
    {
      if jobs != [] {
        var f := jobs[|jobs| - 1];
        f := f.(saved := f.pos);
        f := f.(open := false);
        jobs := jobs[|jobs| - 1 := f];
      }
    }

    method RestoreTop(reopens: bool)
      modifies this`jobs
      ensures Now() == if old(jobs) == [] then old(Now()) else SetTop(old(Now()), Restore(Top(old(Now())), reopens))
    {
      if jobs != [] {
        var f := jobs[|jobs| - 1].(open := reopens);
        if f.open {
          f := f.(pos := f.saved);
        }
        jobs := jobs[|jobs| - 1 := f];
      }
    }

    method Nest(f: File, out: nat)
      modifies this
      ensures jobs == old(jobs) + [f] && leader == if old(jobs) == [] then Some(out) else old(leader)
    {
      if jobs == [] {
        leader := Some(out);
      }
      jobs := jobs + [f];
    }

    method PopTop()
      requires jobs != []
      modifies this
      ensures Now() == Pop(old(Now()))
    {
      jobs := jobs[..|jobs| - 1];
      if jobs == [] {
        leader := None;
      }
    }

    method Unnest(reopens: bool)
      modifies this
      ensures Now() == Step(old(Now()), EndFile(reopens))
    {
      if jobs != [] {
        PopTop();
        RestoreTop(reopens);
      }
    }

    method AbortAll()
      modifies this
      ensures Now() == Step(old(Now()), Abort)
    {
      while jobs != []
        invariant jobs == [] ==> leader == if old(jobs) == [] then old(leader) else None
        decreases |jobs|
      {
        PopTop();
      }
    }

    /** runFile(), past its check for an alarm. */
    method Run(name: nat, out: nat, opens: bool, reopens: bool)
      modifies this
      ensures Now() == Step(old(Now()), RunFile(name, out, opens, reopens))
    {
      SaveTop();
      if !opens {
        RestoreTop(reopens);
        return;
      }
      Nest(File(name, 0, true, 0), out);
    }
  }

  // ----- Every history ---------------------------------------------------------------------

  /** Only the running file is open, and no leader outlives the jobs. */
  ghost predicate Orderly(s: State) {
    && (forall i :: 0 <= i < |s.jobs| - 1 ==> !s.jobs[i].open)
    && (s.jobs != [] ==> Top(s).open && s.leader.Some?)
    && (s.jobs == [] ==> s.leader == None)
  }

  predicate Reopens(op: Op) {
    (op.RunFile? || op.EndFile?) ==> op.reopens
  }

  lemma StepKeepsOrder(s: State, op: Op)
    requires Orderly(s) && Enabled(s, op) && Reopens(op)
    ensures Orderly(Step(s, op))
  {}

  /** A history every step of which is possible, with every reopening succeeding, that keeps
      more than `depth` jobs until its end. */
  ghost predicate Above(s: State, ops: seq<Op>, depth: nat)
    decreases |ops|
  {
    |s.jobs| > depth &&
    (ops == [] || (Enabled(s, ops[0]) && Reopens(ops[0]) && Above(Step(s, ops[0]), ops[1..], depth)))
  }

  ghost predicate Possible(s: State, ops: seq<Op>)
    decreases |ops|
  {
    ops == [] || (Enabled(s, ops[0]) && Reopens(ops[0]) && Possible(Step(s, ops[0]), ops[1..]))
  }

  ghost function After(s: State, ops: seq<Op>): State
    requires Possible(s, ops)
    decreases |ops|
  {
    if ops == [] then s else After(Step(s, ops[0]), ops[1..])
  }

  /** In every state of every history only the running file is open. */
  lemma {:induction false} HistoryKeepsOrder(s: State, ops: seq<Op>)
    requires Orderly(s) && Possible(s, ops)
    ensures var t := After(s, ops);
            && Orderly(t)
            && (forall i :: 0 <= i < |t.jobs| - 1 ==> !t.jobs[i].open)
            && (t.jobs != [] ==> Top(t).open && t.leader.Some?)
            && (t.jobs == [] ==> t.leader == None)
    decreases |ops|
  {
    if ops != [] {
      StepKeepsOrder(s, ops[0]);
      HistoryKeepsOrder(Step(s, ops[0]), ops[1..]);
    }
  }

  /** Jobs below the running one are not touched while it runs, whatever it runs in turn. */
  lemma {:induction false} AboveKeepsBelow(s: State, ops: seq<Op>, depth: nat)
    requires Above(s, ops, depth)
    ensures Possible(s, ops)
    ensures |After(s, ops).jobs| > depth && After(s, ops).jobs[..depth] == s.jobs[..depth]
    ensures After(s, ops).leader == s.leader || depth == 0
    decreases |ops|
  {
    if ops != [] {
      var s' := Step(s, ops[0]);
      AboveKeepsBelow(s', ops[1..], depth);
      assert s'.jobs[..depth] == s.jobs[..depth];
    }
  }

  /** Running a nested file to its end, with anything it starts in between, leaves the parent
      running, open, at the position where it was, over the same jobs and leader. */
  lemma NestedRunRestoresParent(s: State, name: nat, out: nat, ops: seq<Op>)
    requires Orderly(s) && s.jobs != []
    requires var nested := Step(s, RunFile(name, out, true, true));
             Above(nested, ops, |s.jobs|) && (Possible(nested, ops) ==> |After(nested, ops).jobs| == |s.jobs| + 1)
    ensures var nested := Step(s, RunFile(name, out, true, true));
            && Possible(nested, ops)
            && var end := Step(After(nested, ops), EndFile(true));
               && |end.jobs| == |s.jobs| && end.leader == s.leader
               && end.jobs[..|s.jobs| - 1] == s.jobs[..|s.jobs| - 1]
               && Top(end).open && Top(end).name == Top(s).name && Top(end).pos == Top(s).pos
  {
    var nested := Step(s, RunFile(name, out, true, true));
    var n := |s.jobs|;
    AboveKeepsBelow(nested, ops, n);
    var last := After(nested, ops);
    assert nested.jobs[..n] == s.jobs[n - 1 := Save(Top(s))];
    assert last.jobs[..n][n - 1] == Save(Top(s));
    assert last.jobs[..n][..n - 1] == s.jobs[..n - 1];
    assert last.leader == s.leader;
  }

  // ----- Single steps ----------------------------------------------------------------------

  /** The leader is the output channel of the job that started the stack, while there are jobs. */
  lemma LeaderIsFirst(s: State, op: Op)
    requires Orderly(s) && Enabled(s, op) && Reopens(op)
    ensures var t := Step(s, op);
            && (s.jobs != [] && t.jobs != [] ==> t.leader == s.leader)
            && (s.jobs == [] && t.jobs != [] ==> op.RunFile? && op.opens && t.leader == Some(op.out))
            && (t.jobs == [] ==> t.leader == None)
  {}

  /** A file that opens runs from its start over the saved job; one that does not leaves the
      running job open where it was; a job that ends gives way to the one below, where that was;
      an abort ends all; reading and seeking move the running job alone. */
  lemma WhatRuns(s: State, op: Op)
    requires Orderly(s) && Enabled(s, op) && Reopens(op)
    ensures var t := Step(s, op);
            var n := |s.jobs|;
            && (op.RunFile? && op.opens ==>
                  && |t.jobs| == n + 1 && t.jobs[n] == File(op.name, 0, true, 0)
                  && (n > 0 ==> t.jobs[n - 1].saved == s.jobs[n - 1].pos && t.jobs[n - 1].name == s.jobs[n - 1].name))
            && (op.RunFile? && !op.opens ==>
                  |t.jobs| == n && (n > 0 ==> t.jobs[n - 1].open && t.jobs[n - 1].pos == s.jobs[n - 1].pos
                                              && t.jobs[n - 1].name == s.jobs[n - 1].name))
            && (op.EndFile? && n > 1 ==>
                  |t.jobs| == n - 1 && t.jobs[n - 2].open && t.jobs[n - 2].pos == s.jobs[n - 2].saved)
            && (op.EndFile? && n <= 1 ==> t.jobs == [])
            && (op.Abort? ==> t.jobs == [])
            && (op.Read? ==> |t.jobs| == n && t.jobs[n - 1] == s.jobs[n - 1].(pos := s.jobs[n - 1].pos + op.n))
            && (op.Seek? ==> |t.jobs| == n && t.jobs[n - 1] == s.jobs[n - 1].(pos := op.pos))
  {}

  /** A file that cannot be reopened is left closed, wherever it is met. */
  lemma FailedReopenStaysClosed(s: State, op: Op)
    requires Orderly(s) && Enabled(s, op) && !Reopens(op) && (op.RunFile? ==> !op.opens)
    ensures var t := Step(s, op); t.jobs != [] ==> !Top(t).open && Top(t).name == s.jobs[|t.jobs| - 1].name
  {}
}
