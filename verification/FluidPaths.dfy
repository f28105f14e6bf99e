/** FluidPath: paths on the SD card share a static reference count; the first mounts the card,
    the last unmounts it. */
module FluidPaths {

  /** `live` maps each path object to its _isSD flag.  Two counters serve the proofs: `leaked`
      counts SD flags that a copy assignment overwrote without giving up their reference, and
      `lost` SD flags that hold no reference. */
  datatype State = State(live: map<nat, bool>, refcnt: nat, mounted: bool, leaked: nat, lost: nat)

  const START := State(map[], 0, false, 0, 0)

  /** A construction knows whether the path is on the card, whether the card is configured and
      whether mounting it would succeed. */
  datatype Op =
    | Construct(id: nat, sd: bool, configOk: bool, mountOk: bool)
    | ConstructEc(id: nat, sd: bool, configOk: bool, mountOk: bool)
    | CopyConstruct(id: nat, from: nat)
    | MoveConstruct(id: nat, from: nat)
    | CopyAssign(to: nat, from: nat)
    | MoveAssign(to: nat, from: nat)
    | Destroy(id: nat)

  /** Objects are built once, and only live ones are copied, assigned or destroyed. */
  predicate Enabled(s: State, op: Op) {
    match op
    case Construct(_, _, _, _) | ConstructEc(_, _, _, _) => op.id !in s.live
    case CopyConstruct(_, _) | MoveConstruct(_, _) => op.id !in s.live && op.from in s.live
    case CopyAssign(_, _) | MoveAssign(_, _) => op.to in s.live && op.from in s.live
    case Destroy(id) => id in s.live
  }

  function Mount(s: State): State {
    s.(refcnt := s.refcnt + 1, mounted := s.mounted || s.refcnt == 0)
  }

  /** The card cannot be used: not configured, or needing a mount that fails. */
  predicate Unusable(s: State, sd: bool, configOk: bool, mountOk: bool) {
    sd && (!configOk || (s.refcnt == 0 && !mountOk))
  }

  /** An unusable card makes a construction throw (no object comes to be), or, with an
      error_code, leaves an object whose flag is set but which holds no reference. */
  function Step(s: State, op: Op): State
    requires Enabled(s, op)
  {
    match op
    case Construct(id, sd, configOk, mountOk) =>
      if !sd then s.(live := s.live[id := false])
      else if Unusable(s, sd, configOk, mountOk) then s
      else Mount(s.(live := s.live[id := true]))
    case ConstructEc(id, sd, configOk, mountOk) =>
      if !sd then s.(live := s.live[id := false])
      else if Unusable(s, sd, configOk, mountOk) then s.(live := s.live[id := true], lost := s.lost + 1)
      else Mount(s.(live := s.live[id := true]))
    case CopyConstruct(id, from) =>
      s.(live := s.live[id := s.live[from]], refcnt := if s.live[from] then s.refcnt + 1 else s.refcnt)
    case MoveConstruct(id, from) => s.(live := s.live[id := s.live[from]][from := false])
    case CopyAssign(to, from) =>
      s.(live := s.live[to := s.live[from]],
         refcnt := if to != from && s.live[from] then s.refcnt + 1 else s.refcnt,
         leaked := if to != from && s.live[to] then s.leaked + 1 else s.leaked)
    case MoveAssign(to, from) => s.(live := s.live[to := s.live[from]][from := s.live[to]])
    case Destroy(id) =>
      var rest := s.live - {id};
      if !s.live[id] then s.(live := rest)
      else if s.refcnt > 0 then s.(live := rest, refcnt := s.refcnt - 1, mounted := s.mounted && s.refcnt != 1)
      else s.(live := rest, lost := if s.lost > 0 then s.lost - 1 else 0)
  }

  // ----- In place --------------------------------------------------------------------------

  class Registry {
    var live: map<nat, bool>
    var refcnt: nat
    var mounted: bool
    ghost var leaked: nat
    ghost var lost: nat

    ghost function Now(): State
      reads this
    {
      State(live, refcnt, mounted, leaked, lost)
    }

    constructor ()
      ensures Now() == START
    {
      live, refcnt, mounted, leaked, lost := map[], 0, false, 0, 0;
    }

    /** The private constructor, for a path that names a mount. */
    method ConstructPath(id: nat, sd: bool, configOk: bool, mountOk: bool, hasEc: bool)
      requires id !in live
      modifies this
      ensures Now() == Step(old(Now()), if hasEc then ConstructEc(id, sd, configOk, mountOk)
                                        else Construct(id, sd, configOk, mountOk))
    {
      if sd {
        if !configOk || (refcnt == 0 && !mountOk) {
          if hasEc {
            live := live[id := true];
            lost := lost + 1;
          }
          return;
        }
        if refcnt == 0 {
          mounted := true;
        }
        refcnt := refcnt + 1;
      }
      live := live[id := sd];
    }

    method CopyPath(id: nat, from: nat)
      requires id !in live && from in live
      modifies this
      ensures Now() == Step(old(Now()), CopyConstruct(id, from))
    {
      live := live[id := live[from]];
      if live[id] {
        refcnt := refcnt + 1;
      }
    }

    method MovePath(id: nat, from: nat)
      requires id !in live && from in live
      modifies this
      ensures Now() == Step(old(Now()), MoveConstruct(id, from))
    {
      live := live[id := live[from]];
      live := live[from := false];
    }

    method AssignCopy(to: nat, from: nat)
      requires to in live && from in live
      modifies this
      ensures Now() == Step(old(Now()), CopyAssign(to, from))
    {
      leaked := if to != from && live[to] then leaked + 1 else leaked;
      live := live[to := live[from]];
      if to != from && live[to] {
        refcnt := refcnt + 1;
      }
    }

    method AssignMove(to: nat, from: nat)
      requires to in live && from in live
      modifies this
      ensures Now() == Step(old(Now()), MoveAssign(to, from))
    {
      var flag := live[to];
      live := live[to := live[from]];
      live := live[from := flag];
    }

    method DestroyPath(id: nat)
      requires id in live
      modifies this
      ensures Now() == Step(old(Now()), Destroy(id))
    {
      if live[id] && refcnt != 0 {
        refcnt := refcnt - 1;
        if refcnt == 0 {
          mounted := false;
        }
      } else if live[id] && lost > 0 {
        lost := lost - 1;
      }
      live := live - {id};
    }
  }

  // ----- Every history ---------------------------------------------------------------------

  function SdPaths(m: map<nat, bool>): set<nat> {
    set i | i in m && m[i]
  }

  /** The reference count is the number of live SD paths plus the leaked references, and the
      card is mounted exactly while the count is positive. */
  ghost predicate Counted(s: State) {
    s.refcnt == |SdPaths(s.live)| + s.leaked && s.mounted == (s.refcnt > 0)
  }

  lemma SetFlag(m: map<nat, bool>, id: nat, sd: bool)
    ensures |SdPaths(m[id := sd])| == |SdPaths(m)| + (if sd then 1 else 0) - (if id in m && m[id] then 1 else 0)
  {
    var a, b := SdPaths(m), SdPaths(m[id := sd]);
    assert id in a <==> id in m && m[id];
    if sd {
      assert b == a + {id};
    } else {
      assert b == a - {id};
    }
  }

  lemma DropPath(m: map<nat, bool>, id: nat)
    requires id in m
    ensures |SdPaths(m - {id})| == |SdPaths(m)| - (if m[id] then 1 else 0)
  {
    var a, b := SdPaths(m), SdPaths(m - {id});
    assert b == a - {id};
    assert a == b + (if m[id] then {id} else {});
  }

  lemma LivePathCounts(s: State, id: nat)
    requires Counted(s) && id in s.live
    ensures s.live[id] ==> s.refcnt > 0 && s.mounted
  {
    if s.live[id] {
      assert id in SdPaths(s.live);
    }
  }

  /** A construction that sets the flag without taking a reference. */
  predicate LosesCount(s: State, op: Op) {
    op.ConstructEc? && Unusable(s, op.sd, op.configOk, op.mountOk)
  }

  /** From a right count, every operation leaves a right count exactly when it is not a
      construction that fails through an error_code. */
  lemma StepKeepsCount(s: State, op: Op)
    requires Enabled(s, op) && Counted(s)
    ensures Counted(Step(s, op)) <==> !LosesCount(s, op)
    ensures Step(s, op).leaked >= s.leaked
  {
    match op
    case Construct(id, sd, _, _) => SetFlag(s.live, id, sd);
    case ConstructEc(id, sd, _, _) => SetFlag(s.live, id, sd);
    case CopyConstruct(id, from) =>
      LivePathCounts(s, from);
      SetFlag(s.live, id, s.live[from]);
    case MoveConstruct(id, from) =>
      SetFlag(s.live, id, s.live[from]);
      SetFlag(s.live[id := s.live[from]], from, false);
    case CopyAssign(to, from) =>
      LivePathCounts(s, from);
      SetFlag(s.live, to, s.live[from]);
    case MoveAssign(to, from) =>
      SetFlag(s.live, to, s.live[from]);
      SetFlag(s.live[to := s.live[from]], from, s.live[to]);
    case Destroy(id) =>
      LivePathCounts(s, id);
      DropPath(s.live, id);
  }

  /** What holds whatever fails: references are held by live SD paths or leaked, except for
      the lost ones, and an unreferenced card is not mounted. */
  ghost predicate Balanced(s: State) {
    s.refcnt + s.lost == |SdPaths(s.live)| + s.leaked && (s.mounted ==> s.refcnt > 0)
  }

  lemma StepKeepsBalance(s: State, op: Op)
    requires Enabled(s, op) && Balanced(s)
    ensures Balanced(Step(s, op))
  {
    match op
    case Construct(id, sd, _, _) => SetFlag(s.live, id, sd);
    case ConstructEc(id, sd, _, _) => SetFlag(s.live, id, sd);
    case CopyConstruct(id, from) => SetFlag(s.live, id, s.live[from]);
    case MoveConstruct(id, from) =>
      SetFlag(s.live, id, s.live[from]);
      SetFlag(s.live[id := s.live[from]], from, false);
    case CopyAssign(to, from) => SetFlag(s.live, to, s.live[from]);
    case MoveAssign(to, from) =>
      SetFlag(s.live, to, s.live[from]);
      SetFlag(s.live[to := s.live[from]], from, s.live[to]);
    case Destroy(id) =>
      DropPath(s.live, id);
      assert s.live[id] ==> id in SdPaths(s.live);
  }

  ghost predicate Possible(s: State, ops: seq<Op>)
    decreases |ops|
  {
    ops == [] || (Enabled(s, ops[0]) && Possible(Step(s, ops[0]), ops[1..]))
  }

  /** Some construction in the history fails through an error_code. */
  ghost predicate Loses(s: State, ops: seq<Op>)
    requires Possible(s, ops)
    decreases |ops|
  {
    ops != [] && (LosesCount(s, ops[0]) || Loses(Step(s, ops[0]), ops[1..]))
  }

  /** The count is right at every point of the history. */
  ghost predicate AlwaysCounted(s: State, ops: seq<Op>)
    requires Possible(s, ops)
    decreases |ops|
  {
    Counted(s) && (ops != [] ==> AlwaysCounted(Step(s, ops[0]), ops[1..]))
  }

  ghost function After(s: State, ops: seq<Op>): State
    requires Possible(s, ops)
    decreases |ops|
  {
    if ops == [] then s else After(Step(s, ops[0]), ops[1..])
  }

  /** The count is right throughout a history exactly when no construction in it fails through
      an error_code. */
  lemma {:induction false} HistoryKeepsCount(s: State, ops: seq<Op>)
    requires Counted(s) && Possible(s, ops)
    ensures AlwaysCounted(s, ops) <==> !Loses(s, ops)
    ensures !Loses(s, ops) ==> Counted(After(s, ops))
    decreases |ops|
  {
    if ops != [] {
      StepKeepsCount(s, ops[0]);
      var t := Step(s, ops[0]);
      if LosesCount(s, ops[0]) {
        AlwaysCountedNow(t, ops[1..]);
      } else {
        HistoryKeepsCount(t, ops[1..]);
      }
    }
  }

  lemma AlwaysCountedNow(s: State, ops: seq<Op>)
    requires Possible(s, ops)
    ensures AlwaysCounted(s, ops) ==> Counted(s)
  {}

  lemma {:induction false} HistoryKeepsBalance(s: State, ops: seq<Op>)
    requires Balanced(s) && Possible(s, ops)
    ensures Balanced(After(s, ops))
    decreases |ops|
  {
    if ops != [] {
      StepKeepsBalance(s, ops[0]);
      HistoryKeepsBalance(Step(s, ops[0]), ops[1..]);
    }
  }

  /** After every history the count is at least the number of live SD paths exactly when no
      more references are lost than leaked.  When none was ever lost, the card is mounted
      while an SD path lives; the count equals the number of live SD paths exactly when no
      copy assignment overwrote one; and without such a leak the card is unmounted once none
      lives. */
  lemma CardOutlivesItsPaths(ops: seq<Op>)
    requires Possible(START, ops)
    ensures var s := After(START, ops);
            && (s.refcnt >= |SdPaths(s.live)| <==> s.lost <= s.leaked)
            && (s.mounted ==> s.refcnt > 0)
            && (!Loses(START, ops) ==>
                  && ((exists id :: id in s.live && s.live[id]) ==> s.mounted)
                  && (s.refcnt == |SdPaths(s.live)| <==> s.leaked == 0)
                  && (s.leaked == 0 && SdPaths(s.live) == {} ==> !s.mounted)
                  && (s.leaked > 0 ==> s.mounted))
  {
    assert SdPaths(START.live) == {};
    HistoryKeepsCount(START, ops);
    HistoryKeepsBalance(START, ops);
    var s := After(START, ops);
    if id :| id in s.live && s.live[id] {
      assert id in SdPaths(s.live);
    }
  }

  /** Whenever the card is not in use, a construction that fails through an error_code costs
      the next path its card: once the failed object is destroyed, it gives up a reference it
      never took, and the card is unmounted under the live path. */
  lemma FailedConstructionUnmounts(s: State, i: nat, j: nat, configOk: bool, mountOk: bool)
    requires Counted(s) && s.refcnt == 0 && !(configOk && mountOk) && i !in s.live && j !in s.live && i != j
    ensures var ops := [ConstructEc(i, true, configOk, mountOk), Construct(j, true, true, true), Destroy(i)];
            && Possible(s, ops)
            && var t := After(s, ops);
               j in t.live && t.live[j] && !t.mounted && t.live == s.live[j := true]
  {
    var a := Step(s, ConstructEc(i, true, configOk, mountOk));
    var b := Step(a, Construct(j, true, true, true));
    var c := Step(b, Destroy(i));
    assert c.live == s.live[j := true];
    ThreeSteps(s, a, b, ConstructEc(i, true, configOk, mountOk), Construct(j, true, true, true), Destroy(i));
  }

  /** Nor does the failed object have to go: a copy of it takes a reference without mounting,
      and then no path mounts the card. */
  lemma FailedCopyNeverMounts(s: State, i: nat, j: nat, k: nat, configOk: bool, mountOk: bool)
    requires Counted(s) && s.refcnt == 0 && !(configOk && mountOk)
    requires i !in s.live && j !in s.live && k !in s.live && i != j && j != k && i != k
    ensures var ops := [ConstructEc(i, true, configOk, mountOk), CopyConstruct(j, i), Construct(k, true, true, true)];
            && Possible(s, ops)
            && var t := After(s, ops); k in t.live && t.live[k] && !t.mounted
  {
    var a := Step(s, ConstructEc(i, true, configOk, mountOk));
    var b := Step(a, CopyConstruct(j, i));
    ThreeSteps(s, a, b, ConstructEc(i, true, configOk, mountOk), CopyConstruct(j, i), Construct(k, true, true, true));
  }

  lemma ThreeSteps(s: State, a: State, b: State, x: Op, y: Op, z: Op)
    requires Enabled(s, x) && a == Step(s, x) && Enabled(a, y) && b == Step(a, y) && Enabled(b, z)
    ensures Possible(s, [x, y, z]) && After(s, [x, y, z]) == Step(b, z)
  {
    assert [x, y, z][1..] == [y, z] && [y, z][1..] == [z] && [z][1..] == [];
    assert Possible(Step(b, z), []);
    assert Possible(b, [z]) && Possible(a, [y, z]);
    assert After(b, [z]) == Step(b, z) && After(a, [y, z]) == After(b, [z]);
  }

  /** Which object carries which flag after each operation, and that no other object's changes. */
  lemma FlagsMove(s: State, op: Op)
    requires Enabled(s, op)
    ensures var t := Step(s, op);
            match op
            case Construct(id, sd, _, _) =>
              t.live == s.live || (t.live.Keys == s.live.Keys + {id} && t.live[id] == sd && Untouched(s, t, {id}))
            case ConstructEc(id, sd, _, _) =>
              t.live.Keys == s.live.Keys + {id} && t.live[id] == sd && Untouched(s, t, {id})
            case CopyConstruct(id, from) =>
              t.live.Keys == s.live.Keys + {id} && t.live[id] == t.live[from] == s.live[from] && Untouched(s, t, {id})
            case MoveConstruct(id, from) =>
              && t.live.Keys == s.live.Keys + {id} && Untouched(s, t, {id, from})
              && t.live[id] == s.live[from] && !t.live[from]
            case CopyAssign(to, from) =>
              t.live.Keys == s.live.Keys && t.live[to] == t.live[from] == s.live[from] && Untouched(s, t, {to})
            case MoveAssign(to, from) =>
              && t.live.Keys == s.live.Keys && Untouched(s, t, {to, from})
              && t.live[to] == s.live[from] && t.live[from] == s.live[to]
            case Destroy(id) => t.live.Keys == s.live.Keys - {id} && Untouched(s, t, {id})
  {}

  ghost predicate Untouched(s: State, t: State, ids: set<nat>) {
    forall i :: i in s.live && i !in ids ==> i in t.live && t.live[i] == s.live[i]
  }

  /** A construction that fails without an error_code leaves everything as it was; and one on a
      usable card takes exactly one reference and leaves the card mounted. */
  lemma ConstructionOutcome(s: State, id: nat, configOk: bool, mountOk: bool)
    requires Counted(s) && id !in s.live
    ensures var t := Step(s, Construct(id, true, configOk, mountOk));
            if !configOk || (!s.mounted && !mountOk) then t == s
            else t.mounted && t.refcnt == s.refcnt + 1 && id in t.live && t.live[id]
  {}
}
