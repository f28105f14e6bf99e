/** Work coordinates: how a block's axis words become machine targets, and how G10 and G92
    make the current point read as programmed.  Lengths are real millimetres. */
module WorkOffsets {
  import opened Options

  const SYSTEMS := 6  // G54 to G59
  const HOMES := 2
  const TOOL_AXIS := 2

  /** The part of gc_state that places the tool. */
  datatype State = State(
    position: seq<real>,      // machine coordinates
    coordSystem: seq<real>,   // the offsets of the selected system
    coordOffset: seq<real>,   // G92
    toolLength: real,
    select: nat,
    coords: seq<seq<real>>,   // the stored systems
    homes: seq<seq<real>>)    // the positions of G28 and G30

  predicate Shaped(s: State) {
    && |s.coordSystem| == |s.coordOffset| == |s.position|
    && |s.coords| == SYSTEMS && s.select < SYSTEMS
    && (forall c <- s.coords :: |c| == |s.position|)
    && |s.homes| == HOMES && (forall h <- s.homes :: |h| == |s.position|)
  }

  /** The selected system's offsets are the stored ones. */
  predicate Consistent(s: State)
    requires Shaped(s)
  {
    s.coordSystem == s.coords[s.select]
  }

  function ToolOffset(s: State, axis: nat): real { if axis == TOOL_AXIS then s.toolLength else 0.0 }

  /** The work coordinate of the current position. */
  function Work(s: State, axis: nat): real
    requires Shaped(s) && axis < |s.position|
  {
    s.position[axis] - s.coordSystem[axis] - s.coordOffset[axis] - ToolOffset(s, axis)
  }

  /** `absolute` is G90 rather than G91.  ResetOffset and SetHome leave axis words to an
      implicit motion. */
  datatype Command =
    | Motion(absolute: bool, machine: bool)                  // G0 to G3; `machine` is G53
    | SetData(l: Option<nat>, r: bool, p: Option<nat>)       // G10 with its L, R and P words
    | SetOffset                                              // G92
    | ResetOffset(absolute: bool)                            // G92.1
    | SetHome(k: nat, absolute: bool)                        // G28.1 and G30.1
    | GoHome(k: nat)                                         // G28 and G30

  datatype Block = Block(select: Option<nat>, words: seq<bool>, xyz: seq<real>, command: Command)

  predicate Fits(s: State, b: Block) {
    && Shaped(s) && |b.words| == |b.xyz| == |s.position|
    && (b.select.Some? ==> b.select.value < SYSTEMS)
    && (b.command.SetHome? || b.command.GoHome? ==> b.command.k < HOMES)
  }

  datatype Error = NoAxisWords | ValueWordMissing | UnsupportedCommand | UnsupportedCoordSys

  datatype Result = Done(s: State) | Failed(e: Error)

  // ----- Block by block --------------------------------------------------------------------

  function Selected(s: State, b: Block): nat {
    if b.select.Some? then b.select.value else s.select
  }

  /** The offsets of the system the block selects. */
  function BlockSystem(s: State, b: Block): (c: seq<real>)
    requires Fits(s, b)
    ensures |c| == |s.position|
  {
    if Selected(s, b) != s.select then s.coords[Selected(s, b)] else s.coordSystem
  }

  predicate Moves(c: Command) { c.Motion? || c.ResetOffset? || c.SetHome? }

  function Target(s: State, b: Block): (t: seq<real>)
    requires Fits(s, b) && Moves(b.command)
    ensures |t| == |s.position|
  {
    seq(|s.position|, i requires 0 <= i < |s.position| =>
      if !b.words[i] then s.position[i]
      else if b.command.Motion? && b.command.machine then b.xyz[i]
      else if b.command.absolute then b.xyz[i] + BlockSystem(s, b)[i] + s.coordOffset[i] + ToolOffset(s, i)
      else s.position[i] + b.xyz[i])
  }

  /** A missing word counts as zero. */
  function Word(w: Option<nat>): nat {
    if w.Some? then w.value else 0
  }

  predicate IsL20(c: Command) { c.SetData? && Word(c.l) == 20 }

  /** The checks of G10: one of P and L is enough for the first. */
  function DataError(s: State, b: Block): Option<Error>
    requires b.command.SetData?
  {
    var SetData(l, r, p) := b.command;
    if true !in b.words then Some(NoAxisWords)
    else if l.None? && p.None? then Some(ValueWordMissing)
    else if Word(l) != 20 && (Word(l) != 2 || r) then Some(UnsupportedCommand)
    else if DataIndex(s, b) >= SYSTEMS then Some(UnsupportedCoordSys)
    else None
  }

  /** The system G10 names: P1 is G54; P0 or no P is the one the block selects. */
  function DataIndex(s: State, b: Block): nat
    requires b.command.SetData?
  {
    if Word(b.command.p) > 0 then Word(b.command.p) - 1 else Selected(s, b)
  }

  function NewData(s: State, b: Block): (c: seq<real>)
    requires Fits(s, b) && b.command.SetData? && DataIndex(s, b) < SYSTEMS
    ensures |c| == |s.position|
  {
    seq(|s.position|, i requires 0 <= i < |s.position| =>
      if !b.words[i] then s.coords[DataIndex(s, b)][i]
      else if IsL20(b.command) then s.position[i] - s.coordOffset[i] - b.xyz[i] - ToolOffset(s, i)
      else b.xyz[i])
  }

  function NewOffset(s: State, b: Block): (c: seq<real>)
    requires Fits(s, b) && b.command.SetOffset?
    ensures |c| == |s.position|
  {
    seq(|s.position|, i requires 0 <= i < |s.position| =>
      if b.words[i] then s.position[i] - BlockSystem(s, b)[i] - b.xyz[i] - ToolOffset(s, i) else s.coordOffset[i])
  }

  /** G28 and G30 take the named axes home, or all when none is named. */
  function HomePosition(s: State, b: Block): (t: seq<real>)
    requires Fits(s, b) && b.command.GoHome?
    ensures |t| == |s.position|
  {
    seq(|s.position|, i requires 0 <= i < |s.position| =>
      if b.words[i] || true !in b.words then s.homes[b.command.k][i] else s.position[i])
  }

  function Select(s: State, b: Block): State
    requires Fits(s, b)
  {
    s.(select := Selected(s, b), coordSystem := BlockSystem(s, b))
  }

  function Step(s: State, b: Block): Result
    requires Fits(s, b)
  {
    var t := Select(s, b);
    match b.command
    case Motion(_, _) => Done(t.(position := Target(s, b)))
    case SetData(_, _, _) =>
      var e := DataError(s, b);
      if e.Some? then Failed(e.value)
      else
        var k, data := DataIndex(s, b), NewData(s, b);
        Done(t.(coords := t.coords[k := data], coordSystem := if t.select == k then data else t.coordSystem))
    case SetOffset => if true !in b.words then Failed(NoAxisWords) else Done(t.(coordOffset := NewOffset(s, b)))
    case ResetOffset(_) => Done(t.(coordOffset := seq(|s.position|, _ => 0.0), position := Target(s, b)))
    case SetHome(k, _) => Done(t.(homes := t.homes[k := s.position], position := Target(s, b)))
    case GoHome(k) => Done(t.(position := HomePosition(s, b)))
  }

  // ----- In place --------------------------------------------------------------------------

  class Parser {
    var gc: State

    constructor (s: State)
      ensures gc == s
    {
      gc := s;
    }

    /** The loop of G10. */
    method ComputeData(b: Block, k: nat) returns (values: seq<real>)
      requires Fits(gc, b) && b.command.SetData? && k == DataIndex(gc, b) < SYSTEMS
      ensures values == NewData(gc, b)
    {
      values := gc.coords[k];
      for i := 0 to |gc.position|
        invariant |values| == |gc.position|
        invariant forall a :: 0 <= a < |values| ==> values[a] == if a < i then NewData(gc, b)[a] else gc.coords[k][a]
      {
        if b.words[i] {
          if IsL20(b.command) {
            values := values[i := gc.position[i] - gc.coordOffset[i] - b.xyz[i]];
            if i == TOOL_AXIS {
              values := values[i := values[i] - gc.toolLength];
            }
          } else {
            values := values[i := b.xyz[i]];
          }
        }
      }
    }

    /** The loop of G92, over the block's own values. */
    method ComputeOffset(b: Block, system: seq<real>) returns (values: seq<real>)
      requires Fits(gc, b) && b.command.SetOffset? && system == BlockSystem(gc, b)
      ensures values == NewOffset(gc, b)
    {
      values := b.xyz;
      for i := 0 to |gc.position|
        invariant |values| == |gc.position|
        invariant forall a :: 0 <= a < |values| ==> values[a] == if a < i then NewOffset(gc, b)[a] else b.xyz[a]
      {
        if b.words[i] {
          values := values[i := gc.position[i] - system[i] - values[i]];
          if i == TOOL_AXIS {
            values := values[i := values[i] - gc.toolLength];
          }
        } else {
          values := values[i := gc.coordOffset[i]];
        }
      }
    }

    /** The loop that turns axis words into a machine target. */
    method ComputeTarget(b: Block, system: seq<real>) returns (values: seq<real>)
      requires Fits(gc, b) && Moves(b.command) && system == BlockSystem(gc, b)
      ensures values == Target(gc, b)
    {
      values := b.xyz;
      for i := 0 to |gc.position|
        invariant |values| == |gc.position|
        invariant forall a :: 0 <= a < |values| ==> values[a] == if a < i then Target(gc, b)[a] else b.xyz[a]
      {
        if !b.words[i] {
          values := values[i := gc.position[i]];
        } else if !(b.command.Motion? && b.command.machine) {
          if b.command.absolute {
            values := values[i := values[i] + system[i] + gc.coordOffset[i]];
            if i == TOOL_AXIS {
              values := values[i := values[i] + gc.toolLength];
            }
          } else {
            values := values[i := values[i] + gc.position[i]];
          }
        }
      }
    }

    /** The loop of G28 and G30, over the stored position. */
    method ComputeHome(b: Block) returns (values: seq<real>)
      requires Fits(gc, b) && b.command.GoHome?
      ensures values == HomePosition(gc, b)
    {
      values := gc.homes[b.command.k];
      if true in b.words {
        for i := 0 to |gc.position|
          invariant |values| == |gc.position|
          invariant forall a :: 0 <= a < |values| ==>
                      values[a] == if a < i then HomePosition(gc, b)[a] else gc.homes[b.command.k][a]
        {
          if !b.words[i] {
            values := values[i := gc.position[i]];
          }
        }
      }
    }

    /** Steps 3 and 4 of gc_execute_line for these commands: everything is computed from the
        state before the block, then the state is updated. */
    method ExecuteBlock(b: Block) returns (error: Option<Error>)
      requires Fits(gc, b)
      modifies this
      ensures if error.None? then Step(old(gc), b) == Done(gc)
              else Step(old(gc), b) == Failed(error.value) && gc == old(gc)
    {
      error := None;
      var system := gc.coordSystem;
      if b.select.Some? && gc.select != b.select.value {
        system := gc.coords[b.select.value];
      }
      match b.command {
        case SetData(l, r, p) =>
          if true !in b.words {
            return Some(NoAxisWords);
          }
          if l.None? && p.None? {
            return Some(ValueWordMissing);
          }
          if Word(l) != 20 {
            if Word(l) == 2 {
              if r {
                return Some(UnsupportedCommand);
              }
            } else {
              return Some(UnsupportedCommand);
            }
          }
          var k := if Word(p) > 0 then Word(p) - 1 else if b.select.Some? then b.select.value else gc.select;
          if k >= SYSTEMS {
            return Some(UnsupportedCoordSys);
          }
          var data := ComputeData(b, k);
          Reselect(b, system);
          gc := gc.(coords := gc.coords[k := data]);
          if gc.select == k {
            gc := gc.(coordSystem := data);
          }
        case SetOffset =>
          if true !in b.words {
            return Some(NoAxisWords);
          }
          var offset := ComputeOffset(b, system);
          Reselect(b, system);
          gc := gc.(coordOffset := offset);
        case Motion(_, _) =>
          var target := ComputeTarget(b, system);
          Reselect(b, system);
          gc := gc.(position := target);
        case ResetOffset(_) =>
          var target := ComputeTarget(b, system);
          Reselect(b, system);
          gc := gc.(coordOffset := seq(|gc.position|, _ => 0.0));
          gc := gc.(position := target);
        case SetHome(k, _) =>
          var target := ComputeTarget(b, system);
          Reselect(b, system);
          gc := gc.(homes := gc.homes[k := gc.position]);
          gc := gc.(position := target);
        case GoHome(k) =>
          var home := ComputeHome(b);
          Reselect(b, system);
          gc := gc.(position := home);
      }
    }

    /** The coordinate-system selection of step 4. */
    method Reselect(b: Block, system: seq<real>)
      requires Fits(gc, b) && system == BlockSystem(gc, b)
      modifies this
      ensures gc == Select(old(gc), b)
    {
      if b.select.Some? && gc.select != b.select.value {
        gc := gc.(select := b.select.value, coordSystem := system);
      }
    }
  }

  // ----- What the numbers mean -------------------------------------------------------------

  /** Every block that succeeds keeps the shape and the agreement of the selected system with
      its stored copy. */
  lemma StepKeepsConsistent(s: State, b: Block)
    requires Fits(s, b) && Consistent(s) && Step(s, b).Done?
    ensures Shaped(Step(s, b).s) && Consistent(Step(s, b).s)
  {}

  /** A G90 motion, even one that switches the coordinate system, ends with every programmed
      axis at its programmed work coordinate and every other axis where it was. */
  lemma AbsoluteMotionArrives(s: State, b: Block)
    requires Fits(s, b) && b.command == Motion(true, false)
    ensures Step(s, b).Done?
    ensures var t := Step(s, b).s;
            && Shaped(t) && t.select == Selected(s, b)
            && forall a :: 0 <= a < |s.position| ==>
                 if b.words[a] then Work(t, a) == b.xyz[a] else t.position[a] == s.position[a]
  {}

  /** The work coordinate of every axis, written out: only the third carries the tool length. */
  lemma WorkCoordinates(s: State, axis: nat)
    requires Shaped(s) && axis < |s.position|
    ensures Work(s, axis) == s.position[axis] - s.coordSystem[axis] - s.coordOffset[axis]
                             - if axis == 2 then s.toolLength else 0.0
  {}

  /** A G91 motion moves every programmed axis by its programmed distance and no other; in the
      same system, the work coordinates change by the same distances. */
  lemma IncrementalMotionMoves(s: State, b: Block)
    requires Fits(s, b) && b.command == Motion(false, false)
    ensures Step(s, b).Done?
    ensures var t := Step(s, b).s;
            forall a :: 0 <= a < |s.position| ==>
              var d := if b.words[a] then b.xyz[a] else 0.0;
              t.position[a] - s.position[a] == d && (Selected(s, b) == s.select ==> Work(t, a) - Work(s, a) == d)
  {}

  /** A G53 motion ends at the programmed machine position on every programmed axis, whatever the
      offsets and the distance mode, and moves no other. */
  lemma MachineMotionArrives(s: State, b: Block)
    requires Fits(s, b) && b.command.Motion? && b.command.machine
    ensures Step(s, b).Done?
    ensures forall a :: 0 <= a < |s.position| ==>
              Step(s, b).s.position[a] == if b.words[a] then b.xyz[a] else s.position[a]
  {}

  /** What no motion changes, and that its block leaves the named system in force. */
  lemma MotionKeepsOffsets(s: State, b: Block)
    requires Fits(s, b) && Consistent(s) && b.command.Motion?
    ensures var t := Step(s, b).s;
            && t.coordOffset == s.coordOffset && t.toolLength == s.toolLength
            && t.coords == s.coords && t.homes == s.homes
            && (b.select.Some? ==> t.select == b.select.value && t.coordSystem == s.coords[b.select.value])
            && (b.select.None? ==> t.select == s.select && t.coordSystem == s.coordSystem)
  {}

  /** G10 L2 stores the programmed offsets of the programmed axes in the system that P names (P1
      is the first; no P, or P0, is the one in force) and leaves everything else alone. */
  lemma StoringOffsets(s: State, b: Block)
    requires Fits(s, b) && Consistent(s) && b.command.SetData? && b.command.l == Some(2) && Step(s, b).Done?
    ensures var t := Step(s, b).s;
            var inForce := if b.select.Some? then b.select.value else s.select;
            var k := if b.command.p.None? || b.command.p.value == 0 then inForce else b.command.p.value - 1;
            && 0 <= k < 6 && t.position == s.position && t.coordOffset == s.coordOffset && t.homes == s.homes
            && (forall c :: 0 <= c < 6 && c != k ==> t.coords[c] == s.coords[c])
            && (forall a :: 0 <= a < |s.position| ==>
                  t.coords[k][a] == if b.words[a] then b.xyz[a] else s.coords[k][a])
            && t.select == inForce && t.coordSystem == t.coords[inForce]
  {}

  /** Exactly which blocks fail, and how. */
  lemma BlockErrors(s: State, b: Block)
    requires Fits(s, b)
    ensures Step(s, b).Failed? <==>
              || ((b.command.SetData? || b.command.SetOffset?) && true !in b.words)
              || (b.command.SetData? && b.command.l != Some(2) && b.command.l != Some(20))
              || (b.command.SetData? && b.command.l == Some(2) && b.command.r)
              || (b.command.SetData? && b.command.p.Some? && b.command.p.value > 6)
    ensures var e := Step(s, b);
            && (e == Failed(NoAxisWords) <==> (b.command.SetData? || b.command.SetOffset?) && true !in b.words)
            && (e == Failed(ValueWordMissing) <==>
                  b.command.SetData? && true in b.words && b.command.l.None? && b.command.p.None?)
            && (e == Failed(UnsupportedCoordSys) <==>
                  && b.command.SetData? && true in b.words
                  && (b.command.l == Some(20) || (b.command.l == Some(2) && !b.command.r))
                  && b.command.p.Some? && b.command.p.value > 6)
  {}

  /** G28 and G30 take home the axes that are named, or all when none is, and move no other; the
      offsets stay. */
  lemma HomingMovesNamedAxes(s: State, b: Block)
    requires Fits(s, b) && b.command.GoHome?
    ensures Step(s, b).Done?
    ensures var t := Step(s, b).s;
            && (forall a :: 0 <= a < |s.position| ==>
                  t.position[a] == if true in b.words && !b.words[a] then s.position[a] else s.homes[b.command.k][a])
            && t.coordOffset == s.coordOffset && t.coords == s.coords && t.homes == s.homes
  {}

  /** G28.1 and G30.1 keep the position before the block as that home and the other home as it
      was; their axis words, like those of G92.1, are a motion of their own, in G90 to work
      coordinates under the offsets before the block, in G91 by distances. */
  lemma ImplicitMotion(s: State, b: Block)
    requires Fits(s, b) && (b.command.SetHome? || b.command.ResetOffset?)
    ensures Step(s, b).Done?
    ensures var t := Step(s, b).s;
            && (b.command.SetHome? ==>
                  && t.homes[b.command.k] == s.position && t.homes[1 - b.command.k] == s.homes[1 - b.command.k]
                  && t.coordOffset == s.coordOffset)
            && (b.command.ResetOffset? ==>
                  t.homes == s.homes && forall a :: 0 <= a < |s.position| ==> t.coordOffset[a] == 0.0)
            && t.coords == s.coords && t.toolLength == s.toolLength
            && forall a :: 0 <= a < |s.position| ==>
                 if !b.words[a] then t.position[a] == s.position[a]
                 else if b.command.absolute then Work(t, a) == b.xyz[a] + s.coordOffset[a] - t.coordOffset[a]
                 else t.position[a] == s.position[a] + b.xyz[a]
  {}

  /** G10 L20 on the system in force after the block, and G92, make every programmed axis read
      its programmed value without moving; the other axes keep their offsets. */
  lemma SettingReadsAsProgrammed(s: State, b: Block)
    requires Fits(s, b) && Step(s, b).Done?
    requires b.command == SetOffset ||
             (b.command.SetData? && b.command.l == Some(20) && DataIndex(s, b) == Selected(s, b))
    ensures var t := Step(s, b).s;
            && Shaped(t) && t.position == s.position && t.select == Selected(s, b)
            && forall a :: 0 <= a < |s.position| ==>
                 if b.words[a] then Work(t, a) == b.xyz[a]
                 else
                   && t.coordOffset[a] == s.coordOffset[a]
                   && (Consistent(s) ==> t.coordSystem[a] == s.coords[t.select][a])
  {}

  /** G10 L20 on another system changes nothing now; selecting that system, the point where it
      was given reads as programmed. */
  lemma SettingAnotherSystem(s: State, b: Block, c: Block)
    requires Fits(s, b) && b.command.SetData? && b.command.l == Some(20) && Step(s, b).Done? && b.select == None
    requires DataIndex(s, b) != s.select
    requires Fits(Step(s, b).s, c) && c.select == Some(DataIndex(s, b))
    requires c.command == Motion(true, false) && true !in c.words
    ensures forall a :: 0 <= a < |s.position| ==> Work(Step(s, b).s, a) == Work(s, a)
    ensures Step(Step(s, b).s, c).Done?
    ensures var t := Step(Step(s, b).s, c).s;
            t.position == s.position && forall a :: 0 <= a < |s.position| && b.words[a] ==> Work(t, a) == b.xyz[a]
  {}

  /** Going, in the same system, to the coordinates just declared by G92 does not move. */
  lemma DeclaredPointIsHere(s: State, b: Block, c: Block)
    requires Fits(s, b) && b.command == SetOffset && Step(s, b).Done?
    requires Fits(Step(s, b).s, c) && c.command == Motion(true, false) && c.select == None
    requires c.words == b.words && c.xyz == b.xyz
    ensures Step(Step(s, b).s, c).Done? && Step(Step(s, b).s, c).s == Step(s, b).s
  {
    var t := Step(s, b).s;
    assert Target(t, c) == s.position;
  }

  /** A G90 block with G92.1 computes its target with the offsets it is about to clear: a named
      axis ends off its programmed coordinate by the old offset, and on it exactly when that
      was zero. */
  lemma ResetMovesByOldOffset(s: State, b: Block, a: nat)
    requires Fits(s, b) && b.command == ResetOffset(true) && a < |s.position| && b.words[a]
    ensures Step(s, b).Done?
    ensures var t := Step(s, b).s;
            && t.coordOffset[a] == 0.0 && Work(t, a) == b.xyz[a] + s.coordOffset[a]
            && (Work(t, a) == b.xyz[a] <==> s.coordOffset[a] == 0.0)
  {}

  /** Blocks that all succeed, none of which sets home `k`. */
  predicate Keeps(s: State, blocks: seq<Block>, k: nat)
    decreases |blocks|
  {
    blocks == [] ||
    (&& Fits(s, blocks[0]) && Step(s, blocks[0]).Done?
     && !(blocks[0].command.SetHome? && blocks[0].command.k == k)
     && Keeps(Step(s, blocks[0]).s, blocks[1..], k))
  }

  function After(s: State, blocks: seq<Block>, k: nat): State
    requires Keeps(s, blocks, k)
    decreases |blocks|
  {
    if blocks == [] then s else After(Step(s, blocks[0]).s, blocks[1..], k)
  }

  lemma {:induction false} HomeIsKept(s: State, blocks: seq<Block>, k: nat)
    requires Shaped(s) && Keeps(s, blocks, k) && k < HOMES
    ensures var t := After(s, blocks, k);
            Shaped(t) && t.homes[k] == s.homes[k] && |t.position| == |s.position|
    decreases |blocks|
  {
    if blocks != [] {
      HomeIsKept(Step(s, blocks[0]).s, blocks[1..], k);
    }
  }

  /** Whatever is done after G28.1 or G30.1 set a home, the matching G28 or G30 without axis
      words comes back to where that was, whatever offsets are then in force. */
  lemma HomeComesBack(s: State, b: Block, blocks: seq<Block>, c: Block)
    requires Fits(s, b) && b.command.SetHome? && Keeps(Step(s, b).s, blocks, b.command.k)
    requires var t := After(Step(s, b).s, blocks, b.command.k);
             |c.words| == |c.xyz| == |s.position| && (c.select.Some? ==> c.select.value < SYSTEMS)
             && c.command == GoHome(b.command.k) && true !in c.words
    ensures var t := After(Step(s, b).s, blocks, b.command.k);
            Fits(t, c) && Step(t, c).Done? && Step(t, c).s.position == s.position
  {
    HomeIsKept(Step(s, b).s, blocks, b.command.k);
    var t := After(Step(s, b).s, blocks, b.command.k);
    assert HomePosition(t, c) == t.homes[b.command.k];
  }
}
