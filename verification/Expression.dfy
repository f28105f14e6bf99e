/** The shift-reduce evaluator of bracketed expressions, against expression trees grouped by
    the precedence table.  Operands are any type `V` and the operators any partial function,
    so the results are about grouping, evaluation order and the first error. */
module Expression {

  datatype BinaryOp =
    | DividedBy | Modulo | Power | Times | And2 | ExclusiveOR | Minus | NotExclusiveOR | Plus
    | RightBracket | LT | EQ | NE | LE | GE | GT

  type Infix = op: BinaryOp | op != RightBracket witness Plus

  function Precedence(op: BinaryOp): (p: nat)
    ensures 1 <= p <= 6
    ensures p == 1 <==> op == RightBracket
  {
    match op
    case RightBracket => 1
    case And2 | ExclusiveOR | NotExclusiveOR => 2
    case LT | EQ | NE | LE | GE | GT => 3
    case Minus | Plus => 4
    case DividedBy | Modulo | Times => 5
    case Power => 6
  }

  datatype Error =
    | BadNumberFormat | GcodeUnsupportedCommand | ExpressionUnknownOp | ExpressionSyntaxError
    | ExpressionDivideByZero | ExpressionInvalidArgument | ExpressionArgumentOutOfRange

  datatype Outcome<+V> = Value(v: V) | Err(e: Error)

  /** What the reader delivers after `[`: operands and operators up to the closing bracket
      (with the position after it), or up to the first thing that cannot be read. */
  datatype Toks<V> = Unreadable(e: Error) | Operand(v: V, tail: Tail<V>)
  datatype Tail<V> = EndAt(pos: nat) | Then(op: Infix, rest: Toks<V>)

  function TailPrecedence<V>(t: Tail<V>): nat {
    if t.EndAt? then Precedence(RightBracket) else Precedence(t.op)
  }

  function Size<V>(t: Toks<V>): nat {
    if t.Unreadable? || t.tail.EndAt? then 0 else 1 + Size(t.tail.rest)
  }

  datatype Climbed<V> = Stop(e: Error) | At(v: V, tail: Tail<V>)

  /** Reduces everything that binds at level `p` or tighter. */
  function Climb<V>(ex: (V, Infix, V) -> Outcome<V>, t: Toks<V>, p: nat): (r: Climbed<V>)
    requires p >= 2
    ensures r.At? ==> TailPrecedence(r.tail) < p && Size(Operand(r.v, r.tail)) <= Size(t)
    decreases Size(t)
  {
    match t
    case Unreadable(e) => Stop(e)
    case Operand(v, tail) =>
      if TailPrecedence(tail) < p then At(v, tail)
      else match Climb(ex, tail.rest, Precedence(tail.op) + 1)
        case Stop(e) => Stop(e)
        case At(r, after) =>
          match ex(v, tail.op, r)
          case Err(e) => Stop(e)
          case Value(x) => Climb(ex, Operand(x, after), p)
  }

  /** Goes on at level `p` after an operation, or stops with its error. */
  function Resume<V>(ex: (V, Infix, V) -> Outcome<V>, o: Outcome<V>, tail: Tail<V>, p: nat): Climbed<V>
    requires p >= 2
  {
    match o
    case Err(e) => Stop(e)
    case Value(v) => Climb(ex, Operand(v, tail), p)
  }

  /** Applies a pending operator to the right operand that a climb found. */
  function Apply<V>(ex: (V, Infix, V) -> Outcome<V>, v: V, op: Infix, c: Climbed<V>, p: nat): Climbed<V>
    requires p >= 2
  {
    match c
    case Stop(e) => Stop(e)
    case At(r, after) => Resume(ex, ex(v, op, r), after, p)
  }

  lemma ClimbInfix<V>(ex: (V, Infix, V) -> Outcome<V>, v: V, op: Infix, rest: Toks<V>, p: nat)
    requires 2 <= p <= Precedence(op)
    ensures Climb(ex, Operand(v, Then(op, rest)), p) == Apply(ex, v, op, Climb(ex, rest, Precedence(op) + 1), p)
  {}

  lemma ClimbStops<V>(ex: (V, Infix, V) -> Outcome<V>, v: V, tail: Tail<V>, p: nat)
    requires p >= 2 && TailPrecedence(tail) < p
    ensures Climb(ex, Operand(v, tail), p) == At(v, tail)
  {}

  /** The value of a token stream and the position after its closing bracket. */
  function Evaluate<V>(ex: (V, Infix, V) -> Outcome<V>, t: Toks<V>): Outcome<(V, nat)> {
    match Climb(ex, t, 2)
    case Stop(e) => Err(e)
    case At(v, tail) => Value((v, tail.pos))
  }

  // ----- Trees -----------------------------------------------------------------------------

  datatype Tree<V> = Leaf(v: V) | Node(left: Tree<V>, op: Infix, right: Tree<V>)

  function RootPrecedence<V>(t: Tree<V>): nat {
    if t.Leaf? then 7 else Precedence(t.op)
  }

  /** Grouped by the precedence table, every level (also `**`) to the left. */
  predicate Grouped<V>(t: Tree<V>) {
    t.Node? ==>
      && Grouped(t.left) && Grouped(t.right)
      && RootPrecedence(t.left) >= Precedence(t.op)
      && RootPrecedence(t.right) > Precedence(t.op)
  }

  function First<V>(t: Tree<V>): V {
    if t.Leaf? then t.v else First(t.left)
  }

  /** The operators and operands after the first operand, in text order. */
  function Infixes<V>(t: Tree<V>): seq<(Infix, V)> {
    if t.Leaf? then [] else Infixes(t.left) + [(t.op, First(t.right))] + Infixes(t.right)
  }

  /** Left operand, then right operand, then the operation; the first error wins. */
  function Eval<V>(ex: (V, Infix, V) -> Outcome<V>, t: Tree<V>): Outcome<V> {
    match t
    case Leaf(v) => Value(v)
    case Node(l, op, r) =>
      match Eval(ex, l)
      case Err(e) => Err(e)
      case Value(x) =>
        match Eval(ex, r)
        case Err(e) => Err(e)
        case Value(y) => ex(x, op, y)
  }

  function Stream<V>(v: V, items: seq<(Infix, V)>, tail: Tail<V>): Toks<V> {
    if items == [] then Operand(v, tail) else Operand(v, Then(items[0].0, Stream(items[0].1, items[1..], tail)))
  }

  /** The tokens of a tree followed by `tail`. */
  function Spell<V>(t: Tree<V>, tail: Tail<V>): Toks<V> {
    if t.Leaf? then Operand(t.v, tail) else Spell(t.left, Then(t.op, Spell(t.right, tail)))
  }

  lemma {:induction false} StreamAppend<V>(v: V, a: seq<(Infix, V)>, op: Infix, u: V, b: seq<(Infix, V)>, tail: Tail<V>)
    ensures Stream(v, a + [(op, u)] + b, tail) == Stream(v, a, Then(op, Stream(u, b, tail)))
  {
    var s := a + [(op, u)] + b;
    if a == [] {
      assert s[1..] == b;
    } else {
      StreamAppend(a[0].1, a[1..], op, u, b, tail);
      assert s[1..] == a[1..] + [(op, u)] + b;
    }
  }

  lemma {:induction false} SpellIsStream<V>(t: Tree<V>, tail: Tail<V>)
    ensures Spell(t, tail) == Stream(First(t), Infixes(t), tail)
  {
    if t.Node? {
      SpellIsStream(t.right, tail);
      SpellIsStream(t.left, Then(t.op, Spell(t.right, tail)));
      StreamAppend(First(t.left), Infixes(t.left), t.op, First(t.right), Infixes(t.right), tail);
    }
  }

  function EndsAt<V>(o: Outcome<V>, pos: nat): Outcome<(V, nat)> {
    match o
    case Err(e) => Err(e)
    case Value(v) => Value((v, pos))
  }

  lemma {:induction false} ClimbSpell<V>(ex: (V, Infix, V) -> Outcome<V>, t: Tree<V>, tail: Tail<V>, p: nat)
    requires Grouped(t) && 2 <= p <= RootPrecedence(t) && TailPrecedence(tail) <= RootPrecedence(t)
    ensures Climb(ex, Spell(t, tail), p) == Resume(ex, Eval(ex, t), tail, p)
    decreases t
  {
    hide Climb;
    if t.Node? {
      var q := Precedence(t.op) + 1;
      ClimbSpell(ex, t.left, Then(t.op, Spell(t.right, tail)), p);
      ClimbSpell(ex, t.right, tail, q);
      var l, r := Eval(ex, t.left), Eval(ex, t.right);
      if l.Value? {
        ClimbInfix(ex, l.v, t.op, Spell(t.right, tail), p);
        if r.Value? {
          ClimbStops(ex, r.v, tail, q);
        }
      }
    }
  }

  /** A closed stream evaluates to the value, or the first error, of any grouped tree that
      spells it. */
  lemma StreamEvaluatesToTree<V>(ex: (V, Infix, V) -> Outcome<V>, v: V, items: seq<(Infix, V)>, pos: nat, t: Tree<V>)
    requires Grouped(t) && First(t) == v && Infixes(t) == items
    ensures Evaluate(ex, Stream(v, items, EndAt(pos))) == EndsAt(Eval(ex, t), pos)
  {
    SpellIsStream(t, EndAt(pos));
    ClimbSpell(ex, t, EndAt(pos), 2);
  }

  // ----- Streams that cannot be read to the end --------------------------------------------

  /** The tokens of a stream whose last operand, or what should follow it, cannot be read. */
  function Broken<V>(v: V, items: seq<(Infix, V)>, e: Error): Toks<V> {
    if items == [] then Unreadable(e) else Operand(v, Then(items[0].0, Broken(items[0].1, items[1..], e)))
  }

  function SpellBroken<V>(t: Tree<V>, e: Error): Toks<V> {
    if t.Leaf? then Unreadable(e) else Spell(t.left, Then(t.op, SpellBroken(t.right, e)))
  }

  /** The first error of a tree whose last operand is missing: of the operations whose operands
      are all there, in order, or else the reading error. */
  function PrefixError<V>(ex: (V, Infix, V) -> Outcome<V>, t: Tree<V>, e: Error): Error {
    match t
    case Leaf(_) => e
    case Node(l, _, r) =>
      match Eval(ex, l)
      case Err(x) => x
      case Value(_) => PrefixError(ex, r, e)
  }

  lemma {:induction false} BrokenAppend<V>(v: V, a: seq<(Infix, V)>, op: Infix, u: V, b: seq<(Infix, V)>, e: Error)
    ensures Broken(v, a + [(op, u)] + b, e) == Stream(v, a, Then(op, Broken(u, b, e)))
  {
    var s := a + [(op, u)] + b;
    if a == [] {
      assert s[1..] == b;
    } else {
      BrokenAppend(a[0].1, a[1..], op, u, b, e);
      assert s[1..] == a[1..] + [(op, u)] + b;
    }
  }

  lemma {:induction false} SpellBrokenIsBroken<V>(t: Tree<V>, e: Error)
    ensures SpellBroken(t, e) == Broken(First(t), Infixes(t), e)
  {
    if t.Node? {
      SpellBrokenIsBroken(t.right, e);
      SpellIsStream(t.left, Then(t.op, SpellBroken(t.right, e)));
      BrokenAppend(First(t.left), Infixes(t.left), t.op, First(t.right), Infixes(t.right), e);
    }
  }

  lemma {:induction false} ClimbBroken<V>(ex: (V, Infix, V) -> Outcome<V>, t: Tree<V>, e: Error, p: nat)
    requires Grouped(t) && 2 <= p <= RootPrecedence(t)
    ensures Climb(ex, SpellBroken(t, e), p) == Stop(PrefixError(ex, t, e))
    decreases t
  {
    if t.Node? {
      hide Climb;
      var rest := SpellBroken(t.right, e);
      ClimbSpell(ex, t.left, Then(t.op, rest), p);
      ClimbBroken(ex, t.right, e, Precedence(t.op) + 1);
      var l := Eval(ex, t.left);
      if l.Value? {
        ClimbInfix(ex, l.v, t.op, rest, p);
      }
    }
  }

  /** A stream that cannot be read to its end evaluates to the first error among the operations
      that the tokens before it complete, and otherwise to the reading error. */
  lemma BrokenStreamFails<V>(ex: (V, Infix, V) -> Outcome<V>, v: V, items: seq<(Infix, V)>, e: Error, t: Tree<V>)
    requires Grouped(t) && First(t) == v && Infixes(t) == items
    ensures Evaluate(ex, Broken(v, items, e)) == Err(PrefixError(ex, t, e))
  {
    SpellBrokenIsBroken(t, e);
    ClimbBroken(ex, t, e, 2);
  }

  // ----- The tree of a stream --------------------------------------------------------------

  /** Adds an operator and operand at the right end, under the operators that bind looser. */
  function Insert<V>(t: Tree<V>, op: Infix, v: V): Tree<V> {
    if RootPrecedence(t) >= Precedence(op) then Node(t, op, Leaf(v)) else Node(t.left, t.op, Insert(t.right, op, v))
  }

  lemma {:induction false} InsertGroups<V>(t: Tree<V>, op: Infix, v: V)
    requires Grouped(t)
    ensures Grouped(Insert(t, op, v)) && First(Insert(t, op, v)) == First(t)
    ensures Infixes(Insert(t, op, v)) == Infixes(t) + [(op, v)]
    ensures RootPrecedence(Insert(t, op, v))
         == if RootPrecedence(t) < Precedence(op) then RootPrecedence(t) else Precedence(op)
    decreases t
  {
    if RootPrecedence(t) < Precedence(op) {
      InsertGroups(t.right, op, v);
    }
  }

  function TreeOf<V>(v: V, items: seq<(Infix, V)>): Tree<V> {
    if items == [] then Leaf(v)
    else var n := |items| - 1; Insert(TreeOf(v, items[..n]), items[n].0, items[n].1)
  }

  /** Every token sequence is spelled by a grouped tree. */
  lemma {:induction false} TreeOfSpells<V>(v: V, items: seq<(Infix, V)>)
    ensures Grouped(TreeOf(v, items)) && First(TreeOf(v, items)) == v && Infixes(TreeOf(v, items)) == items
  {
    if items != [] {
      var n := |items| - 1;
      TreeOfSpells(v, items[..n]);
      InsertGroups(TreeOf(v, items[..n]), items[n].0, items[n].1);
      assert items == items[..n] + [(items[n].0, items[n].1)];
    }
  }

  function Leaves<V>(t: Tree<V>): Tree<Tree<V>> {
    match t
    case Leaf(v) => Leaf(t)
    case Node(l, op, r) => Node(Leaves(l), op, Leaves(r))
  }

  function LeafItems<V>(items: seq<(Infix, V)>): (s: seq<(Infix, Tree<V>)>)
    ensures |s| == |items|
    ensures forall i :: 0 <= i < |items| ==> s[i] == (items[i].0, Leaf(items[i].1))
  {
    seq(|items|, i requires 0 <= i < |items| => (items[i].0, Leaf(items[i].1)))
  }

  lemma {:induction false} LeavesFacts<V>(t: Tree<V>)
    ensures Grouped(t) ==> Grouped(Leaves(t))
    ensures RootPrecedence(Leaves(t)) == RootPrecedence(t)
    ensures First(Leaves(t)) == Leaf(First(t)) && Infixes(Leaves(t)) == LeafItems(Infixes(t))
    ensures Eval((a, o, b) => Value(Node(a, o, b)), Leaves(t)) == Value(t)
  {
    if t.Node? {
      LeavesFacts(t.left);
      LeavesFacts(t.right);
    }
  }

  /** The grouped tree of a token sequence is unique. */
  lemma GroupedTreeIsUnique<V>(t: Tree<V>, u: Tree<V>)
    requires Grouped(t) && Grouped(u) && First(t) == First(u) && Infixes(t) == Infixes(u)
    ensures t == u
  {
    LeavesFacts(t);
    LeavesFacts(u);
    var build := (a: Tree<V>, o: Infix, b: Tree<V>) => Value(Node(a, o, b));
    StreamEvaluatesToTree(build, Leaf(First(t)), LeafItems(Infixes(t)), 0, Leaves(t));
    StreamEvaluatesToTree(build, Leaf(First(t)), LeafItems(Infixes(t)), 0, Leaves(u));
  }

  // ----- The operator stack ----------------------------------------------------------------

  datatype Frame<V> = Frame(v: V, op: Infix)

  /** Stacked operators bind ever tighter. */
  predicate Increasing<V>(stack: seq<Frame<V>>) {
    forall i, j :: 0 <= i < j < |stack| ==> Precedence(stack[i].op) < Precedence(stack[j].op)
  }

  lemma {:induction false} IncreasingIsShallow<V>(stack: seq<Frame<V>>)
    requires Increasing(stack) && stack != []
    ensures |stack| + 1 <= Precedence(stack[|stack| - 1].op)
    decreases |stack|
  {
    if |stack| > 1 {
      IncreasingIsShallow(stack[..|stack| - 1]);
    }
  }

  /** What the stack and the remaining tokens still amount to. */
  function Finish<V>(ex: (V, Infix, V) -> Outcome<V>, stack: seq<Frame<V>>, t: Toks<V>): Outcome<(V, nat)>
    decreases |stack|
  {
    if stack == [] then Evaluate(ex, t) else
    var top := stack[|stack| - 1];
    match Climb(ex, t, Precedence(top.op) + 1)
    case Stop(e) => Err(e)
    case At(r, tail) =>
      match ex(top.v, top.op, r)
      case Err(e) => Err(e)
      case Value(x) => Finish(ex, stack[..|stack| - 1], Operand(x, tail))
  }

  lemma FinishShift<V>(ex: (V, Infix, V) -> Outcome<V>, stack: seq<Frame<V>>, v: V, op: Infix, rest: Toks<V>)
    requires stack != [] ==> Precedence(stack[|stack| - 1].op) < Precedence(op)
    ensures Finish(ex, stack, Operand(v, Then(op, rest))) == Finish(ex, stack + [Frame(v, op)], rest)
  {
    hide Climb;
    var pushed := stack + [Frame(v, op)];
    assert pushed[..|pushed| - 1] == stack;
    if stack == [] {
      ClimbInfix(ex, v, op, rest, 2);
    } else {
      assert pushed[|stack| - 1] == stack[|stack| - 1];
      ClimbInfix(ex, v, op, rest, Precedence(stack[|stack| - 1].op) + 1);
    }
  }

  lemma FinishReduce<V>(ex: (V, Infix, V) -> Outcome<V>, stack: seq<Frame<V>>, v: V, tail: Tail<V>)
    requires stack != [] && TailPrecedence(tail) <= Precedence(stack[|stack| - 1].op)
    ensures var top := stack[|stack| - 1];
            var o := ex(top.v, top.op, v);
            Finish(ex, stack, Operand(v, tail))
            == if o.Err? then Err(o.e) else Finish(ex, stack[..|stack| - 1], Operand(o.v, tail))
  {
    hide Climb;
    ClimbStops(ex, v, tail, Precedence(stack[|stack| - 1].op) + 1);
  }
}
