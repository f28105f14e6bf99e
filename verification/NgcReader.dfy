/** The mutually recursive reader of numbers, parameters, functions and expressions in a
    NUL-terminated line. */
module NgcReader {
  import opened CText
  import opened Expression
  import opened Options

  function CharAt(line: CString, pos: nat): char {
    if pos < |line| then line[pos] else '\0'
  }

  predicate Starts(line: CString, pos: nat, word: string)
    requires pos <= |line|
  {
    pos + |word| <= |line| && line[pos..pos + |word|] == word
  }

  predicate IsAlpha(c: char) { 'A' <= c <= 'Z' || 'a' <= c <= 'z' }

  predicate IsSpace(c: char) { c == ' ' || '\t' <= c <= '\r' }

  function ToUpper(c: char): char {
    if 'a' <= c <= 'z' then (c as int - 32) as char else c
  }

  datatype UnaryOp = ABS | ACOS | ASIN | ATAN | COS | EXP | FIX | FUP | LN | Round | SIN | SQRT | TAN | Exists

  /** A parameter named by text, or numbered when the name is empty. */
  datatype ParamRef = ParamRef(name: string, id: int)

  /** The arithmetic and the parameter tables that the reader consults. */
  datatype Env = Env(
    binary: (real, Infix, real) -> Outcome<real>,
    unary: (real, UnaryOp) -> Outcome<real>,
    atan2: (real, real) -> real,
    getParam: ParamRef -> Option<real>,
    exists_: string -> bool,
    toId: real -> int)

  /** A value and the position after its text, or an error. */
  datatype Read<+T> = Got(v: T, pos: nat) | Bad(e: Error)

  /** Success moves forward and stays within the line. */
  predicate Advances<T>(r: Read<T>, pos: nat, line: CString) {
    r.Got? ==> pos < r.pos <= |line|
  }

  // ----- Words -----------------------------------------------------------------------------

  function Word<T>(line: CString, pos: nat, word: string, v: T): (r: Read<T>)
    requires pos < |line| && word != []
    ensures Advances(r, pos, line)
    ensures r.Got? <==> Starts(line, pos, word)
    ensures r.Got? ==> r == Got(v, pos + |word|)
  {
    if Starts(line, pos, word) then Got(v, pos + |word|) else Bad(ExpressionUnknownOp)
  }

  function OrElse<T>(a: Read<T>, b: Read<T>): Read<T> {
    if a.Got? then a else b
  }

  /** Reads a binary operator or the closing bracket. */
  function ReadOperation(line: CString, pos: nat): (r: Read<BinaryOp>)
    requires pos <= |line|
    ensures Advances(r, pos, line)
  {
    match CharAt(line, pos)
    case '+' => Got(Plus, pos + 1)
    case '-' => Got(Minus, pos + 1)
    case '/' => Got(DividedBy, pos + 1)
    case '*' => OrElse(Word(line, pos, "**", Power), Got(Times, pos + 1))
    case ']' => Got(RightBracket, pos + 1)
    case 'A' => Word(line, pos, "AND", And2)
    case 'M' => Word(line, pos, "MOD", Modulo)
    case 'O' => Word(line, pos, "OR", NotExclusiveOR)
    case 'X' => Word(line, pos, "XOR", ExclusiveOR)
    case 'E' => Word(line, pos, "EQ", EQ)
    case 'N' => Word(line, pos, "NE", NE)
    case 'G' => OrElse(Word(line, pos, "GE", GE), Word(line, pos, "GT", GT))
    case 'L' => OrElse(Word(line, pos, "LE", LE), Word(line, pos, "LT", LT))
    case _ => Bad(ExpressionUnknownOp)
  }

  function ReadOperationUnary(line: CString, pos: nat): (r: Read<UnaryOp>)
    requires pos <= |line|
    ensures Advances(r, pos, line)
  {
    match CharAt(line, pos)
    case 'A' =>
      OrElse(Word(line, pos, "ABS", ABS),
             OrElse(Word(line, pos, "ACOS", ACOS),
                    OrElse(Word(line, pos, "ASIN", ASIN), Word(line, pos, "ATAN", ATAN))))
    case 'C' => Word(line, pos, "COS", COS)
    case 'E' => OrElse(Word(line, pos, "EXP", EXP), Word(line, pos, "EXISTS", Exists))
    case 'F' => OrElse(Word(line, pos, "FIX", FIX), Word(line, pos, "FUP", FUP))
    case 'L' => Word(line, pos, "LN", LN)
    case 'R' => Word(line, pos, "ROUND", Round)
    case 'S' => OrElse(Word(line, pos, "SIN", SIN), Word(line, pos, "SQRT", SQRT))
    case 'T' => Word(line, pos, "TAN", TAN)
    case _ => Bad(ExpressionUnknownOp)
  }

  /** The index of the first `stop` at or after `pos`, or the end of the line. */
  function ScanTo(line: CString, pos: nat, stop: char): (i: nat)
    requires pos <= |line|
    ensures pos <= i <= |line|
    ensures i < |line| ==> line[i] == stop
    ensures stop !in line[pos..i]
    decreases |line| - pos
  {
    if pos == |line| || line[pos] == stop then pos else ScanTo(line, pos + 1, stop)
  }

  /** Parameter names ignore white space and case. */
  function ParamName(s: string): string {
    if s == "" then "" else (if IsSpace(s[0]) then "" else [ToUpper(s[0])]) + ParamName(s[1..])
  }

  // ----- Literals --------------------------------------------------------------------------

  const MAX_INT_DIGITS := 8

  function Wrap8(x: int): int { (x + 128) % 256 - 128 }

  /** read_float's accumulators. */
  datatype Digits = Digits(intval: nat, exp: int, count: nat, decimal: bool)

  function Take(d: Digits, c: char): Digits
    requires IsDigit(c)
  {
    if d.count < MAX_INT_DIGITS then
      Digits(d.intval * 10 + DigitValue(c), if d.decimal then Wrap8(d.exp - 1) else d.exp, d.count + 1, d.decimal)
    else
      Digits(d.intval, if d.decimal then d.exp else Wrap8(d.exp + 1), d.count + 1, d.decimal)
  }

  /** Digits and at most one point, from `pos` on. */
  function ScanDigits(line: CString, pos: nat, d: Digits): (r: (Digits, nat))
    requires pos <= |line|
    ensures pos <= r.1 <= |line|
    ensures r.0.count >= d.count && (r.0.count > d.count ==> r.1 > pos)
    decreases |line| - pos
  {
    var c := CharAt(line, pos);
    if IsDigit(c) then ScanDigits(line, pos + 1, Take(d, c))
    else if c == '.' && !d.decimal then ScanDigits(line, pos + 1, d.(decimal := true))
    else (d, pos)
  }

  function Pow10(e: int): (r: real)
    ensures r > 0.0
    decreases if e < 0 then -e else e
  {
    if e == 0 then 1.0 else if e > 0 then 10.0 * Pow10(e - 1) else 0.1 * Pow10(e + 1)
  }

  function Scaled(intval: nat, exp: int): real {
    intval as real * Pow10(exp)
  }

  function ReadFloat(line: CString, pos: nat): (r: Read<real>)
    requires pos <= |line|
    ensures Advances(r, pos, line)
  {
    var c := CharAt(line, pos);
    var start := if c == '-' || c == '+' then pos + 1 else pos;
    var (d, end) := ScanDigits(line, start, Digits(0, 0, 0, false));
    if d.count == 0 then Bad(BadNumberFormat)
    else var f := Scaled(d.intval, d.exp); Got(if c == '-' then -f else f, end)
  }

  // ----- The recursive reader --------------------------------------------------------------

  /** get_param_ref(), after the `#`. */
  function GetParamRef(env: Env, line: CString, pos: nat): (r: Read<ParamRef>)
    requires pos <= |line|
    ensures Advances(r, pos, line)
    decreases |line| - pos, 3
  {
    match CharAt(line, pos)
    case '#' =>
      (match GetParamRef(env, line, pos + 1)
       case Bad(e) => Bad(e)
       case Got(next, p) =>
         match env.getParam(next)
         case None => Bad(BadNumberFormat)
         case Some(v) => Got(ParamRef("", env.toId(v)), p))
    case '<' =>
      var end := ScanTo(line, pos + 1, '>');
      if end == |line| then Bad(BadNumberFormat) else Got(ParamRef(ParamName(line[pos + 1..end]), 0), end + 1)
    case '[' =>
      (match EvalExpression(env, line, pos)
       case Bad(e) => Bad(BadNumberFormat)
       case Got(v, p) => Got(ParamRef("", env.toId(v)), p))
    case _ =>
      match ReadFloat(line, pos)
      case Bad(e) => Bad(e)
      case Got(v, p) => Got(ParamRef("", env.toId(v)), p)
  }

  /** read_number(): every failure is reported alike. */
  function ReadNumber(env: Env, line: CString, pos: nat, inExpression: bool): (r: Read<real>)
    requires pos <= |line|
    ensures Advances(r, pos, line)
    ensures r.Bad? ==> r.e == BadNumberFormat
    decreases |line| - pos, 3
  {
    var c := CharAt(line, pos);
    if c == '#' then
      match GetParamRef(env, line, pos + 1)
      case Bad(_) => Bad(BadNumberFormat)
      case Got(ref, p) =>
        match env.getParam(ref)
        case None => Bad(BadNumberFormat)
        case Some(v) => Got(v, p)
    else if c == '[' then
      OrBadNumber(EvalExpression(env, line, pos))
    else if inExpression && IsAlpha(c) then
      OrBadNumber(ReadUnary(env, line, pos))
    else if inExpression && c == '-' then
      match ReadNumber(env, line, pos + 1, true)
      case Bad(e) => Bad(e)
      case Got(v, p) => Got(-v, p)
    else if inExpression && c == '+' then
      ReadNumber(env, line, pos + 1, true)
    else
      OrBadNumber(ReadFloat(line, pos))
  }

  function OrBadNumber(r: Read<real>): Read<real> {
    if r.Got? then r else Bad(BadNumberFormat)
  }

  function ReadUnary(env: Env, line: CString, pos: nat): (r: Read<real>)
    requires pos <= |line|
    ensures Advances(r, pos, line)
    decreases |line| - pos, 2
  {
    match ReadOperationUnary(line, pos)
    case Bad(e) => Bad(e)
    case Got(op, p) =>
      if CharAt(line, p) != '[' then Bad(ExpressionSyntaxError)
      else if op == Exists then
        var end := ScanTo(line, p + 1, ']');
        if end == |line| then Bad(ExpressionSyntaxError)
        else Got(if env.exists_(line[p + 1..end]) then 1.0 else 0.0, end + 1)
      else match EvalExpression(env, line, p)
        case Bad(e) => Bad(e)
        case Got(v, q) =>
          if op == ATAN then ReadAtan(env, line, q, v) else
          match env.unary(v, op)
          case Err(e) => Bad(e)
          case Value(x) => Got(x, q)
  }

  /** The slash and second argument of ATAN. */
  function ReadAtan(env: Env, line: CString, pos: nat, v: real): (r: Read<real>)
    requires pos <= |line|
    ensures Advances(r, pos, line)
    decreases |line| - pos, 2
  {
    if CharAt(line, pos) != '/' || CharAt(line, pos + 1) != '[' then Bad(ExpressionSyntaxError)
    else match EvalExpression(env, line, pos + 1)
      case Bad(e) => Bad(e)
      case Got(u, p) => Got(env.atan2(v, u), p)
  }

  /** The value of the expression whose `[` is at `pos`. */
  function EvalExpression(env: Env, line: CString, pos: nat): (r: Read<real>)
    requires pos <= |line|
    ensures Advances(r, pos, line)
    decreases |line| - pos, 1
  {
    if CharAt(line, pos) != '[' then Bad(GcodeUnsupportedCommand) else
    var t := Items(env, line, pos + 1);
    EvaluateEndsWithin(env.binary, t, pos + 1, |line|);
    match Evaluate(env.binary, t)
    case Err(e) => Bad(e)
    case Value((v, end)) => Got(v, end)
  }

  /** The operands and operators from `pos` to the matching bracket or the first error. */
  function Items(env: Env, line: CString, pos: nat): (t: Toks<real>)
    requires pos <= |line|
    ensures EndsWithin(t, pos, |line|)
    decreases |line| - pos, 4
  {
    match ReadNumber(env, line, pos, true)
    case Bad(e) => Unreadable(e)
    case Got(v, p) =>
      match ReadOperation(line, p)
      case Bad(e) => Unreadable(e)
      case Got(op, q) => if op == RightBracket then Operand(v, EndAt(q)) else
        var rest := Items(env, line, q);
        EndsWithinWeaken(rest, q, pos, |line|);
        Operand(v, Then(op, rest))
  }

  /** If the stream closes, it closes in (lo, hi]. */
  predicate EndsWithin(t: Toks<real>, lo: nat, hi: nat) {
    t.Unreadable? || (if t.tail.EndAt? then lo < t.tail.pos <= hi else EndsWithin(t.tail.rest, lo, hi))
  }

  lemma EndsWithinWeaken(t: Toks<real>, lo: nat, lo': nat, hi: nat)
    requires EndsWithin(t, lo, hi) && lo' <= lo
    ensures EndsWithin(t, lo', hi)
  {}

  lemma {:induction false} ClimbKeepsEnd(ex: (real, Infix, real) -> Outcome<real>, t: Toks<real>, p: nat,
                                         lo: nat, hi: nat)
    requires p >= 2 && EndsWithin(t, lo, hi)
    ensures var r := Climb(ex, t, p); r.At? ==> EndsWithin(Operand(r.v, r.tail), lo, hi)
    decreases Size(t)
  {
    if t.Operand? && TailPrecedence(t.tail) >= p {
      ClimbKeepsEnd(ex, t.tail.rest, Precedence(t.tail.op) + 1, lo, hi);
      var r := Climb(ex, t.tail.rest, Precedence(t.tail.op) + 1);
      if r.At? {
        var o := ex(t.v, t.tail.op, r.v);
        if o.Value? {
          ClimbKeepsEnd(ex, Operand(o.v, r.tail), p, lo, hi);
        }
      }
    }
  }

  lemma EvaluateEndsWithin(ex: (real, Infix, real) -> Outcome<real>, t: Toks<real>, lo: nat, hi: nat)
    requires EndsWithin(t, lo, hi)
    ensures var o := Evaluate(ex, t); o.Value? ==> lo < o.v.1 <= hi
  {
    hide Climb;
    ClimbKeepsEnd(ex, t, 2, lo, hi);
  }

  /** Every stream either closes or cannot be read to its end. */
  lemma {:induction false} StreamOrBroken(t: Toks<real>)
    returns (v: real, items: seq<(Infix, real)>, end: nat, e: Error)
    ensures t == Stream(v, items, EndAt(end)) || t == Broken(v, items, e)
    decreases Size(t)
  {
    v, items, end, e := 0.0, [], 0, BadNumberFormat;
    if t.Unreadable? {
      e := t.e;
    } else if t.tail.EndAt? {
      v, end := t.v, t.tail.pos;
    } else {
      var u, rest, end', e' := StreamOrBroken(t.tail.rest);
      v, items, end, e := t.v, [(t.tail.op, u)] + rest, end', e';
      assert items[1..] == rest;
    }
  }

  /** Every expression on every line has a grouped tree, unique but for a last operand that
      cannot be read.  Read to its end, the expression has the tree's value or first error;
      otherwise it fails with the first error among the operations completed before the
      unreadable text, or else with the reading error. */
  lemma ExpressionIsTreeValue(env: Env, line: CString, pos: nat) returns (t: Tree<real>, end: nat, e: Error)
    requires pos <= |line| && CharAt(line, pos) == '['
    ensures Grouped(t)
    ensures var items := Items(env, line, pos + 1);
            var r := EvalExpression(env, line, pos);
            || (&& items == Stream(First(t), Infixes(t), EndAt(end))
                && r == match Eval(env.binary, t)
                        case Err(x) => Bad(x)
                        case Value(v) => Got(v, end))
            || (items == Broken(First(t), Infixes(t), e) && r == Bad(PrefixError(env.binary, t, e)))
  {
    hide Items;
    hide Evaluate;
    var v, items, end', e' := StreamOrBroken(Items(env, line, pos + 1));
    t, end, e := TreeOf(v, items), end', e';
    TreeOfSpells(v, items);
    StreamEvaluatesToTree(env.binary, v, items, end, t);
    BrokenStreamFails(env.binary, v, items, e, t);
  }

  // ----- The evaluator in place ------------------------------------------------------------

  const MAX_STACK := 7

  /** The first `n` slots of the two arrays, as a stack. */
  ghost function Frames(values: seq<real>, operators: seq<BinaryOp>, n: nat): (s: seq<Frame<real>>)
    requires n <= |values| && n <= |operators|
    requires forall i :: 0 <= i < n ==> operators[i] != RightBracket
    ensures |s| == n && forall i :: 0 <= i < n ==> s[i] == Frame(values[i], operators[i])
  {
    seq(n, i requires 0 <= i < n => Frame(values[i], operators[i]))
  }

  /** What follows an operand when `op` has been read up to `pos`. */
  ghost function TailAt(env: Env, line: CString, op: BinaryOp, pos: nat): Tail<real>
    requires pos <= |line|
  {
    if op == RightBracket then EndAt(pos) else Then(op, Items(env, line, pos))
  }

  /** The loops invariant: `n` stacked frames with rising precedence, the pair in slot `n`
      still to be placed, and together they amount to `whole`. */
  ghost predicate Pending(env: Env, line: CString, values: seq<real>, operators: seq<BinaryOp>, n: nat, pos: nat,
                          whole: Outcome<(real, nat)>) {
    && n < |values| == |operators| && pos <= |line|
    && (forall i :: 0 <= i < n ==> operators[i] != RightBracket)
    && Increasing(Frames(values, operators, n))
    && Finish(env.binary, Frames(values, operators, n),
              Operand(values[n], TailAt(env, line, operators[n], pos))) == whole
  }

  /** Leaving the pending pair where it is makes it a frame. */
  lemma ShiftPending(env: Env, line: CString, values: seq<real>, operators: seq<BinaryOp>, n: nat, pos: nat,
                     whole: Outcome<(real, nat)>)
    requires Pending(env, line, values, operators, n, pos, whole) && operators[n] != RightBracket
    requires n > 0 ==> Precedence(operators[n - 1]) < Precedence(operators[n])
    ensures n <= 4 && forall i :: 0 <= i < n + 1 ==> operators[i] != RightBracket
    ensures Increasing(Frames(values, operators, n + 1))
    ensures Finish(env.binary, Frames(values, operators, n + 1), Items(env, line, pos)) == whole
  {
    hide Finish;
    hide Items;
    var stack := Frames(values, operators, n);
    assert Frames(values, operators, n + 1) == stack + [Frame(values[n], operators[n])];
    IncreasingIsShallow(Frames(values, operators, n + 1));
    FinishShift(env.binary, stack, values[n], operators[n], Items(env, line, pos));
  }

  /** Executing the last stacked operator moves the pending pair down one slot. */
  lemma ReducePending(env: Env, line: CString, values: seq<real>, operators: seq<BinaryOp>, n: nat, pos: nat,
                      whole: Outcome<(real, nat)>)
    requires Pending(env, line, values, operators, n, pos, whole)
    requires n > 0 && Precedence(operators[n]) <= Precedence(operators[n - 1])
    ensures var o := env.binary(values[n - 1], operators[n - 1], values[n]);
            if o.Err? then whole == Err(o.e)
            else Pending(env, line, values[n - 1 := o.v], operators[n - 1 := operators[n]], n - 1, pos, whole)
  {
    hide Finish;
    hide Items;
    var stack := Frames(values, operators, n);
    FinishReduce(env.binary, stack, values[n], TailAt(env, line, operators[n], pos));
    var o := env.binary(values[n - 1], operators[n - 1], values[n]);
    if o.Value? {
      assert Frames(values[n - 1 := o.v], operators[n - 1 := operators[n]], n - 1) == stack[..n - 1];
    }
  }

  /** An unreadable item is the result; a readable one becomes the pending pair. */
  lemma ReadPending(env: Env, line: CString, stack: seq<Frame<real>>, pos: nat)
    requires pos <= |line|
    ensures var number := ReadNumber(env, line, pos, true);
            var rest := Finish(env.binary, stack, Items(env, line, pos));
            if number.Bad? then rest == Err(BadNumberFormat)
            else
              var operation := ReadOperation(line, number.pos);
              if operation.Bad? then rest == Err(operation.e)
              else rest == Finish(env.binary, stack, Operand(number.v, TailAt(env, line, operation.v, operation.pos)))
  {}

  /** The inner loop of expression(): executes while the new operator does not bind tighter. */
  method ReduceInPlace(env: Env, line: CString, values: array<real>, operators: array<BinaryOp>, index: nat, p: nat,
                       ghost whole: Outcome<(real, nat)>) returns (stackIndex: nat, status: Outcome<()>)
    requires values.Length == operators.Length == MAX_STACK
    requires 1 <= index && Pending(env, line, values[..], operators[..], index, p, whole)
    requires Precedence(operators[index]) <= Precedence(operators[index - 1])
    modifies values, operators
    ensures status.Err? ==> whole == Err(status.e)
    ensures status.Value? ==> 1 <= stackIndex <= index && (stackIndex > 1 ==> operators[0] != RightBracket)
    ensures status.Value? ==> Pending(env, line, values[..], operators[..], stackIndex - 1, p, whole)
    ensures status.Value? && stackIndex > 1 ==>
              Precedence(operators[stackIndex - 2]) < Precedence(operators[stackIndex - 1])
  {
    hide Finish;
    hide Increasing;
    hide TailAt;
    stackIndex := index;
    while Precedence(operators[stackIndex]) <= Precedence(operators[stackIndex - 1])
      invariant 1 <= stackIndex <= index
      invariant Pending(env, line, values[..], operators[..], stackIndex, p, whole)
      invariant Precedence(operators[stackIndex]) <= Precedence(operators[stackIndex - 1])
      decreases stackIndex
    {
      ReducePending(env, line, values[..], operators[..], stackIndex, p, whole);
      var o := env.binary(values[stackIndex - 1], operators[stackIndex - 1], values[stackIndex]);
      if o.Err? {
        return stackIndex, Err(o.e);
      }
      ghost var vs, os := values[..], operators[..];
      values[stackIndex - 1] := o.v;
      operators[stackIndex - 1] := operators[stackIndex];
      assert values[..] == vs[stackIndex - 1 := o.v] && operators[..] == os[stackIndex - 1 := os[stackIndex]];
      if stackIndex > 1 && Precedence(operators[stackIndex - 1]) <= Precedence(operators[stackIndex - 2]) {
        stackIndex := stackIndex - 1;
      } else {
        break;
      }
    }
    status := Value(());
  }

  /** Reads an operand and an operator into slot `index`. */
  method ReadInto(env: Env, line: CString, values: array<real>, operators: array<BinaryOp>, index: nat, p: nat,
                  ghost whole: Outcome<(real, nat)>) returns (end: nat, status: Outcome<()>)
    requires values.Length == operators.Length == MAX_STACK && index < MAX_STACK && p <= |line|
    requires forall i :: 0 <= i < index ==> operators[i] != RightBracket
    requires Increasing(Frames(values[..], operators[..], index))
    requires Finish(env.binary, Frames(values[..], operators[..], index), Items(env, line, p)) == whole
    modifies values, operators
    ensures status.Err? ==> whole == Err(status.e)
    ensures status.Value? ==> p < end <= |line|
    ensures status.Value? ==> Pending(env, line, values[..], operators[..], index, end, whole)
    ensures forall i :: 0 <= i < index ==> operators[i] == old(operators[i])
  {
    hide ReadNumber;
    hide ReadOperation;
    hide Items;
    hide Finish;
    hide Increasing;
    ghost var stack := Frames(values[..], operators[..], index);
    ReadPending(env, line, stack, p);
    var number := ReadNumber(env, line, p, true);
    if number.Bad? {
      return p, Err(BadNumberFormat);
    }
    var operation := ReadOperation(line, number.pos);
    if operation.Bad? {
      return p, Err(operation.e);
    }
    values[index] := number.v;
    operators[index] := operation.v;
    assert Frames(values[..], operators[..], index) == stack;
    return operation.pos, Value(());
  }

  lemma PendingOpened(env: Env, line: CString, values: seq<real>, operators: seq<BinaryOp>, pos: nat)
    requires pos <= |line|
    ensures Increasing(Frames(values, operators, 0))
    ensures Finish(env.binary, Frames(values, operators, 0), Items(env, line, pos))
         == Evaluate(env.binary, Items(env, line, pos))
  {
    assert Frames(values, operators, 0) == [];
  }

  lemma PendingClosed(env: Env, line: CString, values: seq<real>, operators: seq<BinaryOp>, pos: nat,
                      whole: Outcome<(real, nat)>)
    requires Pending(env, line, values, operators, 0, pos, whole) && operators[0] == RightBracket
    ensures whole == Value((values[0], pos))
  {
    assert Frames(values, operators, 0) == [];
  }

  /** The body of expression() after `[`: seven-slot arrays overwritten in place. */
  method EvaluateInPlace(env: Env, line: CString, start: nat) returns (r: Outcome<(real, nat)>)
    requires start <= |line|
    ensures r == Evaluate(env.binary, Items(env, line, start))
  {
    hide Items;
    hide Evaluate;
    hide Finish;
    hide Frames;
    hide Increasing;
    hide Pending;
    ghost var whole := Evaluate(env.binary, Items(env, line, start));
    var values := new real[MAX_STACK];
    var operators := new BinaryOp[MAX_STACK];
    var stackIndex := 1;
    PendingOpened(env, line, values[..], operators[..], start);
    var p, status := ReadInto(env, line, values, operators, 0, start, whole);
    if status.Err? {
      return Err(status.e);
    }
    while operators[0] != RightBracket
      invariant 1 <= stackIndex < MAX_STACK && p <= |line|
      invariant Pending(env, line, values[..], operators[..], stackIndex - 1, p, whole)
      invariant stackIndex > 1 ==> operators[0] != RightBracket
      invariant stackIndex > 1 ==> Precedence(operators[stackIndex - 2]) < Precedence(operators[stackIndex - 1])
      decreases |line| - p
    {
      ShiftPending(env, line, values[..], operators[..], stackIndex - 1, p, whole);
      p, status := ReadInto(env, line, values, operators, stackIndex, p, whole);
      if status.Err? {
        return Err(status.e);
      }
      if Precedence(operators[stackIndex]) > Precedence(operators[stackIndex - 1]) {
        stackIndex := stackIndex + 1;
      } else {
        stackIndex, status := ReduceInPlace(env, line, values, operators, stackIndex, p, whole);
        if status.Err? {
          return Err(status.e);
        }
      }
    }
    PendingClosed(env, line, values[..], operators[..], p, whole);
    r := Value((values[0], p));
  }

  /** expression() */
  method ExpressionInPlace(env: Env, line: CString, pos: nat) returns (r: Read<real>)
    requires pos <= |line|
    ensures r == EvalExpression(env, line, pos)
  {
    hide Items;
    hide Evaluate;
    if CharAt(line, pos) != '[' {
      return Bad(GcodeUnsupportedCommand);
    }
    var o := EvaluateInPlace(env, line, pos + 1);
    r := if o.Err? then Bad(o.e) else Got(o.v.0, o.v.1);
  }
}
