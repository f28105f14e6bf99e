/** Expressions as text: a syntax of operands and operators with its spelling, given
    independently of the reader, and the proof that the reader evaluates the text of every
    expression to what the expression means. */
module ExpressionText {
  import opened CText
  import opened Expression
  import opened FloatLiteral
  import opened NgcReader
  import opened Options

  datatype Sign = Unsigned | Positive | Negative

  /** A decimal literal: digits, and perhaps a point and more digits. */
  datatype Literal = Literal(whole: string, point: bool, fraction: string)

  datatype Operand =
    | Num(lit: Literal)
    | Signed(minus: bool, x: Operand)
    | Group(e: Expr)
    | Param(ref: Ref)
    | Call(f: UnaryOp, e: Expr)
    | ArcTangent(y: Expr, x2: Expr)
    | Defined(name: string)

  datatype Ref =
    | Numbered(sign: Sign, lit: Literal)
    | Named(name: string)
    | Computed(e: Expr)
    | Indirect(ref: Ref)

  datatype Expr = Expr(first: Operand, rest: Rest)

  datatype Rest = Last | More(op: Infix, x: Operand, tail: Rest)

  // ----- What is an expression -------------------------------------------------------------

  predicate ValidLiteral(l: Literal) {
    && AllDigits(l.whole) && AllDigits(l.fraction) && l.whole + l.fraction != ""
    && (l.point || l.fraction == "")
  }

  predicate ValidOperand(x: Operand) {
    match x
    case Num(l) => ValidLiteral(l)
    case Signed(_, y) => ValidOperand(y)
    case Group(e) => ValidExpr(e)
    case Param(r) => ValidRef(r)
    case Call(f, e) => f != ATAN && f != Exists && ValidExpr(e)
    case ArcTangent(y, x2) => ValidExpr(y) && ValidExpr(x2)
    case Defined(name) => ']' !in name && '\0' !in name
  }

  predicate ValidRef(r: Ref) {
    match r
    case Numbered(_, l) => ValidLiteral(l)
    case Named(name) => '>' !in name && '\0' !in name
    case Computed(e) => ValidExpr(e)
    case Indirect(q) => ValidRef(q)
  }

  predicate ValidExpr(e: Expr) {
    ValidOperand(e.first) && ValidRest(e.rest)
  }

  predicate ValidRest(r: Rest) {
    r.More? ==> ValidOperand(r.x) && ValidRest(r.tail)
  }

  // ----- Its text, in front of a continuation `k` ------------------------------------------

  function Spelling(op: Infix): string {
    match op
    case Plus => "+"
    case Minus => "-"
    case Times => "*"
    case DividedBy => "/"
    case Power => "**"
    case Modulo => "MOD"
    case And2 => "AND"
    case NotExclusiveOR => "OR"
    case ExclusiveOR => "XOR"
    case EQ => "EQ"
    case NE => "NE"
    case LT => "LT"
    case LE => "LE"
    case GT => "GT"
    case GE => "GE"
  }

  function FunctionName(f: UnaryOp): string {
    match f
    case ABS => "ABS"
    case ACOS => "ACOS"
    case ASIN => "ASIN"
    case ATAN => "ATAN"
    case COS => "COS"
    case EXP => "EXP"
    case FIX => "FIX"
    case FUP => "FUP"
    case LN => "LN"
    case Round => "ROUND"
    case SIN => "SIN"
    case SQRT => "SQRT"
    case TAN => "TAN"
    case Exists => "EXISTS"
  }

  function PutLiteral(l: Literal, k: string): string {
    l.whole + ((if l.point then "." else "") + (l.fraction + k))
  }

  function PutSign(s: Sign): string {
    match s
    case Unsigned => ""
    case Positive => "+"
    case Negative => "-"
  }

  function PutOperand(x: Operand, k: string): string
    decreases x
  {
    match x
    case Num(l) => PutLiteral(l, k)
    case Signed(minus, y) => (if minus then "-" else "+") + PutOperand(y, k)
    case Group(e) => PutExpr(e, k)
    case Param(r) => "#" + PutRef(r, k)
    case Call(f, e) => FunctionName(f) + PutExpr(e, k)
    case ArcTangent(y, x2) => FunctionName(ATAN) + PutExpr(y, "/" + PutExpr(x2, k))
    case Defined(name) => FunctionName(Exists) + ("[" + (name + ("]" + k)))
  }

  function PutRef(r: Ref, k: string): string
    decreases r
  {
    match r
    case Numbered(s, l) => PutSign(s) + PutLiteral(l, k)
    case Named(name) => "<" + (name + (">" + k))
    case Computed(e) => PutExpr(e, k)
    case Indirect(q) => "#" + PutRef(q, k)
  }

  function PutExpr(e: Expr, k: string): string
    decreases e, 1
  {
    "[" + PutOperand(e.first, PutRest(e.rest, "]" + k))
  }

  function PutRest(r: Rest, k: string): string
    decreases r
  {
    match r
    case Last => k
    case More(op, x, tail) => Spelling(op) + PutOperand(x, PutRest(tail, k))
  }

  // ----- What it means ---------------------------------------------------------------------

  /** A literal's value as the firmware keeps it. */
  function LiteralWorth(l: Literal): real
    requires ValidLiteral(l)
  {
    var kept := Kept(l.whole + l.fraction);
    KeptDigits(l.whole + l.fraction);
    Scaled(Decimal(kept), Wrap8(|l.whole| - |kept|))
  }

  lemma KeptDigits(s: string)
    requires AllDigits(s)
    ensures AllDigits(Kept(s))
  {}

  const BAD: Outcome<real> := Err(BadNumberFormat)

  function Negated(o: Outcome<real>): Outcome<real> {
    match o
    case Err(e) => Err(e)
    case Value(v) => Value(-v)
  }

  /** Any failure in an operand is reported as a bad number. */
  function OrBad(o: Outcome<real>): Outcome<real> {
    if o.Value? then o else BAD
  }

  function Meaning(env: Env, x: Operand): (o: Outcome<real>)
    requires ValidOperand(x)
    ensures o.Err? ==> o == BAD
    decreases x, 0
  {
    match x
    case Num(l) => Value(LiteralWorth(l))
    case Signed(minus, y) => if minus then Negated(Meaning(env, y)) else Meaning(env, y)
    case Group(e) => OrBad(ExprMeaning(env, e))
    case Param(r) =>
      (match RefMeaning(env, r)
       case None => BAD
       case Some(ref) => match env.getParam(ref) case None => BAD case Some(v) => Value(v))
    case Call(f, e) =>
      (match ExprMeaning(env, e)
       case Err(_) => BAD
       case Value(v) => OrBad(env.unary(v, f)))
    case ArcTangent(y, x2) =>
      (match ExprMeaning(env, y)
       case Err(_) => BAD
       case Value(v) => match ExprMeaning(env, x2) case Err(_) => BAD case Value(u) => Value(env.atan2(v, u)))
    case Defined(name) => Value(if env.exists_(name) then 1.0 else 0.0)
  }

  /** The parameter a reference names. */
  function RefMeaning(env: Env, r: Ref): Option<ParamRef>
    requires ValidRef(r)
    decreases r, 0
  {
    match r
    case Numbered(s, l) => Some(ParamRef("", env.toId(if s == Negative then -LiteralWorth(l) else LiteralWorth(l))))
    case Named(name) => Some(ParamRef(ParamName(name), 0))
    case Computed(e) =>
      (match ExprMeaning(env, e)
       case Err(_) => None
       case Value(v) => Some(ParamRef("", env.toId(v))))
    case Indirect(q) =>
      match RefMeaning(env, q)
      case None => None
      case Some(ref) => match env.getParam(ref) case None => None case Some(v) => Some(ParamRef("", env.toId(v)))
  }

  /** Operators and the values of their right operands, up to the first operand that fails, for
      which a zero stands. */
  function RestMeaning(env: Env, r: Rest): (seq<(Infix, real)>, bool)
    requires ValidRest(r)
    decreases r, 1
  {
    match r
    case Last => ([], true)
    case More(op, x, tail) =>
      match Meaning(env, x)
      case Err(_) => ([(op, 0.0)], false)
      case Value(u) =>
        var (items, whole) := RestMeaning(env, tail);
        ([(op, u)] + items, whole)
  }

  /** The tree that the precedence table groups an expression's values into, and whether they are
      all there. */
  function ExprTree(env: Env, e: Expr): (Tree<real>, bool)
    requires ValidExpr(e)
    decreases e, 1
  {
    match Meaning(env, e.first)
    case Err(_) => (TreeOf(0.0, []), false)
    case Value(v) =>
      var (items, whole) := RestMeaning(env, e.rest);
      (TreeOf(v, items), whole)
  }

  /** The value of that tree; when an operand fails, the first error of the operations before it,
      or else a bad number. */
  function ExprMeaning(env: Env, e: Expr): Outcome<real>
    requires ValidExpr(e)
    decreases e, 2
  {
    var (t, whole) := ExprTree(env, e);
    if whole then Eval(env.binary, t) else Err(PrefixError(env.binary, t, BadNumberFormat))
  }

  // ----- Texts on a line -------------------------------------------------------------------

  /** The rest of the line from `pos` on is `t`. */
  predicate Rests(line: CString, pos: nat, t: string) {
    pos <= |line| && line[pos..] == t
  }

  lemma RestsChar(line: CString, pos: nat, c: char, t: string)
    requires Rests(line, pos, [c] + t)
    ensures CharAt(line, pos) == c && Rests(line, pos + 1, t)
  {
    assert line[pos] == line[pos..][0] && line[pos + 1..] == line[pos..][1..];
  }

  lemma RestsWord(line: CString, pos: nat, w: string, t: string)
    requires Rests(line, pos, w + t)
    ensures Starts(line, pos, w) && Rests(line, pos + |w|, t)
  {
    assert line[pos..pos + |w|] == line[pos..][..|w|];
    assert line[pos + |w|..] == line[pos..][|w|..];
  }

  lemma RestsAt(line: CString, pos: nat, t: string, i: nat)
    requires Rests(line, pos, t)
    ensures CharAt(line, pos + i) == if i < |t| then t[i] else '\0'
  {
    assert i < |t| ==> line[pos..][i] == line[pos + i];
  }

  /** A word with another character somewhere does not start here. */
  lemma NotStarts(line: CString, pos: nat, w: string, i: nat)
    requires pos <= |line| && i < |w| && CharAt(line, pos + i) != w[i] && w[i] != '\0'
    ensures !Starts(line, pos, w)
  {}

  // ----- Operators and function names ------------------------------------------------------

  /** The text after an operator does not turn it into a longer one. */
  predicate OperandText(t: string) {
    t != "" && t[0] != '*'
  }

  lemma OperatorReads(line: CString, pos: nat, op: Infix, t: string)
    requires Rests(line, pos, Spelling(op) + t) && OperandText(t)
    ensures ReadOperation(line, pos) == Got(op, pos + |Spelling(op)|)
    ensures Rests(line, pos + |Spelling(op)|, t)
  {
    var w := Spelling(op);
    RestsWord(line, pos, w, t);
    RestsAt(line, pos, w + t, 0);
    RestsAt(line, pos, w + t, 1);
    match op
    case Times => NotStarts(line, pos, "**", 1);
    case GT => NotStarts(line, pos, "GE", 1);
    case LT => NotStarts(line, pos, "LE", 1);
    case _ =>
  }

  lemma BracketReads(line: CString, pos: nat, t: string)
    requires Rests(line, pos, "]" + t)
    ensures ReadOperation(line, pos) == Got(RightBracket, pos + 1) && Rests(line, pos + 1, t)
  {
    RestsChar(line, pos, ']', t);
  }

  lemma FunctionReads(line: CString, pos: nat, f: UnaryOp, t: string)
    requires Rests(line, pos, FunctionName(f) + t)
    ensures ReadOperationUnary(line, pos) == Got(f, pos + |FunctionName(f)|)
    ensures Rests(line, pos + |FunctionName(f)|, t) && IsAlpha(CharAt(line, pos))
  {
    var w := FunctionName(f);
    RestsWord(line, pos, w, t);
    RestsAt(line, pos, w + t, 0);
    RestsAt(line, pos, w + t, 1);
    RestsAt(line, pos, w + t, 2);
    match f
    case ACOS => NotStarts(line, pos, "ABS", 1);
    case ASIN =>
      NotStarts(line, pos, "ABS", 1);
      NotStarts(line, pos, "ACOS", 1);
    case ATAN =>
      NotStarts(line, pos, "ABS", 1);
      NotStarts(line, pos, "ACOS", 1);
      NotStarts(line, pos, "ASIN", 1);
    case Exists => NotStarts(line, pos, "EXP", 2);
    case FUP => NotStarts(line, pos, "FIX", 1);
    case SQRT => NotStarts(line, pos, "SIN", 1);
    case _ =>
  }

  // ----- Literals --------------------------------------------------------------------------

  /** The text after a literal does not continue it. */
  predicate Stops(t: string) {
    t == "" || (!IsDigit(t[0]) && t[0] != '.')
  }

  /** Where the pieces of a literal stand. */
  lemma LiteralPlaces(line: CString, pos: nat, l: Literal, t: string)
    requires ValidLiteral(l) && Rests(line, pos, PutLiteral(l, t)) && Stops(t)
    ensures var end := pos + |l.whole| + (if l.point then 1 else 0) + |l.fraction|;
            && end == |line| - |t| && Starts(line, pos, l.whole)
            && (l.point ==> CharAt(line, pos + |l.whole|) == '.' && Starts(line, pos + |l.whole| + 1, l.fraction))
            && !IsDigit(CharAt(line, end)) && (l.point || CharAt(line, end) != '.')
  {
    var dot := if l.point then "." else "";
    RestsWord(line, pos, l.whole, dot + (l.fraction + t));
    RestsAt(line, pos + |l.whole|, dot + (l.fraction + t), 0);
    RestsWord(line, pos + |l.whole|, dot, l.fraction + t);
    RestsWord(line, pos + |l.whole| + |dot|, l.fraction, t);
    RestsAt(line, pos + |l.whole| + |dot| + |l.fraction|, t, 0);
  }

  /** The sign of a literal and where its digits start. */
  lemma SignStarts(line: CString, pos: nat, s: Sign, l: Literal, t: string)
    requires ValidLiteral(l) && Rests(line, pos, PutSign(s) + PutLiteral(l, t))
    ensures pos < |line| && Rests(line, pos + |PutSign(s)|, PutLiteral(l, t))
    ensures line[pos] == '-' <==> s == Negative
    ensures line[pos] == '+' <==> s == Positive
  {
    hide PutLiteral;
    var body := PutLiteral(l, t);
    RestsWord(line, pos, PutSign(s), body);
    RestsAt(line, pos, PutSign(s) + body, 0);
    LiteralStarts(l, t);
    assert |line[pos..]| == |PutSign(s) + body| > 0;
  }

  lemma LiteralReads(line: CString, pos: nat, s: Sign, l: Literal, t: string)
    requires ValidLiteral(l) && Rests(line, pos, PutSign(s) + PutLiteral(l, t)) && Stops(t)
    requires |t| <= |line|
    ensures ReadFloat(line, pos) == Got(if s == Negative then -LiteralWorth(l) else LiteralWorth(l), |line| - |t|)
  {
    hide ReadFloat;
    hide Decimal;
    hide Wrap8;
    hide Scaled;
    hide Kept;
    hide PutLiteral;
    hide Rests;
    SignStarts(line, pos, s, l, t);
    LiteralPlaces(line, pos + |PutSign(s)|, l, t);
    KeptDigits(l.whole + l.fraction);
    LiteralValue(line, pos, l.whole, l.point, l.fraction);
  }

  /** A literal starts with a digit or a point. */
  lemma LiteralStarts(l: Literal, t: string)
    requires ValidLiteral(l)
    ensures PutLiteral(l, t) != "" && (IsDigit(PutLiteral(l, t)[0]) || PutLiteral(l, t)[0] == '.')
  {
    if l.whole != "" {
      assert PutLiteral(l, t)[0] == l.whole[0];
    } else if l.point {
      assert PutLiteral(l, t)[0] == '.';
    }
  }

  // ----- What follows what -----------------------------------------------------------------

  lemma OperandStarts(x: Operand, k: string)
    requires ValidOperand(x)
    ensures OperandText(PutOperand(x, k))
  {
    match x
    case Num(l) => LiteralStarts(l, k);
    case Signed(minus, y) => assert PutOperand(x, k)[0] == if minus then '-' else '+';
    case Group(e) => assert PutOperand(x, k)[0] == '[';
    case Param(r) => assert PutOperand(x, k)[0] == '#';
    case Call(f, e) => assert PutOperand(x, k)[0] == FunctionName(f)[0];
    case ArcTangent(y, x2) => assert PutOperand(x, k)[0] == 'A';
    case Defined(name) => assert PutOperand(x, k)[0] == 'E';
  }

  lemma ExprStarts(e: Expr, k: string)
    ensures PutExpr(e, k) != "" && PutExpr(e, k)[0] == '['
  {}

  lemma RestStops(r: Rest, k: string)
    ensures Stops(PutRest(r, "]" + k))
  {
    if r.More? {
      assert PutRest(r, "]" + k)[0] == Spelling(r.op)[0];
    }
  }

  // ----- Reading ---------------------------------------------------------------------------

  function AsRead<T>(o: Outcome<T>, pos: nat): Read<T> {
    match o
    case Err(e) => Bad(e)
    case Value(v) => Got(v, pos)
  }

  /** The reader gives an operand's text its meaning and goes exactly to its end. */
  lemma {:induction false} OperandReads(env: Env, line: CString, pos: nat, x: Operand, k: string)
    requires ValidOperand(x) && Rests(line, pos, PutOperand(x, k)) && Stops(k)
    requires |k| <= |line|
    ensures ReadNumber(env, line, pos, true) == AsRead(Meaning(env, x), |line| - |k|)
    decreases x, 1
  {
    hide GetParamRef;
    hide ReadUnary;
    hide ExprMeaning;
    hide RefMeaning;
    hide FunctionName;
    hide PutExpr;
    hide PutRef;
    hide PutLiteral;
    hide Rests;
    hide EvalExpression;
    hide ReadFloat;
    hide LiteralWorth;
    match x
    case Num(l) =>
      LiteralStarts(l, k);
      RestsAt(line, pos, PutLiteral(l, k), 0);
      assert PutSign(Unsigned) + PutLiteral(l, k) == PutLiteral(l, k);
      LiteralReads(line, pos, Unsigned, l, k);
    case Signed(minus, y) =>
      RestsChar(line, pos, if minus then '-' else '+', PutOperand(y, k));
      OperandReads(env, line, pos + 1, y, k);
    case Group(e) =>
      ExprStarts(e, k);
      RestsAt(line, pos, PutExpr(e, k), 0);
      ExprReads(env, line, pos, e, k);
    case Param(r) =>
      RestsChar(line, pos, '#', PutRef(r, k));
      RefReads(env, line, pos + 1, r, k);
    case Call(f, e) =>
      FunctionReads(line, pos, f, PutExpr(e, k));
      CallReads(env, line, pos, f, e, k);
    case ArcTangent(y, x2) =>
      FunctionReads(line, pos, ATAN, PutExpr(y, "/" + PutExpr(x2, k)));
      ArcTangentReads(env, line, pos, y, x2, k);
    case Defined(name) =>
      FunctionReads(line, pos, Exists, "[" + (name + ("]" + k)));
      DefinedReads(env, line, pos, name, k);
  }

  lemma {:induction false} CallReads(env: Env, line: CString, pos: nat, f: UnaryOp, e: Expr, k: string)
    requires ValidOperand(Call(f, e)) && Rests(line, pos, PutOperand(Call(f, e), k))
    requires |k| <= |line|
    ensures OrBadNumber(ReadUnary(env, line, pos)) == AsRead(Meaning(env, Call(f, e)), |line| - |k|)
    decreases e, 4
  {
    hide ScanTo;
    hide ReadOperationUnary;
    hide EvalExpression;
    FunctionReads(line, pos, f, PutExpr(e, k));
    ExprStarts(e, k);
    RestsAt(line, pos + |FunctionName(f)|, PutExpr(e, k), 0);
    ExprReads(env, line, pos + |FunctionName(f)|, e, k);
  }

  lemma {:induction false} ArcTangentReads(env: Env, line: CString, pos: nat, y: Expr, x2: Expr, k: string)
    requires ValidExpr(y) && ValidExpr(x2) && Rests(line, pos, PutOperand(ArcTangent(y, x2), k))
    requires |k| <= |line|
    ensures OrBadNumber(ReadUnary(env, line, pos)) == AsRead(Meaning(env, ArcTangent(y, x2)), |line| - |k|)
    decreases ArcTangent(y, x2), 0
  {
    hide ExprMeaning;
    hide PutExpr;
    hide ParamName;
    hide ScanTo;
    hide ReadOperationUnary;
    hide EvalExpression;
    var after := "/" + PutExpr(x2, k);
    FunctionReads(line, pos, ATAN, PutExpr(y, after));
    ExprStarts(y, after);
    RestsAt(line, pos + 4, PutExpr(y, after), 0);
    RestsTail(line, pos + 4, y, after);
    ExprReads(env, line, pos + 4, y, after);
    var p := |line| - |after|;
    RestsChar(line, p, '/', PutExpr(x2, k));
    ExprStarts(x2, k);
    RestsAt(line, p + 1, PutExpr(x2, k), 0);
    ExprReads(env, line, p + 1, x2, k);
  }

  lemma DefinedReads(env: Env, line: CString, pos: nat, name: string, k: string)
    requires ValidOperand(Defined(name)) && Rests(line, pos, PutOperand(Defined(name), k))
    requires |k| <= |line|
    ensures OrBadNumber(ReadUnary(env, line, pos)) == AsRead(Meaning(env, Defined(name)), |line| - |k|)
  {
    assert pos <= |line|;
    hide ReadUnary;
    hide PutOperand;
    hide Meaning;
    hide Rests;
    DefinedText(env, name, k);
    DefinedValue(env, line, pos, name, k);
  }

  lemma DefinedValue(env: Env, line: CString, pos: nat, name: string, k: string)
    requires ']' !in name && pos <= |line| && |k| <= |line|
    requires Rests(line, pos, FunctionName(Exists) + ("[" + (name + ("]" + k))))
    ensures ReadUnary(env, line, pos) == Got(if env.exists_(name) then 1.0 else 0.0, |line| - |k|)
  {
    assert |FunctionName(Exists)| == 6;
    hide *;
    FunctionReads(line, pos, Exists, "[" + (name + ("]" + k)));
    RestsChar(line, pos + 6, '[', name + ("]" + k));
    NameScans(line, pos + 7, name, ']', k);
    UnaryExists(env, line, pos, pos + 6);
  }

  lemma DefinedText(env: Env, name: string, k: string)
    requires ValidOperand(Defined(name))
    ensures PutOperand(Defined(name), k) == FunctionName(Exists) + ("[" + (name + ("]" + k)))
    ensures |FunctionName(Exists)| == 6
    ensures Meaning(env, Defined(name)) == Value(if env.exists_(name) then 1.0 else 0.0)
  {}

  lemma UnaryExists(env: Env, line: CString, pos: nat, p: nat)
    requires pos <= |line| && ReadOperationUnary(line, pos) == Got(Exists, p) && CharAt(line, p) == '['
    requires p < |line|
    ensures ReadUnary(env, line, pos)
         == var end := ScanTo(line, p + 1, ']');
            if end == |line| then Bad(ExpressionSyntaxError)
            else Got(if env.exists_(line[p + 1..end]) then 1.0 else 0.0, end + 1)
  {
    hide ScanTo;
    hide ReadOperationUnary;
    hide EvalExpression;
  }

  /** A name runs to its closing character. */
  lemma NameScans(line: CString, pos: nat, name: string, stop: char, k: string)
    requires stop !in name && Rests(line, pos, name + ([stop] + k))
    ensures ScanTo(line, pos, stop) == pos + |name| < |line| && line[pos..pos + |name|] == name
    ensures pos + |name| + 1 == |line| - |k|
  {
    RestsWord(line, pos, name, [stop] + k);
    RestsChar(line, pos + |name|, stop, k);
    forall i | pos <= i < pos + |name| ensures line[i] != stop {
      assert line[i] == line[pos..pos + |name|][i - pos];
    }
    ScanStops(line, pos, stop, pos + |name|);
  }

  lemma {:induction false} ScanStops(line: CString, pos: nat, stop: char, end: nat)
    requires pos <= end < |line| && line[end] == stop && forall i :: pos <= i < end ==> line[i] != stop
    ensures ScanTo(line, pos, stop) == end
    decreases end - pos
  {
    if pos < end {
      ScanStops(line, pos + 1, stop, end);
    }
  }

  lemma {:induction false} RefReads(env: Env, line: CString, pos: nat, r: Ref, k: string)
    requires ValidRef(r) && Rests(line, pos, PutRef(r, k)) && Stops(k)
    requires |k| <= |line|
    ensures match RefMeaning(env, r)
            case Some(ref) => GetParamRef(env, line, pos) == Got(ref, |line| - |k|)
            case None => GetParamRef(env, line, pos) == Bad(BadNumberFormat)
    decreases r, 0
  {
    hide EvalExpression;
    hide ReadFloat;
    hide LiteralWorth;
    hide ParamName;
    match r
    case Numbered(s, l) =>
      LiteralStarts(l, k);
      RestsAt(line, pos, PutSign(s) + PutLiteral(l, k), 0);
      LiteralReads(line, pos, s, l, k);
    case Named(name) =>
      RestsChar(line, pos, '<', name + (">" + k));
      NameScans(line, pos + 1, name, '>', k);
    case Computed(e) =>
      ExprStarts(e, k);
      RestsAt(line, pos, PutExpr(e, k), 0);
      ExprReads(env, line, pos, e, k);
    case Indirect(q) =>
      RestsChar(line, pos, '#', PutRef(q, k));
      RefReads(env, line, pos + 1, q, k);
  }

  /** What follows an expression's text. */
  lemma RestsTail(line: CString, pos: nat, e: Expr, k: string)
    requires Rests(line, pos, PutExpr(e, k))
    ensures |k| <= |line| && Rests(line, |line| - |k|, k)
  {
    ExprEnds(e, k);
    var t := PutExpr(e, k);
    assert line[|line| - |k|..] == line[pos..][|t| - |k|..];
  }

  /** The continuation is the end of the text. */
  ghost predicate Ends(t: string, k: string) {
    |k| <= |t| && t[|t| - |k|..] == k
  }

  lemma EndsLonger(a: string, t: string, k: string)
    requires Ends(t, k)
    ensures Ends(a + t, k)
  {
    assert (a + t)[|a + t| - |k|..] == t[|t| - |k|..];
  }

  lemma {:induction false} OperandEnds(x: Operand, k: string)
    ensures Ends(PutOperand(x, k), k)
    decreases x, 0
  {
    hide Ends;
    EndsSelf(k);
    match x
    case Num(l) => LiteralEnds(l, k);
    case Signed(minus, y) =>
      OperandEnds(y, k);
      EndsLonger(if minus then "-" else "+", PutOperand(y, k), k);
    case Group(e) => ExprEnds(e, k);
    case Param(r) =>
      RefEnds(r, k);
      EndsLonger("#", PutRef(r, k), k);
    case Call(f, e) =>
      ExprEnds(e, k);
      EndsLonger(FunctionName(f), PutExpr(e, k), k);
    case ArcTangent(y, x2) =>
      ExprEnds(x2, k);
      EndsLonger("/", PutExpr(x2, k), k);
      ExprEnds(y, "/" + PutExpr(x2, k));
      EndsThrough(PutExpr(y, "/" + PutExpr(x2, k)), "/" + PutExpr(x2, k), k);
      EndsLonger(FunctionName(ATAN), PutExpr(y, "/" + PutExpr(x2, k)), k);
    case Defined(name) =>
      EndsLonger("]", k, k);
      EndsLonger(name, "]" + k, k);
      EndsLonger("[", name + ("]" + k), k);
      EndsLonger(FunctionName(Exists), "[" + (name + ("]" + k)), k);
  }

  lemma EndsSelf(k: string)
    ensures Ends(k, k)
  {}

  lemma EndsThrough(t: string, m: string, k: string)
    requires Ends(t, m) && Ends(m, k)
    ensures Ends(t, k)
  {
    assert t[|t| - |k|..] == t[|t| - |m|..][|m| - |k|..];
  }

  lemma LiteralEnds(l: Literal, k: string)
    ensures Ends(PutLiteral(l, k), k)
  {
    hide Ends;
    EndsSelf(k);
    EndsLonger(l.fraction, k, k);
    EndsLonger(if l.point then "." else "", l.fraction + k, k);
    EndsLonger(l.whole, (if l.point then "." else "") + (l.fraction + k), k);
  }

  lemma {:induction false} RefEnds(r: Ref, k: string)
    ensures Ends(PutRef(r, k), k)
    decreases r, 0
  {
    hide Ends;
    EndsSelf(k);
    match r
    case Numbered(s, l) =>
      LiteralEnds(l, k);
      EndsLonger(PutSign(s), PutLiteral(l, k), k);
    case Named(name) =>
      EndsLonger(">", k, k);
      EndsLonger(name, ">" + k, k);
      EndsLonger("<", name + (">" + k), k);
    case Computed(e) => ExprEnds(e, k);
    case Indirect(q) =>
      RefEnds(q, k);
      EndsLonger("#", PutRef(q, k), k);
  }

  lemma {:induction false} ExprEnds(e: Expr, k: string)
    ensures Ends(PutExpr(e, k), k)
    decreases e, 1
  {
    hide Ends;
    EndsSelf(k);
    EndsLonger("]", k, k);
    RestEnds(e.rest, "]" + k);
    OperandEnds(e.first, PutRest(e.rest, "]" + k));
    EndsThrough(PutOperand(e.first, PutRest(e.rest, "]" + k)), PutRest(e.rest, "]" + k), "]" + k);
    EndsThrough(PutOperand(e.first, PutRest(e.rest, "]" + k)), "]" + k, k);
    EndsLonger("[", PutOperand(e.first, PutRest(e.rest, "]" + k)), k);
  }

  lemma {:induction false} RestEnds(r: Rest, k: string)
    ensures Ends(PutRest(r, k), k)
    decreases r
  {
    hide Ends;
    EndsSelf(k);
    if r.More? {
      RestEnds(r.tail, k);
      OperandEnds(r.x, PutRest(r.tail, k));
      EndsThrough(PutOperand(r.x, PutRest(r.tail, k)), PutRest(r.tail, k), k);
      EndsLonger(Spelling(r.op), PutOperand(r.x, PutRest(r.tail, k)), k);
    }
  }

  lemma OperandTail(line: CString, pos: nat, x: Operand, k: string)
    requires Rests(line, pos, PutOperand(x, k))
    ensures |k| <= |line| && Rests(line, |line| - |k|, k)
  {
    OperandEnds(x, k);
    var t := PutOperand(x, k);
    assert line[|line| - |k|..] == line[pos..][|t| - |k|..];
  }

  /** The tokens that the reader should deliver for the rest of an expression, up to the first
      operand that fails. */
  function RestToks(env: Env, r: Rest, end: nat): Tail<real>
    requires ValidRest(r)
  {
    match r
    case Last => EndAt(end)
    case More(op, x, tail) =>
      match Meaning(env, x)
      case Err(_) => Then(op, Unreadable(BadNumberFormat))
      case Value(u) => Then(op, Operand(u, RestToks(env, tail, end)))
  }

  /** They are the values and operators of its meaning. */
  lemma {:induction false} ToksMean(env: Env, v: real, r: Rest, end: nat)
    requires ValidRest(r)
    ensures var (items, whole) := RestMeaning(env, r);
            Toks.Operand(v, RestToks(env, r, end))
            == if whole then Stream(v, items, EndAt(end)) else Broken(v, items, BadNumberFormat)
    decreases r
  {
    if r.More? && Meaning(env, r.x).Value? {
      var u := Meaning(env, r.x).v;
      ToksMean(env, u, r.tail, end);
      var items := RestMeaning(env, r.tail).0;
      assert ([(r.op, u)] + items)[1..] == items;
    }
  }

  /** The reader delivers exactly those tokens. */
  lemma {:induction false} RestReads(env: Env, line: CString, pos: nat, r: Rest, k: string)
    requires ValidRest(r) && Rests(line, pos, PutRest(r, "]" + k)) && |k| <= |line|
    ensures var op := ReadOperation(line, pos);
            op.Got? && TailAt(env, line, op.v, op.pos) == RestToks(env, r, |line| - |k|)
    decreases r, 0
  {
    hide ExprMeaning;
    hide PutOperand;
    hide Rests;
    hide OperandText;
    hide Stops;
    hide Spelling;
    hide ValidOperand;
    hide ReadNumber;
    hide ReadOperation;
    hide Meaning;
    match r
    case Last =>
      RestsAt(line, pos, "]" + k, 0);
      BracketReads(line, pos, k);
    case More(op, x, tail) =>
      var after := PutRest(tail, "]" + k);
      OperandStarts(x, after);
      OperatorReads(line, pos, op, PutOperand(x, after));
      var q := pos + |Spelling(op)|;
      OperandTail(line, q, x, after);
      RestStops(tail, k);
      OperandReads(env, line, q, x, after);
      RestReads(env, line, |line| - |after|, tail, k);
  }

  /** The text of every expression, in front of anything, evaluates to what it means and is read
      exactly to its end. */
  lemma {:induction false} ExprReads(env: Env, line: CString, pos: nat, e: Expr, k: string)
    requires ValidExpr(e) && Rests(line, pos, PutExpr(e, k)) && |k| <= |line|
    ensures EvalExpression(env, line, pos) == AsRead(ExprMeaning(env, e), |line| - |k|)
    decreases e, 3
  {
    hide ExprMeaning;
    hide PutOperand;
    hide PutRest;
    hide ReadNumber;
    hide ReadOperation;
    hide Meaning;
    hide Evaluate;
    var after := PutRest(e.rest, "]" + k);
    RestsChar(line, pos, '[', PutOperand(e.first, after));
    OperandTail(line, pos + 1, e.first, after);
    RestStops(e.rest, k);
    OperandReads(env, line, pos + 1, e.first, after);
    RestReads(env, line, |line| - |after|, e.rest, k);
    ExprToksEvaluate(env, e, |line| - |k|);
  }

  /** The tokens of an expression evaluate to its meaning. */
  lemma ExprToksEvaluate(env: Env, e: Expr, end: nat)
    requires ValidExpr(e)
    ensures var t := match Meaning(env, e.first)
                     case Err(_) => Unreadable(BadNumberFormat)
                     case Value(v) => Toks.Operand(v, RestToks(env, e.rest, end));
            Evaluate(env.binary, t) == EndsAt(ExprMeaning(env, e), end)
  {
    hide Meaning;
    hide Evaluate;
    hide Eval;
    hide PrefixError;
    match Meaning(env, e.first)
    case Err(_) =>
      TreeOfSpells(0.0, []);
      BrokenStreamFails(env.binary, 0.0, [], BadNumberFormat, TreeOf(0.0, []));
    case Value(v) =>
      var (items, whole) := RestMeaning(env, e.rest);
      ToksMean(env, v, e.rest, end);
      TreeOfSpells(v, items);
      StreamEvaluatesToTree(env.binary, v, items, end, TreeOf(v, items));
      BrokenStreamFails(env.binary, v, items, BadNumberFormat, TreeOf(v, items));
  }

  // ----- G-code words ----------------------------------------------------------------------

  /** The value of a word outside an expression: a signed literal, a parameter or an expression. */
  datatype WordValue = Plainly(sign: Sign, lit: Literal) | FromParam(ref: Ref) | FromExpr(e: Expr)

  predicate ValidWord(w: WordValue) {
    match w
    case Plainly(_, l) => ValidLiteral(l)
    case FromParam(r) => ValidRef(r)
    case FromExpr(e) => ValidExpr(e)
  }

  function PutWord(w: WordValue, k: string): string {
    match w
    case Plainly(s, l) => PutSign(s) + PutLiteral(l, k)
    case FromParam(r) => "#" + PutRef(r, k)
    case FromExpr(e) => PutExpr(e, k)
  }

  function WordMeaning(env: Env, w: WordValue): Outcome<real>
    requires ValidWord(w)
  {
    match w
    case Plainly(s, l) => Value(if s == Negative then -LiteralWorth(l) else LiteralWorth(l))
    case FromParam(r) => Meaning(env, Param(r))
    case FromExpr(e) => Meaning(env, Group(e))
  }

  /** A word's text reads as its meaning. */
  lemma WordReads(env: Env, line: CString, pos: nat, w: WordValue, k: string)
    requires ValidWord(w) && Rests(line, pos, PutWord(w, k)) && Stops(k) && |k| <= |line|
    ensures ReadNumber(env, line, pos, false) == AsRead(WordMeaning(env, w), |line| - |k|)
  {
    hide EvalExpression;
    hide ReadFloat;
    hide LiteralWorth;
    match w
    case Plainly(s, l) =>
      LiteralStarts(l, k);
      RestsAt(line, pos, PutSign(s) + PutLiteral(l, k), 0);
      LiteralReads(line, pos, s, l, k);
    case FromParam(r) =>
      RestsChar(line, pos, '#', PutRef(r, k));
      RefReads(env, line, pos + 1, r, k);
    case FromExpr(e) =>
      ExprStarts(e, k);
      RestsAt(line, pos, PutExpr(e, k), 0);
      ExprReads(env, line, pos, e, k);
  }

  // ----- Names and levels ------------------------------------------------------------------

  lemma {:induction false} ParamNameAppend(a: string, b: string)
    ensures ParamName(a + b) == ParamName(a) + ParamName(b)
    decreases |a|
  {
    if a == "" {
      assert a + b == b;
    } else {
      assert (a + b)[1..] == a[1..] + b;
      ParamNameAppend(a[1..], b);
    }
  }

  /** A parameter's name keeps all its characters but white space, letters as capitals. */
  lemma ParamNameAt(a: string, c: char, b: string)
    ensures ParamName(a + [c] + b)
         == ParamName(a)
            + (if c as int in {9, 10, 11, 12, 13, 32} then "" else
               if 97 <= c as int <= 122 then [(65 + (c as int - 97)) as char] else [c])
            + ParamName(b)
  {
    ParamNameAppend(a + [c], b);
    ParamNameAppend(a, [c]);
    assert [c][1..] == "";
  }

  /** The letters. */
  lemma LettersAreAlpha(c: char)
    ensures IsAlpha(c) <==> 65 <= c as int <= 90 || 97 <= c as int <= 122
  {}

  /** The operators from the loosest to the tightest. */
  const LEVELS: seq<set<BinaryOp>> := [
    {And2, ExclusiveOR, NotExclusiveOR}, {LT, LE, EQ, NE, GE, GT}, {Plus, Minus}, {Times, DividedBy, Modulo}, {Power}]

  predicate Tighter(q: Infix, p: Infix) {
    exists i, j :: 0 <= i < j < |LEVELS| && p in LEVELS[i] && q in LEVELS[j]
  }

  /** Of two operators the second goes first exactly when it is on a tighter level. */
  lemma TwoOperators(u: real, p: Infix, v: real, q: Infix, w: real)
    ensures TreeOf(u, [(p, v), (q, w)])
         == if Tighter(q, p) then Node(Leaf(u), p, Node(Leaf(v), q, Leaf(w)))
            else Node(Node(Leaf(u), p, Leaf(v)), q, Leaf(w))
  {
    LevelsArePrecedence(p, q);
    var items: seq<(Infix, real)> := [(p, v), (q, w)];
    assert items[..1] == [(p, v)];
    var one: Tree<real> := Node(Leaf(u), p, Leaf(v));
    assert TreeOf(u, items[..1]) == one by {
      assert items[..1][..0] == [];
      assert TreeOf(u, []) == Leaf(u);
    }
    assert TreeOf(u, items) == Insert(one, q, w);
    assert Insert(Leaf(v), q, w) == Node(Leaf(v), q, Leaf(w));
  }

  lemma LevelsArePrecedence(p: Infix, q: Infix)
    ensures Tighter(q, p) <==> Precedence(q) > Precedence(p)
  {
    OnLevel(p);
    OnLevel(q);
    if Precedence(q) > Precedence(p) {
      assert p in LEVELS[Precedence(p) - 2] && q in LEVELS[Precedence(q) - 2];
    }
  }

  lemma OnLevel(p: Infix)
    ensures forall i :: 0 <= i < |LEVELS| ==> (p in LEVELS[i] <==> i == Precedence(p) - 2)
  {
    forall i | 0 <= i < |LEVELS| ensures p in LEVELS[i] <==> i == Precedence(p) - 2 {
      match i
      case 0 => case 1 => case 2 => case 3 => case 4 =>
    }
  }
}
