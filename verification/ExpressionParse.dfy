/** The converse of reading: whatever the reader accepts is the text of an expression. */
module ExpressionParse {
  import opened CText
  import opened Expression
  import opened FloatLiteral
  import opened NgcReader
  import opened ExpressionText
  import opened Options

  // ----- Words and literals ----------------------------------------------------------------

  lemma StartsRests(line: CString, pos: nat, w: string)
    requires pos <= |line| && Starts(line, pos, w)
    ensures Rests(line, pos, w + line[pos + |w|..])
  {
    assert line[pos..] == line[pos..pos + |w|] + line[pos + |w|..];
  }

  lemma CharRests(line: CString, pos: nat)
    requires pos < |line|
    ensures Rests(line, pos, [line[pos]] + line[pos + 1..])
  {}

  lemma OneCharStarts(line: CString, pos: nat)
    requires pos < |line|
    ensures Starts(line, pos, [line[pos]])
  {}

  lemma OperatorStarts(line: CString, pos: nat)
    requires pos <= |line| && ReadOperation(line, pos).Got? && ReadOperation(line, pos).v != RightBracket
    ensures var r := ReadOperation(line, pos);
            Starts(line, pos, Spelling(r.v)) && r.pos == pos + |Spelling(r.v)|
  {
    hide Starts;
    if pos < |line| {
      OneCharStarts(line, pos);
    }
  }

  /** What reads as an operator is its spelling. */
  lemma OperatorWas(line: CString, pos: nat)
    requires pos <= |line| && ReadOperation(line, pos).Got? && ReadOperation(line, pos).v != RightBracket
    ensures var r := ReadOperation(line, pos); Rests(line, pos, Spelling(r.v) + line[r.pos..])
  {
    hide ReadOperation;
    hide Spelling;
    OperatorStarts(line, pos);
    StartsRests(line, pos, Spelling(ReadOperation(line, pos).v));
  }

  lemma FunctionWas(line: CString, pos: nat)
    requires pos <= |line| && ReadOperationUnary(line, pos).Got?
    ensures var r := ReadOperationUnary(line, pos); Rests(line, pos, FunctionName(r.v) + line[r.pos..])
  {
    var r := ReadOperationUnary(line, pos);
    assert Starts(line, pos, FunctionName(r.v)) && r.pos == pos + |FunctionName(r.v)|;
    StartsRests(line, pos, FunctionName(r.v));
  }

  /** The end of the digits at `pos`. */
  function DigitRun(line: CString, pos: nat): (end: nat)
    requires pos <= |line|
    ensures pos <= end <= |line| && AllDigits(line[pos..end]) && !IsDigit(CharAt(line, end))
    decreases |line| - pos
  {
    if IsDigit(CharAt(line, pos)) then
      var end := DigitRun(line, pos + 1);
      assert line[pos..end] == [line[pos]] + line[pos + 1..end];
      end
    else pos
  }

  /** Where the digits end, with at most one point. */
  lemma {:induction false} ScanEnds(line: CString, pos: nat, d: Digits)
    requires pos <= |line|
    ensures var e := DigitRun(line, pos);
            var point := !d.decimal && CharAt(line, e) == '.';
            var end := if point then DigitRun(line, e + 1) else e;
            var r := ScanDigits(line, pos, d);
            r.1 == end && r.0.count == d.count + (e - pos) + if point then end - e - 1 else 0
    decreases |line| - pos
  {
    hide Wrap8;
    var c := CharAt(line, pos);
    if IsDigit(c) {
      ScanEnds(line, pos + 1, Take(d, c));
    } else if c == '.' && !d.decimal {
      ScanEnds(line, pos + 1, d.(decimal := true));
    }
  }

  lemma SliceRests(line: CString, a: nat, b: nat)
    requires a <= b <= |line|
    ensures Rests(line, a, line[a..b] + line[b..])
  {}

  /** Joins a text in front of what rests. */
  lemma RestsJoin(line: CString, pos: nat, w: string, q: nat, t: string)
    requires q <= |line| && Rests(line, pos, w + line[q..]) && Rests(line, q, t)
    ensures Rests(line, pos, w + t)
  {}

  lemma PlainWas(line: CString, start: nat, e: nat)
    requires start < e <= |line| && AllDigits(line[start..e])
    ensures var l := Literal(line[start..e], false, "");
            ValidLiteral(l) && Rests(line, start, PutLiteral(l, line[e..]))
  {
    hide Rests;
    hide AllDigits;
    SliceRests(line, start, e);
    var k := line[e..];
    assert "" + ("" + k) == k;
    assert |line[start..e] + ""| > 0;
    NoDigits();
  }

  lemma NoDigits()
    ensures AllDigits("")
  {}

  lemma PointedWas(line: CString, start: nat, e: nat, end: nat)
    requires start <= e < end <= |line| && line[e] == '.' && end - start > 1
    requires AllDigits(line[start..e]) && AllDigits(line[e + 1..end])
    ensures var l := Literal(line[start..e], true, line[e + 1..end]);
            ValidLiteral(l) && Rests(line, start, PutLiteral(l, line[end..]))
  {
    hide Rests;
    hide AllDigits;
    var whole, fraction, k := line[start..e], line[e + 1..end], line[end..];
    SliceRests(line, start, e);
    CharRests(line, e);
    SliceRests(line, e + 1, end);
    RestsJoin(line, e, ".", e + 1, fraction + k);
    RestsJoin(line, start, whole, e, "." + (fraction + k));
    assert |whole + fraction| > 0;
  }

  /** The digits, the point and the digits from `start` on, as a literal. */
  lemma DigitsWere(line: CString, start: nat, e: nat, end: nat) returns (l: Literal)
    requires start <= |line| && e == DigitRun(line, start)
    requires end == if CharAt(line, e) == '.' then DigitRun(line, e + 1) else e
    requires end - start > if CharAt(line, e) == '.' then 1 else 0
    ensures ValidLiteral(l) && end <= |line| && Rests(line, start, PutLiteral(l, line[end..]))
  {
    hide DigitRun;
    hide Rests;
    hide AllDigits;
    hide PutLiteral;
    hide ValidLiteral;
    if CharAt(line, e) == '.' {
      l := Literal(line[start..e], true, line[e + 1..end]);
      PointedWas(line, start, e, end);
    } else {
      l := Literal(line[start..e], false, "");
      PlainWas(line, start, e);
    }
  }

  lemma LiteralWas(line: CString, pos: nat) returns (s: Sign, l: Literal)
    requires pos <= |line| && ReadFloat(line, pos).Got?
    ensures ValidLiteral(l) && Rests(line, pos, PutSign(s) + PutLiteral(l, line[ReadFloat(line, pos).pos..]))
    ensures s == Negative <==> CharAt(line, pos) == '-'
    ensures s == Positive <==> CharAt(line, pos) == '+'
  {
    hide ScanDigits;
    hide Scaled;
    hide DigitRun;
    hide Rests;
    hide PutLiteral;
    var c := CharAt(line, pos);
    s := if c == '-' then Negative else if c == '+' then Positive else Unsigned;
    var start := if c == '-' || c == '+' then pos + 1 else pos;
    ScanEnds(line, start, Digits(0, 0, 0, false));
    var e := DigitRun(line, start);
    var end := if CharAt(line, e) == '.' then DigitRun(line, e + 1) else e;
    l := DigitsWere(line, start, e, end);
    var text := PutLiteral(l, line[end..]);
    if s == Unsigned {
      assert PutSign(s) + text == text;
    } else {
      CharRests(line, pos);
      RestsJoin(line, pos, PutSign(s), start, text);
    }
  }

  // ----- Operands and expressions ----------------------------------------------------------

  lemma {:induction false} OperandWas(env: Env, line: CString, pos: nat) returns (x: Operand)
    requires pos <= |line| && ReadNumber(env, line, pos, true).Got?
    ensures ValidOperand(x) && Rests(line, pos, PutOperand(x, line[ReadNumber(env, line, pos, true).pos..]))
    decreases |line| - pos, 3
  {
    hide EvalExpression;
    hide ReadFloat;
    hide ReadUnary;
    hide GetParamRef;
    hide Rests;
    var c := CharAt(line, pos);
    var k := line[ReadNumber(env, line, pos, true).pos..];
    if c == '#' {
      var r := RefWas(env, line, pos + 1);
      x := Param(r);
      CharRests(line, pos);
      RestsJoin(line, pos, "#", pos + 1, PutRef(r, k));
    } else if c == '[' {
      var e := ExprWas(env, line, pos);
      x := Group(e);
    } else if IsAlpha(c) {
      x := UnaryWas(env, line, pos);
    } else if c == '-' || c == '+' {
      var y := OperandWas(env, line, pos + 1);
      x := Signed(c == '-', y);
      CharRests(line, pos);
      RestsJoin(line, pos, [c], pos + 1, PutOperand(y, k));
    } else {
      var s, l := LiteralWas(line, pos);
      x := Num(l);
      assert PutSign(Unsigned) + PutLiteral(l, k) == PutLiteral(l, k);
    }
  }

  lemma {:induction false} UnaryWas(env: Env, line: CString, pos: nat) returns (x: Operand)
    requires pos <= |line| && ReadUnary(env, line, pos).Got?
    ensures ValidOperand(x) && Rests(line, pos, PutOperand(x, line[ReadUnary(env, line, pos).pos..]))
    decreases |line| - pos, 2
  {
    hide EvalExpression;
    hide ReadOperationUnary;
    hide Rests;
    hide ScanTo;
    FunctionWas(line, pos);
    var f := ReadOperationUnary(line, pos);
    var p := f.pos;
    var k := line[ReadUnary(env, line, pos).pos..];
    if f.v == Exists {
      var end := ScanTo(line, p + 1, ']');
      var name := line[p + 1..end];
      x := Defined(name);
      BracketedName(line, p, end, ']');
      RestsJoin(line, pos, FunctionName(Exists), p, "[" + (name + ("]" + k)));
    } else {
      var e := ExprWas(env, line, p);
      var q := EvalExpression(env, line, p).pos;
      if f.v == ATAN {
        var d := ExprWas(env, line, q + 1);
        x := ArcTangent(e, d);
        CharRests(line, q);
        RestsJoin(line, q, "/", q + 1, PutExpr(d, k));
        RestIs(line, q, "/" + PutExpr(d, k));
        RestsJoin(line, pos, FunctionName(ATAN), p, PutExpr(e, "/" + PutExpr(d, k)));
      } else {
        x := Call(f.v, e);
        RestsJoin(line, pos, FunctionName(f.v), p, PutExpr(e, k));
      }
    }
  }

  lemma RestIs(line: CString, pos: nat, t: string)
    requires Rests(line, pos, t)
    ensures pos <= |line| && line[pos..] == t
  {}

  /** A bracketed name, up to the first closing character. */
  lemma BracketedName(line: CString, pos: nat, end: nat, stop: char)
    requires pos < |line| && end == ScanTo(line, pos + 1, stop) < |line|
    ensures var name := line[pos + 1..end];
            && stop !in name && '\0' !in name
            && Rests(line, pos, [line[pos]] + (name + ([stop] + line[end + 1..])))
  {
    hide ScanTo;
    hide Rests;
    var name := line[pos + 1..end];
    assert line[end] == stop;
    SliceRests(line, pos + 1, end);
    CharRests(line, end);
    RestsJoin(line, pos + 1, name, end, [stop] + line[end + 1..]);
    CharRests(line, pos);
    RestsJoin(line, pos, [line[pos]], pos + 1, name + ([stop] + line[end + 1..]));
  }

  lemma {:induction false} RefWas(env: Env, line: CString, pos: nat) returns (r: Ref)
    requires pos <= |line| && GetParamRef(env, line, pos).Got?
    ensures ValidRef(r) && Rests(line, pos, PutRef(r, line[GetParamRef(env, line, pos).pos..]))
    decreases |line| - pos, 3
  {
    hide EvalExpression;
    hide ReadFloat;
    hide Rests;
    hide ScanTo;
    var c := CharAt(line, pos);
    var k := line[GetParamRef(env, line, pos).pos..];
    if c == '#' {
      var q := RefWas(env, line, pos + 1);
      r := Indirect(q);
      CharRests(line, pos);
      RestsJoin(line, pos, "#", pos + 1, PutRef(q, k));
    } else if c == '<' {
      var end := ScanTo(line, pos + 1, '>');
      r := Named(line[pos + 1..end]);
      BracketedName(line, pos, end, '>');
    } else if c == '[' {
      var e := ExprWas(env, line, pos);
      r := Computed(e);
    } else {
      var s, l := LiteralWas(line, pos);
      r := Numbered(s, l);
    }
  }

  /** The rest of a readable expression, from the operator at `pos` to its closing bracket. */
  lemma {:induction false} RestWas(env: Env, line: CString, pos: nat, end: nat) returns (r: Rest)
    requires pos <= |line| && ReadOperation(line, pos).Got?
    requires var op := ReadOperation(line, pos); Closes(TailAt(env, line, op.v, op.pos), end)
    ensures end <= |line| && ValidRest(r) && Rests(line, pos, PutRest(r, "]" + line[end..]))
    decreases |line| - pos, 5
  {
    hide ReadNumber;
    hide ReadOperation;
    hide Rests;
    var op := ReadOperation(line, pos);
    if op.v == RightBracket {
      r := Last;
      BracketWas(line, pos);
    } else {
      OperatorWas(line, pos);
      var x := OperandWas(env, line, op.pos);
      var p := ReadNumber(env, line, op.pos, true).pos;
      var tail := RestWas(env, line, p, end);
      r := More(op.v, x, tail);
      RestIs(line, p, PutRest(tail, "]" + line[end..]));
      RestsJoin(line, pos, Spelling(op.v), op.pos, PutOperand(x, PutRest(tail, "]" + line[end..])));
    }
  }

  lemma BracketWas(line: CString, pos: nat)
    requires pos <= |line| && ReadOperation(line, pos).Got? && ReadOperation(line, pos).v == RightBracket
    ensures ReadOperation(line, pos).pos == pos + 1 && Rests(line, pos, "]" + line[pos + 1..])
  {
    assert line[pos] == ']';
    CharRests(line, pos);
  }

  /** The tokens are all there and close at `end`. */
  predicate Closes(t: Tail<real>, end: nat) {
    if t.EndAt? then t.pos == end else t.rest.Operand? && Closes(t.rest.tail, end)
  }

  /** Whatever evaluates is the text of an expression. */
  lemma {:induction false} ExprWas(env: Env, line: CString, pos: nat) returns (e: Expr)
    requires pos <= |line| && EvalExpression(env, line, pos).Got?
    ensures ValidExpr(e) && Rests(line, pos, PutExpr(e, line[EvalExpression(env, line, pos).pos..]))
    decreases |line| - pos, 1
  {
    hide ReadNumber;
    hide ReadOperation;
    hide Rests;
    hide Evaluate;
    var t := Items(env, line, pos + 1);
    var end := EvalExpression(env, line, pos).pos;
    EvaluatesIfCloses(env.binary, t);
    var x := OperandWas(env, line, pos + 1);
    var p := ReadNumber(env, line, pos + 1, true).pos;
    var rest := RestWas(env, line, p, end);
    e := Expr(x, rest);
    RestIs(line, p, PutRest(rest, "]" + line[end..]));
    CharRests(line, pos);
    RestsJoin(line, pos, "[", pos + 1, PutOperand(x, PutRest(rest, "]" + line[end..])));
  }

  /** Only tokens that close have a value, and it ends where they do. */
  lemma EvaluatesIfCloses(ex: (real, Infix, real) -> Outcome<real>, t: Toks<real>)
    requires Evaluate(ex, t).Value?
    ensures t.Operand? && Closes(t.tail, Evaluate(ex, t).v.1)
  {
    hide Evaluate;
    hide Eval;
    var v, items, end, e := StreamOrBroken(t);
    TreeOfSpells(v, items);
    StreamEvaluatesToTree(ex, v, items, end, TreeOf(v, items));
    BrokenStreamFails(ex, v, items, e, TreeOf(v, items));
    StreamCloses(v, items, end);
  }

  lemma {:induction false} StreamCloses(v: real, items: seq<(Infix, real)>, end: nat)
    ensures var t := Stream(v, items, EndAt(end)); t.Operand? && Closes(t.tail, end)
    decreases |items|
  {
    if items != [] {
      StreamCloses(items[0].1, items[1..], end);
    }
  }

  /** Exactly the texts of expressions that have a value evaluate, and to that value. */
  lemma EvaluatesExactlyExpressions(env: Env, line: CString, pos: nat)
    requires pos <= |line|
    ensures EvalExpression(env, line, pos).Got? <==>
            exists e: Expr, k: string ::
              ValidExpr(e) && |k| <= |line| && Rests(line, pos, PutExpr(e, k)) && ExprMeaning(env, e).Value?
  {
    hide EvalExpression;
    hide ExprMeaning;
    if EvalExpression(env, line, pos).Got? {
      var e := ExprWas(env, line, pos);
      var k := line[EvalExpression(env, line, pos).pos..];
      ExprReads(env, line, pos, e, k);
      assert ValidExpr(e) && |k| <= |line| && Rests(line, pos, PutExpr(e, k)) && ExprMeaning(env, e).Value?;
    }
    if e: Expr, k: string :|
      ValidExpr(e) && |k| <= |line| && Rests(line, pos, PutExpr(e, k)) && ExprMeaning(env, e).Value? {
      ExprReads(env, line, pos, e, k);
    }
  }
}
