/** read_float(): decimal literals, read in place, and what they are worth. */
module FloatLiteral {
  import opened CText
  import opened Expression
  import opened NgcReader

  // ----- In place --------------------------------------------------------------------------

  lemma HundredthStep(f: real, exp: int)
    requires exp <= -2
    ensures f * Pow10(exp) == (f * 0.01) * Pow10(exp + 2)
  {
    var p := Pow10(exp + 2);
    assert Pow10(exp) == 0.1 * Pow10(exp + 1) == 0.1 * (0.1 * p);
    assert f * (0.1 * (0.1 * p)) == (f * 0.01) * p;
  }

  lemma TenStep(f: real, exp: int)
    requires exp > 0
    ensures f * Pow10(exp) == (f * 10.0) * Pow10(exp - 1)
  {
    var p := Pow10(exp - 1);
    assert f * (10.0 * p) == (f * 10.0) * p;
  }

  lemma TenthStep(f: real)
    ensures f * Pow10(-1) == f * 0.1
  {
    assert Pow10(-1) == 0.1 * Pow10(0);
  }

  /** uint_to_float(): scales by hundredths, a last tenth, or tens. */
  method UintToFloat(intval: nat, exponent: int) returns (fval: real)
    ensures fval == Scaled(intval, exponent)
  {
    hide Pow10;
    fval := intval as real;
    var exp := exponent;
    if fval != 0.0 {
      while exp <= -2
        invariant exp <= 0 || exp == exponent
        invariant fval * Pow10(exp) == Scaled(intval, exponent)
        decreases -exp
      {
        HundredthStep(fval, exp);
        fval := fval * 0.01;
        exp := exp + 2;
      }
      if exp < 0 {
        TenthStep(fval);
        fval := fval * 0.1;
      } else {
        while exp > 0
          invariant exp >= 0
          invariant fval * Pow10(exp) == Scaled(intval, exponent)
        {
          TenStep(fval, exp);
          fval := fval * 10.0;
          exp := exp - 1;
        }
        Pow10Zero();
      }
    }
  }

  lemma Pow10Zero()
    ensures Pow10(0) == 1.0
  {}

  /** One turn of the digit loop. */
  lemma ScanOne(line: CString, pos: nat, d: Digits)
    requires pos <= |line|
    ensures var c := CharAt(line, pos);
            && (IsDigit(c) || c == '.' ==> pos < |line|)
            && ScanDigits(line, pos, d)
               == if IsDigit(c) then ScanDigits(line, pos + 1, Take(d, c))
                  else if c == '.' && !d.decimal then ScanDigits(line, pos + 1, d.(decimal := true))
                  else (d, pos)
  {}

  /** read_float(): `pos` moves only on success. */
  method ReadFloatInPlace(line: CString, pos: nat) returns (r: Read<real>)
    requires pos <= |line|
    ensures r == ReadFloat(line, pos)
  {
    hide Wrap8;
    hide Scaled;
    hide ScanDigits;
    var ptr := pos;
    var c := CharAt(line, ptr);
    var isNegative := false;
    if c == '-' {
      ptr := ptr + 1;
      isNegative := true;
    } else if c == '+' {
      ptr := ptr + 1;
    }
    var intval: nat, exp, ndigit, isDecimal := 0, 0, 0, false;
    ghost var start := ptr;
    ghost var result := ScanDigits(line, start, Digits(0, 0, 0, false));
    while true
      invariant start <= ptr <= |line|
      invariant ScanDigits(line, ptr, Digits(intval, exp, ndigit, isDecimal)) == result
      decreases |line| - ptr
    {
      c := CharAt(line, ptr);
      ScanOne(line, ptr, Digits(intval, exp, ndigit, isDecimal));
      if IsDigit(c) {
        ghost var next := Take(Digits(intval, exp, ndigit, isDecimal), c);
        ptr := ptr + 1;
        ndigit := ndigit + 1;
        if ndigit <= MAX_INT_DIGITS {
          if isDecimal {
            exp := Wrap8(exp - 1);
          }
          intval := intval * 10 + DigitValue(c);
        } else if !isDecimal {
          exp := Wrap8(exp + 1);
        }
        assert next == Digits(intval, exp, ndigit, isDecimal);
      } else if c == '.' && !isDecimal {
        ptr := ptr + 1;
        isDecimal := true;
      } else {
        break;
      }
    }
    if ndigit == 0 {
      return Bad(BadNumberFormat);
    }
    var fval := UintToFloat(intval, exp);
    r := Got(if isNegative then -fval else fval, ptr);
  }

  // ----- What a literal is worth -----------------------------------------------------------

  function TakeAll(d: Digits, s: string): Digits
    requires AllDigits(s)
    decreases |s|
  {
    if s == "" then d else TakeAll(Take(d, s[0]), s[1..])
  }

  lemma {:induction false} ScanRun(line: CString, pos: nat, s: string, d: Digits)
    requires AllDigits(s) && pos <= |line| && Starts(line, pos, s)
    ensures ScanDigits(line, pos, d) == ScanDigits(line, pos + |s|, TakeAll(d, s))
    decreases |s|
  {
    if s != "" {
      assert line[pos] == line[pos..pos + |s|][0] == s[0];
      assert line[pos + 1..pos + 1 + |s[1..]|] == line[pos..pos + |s|][1..];
      ScanRun(line, pos + 1, s[1..], Take(d, s[0]));
    }
  }

  lemma {:induction false} TakeAllSnoc(d: Digits, s: string, c: char)
    requires AllDigits(s) && IsDigit(c)
    ensures AllDigits(s + [c]) && TakeAll(d, s + [c]) == Take(TakeAll(d, s), c)
    decreases |s|
  {
    if s == "" {
      assert (s + [c])[1..] == "";
    } else {
      assert (s + [c])[1..] == s[1..] + [c];
      TakeAllSnoc(Take(d, s[0]), s[1..], c);
    }
  }

  lemma TakeNothing(d: Digits)
    ensures TakeAll(d, "") == d
  {}

  /** The first eight digits. */
  function Kept(s: string): string {
    if |s| <= MAX_INT_DIGITS then s else s[..MAX_INT_DIGITS]
  }

  lemma WrapSteps(x: int)
    ensures Wrap8(Wrap8(x) - 1) == Wrap8(x - 1) && Wrap8(Wrap8(x) + 1) == Wrap8(x + 1)
  {}

  lemma WrapSmall(x: int)
    requires -128 <= x <= 127
    ensures Wrap8(x) == x
  {}

  lemma DecimalOfNothing()
    ensures Decimal("") == 0
  {}

  lemma KeptSnoc(s: string, c: char)
    requires AllDigits(s) && IsDigit(c)
    ensures var t := s + [c];
            && AllDigits(Kept(s)) && AllDigits(Kept(t))
            && if |s| < MAX_INT_DIGITS
               then |Kept(t)| == |Kept(s)| + 1 && Decimal(Kept(t)) == Decimal(Kept(s)) * 10 + DigitValue(c)
               else Kept(t) == Kept(s)
  {
    var t := s + [c];
    assert t[..|t| - 1] == s;
  }

  lemma {:induction false} TakeWhole(s: string)
    requires AllDigits(s)
    ensures AllDigits(Kept(s))
    ensures TakeAll(Digits(0, 0, 0, false), s) == Digits(Decimal(Kept(s)), Wrap8(|s| - |Kept(s)|), |s|, false)
    decreases |s|
  {
    hide Wrap8;
    hide Decimal;
    hide TakeAll;
    if s == "" {
      TakeNothing(Digits(0, 0, 0, false));
      WrapSmall(0);
      DecimalOfNothing();
    } else {
      var init, c := s[..|s| - 1], s[|s| - 1];
      assert s == init + [c];
      TakeWhole(init);
      TakeAllSnoc(Digits(0, 0, 0, false), init, c);
      WrapSteps(|init| - |Kept(init)|);
      KeptSnoc(init, c);
    }
  }

  /** The accumulators after the digits `whole`, the point and the digits `fraction`. */
  function Scanned(whole: string, fraction: string): Digits
    requires AllDigits(whole) && AllDigits(fraction)
  {
    var all := whole + fraction;
    Digits(Decimal(Kept(all)), Wrap8(|whole| - |Kept(all)|), |all|, true)
  }

  lemma {:induction false} TakeFraction(whole: string, s: string)
    requires AllDigits(whole) && AllDigits(s)
    ensures TakeAll(Scanned(whole, ""), s) == Scanned(whole, s)
    decreases |s|
  {
    hide Wrap8;
    hide Decimal;
    hide TakeAll;
    if s == "" {
      TakeNothing(Scanned(whole, ""));
    } else {
      var init, c := s[..|s| - 1], s[|s| - 1];
      assert s == init + [c];
      TakeFraction(whole, init);
      TakeAllSnoc(Scanned(whole, ""), init, c);
      var u := whole + init;
      assert whole + s == u + [c];
      WrapSteps(|whole| - |Kept(u)|);
      KeptSnoc(u, c);
    }
  }

  /** The digits of a literal that starts (after its sign) at `pos`. */
  lemma ScanLiteral(line: CString, pos: nat, whole: string, point: bool, fraction: string)
    requires AllDigits(whole) && AllDigits(fraction) && (point || fraction == "") && pos <= |line|
    requires Starts(line, pos, whole)
    requires point ==> CharAt(line, pos + |whole|) == '.' && Starts(line, pos + |whole| + 1, fraction)
    requires var next := CharAt(line, pos + |whole| + (if point then 1 else 0) + |fraction|);
             !IsDigit(next) && (point || next != '.')
    ensures ScanDigits(line, pos, Digits(0, 0, 0, false))
         == (Scanned(whole, fraction).(decimal := point), pos + |whole| + (if point then 1 else 0) + |fraction|)
  {
    hide Wrap8;
    hide Decimal;
    hide TakeAll;
    ScanRun(line, pos, whole, Digits(0, 0, 0, false));
    TakeWhole(whole);
    assert whole + "" == whole;
    if point {
      ScanRun(line, pos + |whole| + 1, fraction, Scanned(whole, ""));
      TakeFraction(whole, fraction);
    } else {
      assert whole + fraction == whole;
    }
  }

  /** A literal is worth its first eight digits, scaled by the power of ten of its point; the
      exponent is an int8_t.  With at most eight digits in all, that is the literal's value. */
  lemma LiteralValue(line: CString, pos: nat, whole: string, point: bool, fraction: string)
    requires AllDigits(whole) && AllDigits(fraction) && whole + fraction != "" && (point || fraction == "")
    requires pos < |line|
    requires var start := if line[pos] == '-' || line[pos] == '+' then pos + 1 else pos;
             var end := start + |whole| + (if point then 1 else 0) + |fraction|;
             && Starts(line, start, whole)
             && (point ==> CharAt(line, start + |whole|) == '.' && Starts(line, start + |whole| + 1, fraction))
             && !IsDigit(CharAt(line, end)) && (point || CharAt(line, end) != '.')
    ensures var start := if line[pos] == '-' || line[pos] == '+' then pos + 1 else pos;
            var kept := Kept(whole + fraction);
            && AllDigits(kept)
            && var value := Scaled(Decimal(kept), Wrap8(|whole| - |kept|));
               ReadFloat(line, pos)
               == Got(if line[pos] == '-' then -value else value,
                      start + |whole| + (if point then 1 else 0) + |fraction|)
    ensures |whole + fraction| <= MAX_INT_DIGITS ==>
              Kept(whole + fraction) == whole + fraction && Wrap8(|whole| - |whole + fraction|) == -|fraction|
  {
    hide ScanDigits;
    hide Scaled;
    hide Wrap8;
    hide Decimal;
    var start := if line[pos] == '-' || line[pos] == '+' then pos + 1 else pos;
    ScanLiteral(line, start, whole, point, fraction);
    assert AllDigits(Kept(whole + fraction)) && Scanned(whole, fraction).count > 0;
    if |whole + fraction| <= MAX_INT_DIGITS {
      WrapSmall(-|fraction|);
    }
  }

  // ----- When a literal is read exactly ----------------------------------------------------

  lemma Pow10Step(e: int)
    ensures Pow10(e + 1) == 10.0 * Pow10(e)
  {}

  lemma {:induction false} Pow10Add(e: int, n: nat)
    ensures Pow10(e + n) == Pow10(e) * Pow10(n)
  {
    hide Pow10;
    if n == 0 {
      Pow10Zero();
    } else {
      Pow10Add(e, n - 1);
      Pow10Step(e + n - 1);
      Pow10Step(n - 1);
      TenRegroups(Pow10(e), Pow10(n - 1));
    }
  }

  lemma TenRegroups(a: real, b: real)
    ensures 10.0 * (a * b) == a * (10.0 * b)
  {}

  lemma {:induction false} Pow10Less(e: int, n: nat)
    requires n > 0
    ensures Pow10(e) < Pow10(e + n)
  {
    Pow10Step(e + n - 1);
    if n > 1 {
      Pow10Less(e, n - 1);
    }
  }

  predicate AllZeros(s: string) { forall i :: 0 <= i < |s| ==> s[i] == '0' }

  lemma {:induction false} DecimalOfZeros(s: string)
    requires AllDigits(s)
    ensures Decimal(s) == 0 <==> AllZeros(s)
    decreases |s|
  {
    if s != "" {
      DecimalOfZeros(s[..|s| - 1]);
      assert AllZeros(s) <==> AllZeros(s[..|s| - 1]) && s[|s| - 1] == '0';
    }
  }

  lemma DecimalSnoc(s: string, c: char)
    requires AllDigits(s) && IsDigit(c)
    ensures AllDigits(s + [c]) && Decimal(s + [c]) == Decimal(s) * 10 + DigitValue(c)
  {
    assert (s + [c])[..|s|] == s;
  }

  lemma ScaledStep(k: nat, n: nat)
    ensures Scaled(k, n + 1) == 10.0 * Scaled(k, n) && Scaled(k, 0) == k as real
  {
    hide Pow10;
    Pow10Zero();
    Pow10Step(n);
    TenRegroups(k as real, Pow10(n));
  }

  lemma {:induction false} DecimalAppend(a: string, b: string)
    requires AllDigits(a) && AllDigits(b)
    ensures AllDigits(a + b) && Decimal(a + b) as real == Scaled(Decimal(a), |b|) + Decimal(b) as real
    decreases |b|
  {
    hide Decimal;
    hide Scaled;
    if b == "" {
      assert a + b == a;
      DecimalOfNothing();
      ScaledStep(Decimal(a), 0);
    } else {
      var n := |b| - 1;
      var init := b[..n];
      assert b == init + [b[n]] && a + b == a + init + [b[n]];
      DecimalAppend(a, init);
      DecimalSnoc(init, b[n]);
      DecimalSnoc(a + init, b[n]);
      ScaledStep(Decimal(a), n);
    }
  }

  /** The value a decimal literal stands for. */
  function Worth(whole: string, fraction: string): real
    requires AllDigits(whole) && AllDigits(fraction)
  {
    Scaled(Decimal(whole + fraction), -|fraction|)
  }

  function Dropped(s: string): string { s[|Kept(s)|..] }

  lemma WorthSplits(whole: string, fraction: string)
    requires AllDigits(whole) && AllDigits(fraction)
    ensures var kept, dropped := Kept(whole + fraction), Dropped(whole + fraction);
            && AllDigits(kept) && AllDigits(dropped)
            && Worth(whole, fraction) == Scaled(Decimal(kept), |whole| - |kept|) + Scaled(Decimal(dropped), -|fraction|)
  {
    hide Decimal;
    hide Pow10;
    var all := whole + fraction;
    var kept, dropped := Kept(all), Dropped(all);
    assert all == kept + dropped;
    DecimalAppend(kept, dropped);
    Pow10Add(-|fraction|, |dropped|);
    var k, p, q := Decimal(kept) as real, Pow10(|dropped|), Pow10(-|fraction|);
    assert (k * p + Decimal(dropped) as real) * q == k * (q * p) + Decimal(dropped) as real * q;
  }

  /** The exponent is the true one exactly when at most 135 digits precede the point. */
  lemma ExponentWraps(whole: string, fraction: string)
    ensures var e := |whole| - |Kept(whole + fraction)|;
            && (Wrap8(e) == e <==> |whole| <= 135)
            && (|whole| > 135 ==> Wrap8(e) < e)
  {}

  /** Scaling by a smaller power of ten, and adding, changes everything but zero. */
  lemma ScaledLess(k: nat, e': int, e: int, rest: real)
    requires e' < e && rest >= 0.0
    ensures Scaled(k, e') == Scaled(k, e) + rest <==> k == 0 && rest == 0.0
  {
    hide Pow10;
    Pow10Less(e', e - e');
    if k > 0 {
      assert k as real * (Pow10(e) - Pow10(e')) > 0.0;
    }
  }

  /** A literal is read as the value it stands for exactly when the digits after the eighth are
      all zero and, with more than 135 digits before the point, all the others are too. */
  lemma LiteralIsExact(line: CString, pos: nat, whole: string, point: bool, fraction: string)
    requires AllDigits(whole) && AllDigits(fraction) && whole + fraction != "" && (point || fraction == "")
    requires pos < |line|
    requires var start := if line[pos] == '-' || line[pos] == '+' then pos + 1 else pos;
             var end := start + |whole| + (if point then 1 else 0) + |fraction|;
             && Starts(line, start, whole)
             && (point ==> CharAt(line, start + |whole|) == '.' && Starts(line, start + |whole| + 1, fraction))
             && !IsDigit(CharAt(line, end)) && (point || CharAt(line, end) != '.')
    ensures var all := whole + fraction;
            var r := ReadFloat(line, pos);
            && r.Got?
            && (r.v == (if line[pos] == '-' then -Worth(whole, fraction) else Worth(whole, fraction))
                <==> AllZeros(Dropped(all)) && (|whole| <= 135 || AllZeros(Kept(all))))
  {
    hide ReadFloat;
    hide Decimal;
    hide Wrap8;
    hide Worth;
    hide Kept;
    var kept, dropped := Kept(whole + fraction), Dropped(whole + fraction);
    LiteralValue(line, pos, whole, point, fraction);
    WorthSplits(whole, fraction);
    ExponentWraps(whole, fraction);
    DecimalOfZeros(kept);
    DecimalOfZeros(dropped);
    var e, rest := |whole| - |kept|, Scaled(Decimal(dropped), -|fraction|);
    ScaledSign(Decimal(dropped), -|fraction|);
    if |whole| > 135 {
      ScaledLess(Decimal(kept), Wrap8(e), e, rest);
    }
  }

  lemma ScaledSign(k: nat, e: int)
    ensures Scaled(k, e) >= 0.0 && (Scaled(k, e) == 0.0 <==> k == 0)
  {
    hide Pow10;
  }
}
