/** The Range request header: a saturating parser against the unbounded meaning of a single
    byte range (section 14.1.2 of RFC 9110). */
module HttpRange {
  import opened CText

  const SIZE_MAX: nat := 0xFFFF_FFFF

  /** The length of the longest run of digits at `p`. */
  function Span(s: string, p: nat): (n: nat)
    requires p <= |s|
    ensures p + n <= |s| && AllDigits(s[p..p + n])
    ensures p + n < |s| ==> !IsDigit(s[p + n])
    decreases |s| - p
  {
    if p < |s| && IsDigit(s[p]) then
      var n := Span(s, p + 1);
      assert s[p..p + 1 + n] == [s[p]] + s[p + 1..p + 1 + n];
      1 + n
    else 0
  }

  function Saturate(n: nat): nat { if n > SIZE_MAX then SIZE_MAX else n }

  // ----- What a header means ---------------------------------------------------------------

  datatype Form = Malformed | Suffix(n: nat) | Open(first: nat) | Closed(first: nat, last: nat)

  datatype Result = Whole | Unsatisfiable | Partial(start: nat, len: nat)

  function Prefix(): (s: string)
    ensures s == "bytes="
  {
    "bytes="
  }

  predicate Digits(s: string) { s != "" && AllDigits(s) }

  /** The header is the one that spells this form. */
  ghost predicate Spells(value: string, f: Form, a: string, b: string) {
    match f
    case Malformed => false
    case Suffix(n) => Digits(a) && value == "bytes=" + "-" + a && n == Decimal(a)
    case Open(first) => Digits(a) && value == "bytes=" + a + "-" && first == Decimal(a)
    case Closed(first, last) =>
      && Digits(a) && Digits(b) && value == "bytes=" + a + "-" + b
      && first == Decimal(a) && last == Decimal(b)
  }

  /** The bytes a form selects from a representation of `size` bytes, in unbounded numbers. */
  function Select(f: Form, size: nat): Result {
    match f
    case Malformed => Whole
    case Suffix(n) =>
      if n == 0 || size == 0 then Unsatisfiable else if n < size then Partial(size - n, n) else Partial(0, size)
    case Open(first) => if first >= size then Unsatisfiable else Partial(first, size - first)
    case Closed(first, last) =>
      if last < first then Whole
      else if first >= size then Unsatisfiable
      else if last >= size then Partial(first, size - first)
      else Partial(first, last - first + 1)
  }

  /** Reads a header as a form, in unbounded numbers. */
  function Read(value: CString): Form {
    if !(Prefix() <= value) then Malformed
    else if |value| > 6 && value[6] == '-' then
      var n := Span(value, 7);
      if n == 0 || 7 + n != |value| then Malformed else Suffix(Decimal(value[7..]))
    else
      var end := 6 + Span(value, 6);
      if end == 6 || end == |value| || value[end] != '-' then Malformed
      else ReadLast(value, Decimal(value[6..end]), end + 1)
  }

  /** What follows the first position and its dash. */
  function ReadLast(value: string, first: nat, p: nat): Form
    requires p <= |value|
  {
    if p == |value| then Open(first)
    else if Span(value, p) == 0 || p + Span(value, p) != |value| then Malformed
    else Closed(first, Decimal(value[p..p + Span(value, p)]))
  }

  lemma {:induction false} SpanIs(s: string, p: nat, d: string)
    requires p + |d| <= |s| && s[p..p + |d|] == d && AllDigits(d)
    requires p + |d| < |s| ==> !IsDigit(s[p + |d|])
    ensures Span(s, p) == |d|
    decreases |d|
  {
    if d != "" {
      assert s[p] == s[p..p + |d|][0];
      assert s[p + 1..p + |d|] == d[1..];
      SpanIs(s, p + 1, d[1..]);
    }
  }

  lemma ReadSuffix(value: CString, a: string)
    requires Digits(a) && value == Prefix() + "-" + a
    ensures Read(value) == Suffix(Decimal(a))
  {
    hide Decimal;
    hide Span;
    hide Prefix;
    assert value[..6] == Prefix() && value[7..] == a && value[6..] == "-" + a;
    SpanIs(value, 7, a);
  }

  lemma ReadOpen(value: CString, a: string)
    requires Digits(a) && value == Prefix() + a + "-"
    ensures Read(value) == Open(Decimal(a))
  {
    hide Decimal;
    hide Span;
    hide Prefix;
    assert value[..6] == Prefix() && value[6..] == a + "-" && value[6..6 + |a|] == a && value[6] == a[0];
    SpanIs(value, 6, a);
  }

  lemma ReadClosed(value: CString, a: string, b: string)
    requires Digits(a) && Digits(b) && value == "bytes=" + a + "-" + b
    ensures Read(value) == Closed(Decimal(a), Decimal(b))
  {
    hide Decimal;
    hide Span;
    hide Prefix;
    assert value[..6] == Prefix() && value[6..] == a + "-" + b && value[6..6 + |a|] == a && value[6] == a[0];
    SpanIs(value, 6, a);
    assert value[7 + |a|..7 + |a| + |b|] == b;
    SpanIs(value, 7 + |a|, b);
  }

  /** Reading and spelling are inverse: a header reads as a form exactly when it spells it. */
  lemma ReadIsInverse(value: CString, f: Form, a: string, b: string)
    requires Spells(value, f, a, b)
    ensures Read(value) == f
  {
    hide Read;
    match f
    case Suffix(_) => ReadSuffix(value, a);
    case Open(_) => ReadOpen(value, a);
    case Closed(_, _) => ReadClosed(value, a, b);
  }

  lemma SpellsSuffix(value: CString)
    requires Read(value).Suffix?
    ensures Spells(value, Read(value), value[7..], "")
  {
    hide Decimal;
    hide Span;
    hide Prefix;
    SplitAt(value, 6, 6);
  }

  /** The dash that ends the first position of an interval. */
  function Dash(value: string): nat
    requires |value| >= 6
  {
    6 + Span(value, 6)
  }

  lemma ReadInterval(value: CString)
    requires Read(value).Open? || Read(value).Closed?
    ensures Prefix() <= value && 6 < Dash(value) < |value| && value[Dash(value)] == '-'
    ensures Digits(value[6..Dash(value)])
    ensures Read(value) == ReadLast(value, Decimal(value[6..Dash(value)]), Dash(value) + 1)
  {
    hide Decimal;
    hide Span;
    hide Prefix;
    hide ReadLast;
  }

  lemma SpellsOpen(value: CString)
    requires Read(value).Open?
    ensures |value| >= 6 && Dash(value) < |value| && Spells(value, Read(value), value[6..Dash(value)], "")
  {
    hide Decimal;
    hide Prefix;
    hide Dash;
    hide Read;
    ReadInterval(value);
    SplitAt(value, 6, Dash(value));
  }

  lemma ReadLastDigits(value: string, first: nat, p: nat)
    requires p <= |value| && ReadLast(value, first, p).Closed?
    ensures Digits(value[p..]) && ReadLast(value, first, p) == Closed(first, Decimal(value[p..]))
  {
    hide Decimal;
    hide Span;
    hide Prefix;
    assert value[p..] == value[p..p + Span(value, p)];
  }

  lemma SpellsClosed(value: CString)
    requires Read(value).Closed?
    ensures |value| >= 6 && Dash(value) < |value|
    ensures Spells(value, Read(value), value[6..Dash(value)], value[Dash(value) + 1..])
  {
    hide Decimal;
    hide Prefix;
    hide Dash;
    hide Read;
    hide ReadLast;
    ReadInterval(value);
    ReadLastDigits(value, Decimal(value[6..Dash(value)]), Dash(value) + 1);
    SplitAt(value, 6, Dash(value));
  }

  /** Every header that reads as a form spells it. */
  lemma ReadSpells(value: CString) returns (a: string, b: string)
    requires Read(value) != Malformed
    ensures Spells(value, Read(value), a, b)
  {
    a, b := "", "";
    if Read(value).Suffix? {
      SpellsSuffix(value);
      a := value[7..];
    } else if Read(value).Open? {
      SpellsOpen(value);
      a := value[6..Dash(value)];
    } else {
      SpellsClosed(value);
      a, b := value[6..Dash(value)], value[Dash(value) + 1..];
    }
  }

  /** The code's separate test for a list of ranges only anticipates a failure to parse. */
  lemma CommaIsMalformed(value: CString)
    requires Prefix() <= value && ',' in value[6..]
    ensures Read(value) == Malformed
  {
    if Read(value) != Malformed {
      var a, b := ReadSpells(value);
      NoComma(value, Read(value), a, b);
      assert false;
    }
  }

  lemma NoComma(value: string, f: Form, a: string, b: string)
    requires Spells(value, f, a, b)
    ensures |value| >= 6 && ',' !in value[6..]
  {
    hide Decimal;
    match f
    case Suffix(_) => assert value[6..] == "-" + a;
    case Open(_) => assert value[6..] == a + "-";
    case Closed(_, _) => assert value[6..] == a + "-" + b;
  }

  lemma SplitAt(s: string, i: nat, j: nat)
    requires i <= j < |s|
    ensures s == s[..i] + s[i..j] + [s[j]] + s[j + 1..]
    ensures i == j ==> s == s[..i] + [s[j]] + s[j + 1..]
    ensures j + 1 == |s| ==> s == s[..i] + s[i..j] + [s[j]]
  {}

  // ----- The parser ------------------------------------------------------------------------

  /** One more digit, saturating. */
  lemma SaturateStep(n: nat, digit: nat)
    requires digit < 10
    ensures Saturate(n * 10 + digit)
         == if Saturate(n) > (SIZE_MAX - digit) / 10 then SIZE_MAX else Saturate(n) * 10 + digit
    ensures Saturate(n) <= SIZE_MAX
  {}

  lemma DigitStep(s: string, p: nat, end: nat)
    requires p <= end < |s| && IsDigit(s[end]) && AllDigits(s[p..end])
    ensures AllDigits(s[p..end + 1]) && Decimal(s[p..end + 1]) == Decimal(s[p..end]) * 10 + DigitValue(s[end])
    ensures Span(s, end) == 1 + Span(s, end + 1)
  {
    assert s[p..end + 1][..end - p] == s[p..end];
  }

  /** parseNum() */
  method ParseNum(s: CString, p: nat) returns (ok: bool, out: nat, end: nat)
    requires p <= |s|
    ensures end == p + Span(s, p) && ok == (end > p)
    ensures ok ==> out == Saturate(Decimal(s[p..end]))
  {
    hide Decimal;
    hide Saturate;
    hide Span;
    end := p;
    if !(p < |s| && IsDigit(s[p])) {
      SpanEnds(s, p);
      return false, 0, p;
    }
    var v := 0;
    NothingYet(s, p);
    while end < |s| && IsDigit(s[end])
      invariant p <= end <= |s| && AllDigits(s[p..end]) && end + Span(s, end) == p + Span(s, p)
      invariant v == Saturate(Decimal(s[p..end])) <= SIZE_MAX
    {
      var digit := DigitValue(s[end]);
      SaturateStep(Decimal(s[p..end]), digit);
      DigitStep(s, p, end);
      SaturateStep(Decimal(s[p..end + 1]), 0);
      if v > (SIZE_MAX - digit) / 10 {
        v := SIZE_MAX;
      } else {
        v := v * 10 + digit;
      }
      end := end + 1;
    }
    SpanEnds(s, end);
    return true, v, end;
  }

  lemma SpanEnds(s: string, p: nat)
    requires p <= |s| && (p < |s| ==> !IsDigit(s[p]))
    ensures Span(s, p) == 0
  {}

  lemma NothingYet(s: string, p: nat)
    requires p <= |s|
    ensures Decimal(s[p..p]) == 0 && Saturate(0) == 0
  {}

  function Saturated(f: Form): Form {
    match f
    case Malformed => Malformed
    case Suffix(n) => Suffix(Saturate(n))
    case Open(first) => Open(Saturate(first))
    case Closed(first, last) => Closed(Saturate(first), Saturate(last))
  }

  /** parse(): the selection, in saturating numbers; and when that is the selection in
      unbounded numbers. */
  method Parse(value: CString, fileSize: nat) returns (r: Result)
    requires fileSize <= SIZE_MAX
    ensures r == Select(Saturated(Read(value)), fileSize)
    ensures r == Select(Read(value), fileSize) <==> !ReversedBeyond(Read(value))
  {
    r := ParseSaturated(value, fileSize);
    SaturationIsHarmless(Read(value), fileSize);
  }

  /** The branches of parse(). */
  method ParseSaturated(value: CString, fileSize: nat) returns (r: Result)
    requires fileSize <= SIZE_MAX
    ensures r == Select(Saturated(Read(value)), fileSize)
  {
    hide Decimal;
    hide Saturate;
    hide Span;
    hide Prefix;
    if !(Prefix() <= value) {
      return Whole;
    }
    var p := 6;
    if ',' in value[p..] {
      CommaIsMalformed(value);
      return Whole;
    }
    if p < |value| && value[p] == '-' {
      p := p + 1;
      var ok, n, end := ParseNum(value, p);
      if !ok || end != |value| {
        return Whole;
      }
      assert value[p..end] == value[p..];
      if n == 0 || fileSize == 0 {
        return Unsatisfiable;
      }
      var len := if n < fileSize then n else fileSize;
      return Partial(fileSize - len, len);
    }
    var ok, first, end := ParseNum(value, p);
    if !ok || end == |value| || value[end] != '-' {
      return Whole;
    }
    p := end + 1;
    if p == |value| {
      return if first >= fileSize then Unsatisfiable else Partial(first, fileSize - first);
    }
    var ok2, last, end2 := ParseNum(value, p);
    if !ok2 || end2 != |value| {
      return Whole;
    }
    if last < first {
      return Whole;
    }
    if first >= fileSize {
      return Unsatisfiable;
    }
    if last >= fileSize {
      last := fileSize - 1;
    }
    return Partial(first, last - first + 1);
  }

  /** A reversed range whose two ends both saturate. */
  predicate ReversedBeyond(f: Form) {
    f.Closed? && SIZE_MAX <= f.last < f.first
  }

  /** For every file size the parser answers Partial exactly when the unbounded meaning does,
      with the same window; it differs from the unbounded meaning exactly on a reversed range
      whose two ends saturate, which it calls unsatisfiable. */
  lemma SaturationIsHarmless(f: Form, size: nat)
    requires size <= SIZE_MAX
    ensures Select(Saturated(f), size).Partial? <==> Select(f, size).Partial?
    ensures Select(Saturated(f), size) == Select(f, size) <==> !ReversedBeyond(f)
    ensures ReversedBeyond(f) ==> Select(Saturated(f), size) == Unsatisfiable && Select(f, size) == Whole
    ensures var r := Select(Saturated(f), size); r.Partial? ==> r.len > 0 && r.start + r.len <= size
  {}

  /** The bytes a form names, of a representation of `size` bytes. */
  predicate Names(f: Form, size: nat, i: nat) {
    i < size &&
    match f
    case Malformed => false
    case Suffix(n) => size <= i + n
    case Open(first) => first <= i
    case Closed(first, last) => first <= i <= last
  }

  /** A selected window is exactly the named bytes; nothing is selected exactly when the form is
      not one (or is reversed), and the range is unsatisfiable exactly when it names no byte. */
  lemma WindowIsNamed(f: Form, size: nat)
    ensures var r := Select(f, size);
            && (r.Whole? <==> f.Malformed? || (f.Closed? && f.last < f.first))
            && (r.Partial? ==> forall i: nat :: r.start <= i < r.start + r.len <==> Names(f, size, i))
            && (r.Partial? <==> !r.Whole? && exists i: nat :: Names(f, size, i))
            && (r.Unsatisfiable? <==> !r.Whole? && forall i: nat :: !Names(f, size, i))
  {
    var r := Select(f, size);
    if r.Partial? {
      assert Names(f, size, r.start);
    }
  }

  /** Saturation is at the largest 32-bit number. */
  lemma SaturationPoint(n: nat)
    ensures Saturate(n) == if n < 4294967296 then n else 4294967295
  {}
}
