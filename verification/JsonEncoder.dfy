/** JSONencoder itself: a nesting level, a counter per level and an output buffer, changed by
    every call. */
module JsonEncoder {
  import opened Json
  import opened Options

  const MAX_JSON_LEVEL := 16
  const MAX_CHUNK := 100

  function Join(chunks: seq<string>): string {
    if chunks == [] then "" else Join(chunks[..|chunks| - 1]) + chunks[|chunks| - 1]
  }

  lemma JoinSnoc(chunks: seq<string>, c: string)
    ensures Join(chunks + [c]) == Join(chunks) + c
  {
    assert (chunks + [c])[..|chunks|] == chunks;
  }

  lemma Assoc(a: string, b: string, c: string)
    ensures a + b + c == a + (b + c)
  {}

  lemma AddNothing(a: string)
    ensures a + "" == a && "" + a == a
  {}

  /** The level after one more opening: the deepest, the sixteenth, is not left. */
  function Deeper(level: nat): (d: nat)
    ensures d == if level == 15 then 15 else level + 1
  {
    if level + 1 == MAX_JSON_LEVEL then level else level + 1
  }

  class Encoder {
    const mode: Mode
    var level: nat
    const count: array<nat>
    var buf: string
    var sent: seq<string>

    ghost predicate Valid()
      reads this
    {
      && count.Length == MAX_JSON_LEVEL && level < MAX_JSON_LEVEL
      && (mode == ToString ==> sent == [])
      && (mode == Encapsulated ==> |buf| < 100)
      && (forall c <- sent :: 0 < |c| <= 100)
    }

    /** The pieces sent so far and the buffer, spliced together. */
    ghost function Text(): string
      reads this`buf, this`sent
    {
      Join(sent) + buf
    }

    constructor (mode: Mode)
      ensures Valid() && this.mode == mode && level == 0 && count[0] == 0 && Text() == "" && fresh(count)
    {
      this.mode := mode;
      level := 0;
      count := new nat[MAX_JSON_LEVEL](_ => 0);
      buf, sent := "", [];
    }

    method Flush()
      requires count.Length == MAX_JSON_LEVEL && level < MAX_JSON_LEVEL && (mode == ToString ==> sent == [])
      requires (forall c <- sent :: 0 < |c| <= 100) && (mode == Encapsulated ==> |buf| <= 100)
      modifies this`buf, this`sent
      ensures Valid() && Text() == old(Text())
      ensures mode == Encapsulated ==> buf == "" && Join(sent) == Text()
    {
      hide Join;
      if mode == Encapsulated && |buf| > 0 {
        JoinSnoc(sent, buf);
        AddNothing(Join(sent) + buf);
        sent := sent + [buf];
        buf := "";
      }
      AddNothing(Join(sent));
    }

    method Add(c: char)
      requires Valid()
      modifies this`buf, this`sent
      ensures Valid() && Text() == old(Text()) + [c]
    {
      hide Join;
      Assoc(Join(sent), buf, [c]);
      buf := buf + [c];
      assert Text() == old(Text()) + [c];
      if mode == Encapsulated && |buf| >= MAX_CHUNK {
        Flush();
      }
    }

    method AddText(s: string)
      requires Valid()
      modifies this`buf, this`sent
      ensures Valid() && Text() == old(Text()) + s
    {
      hide Text;
      AddNothing(Text());
      for i := 0 to |s|
        invariant Valid() && Text() == old(Text()) + s[..i]
      {
        Assoc(old(Text()), s[..i], [s[i]]);
        Add(s[i]);
        assert s[..i + 1] == s[..i] + [s[i]];
      }
      assert s[..|s|] == s;
    }

    /** quoted(): `s` is a C string. */
    method Quoted(s: string)
      requires Valid() && '\0' !in s
      modifies this`buf, this`sent
      ensures Valid() && Text() == old(Text()) + PutQuoted(s, "")
    {
      hide Text;
      ghost var goal := old(Text()) + PutQuoted(s, "");
      AddNothing("\"");
      Assoc(old(Text()), "\"", PutChars(s, "\""));
      Add('\"');
      assert s[0..] == s;
      for i := 0 to |s|
        invariant Valid() && Text() + PutChars(s[i..], "\"") == goal
      {
        assert s[i..][0] == s[i] && s[i..][1..] == s[i + 1..];
        Assoc(Text(), Escape(s[i]), PutChars(s[i + 1..], "\""));
        AddText(Escape(s[i]));
      }
      Add('\"');
    }

    /** line(), with the loop of indent(). */
    method Line()
      requires Valid()
      modifies this`buf, this`sent
      ensures Valid() && Text() == old(Text()) + PutLine(mode, level, "")
    {
      hide Text;
      if mode == ToString {
        ghost var goal := old(Text()) + PutLine(mode, level, "");
        Assoc(old(Text()), "\n", PutSpaces(2 * level, ""));
        Add('\n');
        for i := 0 to 2 * level
          invariant Valid() && Text() + PutSpaces(2 * level - i, "") == goal
        {
          Assoc(Text(), " ", PutSpaces(2 * level - i - 1, ""));
          Add(' ');
        }
      }
      AddNothing(Text());
    }

    method CommaLine()
      requires Valid()
      modifies this`buf, this`sent, count
      ensures Valid() && Text() == old(Text()) + PutSeparator(mode, old(count[level]) == 0, level, "")
      ensures count[level] == old(count[level]) + 1
      ensures forall i :: 0 <= i < MAX_JSON_LEVEL && i != level ==> count[i] == old(count[i])
    {
      hide Text;
      hide PutLine;
      if count[level] != 0 {
        Assoc(Text(), ",", PutLine(mode, level, ""));
        Add(',');
        Line();
      } else {
        AddNothing(Text());
      }
      count[level] := count[level] + 1;
    }

    /** At the deepest level the nesting is not counted. */
    method IncLevel()
      requires Valid()
      modifies this`level, count
      ensures Valid() && level == Deeper(old(level))
      ensures count[level] == 0
      ensures forall i :: 0 <= i < MAX_JSON_LEVEL && i != level ==> count[i] == old(count[i])
    {
      level := level + 1;
      if level == MAX_JSON_LEVEL {
        level := level - 1;
      }
      count[level] := 0;
    }

    // ----- The calls that open and close containers ----------------------------------------

    method BeginMember(tag: string)
      requires Valid() && '\0' !in tag
      modifies this`buf, this`sent, count
      ensures Valid() && Text() == old(Text()) + PutSeparator(mode, old(count[level]) == 0, level, PutQuoted(tag, ":"))
      ensures count[level] == old(count[level]) + 1
      ensures forall i :: 0 <= i < MAX_JSON_LEVEL && i != level ==> count[i] == old(count[i])
    {
      hide Text;
      hide PutSeparator;
      hide PutQuoted;
      ghost var sep := PutSeparator(mode, count[level] == 0, level, "");
      AppendSeparator(mode, count[level] == 0, level, PutQuoted(tag, ":"));
      AppendQuoted(tag, ":");
      Assoc(old(Text()), sep, PutQuoted(tag, ":"));
      Assoc(old(Text()) + sep, PutQuoted(tag, ""), ":");
      CommaLine();
      Quoted(tag);
      Add(':');
    }

    method BeginMemberObject(tag: string)
      requires Valid() && '\0' !in tag
      modifies this, count
      ensures Valid()
      ensures Text() == old(Text()) + PutSeparator(mode, old(count[level]) == 0, old(level), PutQuoted(tag, ":")) + "{"
      ensures level == Deeper(old(level)) && count[level] == 0
      ensures forall i :: 0 <= i < level ==> count[i] == old(count[i]) + if i == old(level) then 1 else 0
    {
      hide Text;
      BeginMember(tag);
      Add('{');
      IncLevel();
    }

    method BeginArray(tag: string)
      requires Valid() && '\0' !in tag
      modifies this, count
      ensures Valid() && level == Deeper(old(level)) && count[level] == 0
      ensures Text() == old(Text()) + PutSeparator(mode, old(count[level]) == 0, old(level), PutQuoted(tag, ":"))
                        + "[" + PutLine(mode, level, "")
      ensures forall i :: 0 <= i < level ==> count[i] == old(count[i]) + if i == old(level) then 1 else 0
    {
      hide Text;
      BeginMember(tag);
      Add('[');
      IncLevel();
      Line();
    }

    method BeginObject()
      requires Valid()
      modifies this, count
      ensures Valid() && Text() == old(Text()) + PutSeparator(mode, old(count[level]) == 0, old(level), "") + "{"
      ensures level == Deeper(old(level)) && count[level] == 0
      ensures forall i :: 0 <= i < level ==> count[i] == old(count[i]) + if i == old(level) then 1 else 0
    {
      hide Text;
      CommaLine();
      Add('{');
      IncLevel();
    }

    /** end_object() and end_array(). */
    method EndContainer(close: char)
      requires Valid() && level > 0
      modifies this`level, this`buf, this`sent
      ensures Valid() && level == old(level) - 1 && Text() == old(Text()) + PutLine(mode, level, "") + [close]
    {
      hide Text;
      level := level - 1;
      Line();
      Add(close);
    }

    method Member(tag: string, value: string)
      requires Valid() && '\0' !in tag && '\0' !in value
      modifies this`buf, this`sent, count
      ensures Valid()
      ensures Text() == old(Text()) + PutSeparator(mode, old(count[level]) == 0, level, PutQuoted(tag, ":"))
                        + PutQuoted(value, "")
      ensures count[level] == old(count[level]) + 1
      ensures forall i :: 0 <= i < MAX_JSON_LEVEL && i != level ==> count[i] == old(count[i])
    {
      hide Text;
      BeginMember(tag);
      Quoted(value);
    }

    method StringElement(s: string)
      requires Valid() && '\0' !in s
      modifies this`buf, this`sent, count
      ensures Valid()
      ensures Text() == old(Text()) + PutSeparator(mode, old(count[level]) == 0, level, "") + PutQuoted(s, "")
      ensures count[level] == old(count[level]) + 1
      ensures forall i :: 0 <= i < MAX_JSON_LEVEL && i != level ==> count[i] == old(count[i])
    {
      hide Text;
      CommaLine();
      Quoted(s);
    }
  }

  // ----- Continuations are suffixes --------------------------------------------------------

  lemma {:induction false} AppendChars(s: string, k: string, j: string)
    ensures PutChars(s, k + j) == PutChars(s, k) + j
    decreases |s|
  {
    if s != "" {
      AppendChars(s[1..], k, j);
      Assoc(Escape(s[0]), PutChars(s[1..], k), j);
    }
  }

  lemma {:induction false} AppendSpaces(n: nat, k: string)
    ensures PutSpaces(n, k) == PutSpaces(n, "") + k
  {
    if n > 0 {
      AppendSpaces(n - 1, k);
      Assoc(" ", PutSpaces(n - 1, ""), k);
    } else {
      AddNothing(k);
    }
  }

  lemma AppendQuoted(s: string, k: string)
    ensures PutQuoted(s, k) == PutQuoted(s, "") + k
  {
    hide PutChars;
    AppendChars(s, "\"", k);
    AddNothing("\"");
    Assoc("\"", PutChars(s, "\""), k);
  }

  lemma AppendLine(mode: Mode, level: nat, k: string)
    ensures PutLine(mode, level, k) == PutLine(mode, level, "") + k
  {
    hide PutSpaces;
    AppendSpaces(2 * level, k);
    Assoc("\n", PutSpaces(2 * level, ""), k);
    AddNothing(k);
  }

  lemma AppendSeparator(mode: Mode, first: bool, level: nat, k: string)
    ensures PutSeparator(mode, first, level, k) == PutSeparator(mode, first, level, "") + k
  {
    hide PutLine;
    AppendLine(mode, level, k);
    Assoc(",", PutLine(mode, level, ""), k);
    AddNothing(k);
  }

  lemma AppendVal(mode: Mode, v: Val, level: nat, k: string)
    ensures PutVal(mode, v, level, k) == PutVal(mode, v, level, "") + k
    decreases v, 0
  {
    match v
    case Str(s) => AppendQuoted(s, k);
    case Obj(ms) =>
      ObjectText(mode, ms, level, k);
      ObjectText(mode, ms, level, "");
      AddNothing(Wrapped(mode, "{", PutMembers(mode, ms, level + 1, true, ""), level, "}"));
    case Arr(es) =>
      ArrayText(mode, es, level, k);
      ArrayText(mode, es, level, "");
      var open := "[" + PutLine(mode, level + 1, "");
      AddNothing(Wrapped(mode, open, PutElems(mode, es, level + 1, true, ""), level, "]"));
  }

  lemma AppendMembers(mode: Mode, ms: Members, level: nat, first: bool, k: string)
    ensures PutMembers(mode, ms, level, first, k) == PutMembers(mode, ms, level, first, "") + k
    decreases ms, 0
  {
    match ms
    case NoMember => AddNothing(k);
    case Member(tag, v, rest) =>
      var r := PutMembers(mode, rest, level, false, "");
      AppendMembers(mode, rest, level, false, k);
      AppendVal(mode, v, level, r + k);
      AppendVal(mode, v, level, r);
      MemberText(mode, first, level, tag, PutVal(mode, v, level, r + k));
      MemberText(mode, first, level, tag, PutVal(mode, v, level, r));
      Assoc(PutVal(mode, v, level, ""), r, k);
      Assoc(PutSeparator(mode, first, level, PutQuoted(tag, ":")), PutVal(mode, v, level, r), k);
  }

  lemma AppendElems(mode: Mode, es: Elems, level: nat, first: bool, k: string)
    ensures PutElems(mode, es, level, first, k) == PutElems(mode, es, level, first, "") + k
    decreases es, 0
  {
    match es
    case NoElem => AddNothing(k);
    case Elem(v, rest) =>
      var r := PutElems(mode, rest, level, false, "");
      AppendElems(mode, rest, level, false, k);
      AppendVal(mode, v, level, r + k);
      AppendVal(mode, v, level, r);
      AppendSeparator(mode, first, level, PutVal(mode, v, level, r + k));
      AppendSeparator(mode, first, level, PutVal(mode, v, level, r));
      Assoc(PutVal(mode, v, level, ""), r, k);
      Assoc(PutSeparator(mode, first, level, ""), PutVal(mode, v, level, r), k);
  }

  lemma MemberText(mode: Mode, first: bool, level: nat, tag: string, k: string)
    ensures PutSeparator(mode, first, level, PutQuoted(tag, ":" + k))
         == PutSeparator(mode, first, level, PutQuoted(tag, ":")) + k
  {
    hide PutSeparator;
    hide PutQuoted;
    AppendQuoted(tag, ":" + k);
    AppendQuoted(tag, ":");
    Assoc(PutQuoted(tag, ""), ":", k);
    AppendSeparator(mode, first, level, PutQuoted(tag, ":" + k));
    AppendSeparator(mode, first, level, PutQuoted(tag, ":"));
    Assoc(PutSeparator(mode, first, level, ""), PutQuoted(tag, ":"), k);
  }

  /** A container's text: opening, contents, line break at its own level, closing. */
  function Wrapped(mode: Mode, open: string, contents: string, level: nat, close: string): string {
    open + contents + PutLine(mode, level, "") + close
  }

  lemma WrappedText(mode: Mode, open: string, contents: string, level: nat, close: string, k: string)
    ensures open + (contents + PutLine(mode, level, close + k)) == Wrapped(mode, open, contents, level, close) + k
  {
    hide PutLine;
    var l := PutLine(mode, level, "");
    AppendLine(mode, level, close + k);
    Assoc(open, contents, l + (close + k));
    Assoc(open + contents, l, close + k);
    Assoc(open + contents + l, close, k);
  }

  lemma ObjectText(mode: Mode, ms: Members, level: nat, k: string)
    ensures PutVal(mode, Obj(ms), level, k)
         == Wrapped(mode, "{", PutMembers(mode, ms, level + 1, true, ""), level, "}") + k
    decreases ms, 1
  {
    hide Wrapped;
    AppendMembers(mode, ms, level + 1, true, PutLine(mode, level, "}" + k));
    WrappedText(mode, "{", PutMembers(mode, ms, level + 1, true, ""), level, "}", k);
  }

  lemma ArrayText(mode: Mode, es: Elems, level: nat, k: string)
    ensures PutVal(mode, Arr(es), level, k)
         == Wrapped(mode, "[" + PutLine(mode, level + 1, ""), PutElems(mode, es, level + 1, true, ""), level, "]") + k
    decreases es, 1
  {
    hide Wrapped;
    var open := PutLine(mode, level + 1, "");
    var inner := PutElems(mode, es, level + 1, true, PutLine(mode, level, "]" + k));
    AppendLine(mode, level + 1, inner);
    Assoc("[", open, inner);
    AppendElems(mode, es, level + 1, true, PutLine(mode, level, "]" + k));
    WrappedText(mode, "[" + open, PutElems(mode, es, level + 1, true, ""), level, "]", k);
  }

  // ----- Driving the encoder over a tree ---------------------------------------------------

  /** How many containers are open at once inside a value. */
  function Depth(v: Val): nat
    decreases v
  {
    match v
    case Str(_) => 0
    case Obj(ms) => 1 + DepthMembers(ms)
    case Arr(es) => 1 + DepthElems(es)
  }

  function Max(a: nat, b: nat): nat { if a > b then a else b }

  function DepthMembers(ms: Members): nat
    decreases ms
  {
    if ms.NoMember? then 0 else Max(Depth(ms.v), DepthMembers(ms.rest))
  }

  function DepthElems(es: Elems): nat
    decreases es
  {
    if es.NoElem? then 0 else Max(Depth(es.v), DepthElems(es.rest))
  }

  /** Somewhere inside the value `n` containers are open at once. */
  predicate Nests(v: Val, n: nat)
    decreases v
  {
    n == 0 ||
    match v
    case Str(_) => false
    case Obj(ms) => NestsMembers(ms, n - 1)
    case Arr(es) => NestsElems(es, n - 1)
  }

  predicate NestsMembers(ms: Members, n: nat)
    decreases ms
  {
    n == 0 || (ms.Member? && (Nests(ms.v, n) || NestsMembers(ms.rest, n)))
  }

  predicate NestsElems(es: Elems, n: nat)
    decreases es
  {
    n == 0 || (es.Elem? && (Nests(es.v, n) || NestsElems(es.rest, n)))
  }

  /** The depth is the largest such number. */
  lemma {:induction false} DepthIsNesting(v: Val, n: nat)
    ensures Nests(v, n) <==> n <= Depth(v)
    decreases v
  {
    if n > 0 {
      match v
      case Str(_) =>
      case Obj(ms) => DepthIsNestingMembers(ms, n - 1);
      case Arr(es) => DepthIsNestingElems(es, n - 1);
    }
  }

  lemma {:induction false} DepthIsNestingMembers(ms: Members, n: nat)
    ensures NestsMembers(ms, n) <==> n <= DepthMembers(ms)
    decreases ms
  {
    if ms.Member? {
      DepthIsNesting(ms.v, n);
      DepthIsNestingMembers(ms.rest, n);
    }
  }

  lemma {:induction false} DepthIsNestingElems(es: Elems, n: nat)
    ensures NestsElems(es, n) <==> n <= DepthElems(es)
    decreases es
  {
    if es.Elem? {
      DepthIsNesting(es.v, n);
      DepthIsNestingElems(es.rest, n);
    }
  }

  /** What the calls can express: C strings, and no array directly inside an array. */
  predicate Drivable(v: Val)
    decreases v
  {
    match v
    case Str(s) => '\0' !in s
    case Obj(ms) => DrivableMembers(ms)
    case Arr(es) => DrivableElems(es)
  }

  predicate DrivableMembers(ms: Members)
    decreases ms
  {
    ms.Member? ==> '\0' !in ms.tag && Drivable(ms.v) && DrivableMembers(ms.rest)
  }

  predicate DrivableElems(es: Elems)
    decreases es
  {
    es.Elem? ==> !es.v.Arr? && Drivable(es.v) && DrivableElems(es.rest)
  }

  /** What a run of calls at one level leaves as it was. */
  twostate predicate SameLevel(e: Encoder)
    reads e, e.count
  {
    && old(e.Valid()) && e.Valid() && e.level == old(e.level)
    && forall i :: 0 <= i < e.level ==> e.count[i] == old(e.count[i])
  }

  lemma OneMore(t: string, a: string, b: string, r: string)
    ensures t + a + b + r == t + (a + (b + r))
  {
    Assoc(t, a, b + r);
    Assoc(t + a, b, r);
  }

  lemma WrappedOnto(t: string, mode: Mode, open: string, contents: string, level: nat, close: string)
    ensures t + open + contents + PutLine(mode, level, "") + close
         == t + (Wrapped(mode, open, contents, level, close) + "")
  {
    hide PutLine;
    var l := PutLine(mode, level, "");
    Assoc(t, open, contents);
    Assoc(t, open + contents, l);
    Assoc(t, open + contents + l, close);
    AddNothing(open + contents + l + close);
  }

  method EmitMembers(e: Encoder, ms: Members)
    requires e.Valid() && DrivableMembers(ms) && e.level + DepthMembers(ms) < MAX_JSON_LEVEL
    modifies e, e.count
    ensures SameLevel(e)
    ensures e.Text() == old(e.Text()) + PutMembers(e.mode, ms, e.level, old(e.count[e.level]) == 0, "")
    decreases ms, 0
  {
    match ms
    case NoMember =>
      AddNothing(e.Text());
    case Member(tag, v, rest) =>
      EmitMember(e, tag, v);
      EmitMembers(e, rest);
      var first := old(e.count[e.level]) == 0;
      var r := PutMembers(e.mode, rest, e.level, false, "");
      AppendVal(e.mode, v, e.level, r);
      MemberText(e.mode, first, e.level, tag, PutVal(e.mode, v, e.level, r));
      OneMore(old(e.Text()), PutSeparator(e.mode, first, e.level, PutQuoted(tag, ":")),
              PutVal(e.mode, v, e.level, ""), r);
  }

  method EmitMember(e: Encoder, tag: string, v: Val)
    requires e.Valid() && '\0' !in tag && Drivable(v) && e.level + Depth(v) < MAX_JSON_LEVEL
    modifies e, e.count
    ensures SameLevel(e) && e.count[e.level] > 0
    ensures e.Text() == old(e.Text()) + PutSeparator(e.mode, old(e.count[e.level]) == 0, e.level, PutQuoted(tag, ":"))
                        + PutVal(e.mode, v, e.level, "")
    decreases v, 1
  {
    hide PutSeparator;
    hide PutQuoted;
    hide PutVal;
    hide PutMembers;
    hide PutElems;
    hide PutLine;
    hide Wrapped;
    hide Encoder.Text;
    ghost var t := e.Text() + PutSeparator(e.mode, e.count[e.level] == 0, e.level, PutQuoted(tag, ":"));
    match v
    case Str(s) =>
      e.Member(tag, s);
      StringText(e.mode, s, e.level);
    case Obj(ms) =>
      e.BeginMemberObject(tag);
      EmitMembers(e, ms);
      e.EndContainer('}');
      ObjectText(e.mode, ms, e.level, "");
      WrappedOnto(t, e.mode, "{", PutMembers(e.mode, ms, e.level + 1, true, ""), e.level, "}");
    case Arr(es) =>
      e.BeginArray(tag);
      Assoc(t, "[", PutLine(e.mode, e.level, ""));
      EmitElems(e, es);
      e.EndContainer(']');
      ArrayText(e.mode, es, e.level, "");
      WrappedOnto(t, e.mode, "[" + PutLine(e.mode, e.level + 1, ""),
                  PutElems(e.mode, es, e.level + 1, true, ""), e.level, "]");
  }

  lemma StringText(mode: Mode, s: string, level: nat)
    ensures PutVal(mode, Str(s), level, "") == PutQuoted(s, "")
  {}

  method EmitElems(e: Encoder, es: Elems)
    requires e.Valid() && DrivableElems(es) && e.level + DepthElems(es) < MAX_JSON_LEVEL
    modifies e, e.count
    ensures SameLevel(e)
    ensures e.Text() == old(e.Text()) + PutElems(e.mode, es, e.level, old(e.count[e.level]) == 0, "")
    decreases es, 0
  {
    match es
    case NoElem =>
      AddNothing(e.Text());
    case Elem(v, rest) =>
      EmitElem(e, v);
      EmitElems(e, rest);
      var first := old(e.count[e.level]) == 0;
      var r := PutElems(e.mode, rest, e.level, false, "");
      AppendVal(e.mode, v, e.level, r);
      AppendSeparator(e.mode, first, e.level, PutVal(e.mode, v, e.level, r));
      OneMore(old(e.Text()), PutSeparator(e.mode, first, e.level, ""), PutVal(e.mode, v, e.level, ""), r);
  }

  method EmitElem(e: Encoder, v: Val)
    requires e.Valid() && Drivable(v) && !v.Arr? && e.level + Depth(v) < MAX_JSON_LEVEL
    modifies e, e.count
    ensures SameLevel(e) && e.count[e.level] > 0
    ensures e.Text() == old(e.Text()) + PutSeparator(e.mode, old(e.count[e.level]) == 0, e.level, "")
                        + PutVal(e.mode, v, e.level, "")
    decreases v, 1
  {
    hide PutSeparator;
    hide PutQuoted;
    hide PutVal;
    hide PutMembers;
    hide PutElems;
    hide PutLine;
    hide Wrapped;
    hide Encoder.Text;
    ghost var t := e.Text() + PutSeparator(e.mode, e.count[e.level] == 0, e.level, "");
    match v
    case Str(s) =>
      e.StringElement(s);
      StringText(e.mode, s, e.level);
    case Obj(ms) =>
      e.BeginObject();
      EmitMembers(e, ms);
      e.EndContainer('}');
      ObjectText(e.mode, ms, e.level, "");
      WrappedOnto(t, e.mode, "{", PutMembers(e.mode, ms, e.level + 1, true, ""), e.level, "}");
  }

  /** begin(), members, end(): a whole text, and what it decodes to. */
  method EncodeObject(e: Encoder, ms: Members)
    requires e.Valid() && e.level == 0 && e.count[0] == 0 && e.Text() == ""
    requires DrivableMembers(ms) && DepthMembers(ms) < 15
    modifies e, e.count
    ensures e.Valid() && e.level == 0
    ensures e.Text() == PutVal(e.mode, Obj(ms), 0, PutLine(e.mode, 0, ""))
    ensures e.mode == Encapsulated ==> Join(e.sent) == e.Text()
    ensures Decode(e.Text()) == if CleanMembers(ms) then Some(Obj(ms)) else None
  {
    hide PutQuoted;
    hide PutVal;
    hide PutMembers;
    hide PutElems;
    hide PutLine;
    hide Wrapped;
    hide Encoder.Text;
    hide Join;
    ghost var contents := PutMembers(e.mode, ms, 1, true, "");
    ghost var whole := Wrapped(e.mode, "{", contents, 0, "}");
    ghost var t := e.Text() + PutSeparator(e.mode, true, 0, "");
    assert t == "";
    e.BeginObject();
    EmitMembers(e, ms);
    e.EndContainer('}');
    WrappedOnto(t, e.mode, "{", contents, 0, "}");
    AddNothing(whole);
    e.Line();
    ObjectText(e.mode, ms, 0, PutLine(e.mode, 0, ""));
    e.Flush();
    ObjectDecodes(e.mode, ms);
  }

  /** The text of an object, in either mode, decodes to that object exactly when all its
      strings and tags are clean; otherwise it is no JSON text. */
  lemma ObjectDecodes(mode: Mode, ms: Members)
    ensures Decode(PutVal(mode, Obj(ms), 0, PutLine(mode, 0, ""))) == if CleanMembers(ms) then Some(Obj(ms)) else None
  {
    hide GetVal;
    ValRoundTrip(mode, Obj(ms), 0, PutLine(mode, 0, ""));
    SkipLine(mode, 0, "");
  }
}
