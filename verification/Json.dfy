/** JSONencoder's text for a tree of strings, objects and arrays, and a decoder by sections 2,
    4, 5 and 7 of RFC 8259 that gets the tree back. */
module Json {
  import opened Options

  datatype Val = Str(s: string) | Obj(members: Members) | Arr(elems: Elems)
  datatype Members = NoMember | Member(tag: string, v: Val, rest: Members)
  datatype Elems = NoElem | Elem(v: Val, rest: Elems)

  /** Where the text goes: a string, or a channel in [MSG:JSON:...] pieces. */
  datatype Mode = ToString | Encapsulated

  // ----- The text, in front of a continuation `k` ------------------------------------------

  function Escape(c: char): string {
    match c
    case '\U{0008}' => "\\b"
    case '\n' => "\\n"
    case '\U{000c}' => "\\f"
    case '\r' => "\\r"
    case '\t' => "\\t"
    case '\"' => "\\\""
    case '\\' => "\\\\"
    case _ => [c]
  }

  function PutChars(s: string, k: string): string {
    if s == "" then k else Escape(s[0]) + PutChars(s[1..], k)
  }

  function PutQuoted(s: string, k: string): string {
    "\"" + PutChars(s, "\"" + k)
  }

  /** line(): a newline and an indent in a string, nothing when encapsulated. */
  function PutLine(mode: Mode, level: nat, k: string): string {
    if mode == ToString then "\n" + PutSpaces(2 * level, k) else k
  }

  function PutSpaces(n: nat, k: string): string {
    if n == 0 then k else " " + PutSpaces(n - 1, k)
  }

  /** comma_line() */
  function PutSeparator(mode: Mode, first: bool, level: nat, k: string): string {
    if first then k else "," + PutLine(mode, level, k)
  }

  function PutVal(mode: Mode, v: Val, level: nat, k: string): string
    decreases v
  {
    match v
    case Str(s) => PutQuoted(s, k)
    case Obj(ms) => "{" + PutMembers(mode, ms, level + 1, true, PutLine(mode, level, "}" + k))
    case Arr(es) => "[" + PutLine(mode, level + 1, PutElems(mode, es, level + 1, true, PutLine(mode, level, "]" + k)))
  }

  function PutMembers(mode: Mode, ms: Members, level: nat, first: bool, k: string): string
    decreases ms
  {
    match ms
    case NoMember => k
    case Member(tag, v, rest) =>
      var body := PutVal(mode, v, level, PutMembers(mode, rest, level, false, k));
      PutSeparator(mode, first, level, PutQuoted(tag, ":" + body))
  }

  function PutElems(mode: Mode, es: Elems, level: nat, first: bool, k: string): string
    decreases es
  {
    match es
    case NoElem => k
    case Elem(v, rest) =>
      PutSeparator(mode, first, level, PutVal(mode, v, level, PutElems(mode, rest, level, false, k)))
  }

  // ----- The decoder -----------------------------------------------------------------------

  predicate IsSpace(c: char) { c == ' ' || c == '\t' || c == '\n' || c == '\r' }

  function SkipSpace(s: string): (t: string)
    ensures |t| <= |s|
  {
    if s != "" && IsSpace(s[0]) then SkipSpace(s[1..]) else s
  }

  /** Section 7: no unescaped control character.  \u escapes are not decoded. */
  function Unescape(c: char): Option<char> {
    match c
    case 'b' => Some('\U{0008}')
    case 'n' => Some('\n')
    case 'f' => Some('\U{000c}')
    case 'r' => Some('\r')
    case 't' => Some('\t')
    case '\"' => Some('\"')
    case '\\' => Some('\\')
    case '/' => Some('/')
    case _ => None
  }

  /** The characters of a string up to its closing quote, and the text after it. */
  function GetChars(s: string): (r: Option<(string, string)>)
    ensures r.Some? ==> |r.value.1| < |s|
  {
    if s == "" || s[0] < ' ' then None
    else if s[0] == '\"' then Some(("", s[1..]))
    else if s[0] == '\\' then
      if |s| < 2 || Unescape(s[1]).None? then None else
      match GetChars(s[2..])
      case None => None
      case Some((t, rest)) => Some(([Unescape(s[1]).value] + t, rest))
    else
      match GetChars(s[1..])
      case None => None
      case Some((t, rest)) => Some(([s[0]] + t, rest))
  }

  function Head(s: string): char {
    if s == "" then '\0' else s[0]
  }

  function GetVal(s: string): (r: Option<(Val, string)>)
    ensures r.Some? ==> |r.value.1| < |s|
    decreases |s|, 1
  {
    var t := SkipSpace(s);
    if Head(t) == '\"' then
      match GetChars(t[1..])
      case None => None
      case Some((str, rest)) => Some((Str(str), rest))
    else if Head(t) == '{' then
      var u := SkipSpace(t[1..]);
      if Head(u) == '}' then Some((Obj(NoMember), u[1..])) else
      match GetMembers(u)
      case None => None
      case Some((ms, rest)) => Some((Obj(ms), rest))
    else if Head(t) == '[' then
      var u := SkipSpace(t[1..]);
      if Head(u) == ']' then Some((Arr(NoElem), u[1..])) else
      match GetElems(u)
      case None => None
      case Some((es, rest)) => Some((Arr(es), rest))
    else None
  }

  /** Members up to and including the closing brace. */
  function GetMembers(s: string): (r: Option<(Members, string)>)
    ensures r.Some? ==> |r.value.1| < |s|
    decreases |s|, 2
  {
    var t := SkipSpace(s);
    if Head(t) != '\"' then None else
    match GetChars(t[1..])
    case None => None
    case Some((tag, rest)) =>
      var u := SkipSpace(rest);
      if Head(u) != ':' then None else
      match GetVal(u[1..])
      case None => None
      case Some((v, after)) =>
        var w := SkipSpace(after);
        if Head(w) == '}' then Some((Member(tag, v, NoMember), w[1..]))
        else if Head(w) != ',' then None
        else match GetMembers(w[1..])
          case None => None
          case Some((ms, end)) => Some((Member(tag, v, ms), end))
  }

  function GetElems(s: string): (r: Option<(Elems, string)>)
    ensures r.Some? ==> |r.value.1| < |s|
    decreases |s|, 2
  {
    match GetVal(s)
    case None => None
    case Some((v, after)) =>
      var w := SkipSpace(after);
      if Head(w) == ']' then Some((Elem(v, NoElem), w[1..]))
      else if Head(w) != ',' then None
      else match GetElems(w[1..])
        case None => None
        case Some((es, end)) => Some((Elem(v, es), end))
  }

  /** A JSON text: one value between optional white space. */
  function Decode(s: string): Option<Val> {
    match GetVal(s)
    case None => None
    case Some((v, rest)) => if SkipSpace(rest) == "" then Some(v) else None
  }

  // ----- Round trip ------------------------------------------------------------------------

  /** The only control characters are the five that quoted() escapes. */
  predicate CleanChar(c: char) {
    c < ' ' ==> c in {'\U{0008}', '\n', '\U{000c}', '\r', '\t'}
  }

  predicate Clean(s: string) { forall c <- s :: CleanChar(c) }

  predicate CleanVal(v: Val)
    decreases v
  {
    match v
    case Str(s) => Clean(s)
    case Obj(ms) => CleanMembers(ms)
    case Arr(es) => CleanElems(es)
  }

  predicate CleanMembers(ms: Members)
    decreases ms
  {
    ms.Member? ==> Clean(ms.tag) && CleanVal(ms.v) && CleanMembers(ms.rest)
  }

  predicate CleanElems(es: Elems)
    decreases es
  {
    es.Elem? ==> CleanVal(es.v) && CleanElems(es.rest)
  }

  lemma EscapeShape(c: char)
    ensures |Escape(c)| == 2 ==> Escape(c)[0] == '\\' && Unescape(Escape(c)[1]) == Some(c) && CleanChar(c)
    ensures |Escape(c)| != 2 ==> Escape(c) == [c] && c != '\\' && c != '\"' && (CleanChar(c) <==> c >= ' ')
  {}

  lemma GetEscaped(c: char, k: string)
    ensures GetChars(Escape(c) + k)
         == if !CleanChar(c) || GetChars(k).None? then None else Some(([c] + GetChars(k).value.0, GetChars(k).value.1))
  {
    hide Escape;
    hide Unescape;
    hide CleanChar;
    EscapeShape(c);
    var t := Escape(c) + k;
    if |Escape(c)| == 2 {
      assert t[0] == '\\' && t[1] == Escape(c)[1] && t[2..] == k;
    } else {
      assert t[0] == c && t[1..] == k;
    }
  }

  /** A quoted string decodes to the string exactly when it is clean; any other control
      character in it makes the text no JSON. */
  lemma {:induction false} QuotedRoundTrip(s: string, k: string)
    ensures GetChars(PutChars(s, "\"" + k)) == if Clean(s) then Some((s, k)) else None
    decreases |s|
  {
    if s == "" {
      assert ("\"" + k)[1..] == k;
    } else {
      QuotedRoundTrip(s[1..], k);
      GetEscaped(s[0], PutChars(s[1..], "\"" + k));
      assert s == [s[0]] + s[1..];
      assert Clean(s) <==> CleanChar(s[0]) && Clean(s[1..]);
    }
  }

  lemma SkipSpaces(n: nat, k: string)
    ensures SkipSpace(PutSpaces(n, k)) == SkipSpace(k)
  {
    if n > 0 {
      SkipSpaces(n - 1, k);
      assert PutSpaces(n, k)[1..] == PutSpaces(n - 1, k);
    }
  }

  lemma SkipLine(mode: Mode, level: nat, k: string)
    ensures SkipSpace(PutLine(mode, level, k)) == SkipSpace(k)
  {
    if mode == ToString {
      SkipSpaces(2 * level, k);
      assert PutLine(mode, level, k)[1..] == PutSpaces(2 * level, k);
    }
  }

  lemma TextStarts(mode: Mode, v: Val, level: nat, k: string)
    ensures var t := PutVal(mode, v, level, k);
            t != "" && !IsSpace(t[0]) && t[0] != ']' && SkipSpace(t) == t
  {}

  /** A value's text, before any continuation, reads back as the value exactly when all its
      strings and tags are clean; otherwise it is no JSON. */
  lemma {:induction false} ValRoundTrip(mode: Mode, v: Val, level: nat, k: string)
    ensures GetVal(PutVal(mode, v, level, k)) == if CleanVal(v) then Some((v, k)) else None
    decreases v, 1
  {
    hide SkipSpace;
    hide GetChars;
    hide GetMembers;
    hide GetElems;
    TextStarts(mode, v, level, k);
    match v
    case Str(s) =>
      QuotedRoundTrip(s, k);
      SkipNothing('\"', PutChars(s, "\"" + k));
    case Obj(ms) =>
      var x := PutMembers(mode, ms, level + 1, true, PutLine(mode, level, "}" + k));
      SkipNothing('{', x);
      if ms == NoMember {
        SkipLine(mode, level, "}" + k);
        SkipNothing('}', k);
      } else {
        SkipNothing('\"', x[1..]);
        assert x == ['\"'] + x[1..];
        MembersRoundTrip(mode, ms, level + 1, level, k);
      }
    case Arr(es) =>
      var x := PutElems(mode, es, level + 1, true, PutLine(mode, level, "]" + k));
      SkipNothing('[', PutLine(mode, level + 1, x));
      SkipLine(mode, level + 1, x);
      if es == NoElem {
        SkipLine(mode, level, "]" + k);
        SkipNothing(']', k);
      } else {
        TextStarts(mode, es.v, level + 1, PutElems(mode, es.rest, level + 1, false, PutLine(mode, level, "]" + k)));
        ElemsRoundTrip(mode, es, level + 1, level, k);
      }
  }

  lemma SkipNothing(c: char, k: string)
    requires !IsSpace(c)
    ensures SkipSpace([c] + k) == [c] + k && Head([c] + k) == c && ([c] + k)[1..] == k
  {}

  /** One member, given how its value reads, and what follows it. */
  lemma GetOneMember(tag: string, body: string)
    ensures var r, m := GetVal(body), GetMembers(PutQuoted(tag, ":" + body));
            if !Clean(tag) || r.None? then m.None?
            else
              var (v, w) := (r.value.0, SkipSpace(r.value.1));
              && (Head(w) == '}' ==> m == Some((Member(tag, v, NoMember), w[1..])))
              && (Head(w) == ',' ==>
                    m == match GetMembers(w[1..])
                         case None => None
                         case Some((ms, end)) => Some((Member(tag, v, ms), end)))
  {
    hide GetChars;
    hide GetVal;
    hide PutChars;
    hide SkipSpace;
    QuotedRoundTrip(tag, ":" + body);
    SkipNothing('\"', PutChars(tag, "\"" + (":" + body)));
    SkipNothing(':', body);
  }

  lemma GetMembersSkips(s: string, t: string)
    requires SkipSpace(s) == SkipSpace(t)
    ensures GetMembers(s) == GetMembers(t)
  {
    hide GetChars;
    hide GetVal;
    hide SkipSpace;
  }

  lemma GetElemsSkips(s: string, t: string)
    requires SkipSpace(s) == SkipSpace(t)
    ensures GetElems(s) == GetElems(t)
  {
    hide SkipSpace;
    hide GetChars;
    hide GetMembers;
    assert GetVal(s) == GetVal(t);
  }

  lemma {:induction false} MembersRoundTrip(mode: Mode, ms: Members, level: nat, outer: nat, k: string)
    requires ms.Member?
    ensures GetMembers(PutMembers(mode, ms, level, true, PutLine(mode, outer, "}" + k)))
         == if CleanMembers(ms) then Some((ms, k)) else None
    decreases ms, 0
  {
    hide GetMembers;
    hide GetVal;
    hide PutVal;
    hide PutQuoted;
    hide SkipSpace;
    var close := PutLine(mode, outer, "}" + k);
    var tail := PutMembers(mode, ms.rest, level, false, close);
    var body := PutVal(mode, ms.v, level, tail);
    ValRoundTrip(mode, ms.v, level, tail);
    GetOneMember(ms.tag, body);
    if ms.rest == NoMember {
      SkipLine(mode, outer, "}" + k);
      SkipNothing('}', k);
    } else {
      var y := PutMembers(mode, ms.rest, level, true, close);
      assert tail == "," + PutLine(mode, level, y);
      SkipNothing(',', PutLine(mode, level, y));
      SkipLine(mode, level, y);
      GetMembersSkips(PutLine(mode, level, y), y);
      MembersRoundTrip(mode, ms.rest, level, outer, k);
    }
  }

  lemma {:induction false} ElemsRoundTrip(mode: Mode, es: Elems, level: nat, outer: nat, k: string)
    requires es.Elem?
    ensures GetElems(PutElems(mode, es, level, true, PutLine(mode, outer, "]" + k)))
         == if CleanElems(es) then Some((es, k)) else None
    decreases es, 0
  {
    hide GetVal;
    hide PutVal;
    hide SkipSpace;
    var close := PutLine(mode, outer, "]" + k);
    var tail := PutElems(mode, es.rest, level, false, close);
    ValRoundTrip(mode, es.v, level, tail);
    if es.rest == NoElem {
      SkipLine(mode, outer, "]" + k);
      SkipNothing(']', k);
    } else {
      var y := PutElems(mode, es.rest, level, true, close);
      assert tail == "," + PutLine(mode, level, y);
      SkipNothing(',', PutLine(mode, level, y));
      SkipLine(mode, level, y);
      GetElemsSkips(PutLine(mode, level, y), y);
      ElemsRoundTrip(mode, es.rest, level, outer, k);
    }
  }

  // ----- The text itself -------------------------------------------------------------------

  const ESCAPE_LETTERS := "btnfr\"\\/"
  const ESCAPE_CODES := [8, 9, 10, 12, 13, 34, 92, 47]

  /** The two-character escapes of section 7, by code point; no other letter makes one. */
  lemma EscapesDecode(j: nat, k: string)
    requires j < 8
    ensures GetChars(['\\', ESCAPE_LETTERS[j]] + k)
         == match GetChars(k)
            case None => None
            case Some((t, rest)) => Some(([ESCAPE_CODES[j] as char] + t, rest))
    ensures forall c :: Unescape(c).Some? ==> c in ESCAPE_LETTERS
  {
    GetEscape(ESCAPE_LETTERS[j], ESCAPE_CODES[j] as char, k);
    forall c | Unescape(c).Some? ensures c in ESCAPE_LETTERS {
      var l := ESCAPE_LETTERS;
      assert l[0] == 'b' && l[1] == 't' && l[2] == 'n' && l[3] == 'f';
      assert l[4] == 'r' && l[5] == '\"' && l[6] == '\\' && l[7] == '/';
    }
  }

  lemma GetEscape(letter: char, c: char, k: string)
    requires Unescape(letter) == Some(c)
    ensures GetChars(['\\', letter] + k)
         == if GetChars(k).None? then None else Some(([c] + GetChars(k).value.0, GetChars(k).value.1))
  {
    var t := ['\\', letter] + k;
    assert t[0] == '\\' && t[1] == letter && t[2..] == k;
  }

  /** A line break in a string is a newline and two spaces a level; when encapsulated, nothing. */
  lemma LineText(mode: Mode, level: nat, k: string)
    ensures mode == Encapsulated ==> PutLine(mode, level, k) == k
    ensures mode == ToString ==>
              var t := PutLine(mode, level, k);
              && |t| == 1 + 2 * level + |k| && t[0] == 10 as char && t[1 + 2 * level..] == k
              && forall i :: 1 <= i < 1 + 2 * level ==> t[i] == 32 as char
  {
    SpacesText(2 * level, k);
  }

  lemma {:induction false} SpacesText(n: nat, k: string)
    ensures var t := PutSpaces(n, k);
            |t| == n + |k| && t[n..] == k && forall i :: 0 <= i < n ==> t[i] == 32 as char
    decreases n
  {
    if n > 0 {
      SpacesText(n - 1, k);
      var t := PutSpaces(n, k);
      assert t == [32 as char] + PutSpaces(n - 1, k);
      assert t[n..] == PutSpaces(n - 1, k)[n - 1..];
    }
  }
}
