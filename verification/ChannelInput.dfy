/** Channel: assembling input bytes into lines, and stashing bytes that arrive while nobody
    wants a line. */
module ChannelInput {
  import opened Options

  const MAX_LINE := 255
  const MAX_RX_QUEUE := 1024

  // ----- Line assembly ---------------------------------------------------------------------

  /** The characters collected so far, and whether the last byte was CR. */
  datatype Asm = Asm(buf: string, lastWasCR: bool)

  const START := Asm("", false)

  /** strcpy() stops at a NUL. */
  function Cut(s: string): string {
    if s == "" || s[0] == '\0' then "" else [s[0]] + Cut(s[1..])
  }

  /** Backspace erases; characters beyond the buffer are dropped. */
  function Edit(buf: string, c: char): string {
    if c == '\U{0008}' then if buf == "" then "" else buf[..|buf| - 1]
    else if |buf| < MAX_LINE - 1 then buf + [c] else buf
  }

  function EditAll(buf: string, s: string): string
    decreases |s|
  {
    if s == "" then buf else EditAll(Edit(buf, s[0]), s[1..])
  }

  lemma {:induction false} EditAllFits(buf: string, s: string)
    requires |buf| < MAX_LINE
    ensures |EditAll(buf, s)| < MAX_LINE
    decreases |s|
  {
    if s != "" {
      EditAllFits(Edit(buf, s[0]), s[1..]);
    }
  }

  /** lineComplete() */
  function Feed(a: Asm, c: char): (Asm, Option<string>) {
    if c == '\n' then
      if a.lastWasCR then (a.(lastWasCR := false), None) else (Asm("", false), Some(Cut(a.buf)))
    else if c == '\r' then (Asm("", true), Some(Cut(a.buf)))
    else (Asm(Edit(a.buf, c), false), None)
  }

  function FeedAll(a: Asm, s: string): Asm
    decreases |s|
  {
    if s == "" then a else FeedAll(Feed(a, s[0]).0, s[1..])
  }

  /** The lines completed by `s`, in order. */
  function Lines(a: Asm, s: string): seq<string>
    decreases |s|
  {
    if s == "" then []
    else
      var (next, line) := Feed(a, s[0]);
      (if line.Some? then [line.value] else []) + Lines(next, s[1..])
  }

  lemma {:induction false} FeedAppend(a: Asm, s: string, t: string)
    ensures FeedAll(a, s + t) == FeedAll(FeedAll(a, s), t)
    ensures Lines(a, s + t) == Lines(a, s) + Lines(FeedAll(a, s), t)
    decreases |s|
  {
    if s == "" {
      assert s + t == t;
    } else {
      assert (s + t)[1..] == s[1..] + t;
      FeedAppend(Feed(a, s[0]).0, s[1..], t);
    }
  }

  // ----- Line endings ----------------------------------------------------------------------

  datatype Ending = LF | CR | CRLF

  function Break(e: Ending): string {
    match e
    case LF => "\n"
    case CR => "\r"
    case CRLF => "\r\n"
  }

  /** A line's text, which contains no line ending, and how the line ends. */
  datatype Row = Row(text: string, end: Ending)

  predicate Unbroken(s: string) { forall i :: 0 <= i < |s| ==> s[i] != '\n' && s[i] != '\r' }

  function Text(rows: seq<Row>): string {
    if rows == [] then "" else rows[0].text + Break(rows[0].end) + Text(rows[1..])
  }

  /** What a row is assembled to. */
  function LineOf(s: string): string { Cut(EditAll("", s)) }

  /** The lines of `rows`: an empty line ended by LF right after a line ended by CR is the
      tail of a CR-LF pair and gives none. */
  function Assembled(afterCR: bool, rows: seq<Row>): seq<string>
    decreases |rows|
  {
    if rows == [] then []
    else if afterCR && rows[0] == Row("", LF) then Assembled(false, rows[1..])
    else [LineOf(rows[0].text)] + Assembled(rows[0].end == CR, rows[1..])
  }

  lemma {:induction false} FeedText(a: Asm, s: string)
    requires Unbroken(s)
    ensures Lines(a, s) == []
    ensures FeedAll(a, s) == Asm(EditAll(a.buf, s), a.lastWasCR && s == "")
    decreases |s|
  {
    if s != "" {
      FeedText(Feed(a, s[0]).0, s[1..]);
    }
  }

  lemma FeedBreak(a: Asm, e: Ending)
    requires !a.lastWasCR || (e != LF)
    ensures Lines(a, Break(e)) == [Cut(a.buf)] && FeedAll(a, Break(e)) == Asm("", e == CR)
  {
    match e
    case LF => assert "\n"[1..] == "";
    case CR => assert "\r"[1..] == "";
    case CRLF =>
      assert "\r\n"[1..] == "\n" && "\n"[1..] == "";
      assert Lines(Asm("", true), "\n") == [];
      assert FeedAll(Asm("", true), "\n") == Asm("", false);
  }

  lemma FeedRow(cr: bool, r: Row)
    requires Unbroken(r.text)
    ensures var a, t := Asm("", cr), r.text + Break(r.end);
            if cr && r == Row("", LF) then Lines(a, t) == [] && FeedAll(a, t) == Asm("", false)
            else Lines(a, t) == [LineOf(r.text)] && FeedAll(a, t) == Asm("", r.end == CR)
  {
    var a := Asm("", cr);
    FeedAppend(a, r.text, Break(r.end));
    FeedText(a, r.text);
    if cr && r == Row("", LF) {
      assert "\n"[1..] == "" && FeedAll(a, "\n") == Asm("", false) && Lines(a, "\n") == [];
    } else {
      FeedBreak(FeedAll(a, r.text), r.end);
    }
  }

  /** Any mixture of the three line endings assembles to exactly `Assembled`. */
  lemma {:induction false} RowsAssemble(cr: bool, rows: seq<Row>)
    requires forall i :: 0 <= i < |rows| ==> Unbroken(rows[i].text)
    ensures Lines(Asm("", cr), Text(rows)) == Assembled(cr, rows)
    decreases |rows|
  {
    hide FeedAll;
    hide Break;
    if rows != [] {
      var r, rest := rows[0], Text(rows[1..]);
      FeedRow(cr, r);
      FeedAppend(Asm("", cr), r.text + Break(r.end), rest);
      RowsAssemble(if cr && r == Row("", LF) then false else r.end == CR, rows[1..]);
    }
  }

  function Uniform(texts: seq<string>, e: Ending): seq<Row> {
    seq(|texts|, i requires 0 <= i < |texts| => Row(texts[i], e))
  }

  lemma {:induction false} UniformAssembled(texts: seq<string>, e: Ending, cr: bool)
    requires cr ==> e == CR
    ensures Assembled(cr, Uniform(texts, e)) == seq(|texts|, i requires 0 <= i < |texts| => LineOf(texts[i]))
    decreases |texts|
  {
    if texts != [] {
      assert Uniform(texts, e)[1..] == Uniform(texts[1..], e);
      UniformAssembled(texts[1..], e, e == CR);
    }
  }

  /** Lines are the same whether all endings are LF, all CR or all CR-LF: each is the edited
      text of its row, at most 254 characters long. */
  lemma EndingsDoNotMatter(texts: seq<string>, e: Ending)
    requires forall i :: 0 <= i < |texts| ==> Unbroken(texts[i])
    ensures Lines(START, Text(Uniform(texts, e))) == seq(|texts|, i requires 0 <= i < |texts| => LineOf(texts[i]))
    ensures forall i :: 0 <= i < |texts| ==> |LineOf(texts[i])| <= 254
  {
    RowsAssemble(false, Uniform(texts, e));
    UniformAssembled(texts, e, false);
    forall i | 0 <= i < |texts| ensures |LineOf(texts[i])| < MAX_LINE {
      EditAllFits("", texts[i]);
      CutShortens(EditAll("", texts[i]));
    }
  }

  lemma CutShortens(s: string)
    ensures |Cut(s)| <= |s|
  {}

  // ----- Polling ---------------------------------------------------------------------------

  /** The bytes of `s` that are not realtime commands. */
  function Plain(realtime: char -> bool, s: string): string {
    if s == "" then "" else (if realtime(s[0]) then "" else [s[0]]) + Plain(realtime, s[1..])
  }

  lemma {:induction false} PlainSnoc(realtime: char -> bool, s: string, c: char)
    ensures Plain(realtime, s + [c]) == Plain(realtime, s) + (if realtime(c) then "" else [c])
    decreases |s|
  {
    if s == "" {
      assert (s + [c])[1..] == "";
    } else {
      assert (s + [c])[1..] == s[1..] + [c];
      PlainSnoc(realtime, s[1..], c);
    }
  }

  /** What a stash with room for `room` more takes of `s`: realtime commands pass it by, and
      plain bytes that find it full are dropped. */
  function Accepted(realtime: char -> bool, room: nat, s: string): string
    decreases |s|
  {
    if s == "" then ""
    else if realtime(s[0]) then [s[0]] + Accepted(realtime, room, s[1..])
    else if room == 0 then Accepted(realtime, 0, s[1..])
    else [s[0]] + Accepted(realtime, room - 1, s[1..])
  }

  /** Exactly the first `room` plain bytes are kept, in order, and nothing is dropped exactly
      when they all fit. */
  lemma {:induction false} AcceptedIsPrefix(realtime: char -> bool, room: nat, s: string)
    ensures var p := Plain(realtime, s);
            Plain(realtime, Accepted(realtime, room, s)) == if |p| <= room then p else p[..room]
    ensures Accepted(realtime, room, s) == s <==> |Plain(realtime, s)| <= room
    ensures |Accepted(realtime, room, s)| <= |s|
    decreases |s|
  {
    if s != "" {
      var n := if realtime(s[0]) || room == 0 then room else room - 1;
      AcceptedIsPrefix(realtime, n, s[1..]);
      assert s == [s[0]] + s[1..];
      var a := Accepted(realtime, n, s[1..]);
      assert ([s[0]] + a)[1..] == a;
    }
  }

  class Channel {
    const realtime: char -> bool
    const line: array<char>
    var linelen: nat
    var lastWasCR: bool
    var queue: string
    var device: string          // received by the hardware, not read yet
    ghost var arrived: string   // every byte read from the device or pushed that was not dropped, in order
    ghost var fed: string       // every byte given to line assembly, in order
    ghost var lines: seq<string>

    ghost function Assembly(): Asm
      reads this, line
      requires linelen <= line.Length
    {
      Asm(line[..linelen], lastWasCR)
    }

    /** Bytes reach line assembly in arrival order, those stashed being the last to have
        arrived; and the lines are those of the bytes fed. */
    ghost predicate Valid()
      reads this, line
    {
      && line.Length == MAX_LINE && linelen < MAX_LINE && |queue| <= MAX_RX_QUEUE
      && fed + queue == Plain(realtime, arrived)
      && Assembly() == FeedAll(START, fed) && lines == Lines(START, fed)
    }

    constructor (realtime: char -> bool)
      ensures Valid() && this.realtime == realtime && arrived == "" && device == "" && fresh(line)
    {
      this.realtime := realtime;
      line := new char[MAX_LINE](_ => '\0');
      linelen, lastWasCR, queue, device := 0, false, "", "";
      arrived, fed, lines := "", "", [];
    }

    /** lineComplete(), in the line buffer. */
    method LineComplete(ch: char) returns (complete: bool, out: string)
      requires line.Length == MAX_LINE && linelen < MAX_LINE
      modifies this`linelen, this`lastWasCR, line
      ensures linelen < MAX_LINE
      ensures (Assembly(), if complete then Some(out) else None) == Feed(old(Assembly()), ch)
    {
      complete, out := false, "";
      if ch == '\n' {
        if lastWasCR {
          lastWasCR := false;
          return;
        }
        out := Cut(line[..linelen]);
        linelen := 0;
        complete := true;
        return;
      }
      lastWasCR := ch == '\r';
      if lastWasCR {
        out := Cut(line[..linelen]);
        linelen := 0;
        complete := true;
        return;
      }
      if ch == '\U{0008}' {
        if linelen != 0 {
          linelen := linelen - 1;
          assert line[..linelen] == old(line[..linelen])[..linelen];
        }
        return;
      }
      if linelen < MAX_LINE - 1 {
        line[linelen] := ch;
        linelen := linelen + 1;
        assert line[..linelen] == old(line[..linelen]) + [ch];
      }
    }

    /** One byte to line assembly, with the account of it kept. */
    method Assemble(ch: char, stash: string) returns (complete: bool, out: string)
      requires line.Length == MAX_LINE && linelen < MAX_LINE
      requires fed + [ch] + stash == Plain(realtime, arrived)
      requires Assembly() == FeedAll(START, fed) && lines == Lines(START, fed)
      requires queue == stash && |stash| <= MAX_RX_QUEUE
      modifies this`linelen, this`lastWasCR, this`fed, this`lines, line
      ensures Valid() && fed == old(fed) + [ch]
      ensures lines == old(lines) + if complete then [out] else []
    {
      FeedOne(FeedAll(START, fed), ch);
      FeedAppend(START, fed, [ch]);
      complete, out := LineComplete(ch);
      fed := fed + [ch];
      lines := lines + if complete then [out] else [];
    }

    /** push(): a plain byte is dropped when the stash is full. */
    method Push(b: char)
      requires Valid()
      modifies this`queue, this`arrived
      ensures Valid() && fed == old(fed) && lines == old(lines)
      ensures arrived == old(arrived) + Accepted(realtime, 1024 - |old(queue)|, [b])
    {
      PlainSnoc(realtime, arrived, b);
      assert [b][1..] == "";
      if realtime(b) {
        arrived := arrived + [b];
      } else if |queue| < MAX_RX_QUEUE {
        arrived := arrived + [b];
        queue := queue + [b];
      }
    }

    /** pollLine(nullptr): look for realtime commands only, stashing everything else. */
    method PollRealtime()
      requires Valid()
      modifies this`queue, this`device, this`arrived
      ensures Valid() && device == "" && fed == old(fed) && lines == old(lines)
      ensures arrived == old(arrived) + Accepted(realtime, 1024 - |old(queue)|, old(device))
    {
      ghost var goal := arrived + Accepted(realtime, MAX_RX_QUEUE - |queue|, device);
      while device != ""
        invariant Valid()
        invariant arrived + Accepted(realtime, MAX_RX_QUEUE - |queue|, device) == goal
        decreases |device|
      {
        var ch := device[0];
        ghost var before := arrived;
        PlainSnoc(realtime, arrived, ch);
        device := device[1..];
        if realtime(ch) {
          arrived := arrived + [ch];
        } else if |queue| < MAX_RX_QUEUE {
          arrived := arrived + [ch];
          queue := queue + [ch];
        }
        ghost var rest := Accepted(realtime, MAX_RX_QUEUE - |queue|, device);
        assert before + ([ch] + rest) == before + [ch] + rest;
      }
    }

    /** pollLine(line): the stash first, then the device, up to the end of a line. */
    method PollLine() returns (complete: bool, out: string)
      requires Valid()
      modifies this, line
      ensures Valid() && arrived + device == old(arrived) + old(device)
      ensures lines == old(lines) + if complete then [out] else []
      ensures !complete ==> queue == "" && device == "" && lines == Lines(START, Plain(realtime, arrived))
    {
      complete, out := false, "";
      while !complete && (queue != "" || device != "")
        invariant Valid() && arrived + device == old(arrived) + old(device)
        invariant lines == old(lines) + if complete then [out] else []
        decreases |queue| + |device|, if complete then 0 else 1
      {
        if queue != "" {
          var ch := queue[0];
          ghost var all := fed + queue;
          queue := queue[1..];
          assert fed + [ch] + queue == all;
          complete, out := Assemble(ch, queue);
        } else {
          var ch := device[0];
          ghost var before := arrived + device;
          PlainSnoc(realtime, arrived, ch);
          arrived := arrived + [ch];
          device := device[1..];
          assert arrived + device == before;
          assert fed + queue == fed;
          if !realtime(ch) {
            assert fed + [ch] + queue == fed + [ch];
            complete, out := Assemble(ch, queue);
          }
        }
      }
      assert queue == "" ==> fed + queue == fed;
    }
  }

  lemma FeedOne(a: Asm, c: char)
    ensures FeedAll(a, [c]) == Feed(a, c).0
    ensures Lines(a, [c]) == if Feed(a, c).1.Some? then [Feed(a, c).1.value] else []
  {
    assert [c][1..] == "";
  }

  // ----- Editing ---------------------------------------------------------------------------

  const BACKSPACE := '\U{0008}'

  lemma {:induction false} EditAllAppend(buf: string, s: string, t: string)
    ensures EditAll(buf, s + t) == EditAll(EditAll(buf, s), t)
    decreases |s|
  {
    if s == "" {
      assert s + t == t;
    } else {
      assert (s + t)[1..] == s[1..] + t;
      EditAllAppend(Edit(buf, s[0]), s[1..], t);
    }
  }

  /** Characters other than backspace are kept as they come, up to 254 of them. */
  lemma {:induction false} TypedIsKept(buf: string, s: string)
    requires |buf| <= 254 && BACKSPACE !in s
    ensures EditAll(buf, s) == if |buf + s| <= 254 then buf + s else (buf + s)[..254]
    decreases |s|
  {
    if s == "" {
      assert buf + s == buf;
    } else {
      TypedIsKept(Edit(buf, s[0]), s[1..]);
      assert buf + s == buf + [s[0]] + s[1..];
    }
  }

  /** A character and a backspace after it leave no trace, exactly when there was room for the
      character; a character too many is dropped, and its backspace then takes the last one
      kept. */
  lemma BackspaceErases(s: string, c: char, t: string)
    requires c != BACKSPACE
    ensures var before := EditAll("", s);
            && |before| <= 254
            && EditAll("", s + [c, BACKSPACE] + t) == EditAll(if |before| < 254 then before else before[..253], t)
    ensures |EditAll("", s)| < 254 ==> EditAll("", s + [c, BACKSPACE] + t) == EditAll("", s + t)
  {
    EditAllFits("", s);
    var before := EditAll("", s);
    EditAllAppend("", s + [c, BACKSPACE], t);
    EditAllAppend("", s, [c, BACKSPACE]);
    EditAllAppend("", s, t);
    EditTwo(before, c, BACKSPACE);
  }

  lemma EditTwo(buf: string, c: char, d: char)
    ensures EditAll(buf, [c, d]) == Edit(Edit(buf, c), d)
  {
    assert [c, d][1..] == [d] && [d][1..] == "";
    var once := Edit(buf, c);
    assert EditAll(buf, [c, d]) == EditAll(once, [d]) == EditAll(Edit(once, d), "");
  }

  /** At the start of a line there is nothing to erase. */
  lemma BackspaceAtStart(t: string)
    ensures EditAll("", [BACKSPACE] + t) == EditAll("", t)
  {
    assert ([BACKSPACE] + t)[1..] == t;
  }

  /** A finished line is copied up to the first NUL. */
  lemma {:induction false} CutAtNul(s: string)
    ensures Cut(s) <= s && '\0' !in Cut(s) && (|Cut(s)| < |s| ==> s[|Cut(s)|] == '\0')
    decreases |s|
  {
    if s != "" && s[0] != '\0' {
      CutAtNul(s[1..]);
      assert s == [s[0]] + s[1..];
    }
  }
}
