/** The captive-portal DNS responder: parsing a query and building its response
    (sections 4.1.1 to 4.1.4 of RFC 1035). */
module Dns {
  import opened Options
  import opened Segments

  type Byte = b: int | 0 <= b < 256

  type Bytes = seq<Byte>

  const DOT: Byte := 46
  const TYPE_A := 1
  const MAX_NAME := 255

  datatype Question = Question(valid: bool, id: int, qtype: int, name: Bytes, qend: nat, rd: int)

  const INVALID := Question(false, 0, 0, [], 0, 0)

  function Rd16(buf: Bytes, i: nat): (r: int)
    requires i + 2 <= |buf|
    ensures 0 <= r < 0x10000
  {
    var hi: int, lo: int := buf[i], buf[i + 1];
    hi * 256 + lo
  }

  function Lower(b: Byte): Byte {
    if 65 <= b <= 90 then b + 32 else b
  }

  function LowerAll(s: Bytes): (t: Bytes)
    ensures |t| == |s| && forall i :: 0 <= i < |s| ==> t[i] == Lower(s[i])
  {
    seq(|s|, i requires 0 <= i < |s| => Lower(s[i]))
  }

  /** A name with one more label. */
  function Extend(name: Bytes, label_: Bytes): Bytes {
    (if name == [] then [] else name + [DOT]) + LowerAll(label_)
  }

  /** The name that continues `name` at `off`, and the offset after its root label. */
  function ParseName(buf: Bytes, off: nat, name: Bytes): (r: Option<(Bytes, nat)>)
    ensures r.Some? ==> off < r.value.1 <= |buf|
    decreases |buf| - off
  {
    if off >= |buf| || buf[off] >= 64 then None
    else if buf[off] == 0 then Some((name, off + 1))
    else if off + 1 + buf[off] > |buf| then None
    else
      var next := Extend(name, buf[off + 1..off + 1 + buf[off]]);
      if |next| > MAX_NAME then None else ParseName(buf, off + 1 + buf[off], next)
  }

  /** QR and opcode of a flags byte. */
  predicate IsStandardQuery(flagsHi: Byte) {
    flagsHi / 128 == 0 && flagsHi / 8 % 16 == 0
  }

  function Parse(buf: Bytes): (q: Question)
    ensures 0 <= q.id < 0x10000 && 0 <= q.rd < 2 && (q.valid ==> 16 < q.qend <= |buf|)
  {
    if |buf| < 12 || !IsStandardQuery(buf[2]) || Rd16(buf, 4) < 1 then INVALID else
    match ParseName(buf, 12, [])
    case None => INVALID
    case Some((name, off)) =>
      if off + 4 > |buf| then INVALID
      else Question(true, Rd16(buf, 0), Rd16(buf, off), name, off + 4, buf[2] % 2)
  }

  /** A dot unless the name is empty, then the label's characters in lower case. */
  method AppendLabel(buf: Bytes, off: nat, length: nat, before: Bytes) returns (name: Bytes)
    requires off + 1 + length <= |buf|
    ensures name == Extend(before, buf[off + 1..off + 1 + length])
  {
    name := before;
    if name != [] {
      name := name + [DOT];
    }
    ghost var prefix := name;
    for i := 0 to length
      invariant name == prefix + LowerAll(buf[off + 1..off + 1 + i])
    {
      name := name + [Lower(buf[off + 1 + i])];
    }
  }

  /** parse(): one offset and one name buffer, updated label by label. */
  method ParseInPlace(buf: Bytes) returns (q: Question)
    ensures q == Parse(buf)
  {
    hide Extend;
    if |buf| < 12 {
      return INVALID;
    }
    var flagsHi := buf[2];
    if flagsHi / 128 != 0 || flagsHi / 8 % 16 != 0 {
      return INVALID;
    }
    if Rd16(buf, 4) < 1 {
      return INVALID;
    }
    var name: Bytes := [];
    var off := 12;
    while true
      invariant 12 <= off && ParseName(buf, off, name) == ParseName(buf, 12, [])
      decreases |buf| - off
    {
      if off >= |buf| {
        return INVALID;
      }
      var length := buf[off];
      if length >= 64 {
        return INVALID;
      }
      if length == 0 {
        off := off + 1;
        break;
      }
      if off + 1 + length > |buf| {
        return INVALID;
      }
      name := AppendLabel(buf, off, length, name);
      off := off + 1 + length;
      if |name| > MAX_NAME {
        return INVALID;
      }
    }
    if off + 4 > |buf| {
      return INVALID;
    }
    q := Question(true, Rd16(buf, 0), Rd16(buf, off), name, off + 4, buf[2] % 2);
  }

  // ----- Encoded names ---------------------------------------------------------------------

  predicate ValidLabel(l: Bytes) { 0 < |l| < 64 }

  function EncodeLabel(l: Bytes): (e: Bytes)
    requires ValidLabel(l)
    ensures |e| == |l| + 1 && e[0] == |l| && e[1..] == l
  {
    var n: Byte := |l|;
    [n] + l
  }

  /** Length-prefixed labels and the root label. */
  function EncodeName(labels: seq<Bytes>): Bytes
    requires forall l <- labels :: ValidLabel(l)
  {
    if labels == [] then [0] else EncodeLabel(labels[0]) + EncodeName(labels[1..])
  }

  /** The dotted, lower-case continuation of `name` by `labels`. */
  function Dotted(name: Bytes, labels: seq<Bytes>): Bytes
    decreases |labels|
  {
    if labels == [] then name else Dotted(Extend(name, labels[0]), labels[1..])
  }

  lemma {:induction false} DottedGrows(name: Bytes, labels: seq<Bytes>)
    ensures |Dotted(name, labels)| >= |name|
    decreases |labels|
  {
    if labels != [] {
      DottedGrows(Extend(name, labels[0]), labels[1..]);
    }
  }

  /** Whatever surrounds it, an encoded name parses to its dotted lower-case form. */
  lemma {:induction false} EncodedNameParses(buf: Bytes, off: nat, name: Bytes, labels: seq<Bytes>)
    requires (forall l <- labels :: ValidLabel(l)) && At(buf, off, EncodeName(labels))
    requires |Dotted(name, labels)| <= MAX_NAME
    ensures ParseName(buf, off, name) == Some((Dotted(name, labels), off + |EncodeName(labels)|))
    decreases |labels|
  {
    if labels == [] {
      assert buf[off] == buf[off..off + 1][0];
    } else {
      var l := labels[0];
      AtAppend(buf, off, EncodeLabel(l), EncodeName(labels[1..]));
      assert buf[off] == EncodeLabel(l)[0];
      assert buf[off + 1..off + 1 + |l|] == EncodeLabel(l)[1..];
      DottedGrows(Extend(name, l), labels[1..]);
      EncodedNameParses(buf, off + 1 + |l|, Extend(name, l), labels[1..]);
    }
  }

  /** Every name that parses is an encoded one. */
  lemma {:induction false} ParsedNameIsEncoded(buf: Bytes, off: nat, name: Bytes) returns (labels: seq<Bytes>)
    requires ParseName(buf, off, name).Some?
    ensures forall l <- labels :: ValidLabel(l)
    ensures At(buf, off, EncodeName(labels))
    ensures ParseName(buf, off, name).value == (Dotted(name, labels), off + |EncodeName(labels)|)
    decreases |buf| - off
  {
    if buf[off] == 0 {
      labels := [];
      assert buf[off..off + 1] == [0];
    } else {
      var l := buf[off + 1..off + 1 + buf[off]];
      var rest := ParsedNameIsEncoded(buf, off + 1 + buf[off], Extend(name, l));
      labels := [l] + rest;
      assert labels[1..] == rest;
      assert At(buf, off, EncodeLabel(l));
      AtJoin(buf, off, EncodeLabel(l), EncodeName(rest));
    }
  }

  // ----- Queries ---------------------------------------------------------------------------

  function Split16(x: int): (s: Bytes)
    requires 0 <= x < 0x10000
    ensures |s| == 2 && Rd16(s, 0) == x
  {
    var hi: Byte, lo: Byte := x / 256, x % 256;
    [hi, lo]
  }

  /** A buffer holding a standard query whose first question names `labels` parses to that
      question: lower-case dotted name, type, identifier and RD. */
  lemma QueryParses(buf: Bytes, labels: seq<Bytes>)
    requires |buf| >= 12 && IsStandardQuery(buf[2]) && Rd16(buf, 4) >= 1
    requires (forall l <- labels :: ValidLabel(l)) && |Dotted([], labels)| <= MAX_NAME
    requires At(buf, 12, EncodeName(labels)) && 12 + |EncodeName(labels)| + 4 <= |buf|
    ensures var off := 12 + |EncodeName(labels)|;
            Parse(buf) == Question(true, Rd16(buf, 0), Rd16(buf, off), Dotted([], labels), off + 4, buf[2] % 2)
  {
    EncodedNameParses(buf, 12, [], labels);
  }

  /** ... and only such buffers parse. */
  lemma ValidParseIsQuery(buf: Bytes) returns (labels: seq<Bytes>)
    requires Parse(buf).valid
    ensures |buf| >= 12 && IsStandardQuery(buf[2]) && Rd16(buf, 4) >= 1
    ensures (forall l <- labels :: ValidLabel(l)) && Parse(buf).name == Dotted([], labels)
    ensures At(buf, 12, EncodeName(labels)) && Parse(buf).qend == 12 + |EncodeName(labels)| + 4 <= |buf|
    ensures Parse(buf).id == Rd16(buf, 0) && Parse(buf).qtype == Rd16(buf, Parse(buf).qend - 4)
    ensures Parse(buf).rd == buf[2] % 2
    ensures |Parse(buf).name| <= MAX_NAME
  {
    labels := ParsedNameIsEncoded(buf, 12, []);
    ParsedNameIsShort(buf, 12, []);
  }

  lemma {:induction false} ParsedNameIsShort(buf: Bytes, off: nat, name: Bytes)
    requires |name| <= MAX_NAME && ParseName(buf, off, name).Some?
    ensures |ParseName(buf, off, name).value.0| <= MAX_NAME
    decreases |buf| - off
  {
    if buf[off] != 0 {
      ParsedNameIsShort(buf, off + 1 + buf[off], Extend(name, buf[off + 1..off + 1 + buf[off]]));
    }
  }

  function QueryHeader(id: int, rd: bool): (h: Bytes)
    requires 0 <= id < 0x10000
    ensures |h| == 12 && Rd16(h, 0) == id && Rd16(h, 4) == 1
    ensures IsStandardQuery(h[2]) && h[2] % 2 == (if rd then 1 else 0)
  {
    var flags: Byte := if rd then 1 else 0;
    Split16(id) + [flags, 0, 0, 1, 0, 0, 0, 0, 0, 0]
  }

  function EncodeQuery(id: int, rd: bool, labels: seq<Bytes>, qtype: int, qclass: int): Bytes
    requires 0 <= id < 0x10000 && 0 <= qtype < 0x10000 && 0 <= qclass < 0x10000
    requires forall l <- labels :: ValidLabel(l)
  {
    QueryHeader(id, rd) + EncodeName(labels) + Split16(qtype) + Split16(qclass)
  }

  lemma QueryRoundTrip(id: int, rd: bool, labels: seq<Bytes>, qtype: int, qclass: int)
    requires 0 <= id < 0x10000 && 0 <= qtype < 0x10000 && 0 <= qclass < 0x10000
    requires (forall l <- labels :: ValidLabel(l)) && |Dotted([], labels)| <= MAX_NAME
    ensures var buf := EncodeQuery(id, rd, labels, qtype, qclass);
            Parse(buf) == Question(true, id, qtype, Dotted([], labels), |buf|, if rd then 1 else 0)
  {
    hide ParseName;
    hide EncodeName;
    hide Dotted;
    hide QueryHeader;
    var head, name := QueryHeader(id, rd), EncodeName(labels);
    var buf := EncodeQuery(id, rd, labels, qtype, qclass);
    assert At(buf, 0, head + name + Split16(qtype) + Split16(qclass));
    AtAppend(buf, 0, head + name + Split16(qtype), Split16(qclass));
    AtAppend(buf, 0, head + name, Split16(qtype));
    AtAppend(buf, 0, head, name);
    Rd16Slice(buf, head, 0, 0);
    Rd16Slice(buf, head, 0, 4);
    Rd16Slice(buf, Split16(qtype), 12 + |name|, 0);
    assert buf[2] == buf[..12][2];
    QueryParses(buf, labels);
  }

  lemma Rd16Slice(buf: Bytes, s: Bytes, at: nat, i: nat)
    requires at + |s| <= |buf| && buf[at..at + |s|] == s && i + 2 <= |s|
    ensures Rd16(buf, at + i) == Rd16(s, i)
  {
    assert buf[at + i] == buf[at..at + |s|][i] && buf[at + i + 1] == buf[at..at + |s|][i + 1];
  }

  datatype Action = AnswerA | NoData | NxDomain

  // ----- Responses -------------------------------------------------------------------------

  function Header(q: Question, action: Action): (h: Bytes)
    requires 0 <= q.id < 0x10000 && 0 <= q.rd < 2
    ensures |h| == 12
  {
    var flags: Byte, rcode: Byte, answers: Byte :=
      0x84 + q.rd, if action == NxDomain then 3 else 0, if action == AnswerA then 1 else 0;
    Split16(q.id) + [flags, rcode, 0, 1, 0, answers, 0, 0, 0, 0]
  }

  /** TYPE A, CLASS IN, TTL 30 s, RDLENGTH 4, named by a pointer to offset 12. */
  function Answer(ip: Bytes): (a: Bytes)
    requires |ip| == 4
    ensures |a| == 16
  {
    [0xC0, 0x0C, 0, 1, 0, 1, 0, 0, 0, 30, 0, 4] + ip
  }

  function BuildResponse(query: Bytes, q: Question, action: Action, ip: Bytes): Bytes
    requires 0 <= q.id < 0x10000 && 0 <= q.rd < 2 && |ip| == 4 && (q.valid ==> q.qend >= 12)
  {
    if !q.valid || q.qend > |query| then []
    else Header(q, action) + query[12..q.qend] + if action == AnswerA then Answer(ip) else []
  }

  /** A domain name with compression pointers (section 4.1.4); a pointer must lead back before
      `limit`, the start of the name it stands in. */
  function Resolve(buf: Bytes, off: nat, limit: nat, name: Bytes): Option<(Bytes, nat)>
    decreases limit, |buf| - off
  {
    if off >= |buf| then None
    else if buf[off] >= 192 then
      if off + 1 >= |buf| then None else
      var target := Rd16(buf, off) - 0xC000;
      if target >= limit then None else
      match Resolve(buf, target, target, name)
      case None => None
      case Some((n, _)) => Some((n, off + 2))
    else if buf[off] >= 64 then None
    else if buf[off] == 0 then Some((name, off + 1))
    else if off + 1 + buf[off] > |buf| then None
    else Resolve(buf, off + 1 + buf[off], limit, Extend(name, buf[off + 1..off + 1 + buf[off]]))
  }

  lemma {:induction false} ResolvePlain(buf: Bytes, off: nat, limit: nat, name: Bytes)
    requires ParseName(buf, off, name).Some?
    ensures Resolve(buf, off, limit, name) == ParseName(buf, off, name)
    decreases |buf| - off
  {
    if buf[off] != 0 {
      ResolvePlain(buf, off + 1 + buf[off], limit, Extend(name, buf[off + 1..off + 1 + buf[off]]));
    }
  }

  lemma HeaderFields(q: Question, action: Action)
    requires 0 <= q.id < 0x10000 && 0 <= q.rd < 2
    ensures var h := Header(q, action);
            && Rd16(h, 0) == q.id && h[2] == 0x84 + q.rd && h[3] == (if action == NxDomain then 3 else 0)
            && Rd16(h, 4) == 1 && Rd16(h, 6) == (if action == AnswerA then 1 else 0) && Rd16(h, 8) == Rd16(h, 10) == 0
            && !IsStandardQuery(h[2])
  {}

  /** The response to any valid question: a response header with the question's identifier and
      RD bit, then the question, then nothing or the answer.  It does not parse as a query. */
  lemma ResponseShape(query: Bytes, action: Action, ip: Bytes)
    requires Parse(query).valid && |ip| == 4
    ensures var q := Parse(query);
            var r := BuildResponse(query, q, action, ip);
            && |r| == q.qend + (if action == AnswerA then 16 else 0)
            && r[..12] == Header(q, action)
            && r[12..q.qend] == query[12..q.qend]
            && r[q.qend..] == (if action == AnswerA then Answer(ip) else [])
            && Parse(r) == INVALID
  {
    hide ParseName;
    hide Header;
    var q := Parse(query);
    var r := BuildResponse(query, q, action, ip);
    HeaderFields(q, action);
    assert r[..12] == Header(q, action);
    assert r[2] == r[..12][2];
  }

  /** The echoed question decodes, at offset 12, to the same name and type. */
  lemma ResponseEchoesQuestion(query: Bytes, action: Action, ip: Bytes)
    requires Parse(query).valid && |ip| == 4
    ensures var q := Parse(query);
            var r := BuildResponse(query, q, action, ip);
            && |r| >= q.qend >= 16
            && ParseName(r, 12, []) == Some((q.name, q.qend - 4)) && Rd16(r, q.qend - 4) == q.qtype
  {
    hide BuildResponse;
    hide Header;
    hide Answer;
    var q := Parse(query);
    var labels := ValidParseIsQuery(query);
    var r := BuildResponse(query, q, action, ip);
    ResponseShape(query, action, ip);
    var n := |EncodeName(labels)|;
    var s := query[12..q.qend];
    assert s[..n] == query[12..12 + n] == EncodeName(labels);
    assert r[12..12 + n] == r[12..q.qend][..n];
    EncodedNameParses(r, 12, [], labels);
    Rd16Slice(r, s, 12, n);
    Rd16Slice(query, s, 12, n);
  }

  /** A pointer to offset 12 from anywhere behind it stands for the name there. */
  lemma PointerResolves(buf: Bytes, off: nat)
    requires 12 < off && off + 1 < |buf| && Rd16(buf, off) == 0xC00C && ParseName(buf, 12, []).Some?
    ensures Resolve(buf, off, off, []) == Some((ParseName(buf, 12, []).value.0, off + 2))
  {
    hide ParseName;
    ResolvePlain(buf, 12, 12, []);
  }

  /** Where the answer record stands in the response, and its fields. */
  lemma AnswerFields(query: Bytes, ip: Bytes)
    requires Parse(query).valid && |ip| == 4
    ensures var q := Parse(query);
            var r := BuildResponse(query, q, AnswerA, ip);
            && |r| == q.qend + 16 && Rd16(r, q.qend) == 0xC00C
            && Rd16(r, q.qend + 2) == TYPE_A && Rd16(r, q.qend + 4) == 1
            && Rd16(r, q.qend + 6) == 0 && Rd16(r, q.qend + 8) == 30 && Rd16(r, q.qend + 10) == 4
            && r[q.qend + 12..] == ip
  {
    hide Parse;
    hide BuildResponse;
    hide Header;
    hide Answer;
    var q := Parse(query);
    ResponseShape(query, AnswerA, ip);
    var r := BuildResponse(query, q, AnswerA, ip);
    var a := Answer(ip);
    AnswerBytes(ip);
    forall i | 0 <= i <= 14 ensures Rd16(r, q.qend + i) == Rd16(a, i) {
      Rd16Slice(r, a, q.qend, i);
    }
    assert r[q.qend + 12..] == a[12..];
  }

  lemma AnswerBytes(ip: Bytes)
    requires |ip| == 4
    ensures var a := Answer(ip);
            && |a| == 16 && a[12..] == ip && Rd16(a, 0) == 0xC00C && Rd16(a, 2) == TYPE_A && Rd16(a, 4) == 1
            && Rd16(a, 6) == 0 && Rd16(a, 8) == 30 && Rd16(a, 10) == 4
  {}

  /** The answer record: its name pointer resolves to the question's name, and its fields are
      an A record of the given address. */
  lemma AnswerNamesQuestion(query: Bytes, ip: Bytes)
    requires Parse(query).valid && |ip| == 4
    ensures var q := Parse(query);
            var r := BuildResponse(query, q, AnswerA, ip);
            && |r| == q.qend + 16
            && Resolve(r, q.qend, q.qend, []) == Some((q.name, q.qend + 2))
            && Rd16(r, q.qend + 2) == TYPE_A && Rd16(r, q.qend + 4) == 1
            && Rd16(r, q.qend + 6) == 0 && Rd16(r, q.qend + 8) == 30 && Rd16(r, q.qend + 10) == 4
            && r[q.qend + 12..] == ip
  {
    hide Parse;
    hide BuildResponse;
    hide Header;
    hide ParseName;
    hide Resolve;
    hide Rd16;
    AnswerFields(query, ip);
    ResponseEchoesQuestion(query, AnswerA, ip);
    PointerResolves(BuildResponse(query, Parse(query), AnswerA, ip), Parse(query).qend);
  }

  // ----- What a parsed name looks like -----------------------------------------------------

  /** The labels with a dot between each two. */
  function Joined(labels: seq<Bytes>): Bytes {
    if labels == [] then [] else if |labels| == 1 then labels[0] else labels[0] + [46] + Joined(labels[1..])
  }

  /** The same letters, the second in lower case. */
  ghost predicate LowerOf(s: Bytes, t: Bytes) {
    && |s| == |t|
    && forall i :: 0 <= i < |s| ==> t[i] as int == s[i] as int + if 65 <= s[i] <= 90 then 32 else 0
  }

  lemma LowerOfAppend(a: Bytes, b: Bytes, c: Bytes, d: Bytes)
    requires LowerOf(a, b) && LowerOf(c, d)
    ensures LowerOf(a + c, b + d)
  {}

  /** Continuing a name by labels puts a dot and the joined labels, in lower case, behind it. */
  lemma {:induction false} DottedContinues(name: Bytes, done: Bytes, labels: seq<Bytes>)
    requires (forall l <- labels :: ValidLabel(l)) && LowerOf(done, name) && done != [] && labels != []
    ensures LowerOf(done + [46] + Joined(labels), Dotted(name, labels))
    decreases |labels|
  {
    var l := labels[0];
    assert l in labels;
    LowerOfAppend(done, name, [46], [DOT]);
    LowerOfAppend(done + [46], name + [DOT], l, LowerAll(l));
    if |labels| > 1 {
      DottedContinues(Extend(name, l), done + [46] + l, labels[1..]);
      assert done + [46] + (l + [46] + Joined(labels[1..])) == done + [46] + l + [46] + Joined(labels[1..]);
    } else {
      assert Dotted(Extend(name, l), labels[1..]) == Extend(name, l);
    }
  }

  /** The name that any query parses to is its labels joined by single dots, with every capital
      in lower case; so it has none. */
  lemma DottedIsJoined(labels: seq<Bytes>)
    requires forall l <- labels :: ValidLabel(l)
    ensures LowerOf(Joined(labels), Dotted([], labels))
    ensures forall b <- Dotted([], labels) :: !(65 <= b <= 90)
  {
    if labels != [] {
      var l := labels[0];
      assert l in labels;
      var first := Extend([], l);
      assert first == LowerAll(l);
      if |labels| > 1 {
        DottedContinues(first, l, labels[1..]);
      } else {
        assert Dotted(first, labels[1..]) == first;
      }
    }
  }

  /** At most 255 characters of a name are taken. */
  lemma LongestName(buf: Bytes, off: nat, name: Bytes)
    requires ParseName(buf, off, name).Some? && |name| <= 255
    ensures |ParseName(buf, off, name).value.0| <= 255
    decreases |buf| - off
  {
    if buf[off] != 0 {
      LongestName(buf, off + 1 + buf[off], Extend(name, buf[off + 1..off + 1 + buf[off]]));
    }
  }

  /** What does not parse gives a question with nothing in it. */
  lemma NoQuestion(buf: Bytes)
    requires !Parse(buf).valid
    ensures var q := Parse(buf); q.id == q.qtype == q.qend == q.rd == 0 && q.name == []
  {}
}
