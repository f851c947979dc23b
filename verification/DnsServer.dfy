/** internal/dns/server.go: the parser of the question section and the two response builders. */
module DnsServer {
  import opened Text
  import opened DnsWire

  const DOT: byte := 46
  const TYPE_A := 1
  const TYPE_AAAA := 28
  const CLASS_IN := 1
  const RCODE_SERVFAIL := 2

  // ---- What the code computes ----

  /** The labels from `pos` up to the root label; no compression. */
  function Labels(m: seq<byte>, pos: int): (r: Read<seq<Label>>)
    requires 0 <= pos
    ensures r.Got? ==> pos < r.next <= |m|
    decreases |m| - pos
  {
    if pos >= |m| then Fail
    else if m[pos] == 0 then Got([], pos + 1)
    else if m[pos] >= 64 || pos + 1 + m[pos] > |m| then Fail
    else
      match Labels(m, pos + 1 + m[pos])
      case Fail => Fail
      case Got(rest, next) => Got([m[pos + 1..pos + 1 + m[pos]]] + rest, next)
  }

  /** The first question, for a message that claims to have one. */
  function FirstQuestion(m: seq<byte>): (r: Read<Question>)
    ensures r.Got? ==> 17 <= r.next <= |m| && U16(m, 4) > 0
  {
    if |m| < 12 || U16(m, 4) == 0 then Fail
    else
      match Labels(m, 12)
      case Fail => Fail
      case Got(name, next) =>
        if next + 4 > |m| then Fail else Got(Question(name, U16(m, next), U16(m, next + 2)), next + 4)
  }

  function EndOfQuestion(m: seq<byte>): (end: int)
    ensures end == -1 || 12 <= end <= |m|
  {
    if |m| >= 12 && U16(m, 4) == 0 then 12
    else
      match FirstQuestion(m)
      case Fail => -1
      case Got(_, next) => next
  }

  /** x | bit, for a power of two. */
  function OrBit(x: int, bit: int): int
    requires x >= 0 && bit > 0
  {
    if x / bit % 2 == 1 then x else x + bit
  }

  /** flags | QR | RA, with the RCODE replaced. */
  function ReplyFlags(flags: int, rcode: int): (f: int)
    requires 0 <= flags < 65536 && 0 <= rcode < 16
    ensures 0 <= f < 65536
  {
    var f := OrBit(OrBit(flags, 0x8000), 0x80);
    f - f % 16 + rcode
  }

  function ReplyHeader(m: seq<byte>, rcode: int, qdcount: int, ancount: int): (h: seq<byte>)
    requires |m| >= 12 && 0 <= rcode < 16 && 0 <= qdcount < 65536 && 0 <= ancount < 256
    ensures |h| == 12
  {
    var flags := ReplyFlags(U16(m, 2), rcode);
    [m[0], m[1], flags / 256, flags % 256, qdcount / 256, qdcount % 256, 0, ancount, 0, 0, 0, 0]
  }

  const ANSWER: seq<byte> := [192, 12, 0, 1, 0, 1, 0, 0, 0, 60, 0, 4, 127, 0, 0, 1]

  function ServfailReply(m: seq<byte>): seq<byte> {
    if |m| < 12 then m
    else
      var end := EndOfQuestion(m);
      if end < 0 then ReplyHeader(m, RCODE_SERVFAIL, 0, 0)
      else ReplyHeader(m, RCODE_SERVFAIL, U16(m, 4), 0) + m[12..end]
  }

  function LocalReply(m: seq<byte>, qtype: int): seq<byte> {
    var end := EndOfQuestion(m);
    if end < 0 then ServfailReply(m)
    else if qtype != TYPE_A then ReplyHeader(m, 0, U16(m, 4), 0) + m[12..end]
    else ReplyHeader(m, 0, U16(m, 4), 1) + m[12..end] + ANSWER
  }

  /** `labels` has been read and the walk stands at `pos`. */
  ghost predicate Walked(m: seq<byte>, labels: seq<Label>, pos: int)
    requires 0 <= pos
  {
    match Labels(m, pos)
    case Fail => Labels(m, 12) == Fail
    case Got(rest, next) => Labels(m, 12) == Got(labels + rest, next)
  }

  lemma WalkStarts(m: seq<byte>)
    ensures Walked(m, [], 12)
  {
    assert forall rest: seq<Label> :: [] + rest == rest;
  }

  lemma WalkEnds(m: seq<byte>, labels: seq<Label>, pos: int)
    requires 0 <= pos < |m| && m[pos] == 0 && Walked(m, labels, pos)
    ensures Labels(m, 12) == Got(labels, pos + 1)
  {
    assert labels + [] == labels;
  }

  lemma WalkStep(m: seq<byte>, labels: seq<Label>, pos: int)
    requires 0 <= pos < |m| && 0 < m[pos] < 64 && pos + 1 + m[pos] <= |m| && Walked(m, labels, pos)
    ensures Walked(m, labels + [m[pos + 1..pos + 1 + m[pos]]], pos + 1 + m[pos])
  {
    var l := m[pos + 1..pos + 1 + m[pos]];
    assert forall rest: seq<Label> :: labels + ([l] + rest) == (labels + [l]) + rest;
  }

  /** A copy of the query's start with flags and counts written over it. */
  lemma HeaderWritten(m: seq<byte>, r: seq<byte>, rcode: int, qdcount: int, end: int)
    requires 12 <= end <= |m| && |r| == end && 0 <= rcode < 16 && 0 <= qdcount < 65536
    requires r[2] as int == ReplyFlags(U16(m, 2), rcode) / 256 && r[3] as int == ReplyFlags(U16(m, 2), rcode) % 256
    requires r[4] as int == qdcount / 256 && r[5] as int == qdcount % 256
    requires r[6] == r[7] == r[8] == r[9] == r[10] == r[11] == 0
    requires r[0] == m[0] && r[1] == m[1] && forall i | 12 <= i < end :: r[i] == m[i]
    ensures r == ReplyHeader(m, rcode, qdcount, 0) + m[12..end]
  {
    assert r[..12] == ReplyHeader(m, rcode, qdcount, 0);
    assert r[12..] == m[12..end];
  }

  lemma AnswerHeader(m: seq<byte>, r: seq<byte>, w: seq<byte>, resp: seq<byte>, end: int)
    requires 12 <= end <= |m|
    requires r == ReplyHeader(m, 0, U16(m, 4), 0) + m[12..end] && w == r + ANSWER && |resp| == |w|
    requires resp[6] == 0 && resp[7] == 1 && forall i | 0 <= i < |w| && i != 6 && i != 7 :: resp[i] == w[i]
    ensures resp == ReplyHeader(m, 0, U16(m, 4), 1) + m[12..end] + ANSWER
  {
    assert resp[..12] == ReplyHeader(m, 0, U16(m, 4), 1);
    assert resp[12..] == w[12..] == m[12..end] + ANSWER;
  }

  // ---- The code ----

  method GetU16(msg: array<byte>, pos: int) returns (v: int)
    requires 0 <= pos && pos + 2 <= msg.Length
    ensures v == U16(msg[..], pos)
  {
    v := (msg[pos] as int) * 256 + msg[pos + 1] as int;
  }

  method PutU16(msg: array<byte>, pos: int, v: int)
    requires 0 <= pos && pos + 2 <= msg.Length && 0 <= v < 65536
    modifies msg
    ensures msg[pos] as int == v / 256 && msg[pos + 1] as int == v % 256
    ensures forall i | 0 <= i < msg.Length && i != pos && i != pos + 1 :: msg[i] == old(msg[i])
  {
    msg[pos] := v / 256;
    msg[pos + 1] := v % 256;
  }

  method ParseQuestion(msg: array<byte>) returns (name: seq<byte>, qtype: int, qclass: int, ok: bool)
    ensures ok <==> FirstQuestion(msg[..]).Got?
    ensures ok ==> var q := FirstQuestion(msg[..]).value;
                   name == Join(q.name, DOT) && qtype == q.qtype && qclass == q.qclass
  {
    name, qtype, qclass, ok := [], 0, 0, false;
    ghost var m := msg[..];
    if msg.Length < 12 {
      return;
    }
    var qdcount := GetU16(msg, 4);
    if qdcount == 0 {
      return;
    }
    var pos := 12;
    var labels: seq<Label> := [];
    WalkStarts(m);
    while true
      invariant 12 <= pos && !ok
      invariant Walked(m, labels, pos)
      decreases msg.Length - pos
    {
      if pos >= msg.Length {
        assert Labels(m, 12) == Fail;
        return;
      }
      var l: int := msg[pos];
      pos := pos + 1;
      if l == 0 {
        WalkEnds(m, labels, pos - 1);
        break;
      }
      if l >= 64 {
        assert Labels(m, 12) == Fail;
        return;
      }
      if pos + l > msg.Length {
        assert Labels(m, 12) == Fail;
        return;
      }
      WalkStep(m, labels, pos - 1);
      assert msg[pos..pos + l] == m[pos..pos + l];
      labels := labels + [msg[pos..pos + l]];
      pos := pos + l;
    }
    assert Labels(m, 12) == Got(labels, pos);
    if pos + 4 > msg.Length {
      return;
    }
    qtype := GetU16(msg, pos);
    qclass := GetU16(msg, pos + 2);
    name, ok := Join(labels, DOT), true;
  }

  method QuestionEnd(msg: array<byte>) returns (end: int)
    ensures end == EndOfQuestion(msg[..])
    ensures if msg.Length >= 12 && U16(msg[..], 4) == 0 then end == 12
            else if FirstQuestion(msg[..]).Got? then end == FirstQuestion(msg[..]).next
            else end == -1
  {
    ghost var m := msg[..];
    if msg.Length < 12 {
      return -1;
    }
    var qdcount := GetU16(msg, 4);
    if qdcount == 0 {
      return 12;
    }
    var pos := 12;
    while true
      invariant 12 <= pos
      invariant Labels(m, 12).Got? <==> Labels(m, pos).Got?
      invariant Labels(m, pos).Got? ==> Labels(m, 12).next == Labels(m, pos).next
      decreases msg.Length - pos
    {
      if pos >= msg.Length {
        return -1;
      }
      var l: int := msg[pos];
      pos := pos + 1;
      if l == 0 {
        break;
      }
      if l >= 64 {
        return -1;
      }
      if pos + l > msg.Length {
        return -1;
      }
      pos := pos + l;
    }
    if pos + 4 > msg.Length {
      return -1;
    }
    return pos + 4;
  }

  method Servfail(query: array<byte>) returns (resp: array<byte>)
    ensures resp[..] == ServfailReply(query[..])
  {
    ghost var m := query[..];
    if query.Length < 12 {
      return query;
    }
    var end := QuestionEnd(query);
    var includeQuestion := end > 0 && end <= query.Length;
    var size := 12;
    if includeQuestion {
      size := end;
    }
    resp := new byte[size];
    forall i | 0 <= i < size {
      resp[i] := query[i];
    }
    var flags := GetU16(resp, 2);
    assert flags == U16(m, 2);
    flags := ReplyFlags(flags, RCODE_SERVFAIL);
    PutU16(resp, 2, flags);
    if !includeQuestion {
      PutU16(resp, 4, 0);
    }
    PutU16(resp, 6, 0);
    PutU16(resp, 8, 0);
    PutU16(resp, 10, 0);
    ghost var r := resp[..];
    assert query[..] == m;
    HeaderWritten(m, r, RCODE_SERVFAIL, if includeQuestion then U16(m, 4) else 0, size);
  }

  method BuildLocalResponse(query: array<byte>, qtype: int) returns (resp: array<byte>)
    ensures resp[..] == LocalReply(query[..], qtype)
  {
    ghost var m := query[..];
    var end := QuestionEnd(query);
    if end < 0 {
      resp := Servfail(query);
      return;
    }
    resp := new byte[end];
    forall i | 0 <= i < end {
      resp[i] := query[i];
    }
    var flags := GetU16(resp, 2);
    assert flags == U16(m, 2);
    flags := ReplyFlags(flags, 0);
    PutU16(resp, 2, flags);
    PutU16(resp, 6, 0);
    PutU16(resp, 8, 0);
    PutU16(resp, 10, 0);
    ghost var r := resp[..];
    assert query[..] == m;
    HeaderWritten(m, r, 0, U16(m, 4), end);
    if qtype != TYPE_A {
      return;
    }
    resp := Append(resp, ANSWER);
    ghost var w := resp[..];
    PutU16(resp, 6, 1);
    assert query[..] == m;
    AnswerHeader(m, r, w, resp[..], end);
  }

  /** append, for a slice that is full. */
  method Append(a: array<byte>, s: seq<byte>) returns (b: array<byte>)
    ensures fresh(b) && b[..] == a[..] + s
  {
    b := new byte[a.Length + |s|];
    forall i | 0 <= i < a.Length {
      b[i] := a[i];
    }
    forall i | 0 <= i < |s| {
      b[a.Length + i] := s[i];
    }
    assert b[..] == a[..] + s;
  }

  /** One step of strings.ToLower on bytes, for ASCII. */
  function LowerByte(b: byte): byte {
    if 65 <= b <= 90 then b + 32 else b
  }

  function LowerBytes(s: seq<byte>): seq<byte> {
    seq(|s|, i requires 0 <= i < |s| => LowerByte(s[i]))
  }

  function TrimDot(s: seq<byte>): seq<byte> {
    if HasSuffix(s, [DOT]) then s[..|s| - 1] else s
  }

  predicate NameEndsInTLD(name: seq<byte>, tld: seq<byte>) {
    var n, t := TrimDot(LowerBytes(name)), LowerBytes(tld);
    n == t || HasSuffix(n, [DOT] + t)
  }

  /** The questions answered here rather than upstream. */
  predicate IsOurs(q: Question, tld: seq<byte>) {
    q.qclass == CLASS_IN && (q.qtype == TYPE_A || q.qtype == TYPE_AAAA) && NameEndsInTLD(Join(q.name, DOT), tld)
  }

  /** The reply to a query; `upstream` is what forwarding it returns. A query without a question gets none. */
  function Reply(m: seq<byte>, tld: seq<byte>, upstream: Option<seq<byte>>): Option<seq<byte>> {
    match FirstQuestion(m)
    case Fail => None
    case Got(q, _) =>
      if IsOurs(q, tld) then Some(LocalReply(m, q.qtype))
      else if upstream.Some? then upstream else Some(ServfailReply(m))
  }

  method Handle(query: array<byte>, tld: seq<byte>, upstream: Option<seq<byte>>) returns (reply: Option<seq<byte>>)
    ensures reply == Reply(query[..], tld, upstream)
  {
    if query.Length < 12 {
      return None;
    }
    var name, qtype, qclass, ok := ParseQuestion(query);
    if !ok {
      return None;
    }
    if qclass == CLASS_IN && (qtype == TYPE_A || qtype == TYPE_AAAA) && NameEndsInTLD(name, tld) {
      var resp := BuildLocalResponse(query, qtype);
      return Some(resp[..]);
    }
    if upstream.Some? {
      return upstream;
    }
    var resp := Servfail(query);
    return Some(resp[..]);
  }
}
