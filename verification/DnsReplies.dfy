/** What the DNS server's parser and builders guarantee, measured against the format in DnsWire. */
module DnsReplies {
  import opened Text
  import opened DnsWire
  import opened DnsServer

  // ---- Parsing ----

  function EncodeU16(v: int): seq<byte>
    requires 0 <= v < 65536
  {
    [v / 256, v % 256]
  }

  ghost predicate ValidQuestion(q: Question) {
    AllLabels(q.name) && 0 <= q.qtype < 65536 && 0 <= q.qclass < 65536
  }

  ghost function EncodeQuestion(q: Question): seq<byte>
    requires ValidQuestion(q)
  {
    EncodeName(q.name) + EncodeU16(q.qtype) + EncodeU16(q.qclass)
  }

  lemma SliceOfSlice(m: seq<byte>, pos: int, s: seq<byte>, lo: int, hi: int)
    requires 0 <= pos && pos + |s| <= |m| && m[pos..pos + |s|] == s && 0 <= lo <= hi <= |s|
    ensures m[pos + lo..pos + hi] == s[lo..hi]
  {
    var t := m[pos..pos + |s|];
    assert forall i | 0 <= i < |s| :: t[i] == m[pos + i];
    assert m[pos + lo..pos + hi] == t[lo..hi];
  }

  lemma LabelsStep(m: seq<byte>, pos: int, l: Label, rest: seq<Label>, next: int)
    requires IsLabel(l) && 0 <= pos && pos + 1 + |l| <= |m|
    requires m[pos] == |l| && m[pos + 1..pos + 1 + |l|] == l
    requires Labels(m, pos + 1 + |l|) == Got(rest, next)
    ensures Labels(m, pos) == Got([l] + rest, next)
  {
  }

  lemma EncodeNameParts(labels: seq<Label>)
    requires AllLabels(labels) && labels != []
    ensures var code, size := EncodeName(labels), |labels[0]|;
            && |code| == 1 + size + |EncodeName(labels[1..])| && code[0] == size
            && code[1..1 + size] == labels[0] && code[1 + size..|code|] == EncodeName(labels[1..])
  {
    var code, size: byte := EncodeName(labels), |labels[0]|;
    assert code == [size] + labels[0] + EncodeName(labels[1..]);
  }

  lemma {:induction false} LabelsOfEncoding(m: seq<byte>, pos: int, labels: seq<Label>)
    requires AllLabels(labels) && 0 <= pos && pos + |EncodeName(labels)| <= |m|
    requires m[pos..pos + |EncodeName(labels)|] == EncodeName(labels)
    ensures Labels(m, pos) == Got(labels, pos + |EncodeName(labels)|)
    decreases |labels|
  {
    var code := EncodeName(labels);
    assert m[pos] == m[pos..pos + |code|][0];
    if labels != [] {
      var size := |labels[0]|;
      EncodeNameParts(labels);
      SliceOfSlice(m, pos, code, 1, 1 + size);
      SliceOfSlice(m, pos, code, 1 + size, |code|);
      LabelsOfEncoding(m, pos + 1 + size, labels[1..]);
      LabelsStep(m, pos, labels[0], labels[1..], pos + |code|);
      assert [labels[0]] + labels[1..] == labels;
    }
  }

  lemma {:induction false} LabelsAreEncoded(m: seq<byte>, pos: int)
    requires 0 <= pos && Labels(m, pos).Got?
    ensures var r := Labels(m, pos); AllLabels(r.value) && m[pos..r.next] == EncodeName(r.value)
    decreases |m| - pos
  {
    var r := Labels(m, pos);
    if m[pos] != 0 {
      var after := pos + 1 + m[pos];
      LabelsAreEncoded(m, after);
      assert r.value[1..] == Labels(m, after).value;
      assert m[pos..r.next] == [m[pos]] + m[pos + 1..after] + m[after..r.next];
    }
  }

  lemma EncodingIsParsed(m: seq<byte>, q: Question)
    requires |m| >= 12 && U16(m, 4) > 0 && ValidQuestion(q)
    requires 12 + |EncodeQuestion(q)| <= |m| && m[12..12 + |EncodeQuestion(q)|] == EncodeQuestion(q)
    ensures FirstQuestion(m) == Got(q, 12 + |EncodeQuestion(q)|)
  {
    var code, name := EncodeQuestion(q), EncodeName(q.name);
    var n := |name|;
    assert code[..n] == name && code[n..n + 2] == EncodeU16(q.qtype) && code[n + 2..n + 4] == EncodeU16(q.qclass);
    SliceOfSlice(m, 12, code, 0, n);
    LabelsOfEncoding(m, 12, q.name);
    SliceOfSlice(m, 12, code, n, n + 2);
    SliceOfSlice(m, 12, code, n + 2, n + 4);
    assert U16(m, 12 + n) == U16(code[n..n + 2], 0) == q.qtype;
    assert U16(m, 12 + n + 2) == U16(code[n + 2..n + 4], 0) == q.qclass;
  }

  lemma ParsedIsEncoded(m: seq<byte>, q: Question, end: int)
    requires FirstQuestion(m) == Got(q, end)
    ensures ValidQuestion(q) && end == 12 + |EncodeQuestion(q)| <= |m| && m[12..end] == EncodeQuestion(q)
  {
    LabelsAreEncoded(m, 12);
    var name, fields := EncodeName(q.name), EncodeU16(q.qtype) + EncodeU16(q.qclass);
    assert m[end - 4..end] == fields;
    assert m[12..end] == m[12..end - 4] + m[end - 4..end];
    assert EncodeQuestion(q) == name + fields;
  }

  /** parseQuestion finds the question q ending at `end` exactly when the message claims a question
      and the bytes from offset 12 to `end` are the encoding of q: every encoding is parsed, whatever
      follows it, and nothing else is. */
  lemma ParsesExactlyTheEncodings(m: seq<byte>, q: Question, end: int)
    ensures FirstQuestion(m) == Got(q, end) <==>
            && |m| >= 12 && U16(m, 4) > 0 && ValidQuestion(q)
            && end == 12 + |EncodeQuestion(q)| <= |m| && m[12..end] == EncodeQuestion(q)
  {
    if FirstQuestion(m) == Got(q, end) {
      ParsedIsEncoded(m, q, end);
    } else if |m| >= 12 && U16(m, 4) > 0 && ValidQuestion(q) && end == 12 + |EncodeQuestion(q)| <= |m| {
      if m[12..end] == EncodeQuestion(q) {
        EncodingIsParsed(m, q);
        assert false;
      }
    }
  }

  /** Only the bytes of the question matter to the parser. */
  lemma SameQuestion(m: seq<byte>, n: seq<byte>)
    requires FirstQuestion(m).Got? && FirstQuestion(m).next <= |n| && U16(n, 4) > 0
    requires m[12..FirstQuestion(m).next] == n[12..FirstQuestion(m).next]
    ensures FirstQuestion(n) == FirstQuestion(m)
  {
    var q, end := FirstQuestion(m).value, FirstQuestion(m).next;
    ParsesExactlyTheEncodings(m, q, end);
    ParsesExactlyTheEncodings(n, q, end);
  }

  /** The code's walk agrees with the general name decoder where the walk succeeds. */
  lemma {:induction false} LabelsDecode(m: seq<byte>, pos: int, start: int)
    requires 0 <= start <= pos && Labels(m, pos).Got?
    ensures DecodeName(m, pos, start) == Labels(m, pos)
    decreases |m| - pos
  {
    if m[pos] != 0 {
      LabelsDecode(m, pos + 1 + m[pos], start);
    }
  }

  // ---- The reply header ----

  lemma FlagBits(hi: byte, lo: byte, rcode: int)
    requires 0 <= rcode < 16
    ensures var f := ReplyFlags((hi as int) * 256 + lo as int, rcode);
            && f / 256 == (if hi >= 128 then hi as int else hi as int + 128)
            && f % 256 == (if lo >= 128 then lo as int else lo as int + 128) / 16 * 16 + rcode
  {
    var flags := (hi as int) * 256 + lo as int;
    var g := OrBit(flags, 0x8000);
    var hi2 := if hi >= 128 then hi as int else hi as int + 128;
    assert g == hi2 * 256 + lo as int;
    assert g / 0x80 == hi2 * 2 + (if lo >= 128 then 1 else 0);
  }

  /** The header of a reply: everything the client sent except QR, RA, RCODE and the counts. */
  function ReplyTo(h: Header, rcode: int, qdcount: int, ancount: int): Header {
    h.(qr := true, ra := true, rcode := rcode, qdcount := qdcount, ancount := ancount, nscount := 0, arcount := 0)
  }

  lemma HeaderDecodes(m: seq<byte>, rcode: int, qdcount: int, ancount: int, rest: seq<byte>)
    requires |m| >= 12 && 0 <= rcode < 16 && 0 <= qdcount < 65536 && 0 <= ancount < 256
    ensures DecodeHeader(ReplyHeader(m, rcode, qdcount, ancount) + rest)
         == Got(ReplyTo(DecodeHeader(m).value, rcode, qdcount, ancount), 12)
  {
    var r := ReplyHeader(m, rcode, qdcount, ancount) + rest;
    FlagBits(m[2], m[3], rcode);
    var f1: int, f2: int, g1: int, g2: int := m[2], m[3], r[2], r[3];
    assert g1 == (if f1 >= 128 then f1 else f1 + 128);
    assert g2 == (if f2 >= 128 then f2 else f2 + 128) / 16 * 16 + rcode;
    HighByte(f1);
    LowByte(f2, rcode);
    assert U16(r, 4) == qdcount && U16(r, 6) == ancount && U16(r, 8) == 0 && U16(r, 10) == 0;
  }

  lemma HighByte(f: int)
    requires 0 <= f < 256
    ensures var g := if f >= 128 then f else f + 128;
            g >= 128 && g / 8 % 16 == f / 8 % 16 && g / 4 % 2 == f / 4 % 2 && g / 2 % 2 == f / 2 % 2 && g % 2 == f % 2
  {
    if f < 128 {
      assert (f + 128) / 8 == f / 8 + 16 && (f / 8 + 16) % 16 == f / 8 % 16;
      assert (f + 128) / 4 == f / 4 + 32 && (f + 128) / 2 == f / 2 + 64;
    }
  }

  lemma LowByte(f: int, rcode: int)
    requires 0 <= f < 256 && 0 <= rcode < 16
    ensures var g := (if f >= 128 then f else f + 128) / 16 * 16 + rcode;
            g >= 128 && g / 16 % 8 == f / 16 % 8 && g % 16 == rcode
  {
  }

  // ---- Whole replies ----

  lemma EchoedQuestion(m: seq<byte>, r: seq<byte>)
    requires FirstQuestion(m).Got? && FirstQuestion(m).next <= |r|
    requires r[12..FirstQuestion(m).next] == m[12..FirstQuestion(m).next] && U16(r, 4) == U16(m, 4)
    ensures DecodeQuestion(r, 12) == FirstQuestion(m)
    ensures DecodeName(r, 12, 12).Got? && DecodeName(r, 12, 12).value == FirstQuestion(m).value.name
  {
    SameQuestion(m, r);
    LabelsDecode(r, 12, 12);
  }

  function LoopbackRecord(name: seq<Label>): Record {
    Record(name, 1, 1, 60, [127, 0, 0, 1])
  }

  /** The appended answer: its pointer leads to the question's name. */
  lemma AnswerDecodes(r: seq<byte>, end: int, name: seq<Label>)
    requires 12 < end && |r| == end + 16 && r[end..] == ANSWER
    requires DecodeName(r, 12, 12).Got? && DecodeName(r, 12, 12).value == name
    ensures DecodeName(r, end, end) == Got(name, end + 2)
    ensures DecodeRecord(r, end) == Got(LoopbackRecord(name), end + 16)
  {
    AnswerBytes(r, end);
    var target := (r[end] as int - 192) * 256 + r[end + 1] as int;
    assert target == 12;
    assert U32(r, end + 6) == 60;
  }

  lemma AnswerBytes(r: seq<byte>, end: int)
    requires 0 <= end && |r| == end + 16 && r[end..] == ANSWER
    ensures r[end] == 192 && r[end + 1] == 12
    ensures U16(r, end + 2) == 1 && U16(r, end + 4) == 1 && U16(r, end + 6) == 0 && U16(r, end + 8) == 60
    ensures U16(r, end + 10) == 4 && r[end + 12..end + 16] == [127, 0, 0, 1]
    ensures r[end + 11] == 4 && r[end + 6] == 0 && r[end + 7] == 0
  {
    var a := r[end..];
    assert a[0] == r[end] && a[1] == r[end + 1] && a[2] == r[end + 2] && a[3] == r[end + 3];
    assert a[4] == r[end + 4] && a[5] == r[end + 5] && a[6] == r[end + 6] && a[7] == r[end + 7];
    assert a[8] == r[end + 8] && a[9] == r[end + 9] && a[10] == r[end + 10] && a[11] == r[end + 11];
    assert a[12..16] == r[end + 12..end + 16];
  }

  lemma Lists(m: seq<byte>, pos: int)
    requires 0 <= pos
    ensures DecodeQuestions(m, pos, 0) == Got([], pos) && DecodeRecords(m, pos, 0) == Got([], pos)
    ensures DecodeQuestions(m, pos, 1) == match DecodeQuestion(m, pos)
                                          case Fail => Fail
                                          case Got(q, next) => Got([q], next)
    ensures DecodeRecords(m, pos, 1) == match DecodeRecord(m, pos)
                                        case Fail => Fail
                                        case Got(x, next) => Got([x], next)
  {
    assert forall q: Question :: [q] + [] == [q];
    assert forall x: Record :: [x] + [] == [x];
  }

  /** For one question, a local reply is a complete message: the query's ID, opcode, AA, TC, RD and Z
      are kept, QR and RA are set, the RCODE is 0, the question is the query's, and for type A there
      is exactly one answer, 127.0.0.1 under the question's own name. */
  lemma LocalReplyIsWellFormed(m: seq<byte>, qtype: int)
    requires FirstQuestion(m).Got? && U16(m, 4) == 1
    ensures var q := FirstQuestion(m).value;
            Decode(LocalReply(m, qtype)) ==
              Some(Message(ReplyTo(DecodeHeader(m).value, 0, 1, if qtype == TYPE_A then 1 else 0), [q],
                           if qtype == TYPE_A then [LoopbackRecord(q.name)] else [], [], []))
  {
    var q, end := FirstQuestion(m).value, FirstQuestion(m).next;
    var r := LocalReply(m, qtype);
    var answers := if qtype == TYPE_A then 1 else 0;
    var tail := if qtype == TYPE_A then ANSWER else [];
    assert r == ReplyHeader(m, 0, 1, answers) + (m[12..end] + tail);
    HeaderDecodes(m, 0, 1, answers, m[12..end] + tail);
    assert r[12..end] == m[12..end];
    EchoedQuestion(m, r);
    Lists(r, 12);
    Lists(r, end);
    if qtype == TYPE_A {
      assert r[end..] == ANSWER;
      AnswerDecodes(r, end, q.name);
      Lists(r, end + 16);
    }
  }

  /** A server failure keeps the question if there is a well-formed one, and claims none otherwise. */
  lemma ServfailIsWellFormed(m: seq<byte>)
    requires |m| >= 12 && (EndOfQuestion(m) < 0 || U16(m, 4) <= 1)
    ensures Decode(ServfailReply(m)) ==
            match FirstQuestion(m)
            case Got(q, _) => Some(Message(ReplyTo(DecodeHeader(m).value, 2, 1, 0), [q], [], [], []))
            case Fail => Some(Message(ReplyTo(DecodeHeader(m).value, 2, 0, 0), [], [], [], []))
  {
    var r, end := ServfailReply(m), EndOfQuestion(m);
    match FirstQuestion(m) {
      case Got(q, _) =>
        HeaderDecodes(m, 2, 1, 0, m[12..end]);
        assert r[12..end] == m[12..end];
        EchoedQuestion(m, r);
        Lists(r, 12);
        Lists(r, end);
      case Fail =>
        HeaderDecodes(m, 2, 0, 0, []);
        assert r == ReplyHeader(m, 2, 0, 0) + [];
        Lists(r, 12);
    }
  }

  // ---- Exactly which replies are complete messages ----

  /** Read as questions, the bytes of the answer run out before a second one and the rest are found. */
  lemma AnswerIsNoQuestion(r: seq<byte>, end: int, name: seq<Label>, n: nat)
    requires 12 < end && |r| == end + 16 && r[end..] == ANSWER && n >= 1
    requires DecodeName(r, end, end) == Got(name, end + 2)
    ensures var questions := DecodeQuestions(r, end, n);
            questions == Fail || DecodeRecords(r, questions.next, 1) == Fail
  {
    AnswerBytes(r, end);
    assert DecodeQuestion(r, end).Got? && DecodeQuestion(r, end).next == end + 6;
    assert DecodeName(r, end + 6, end + 6) == Got([], end + 7);
    if n == 1 {
      Lists(r, end);
      assert DecodeRecord(r, end + 6) == Fail;
    } else {
      assert DecodeQuestion(r, end + 6).Got? && DecodeQuestion(r, end + 6).next == end + 11;
      assert DecodeName(r, end + 16, end + 11) == Fail;
      assert DecodeName(r, end + 11, end + 11) == Fail;
      if n == 2 {
        Lists(r, end + 6);
        assert DecodeQuestions(r, end, 2).Got? ==> DecodeQuestions(r, end, 2).next == end + 11;
        assert DecodeRecord(r, end + 11) == Fail;
      } else {
        assert DecodeQuestion(r, end + 11) == Fail;
        assert DecodeQuestions(r, end + 11, n - 2) == Fail;
        assert DecodeQuestions(r, end + 6, n - 1) == Fail;
      }
    }
  }

  lemma BodyFails(r: seq<byte>, h: Header, q: Question, end: int)
    requires DecodeHeader(r) == Got(h, 12) && h.qdcount >= 1 && h.ancount >= 0
    requires DecodeQuestion(r, 12) == Got(q, end)
    requires var more := DecodeQuestions(r, end, h.qdcount - 1);
             more == Fail || DecodeRecords(r, more.next, h.ancount) == Fail
    ensures Decode(r) == None
  {
  }

  lemma EchoAloneFails(m: seq<byte>, rcode: int)
    requires FirstQuestion(m).Got? && U16(m, 4) >= 2 && 0 <= rcode < 16
    ensures Decode(ReplyHeader(m, rcode, U16(m, 4), 0) + m[12..FirstQuestion(m).next]) == None
  {
    var end, k := FirstQuestion(m).next, U16(m, 4);
    var r := ReplyHeader(m, rcode, k, 0) + m[12..end];
    HeaderDecodes(m, rcode, k, 0, m[12..end]);
    assert r[12..end] == m[12..end];
    EchoedQuestion(m, r);
    assert DecodeQuestion(r, end) == Fail;
    BodyFails(r, DecodeHeader(r).value, FirstQuestion(m).value, end);
  }

  lemma EchoWithAnswerFails(m: seq<byte>)
    requires FirstQuestion(m).Got? && U16(m, 4) >= 2
    ensures Decode(LocalReply(m, TYPE_A)) == None
  {
    var q, end, k := FirstQuestion(m).value, FirstQuestion(m).next, U16(m, 4);
    var r := LocalReply(m, TYPE_A);
    assert r == ReplyHeader(m, 0, k, 1) + (m[12..end] + ANSWER);
    HeaderDecodes(m, 0, k, 1, m[12..end] + ANSWER);
    assert r[12..end] == m[12..end] && r[end..] == ANSWER;
    EchoedQuestion(m, r);
    AnswerDecodes(r, end, q.name);
    AnswerIsNoQuestion(r, end, q.name, k - 1);
    BodyFails(r, DecodeHeader(r).value, q, end);
  }

  /** The builders echo one question and keep the count, so with two or more nothing they return is a
      complete message. */
  lemma ManyQuestionsNeverDecode(m: seq<byte>, qtype: int)
    requires FirstQuestion(m).Got? && U16(m, 4) >= 2
    ensures Decode(LocalReply(m, qtype)) == None && Decode(ServfailReply(m)) == None
  {
    EchoAloneFails(m, 0);
    EchoAloneFails(m, RCODE_SERVFAIL);
    EchoWithAnswerFails(m);
  }

  lemma ServfailDecodesExactly(m: seq<byte>)
    ensures Decode(ServfailReply(m)).Some? <==> |m| >= 12 && (EndOfQuestion(m) < 0 || U16(m, 4) <= 1)
  {
    if |m| >= 12 {
      if EndOfQuestion(m) < 0 || U16(m, 4) <= 1 {
        ServfailIsWellFormed(m);
      } else {
        ManyQuestionsNeverDecode(m, TYPE_A);
      }
    }
  }

  lemma LocalReplyDecodesExactly(m: seq<byte>, qtype: int)
    ensures Decode(LocalReply(m, qtype)).Some? <==>
            && |m| >= 12
            && (EndOfQuestion(m) < 0 || U16(m, 4) == 1 || (U16(m, 4) == 0 && qtype != TYPE_A))
  {
    if EndOfQuestion(m) < 0 {
      ServfailDecodesExactly(m);
    } else if U16(m, 4) == 0 {
      var r := LocalReply(m, qtype);
      var tail := if qtype == TYPE_A then ANSWER else [];
      var answers := if qtype == TYPE_A then 1 else 0;
      assert r == ReplyHeader(m, 0, 0, answers) + tail;
      HeaderDecodes(m, 0, 0, answers, tail);
      Lists(r, 12);
      if qtype == TYPE_A {
        assert r[12..] == ANSWER;
        AnswerBytes(r, 12);
        assert (r[12] as int - 192) * 256 + r[13] as int == 12;
        assert DecodeName(r, 12, 12) == Fail;
      }
    } else if U16(m, 4) == 1 {
      LocalReplyIsWellFormed(m, qtype);
    } else {
      ManyQuestionsNeverDecode(m, qtype);
    }
  }

  /** A reply depends on the ID, the flags and the question alone: not on the other counts, and not
      on any byte after the question. */
  lemma RepliesIgnoreTheRest(m: seq<byte>, n: seq<byte>, qtype: int)
    requires FirstQuestion(m).Got? && FirstQuestion(m).next <= |n|
    requires m[..6] == n[..6] && m[12..FirstQuestion(m).next] == n[12..FirstQuestion(m).next]
    ensures LocalReply(n, qtype) == LocalReply(m, qtype) && ServfailReply(n) == ServfailReply(m)
  {
    assert forall i | 0 <= i < 6 :: m[i] == m[..6][i] == n[..6][i] == n[i];
    assert U16(n, 2) == U16(m, 2) && U16(n, 4) == U16(m, 4);
    SameQuestion(m, n);
  }

  /** Whatever the query claims, it gets no reply exactly if it has no first question, is relayed exactly if that is not
      an address question of the Internet class under the TLD and upstream answers, and is replied to here otherwise. */
  lemma AnsweredHereExactly(m: seq<byte>, tld: seq<byte>, upstream: Option<seq<byte>>)
    ensures match FirstQuestion(m)
            case Fail => Reply(m, tld, upstream) == None
            case Got(q, _) =>
              var ours := q.qclass == 1 && q.qtype in {1, 28} && NameEndsInTLD(Join(q.name, DOT), tld);
              Reply(m, tld, upstream) ==
                if ours then Some(LocalReply(m, q.qtype))
                else if upstream.Some? then upstream else Some(ServfailReply(m))
  {
  }

  /** Of a query with one question: an address question of the Internet class under the TLD is answered here, with the
      loopback address for type A (1) and nothing for type AAAA (28); to any other question the reply is upstream's
      answer, and if there is none a failure. What is answered here decodes to that question under the query's ID. */
  lemma OwnRepliesAnswerTheQuestion(m: seq<byte>, tld: seq<byte>, upstream: Option<seq<byte>>)
    requires FirstQuestion(m).Got? && U16(m, 4) == 1
    ensures var q, reply := FirstQuestion(m).value, Reply(m, tld, upstream);
            var ours := q.qclass == 1 && q.qtype in {1, 28} && NameEndsInTLD(Join(q.name, DOT), tld);
            if !ours && upstream.Some? then reply == upstream
            else
              && reply.Some? && Decode(reply.value).Some?
              && var d := Decode(reply.value).value;
              && d.header.id == U16(m, 0) && d.header.qr && d.header.ra && d.questions == [q]
              && d.authority == [] && d.additional == []
              && d.header.rcode == (if ours then 0 else 2)
              && d.answers == if ours && q.qtype == 1 then [Record(q.name, 1, 1, 60, [127, 0, 0, 1])] else []
  {
    var q := FirstQuestion(m).value;
    if IsOurs(q, tld) {
      LocalReplyIsWellFormed(m, q.qtype);
    } else {
      ServfailIsWellFormed(m);
    }
  }

  // ---- The TLD test ----

  lemma {:induction false} LastPiece(s: seq<byte>, t: seq<byte>)
    requires DOT !in t
    ensures (s == t || HasSuffix(s, [DOT] + t)) <==> Split(s, DOT)[|Split(s, DOT)| - 1] == t
  {
    if s != [] {
      LastPiece(s[1..], t);
      var rest := Split(s[1..], DOT);
      JoinSplit(s[1..], DOT);
      assert s == [s[0]] + s[1..];
      if s[0] == DOT {
        SuffixOfTail(s, [DOT] + t);
        assert s == [DOT] + t <==> s[1..] == t;
      } else {
        SuffixOfTail(s, [DOT] + t);
      }
    }
  }

  lemma SuffixOfTail(s: seq<byte>, p: seq<byte>)
    requires s != [] && p != []
    ensures HasSuffix(s, p) <==> s == p || HasSuffix(s[1..], p)
  {
    if |p| < |s| {
      assert s[|s| - |p|..] == s[1..][|s| - 1 - |p|..];
    }
  }

  lemma LowerKeepsDots(l: seq<byte>)
    ensures DOT in LowerBytes(l) <==> DOT in l
  {
    assert forall j | 0 <= j < |l| :: LowerBytes(l)[j] == DOT <==> l[j] == DOT;
  }

  /** For a TLD without dots, nameEndsInTLD compares it with the piece after the last dot. */
  lemma TldIsTheLastPiece(name: seq<byte>, tld: seq<byte>)
    requires DOT !in tld
    ensures var pieces := Split(TrimDot(LowerBytes(name)), DOT);
            NameEndsInTLD(name, tld) <==> pieces[|pieces| - 1] == LowerBytes(tld)
  {
    LowerKeepsDots(tld);
    LastPiece(TrimDot(LowerBytes(name)), LowerBytes(tld));
  }

  function LowerLabels(labels: seq<Label>): (r: seq<Label>)
    ensures |r| == |labels|
  {
    seq(|labels|, i requires 0 <= i < |labels| => LowerBytes(labels[i]))
  }

  lemma LowerConcat(a: seq<byte>, b: seq<byte>)
    ensures LowerBytes(a + b) == LowerBytes(a) + LowerBytes(b)
  {
  }

  lemma {:induction false} LowerJoin(labels: seq<Label>)
    ensures LowerBytes(Join(labels, DOT)) == Join(LowerLabels(labels), DOT)
  {
    if |labels| > 1 {
      LowerJoin(labels[1..]);
      LowerConcat(labels[0] + [DOT], Join(labels[1..], DOT));
      LowerConcat(labels[0], [DOT]);
      assert LowerLabels(labels)[1..] == LowerLabels(labels[1..]);
    }
  }

  lemma {:induction false} JoinEndsInLast(labels: seq<Label>)
    requires |labels| >= 1 && labels[|labels| - 1] != []
    ensures var s, last := Join(labels, DOT), labels[|labels| - 1]; s != [] && s[|s| - 1] == last[|last| - 1]
  {
    if |labels| > 1 {
      JoinEndsInLast(labels[1..]);
    }
  }

  lemma LowerIsFree(labels: seq<Label>)
    requires FreeOf(labels, DOT)
    ensures FreeOf(LowerLabels(labels), DOT)
  {
    var lower := LowerLabels(labels);
    forall p | p in lower
      ensures DOT !in p
    {
      var i :| 0 <= i < |lower| && lower[i] == p;
      assert labels[i] in labels;
      LowerKeepsDots(labels[i]);
    }
  }

  lemma NoDotToTrim(labels: seq<Label>)
    requires |labels| >= 1 && labels[|labels| - 1] != [] && DOT !in labels[|labels| - 1]
    ensures TrimDot(Join(labels, DOT)) == Join(labels, DOT)
  {
    var last := labels[|labels| - 1];
    JoinEndsInLast(labels);
    assert last[|last| - 1] in last;
  }

  lemma PiecesOfName(labels: seq<Label>)
    requires |labels| >= 1 && labels[|labels| - 1] != [] && FreeOf(labels, DOT)
    ensures Split(TrimDot(Join(labels, DOT)), DOT) == labels
  {
    assert labels[|labels| - 1] in labels;
    NoDotToTrim(labels);
    SplitJoin(labels, DOT);
  }

  /** The same but for the case of ASCII letters. */
  ghost predicate EqualFold(a: seq<byte>, b: seq<byte>) {
    && |a| == |b|
    && forall i | 0 <= i < |a| ::
         a[i] == b[i] || (65 <= a[i] <= 90 && b[i] == a[i] + 32) || (65 <= b[i] <= 90 && a[i] == b[i] + 32)
  }

  lemma LowerIsFold(a: seq<byte>, b: seq<byte>)
    ensures LowerBytes(a) == LowerBytes(b) <==> EqualFold(a, b)
  {
    var x, y := LowerBytes(a), LowerBytes(b);
    assert |x| == |a| && |y| == |b|;
    if x == y {
      assert forall i | 0 <= i < |a| :: x[i] == y[i] && x[i] == LowerByte(a[i]) && y[i] == LowerByte(b[i]);
    }
  }

  /** For the labels parseQuestion returns, none of them holding a dot, nameEndsInTLD holds exactly when
      the last label is the TLD in some mix of cases. */
  lemma TldIsTheLastLabel(labels: seq<Label>, tld: seq<byte>)
    requires |labels| >= 1 && labels[|labels| - 1] != [] && FreeOf(labels, DOT) && DOT !in tld
    ensures NameEndsInTLD(Join(labels, DOT), tld) <==> EqualFold(labels[|labels| - 1], tld)
  {
    var name, lower := Join(labels, DOT), LowerLabels(labels);
    assert Split(TrimDot(LowerBytes(name)), DOT) == lower by {
      assert LowerBytes(name) == Join(lower, DOT) by { LowerJoin(labels); }
      assert lower[|lower| - 1] != [];
      assert FreeOf(lower, DOT) by { LowerIsFree(labels); }
      PiecesOfName(lower);
    }
    TldIsTheLastPiece(name, tld);
    LowerIsFold(labels[|labels| - 1], tld);
  }

  /** One dot at the end of a name makes no difference. */
  lemma TrailingDotIsDropped(name: seq<byte>, tld: seq<byte>)
    requires name != [] ==> name[|name| - 1] != 46
    ensures NameEndsInTLD(name + [46], tld) <==> NameEndsInTLD(name, tld)
  {
    LowerConcat(name, [DOT]);
    assert LowerBytes([DOT]) == [DOT];
    assert TrimDot(LowerBytes(name) + [DOT]) == LowerBytes(name);
    assert name != [] ==> LowerBytes(name)[|name| - 1] == LowerByte(name[|name| - 1]);
    assert TrimDot(LowerBytes(name)) == LowerBytes(name);
  }

  /** A label may hold any byte (section 3.1 of RFC 1035 gives it only a length): a single label with a
      dot inside counts as a name under the TLD. */
  lemma DottedLabelPasses() returns (labels: seq<Label>, tld: seq<byte>)
    ensures |labels| == 1 && AllLabels(labels) && DOT !in tld
    ensures labels[0] != tld && NameEndsInTLD(Join(labels, DOT), tld)
  {
    tld := [118];
    labels := [[97, DOT, 118]];
    var n := LowerBytes(labels[0]);
    assert n == [97, DOT, 118] && LowerBytes(tld) == [118];
    assert n[1..] == [DOT] + [118];
  }
}
