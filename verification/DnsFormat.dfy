/** That DnsWire's decoder reads the format of section 4.1 of RFC 1035: what encodes a header, a name with or without a
    pointer, or a record decodes to it, and nothing may follow a message. */
module DnsFormat {
  import opened Text
  import opened DnsWire
  import opened DnsServer
  import opened DnsReplies

  function Bit(b: bool): int {
    if b then 1 else 0
  }

  /** The bits of the header (section 4.1.1) determine the bytes, and the other way round. */
  lemma HeaderBits(m: seq<byte>)
    requires |m| >= 12
    ensures DecodeHeader(m).Got? && DecodeHeader(m).next == 12
    ensures var h := DecodeHeader(m).value;
            && 0 <= h.opcode < 16 && 0 <= h.z < 8 && 0 <= h.rcode < 16
            && m[0] as int * 256 + m[1] as int == h.id
            && m[2] as int == 128 * Bit(h.qr) + 8 * h.opcode + 4 * Bit(h.aa) + 2 * Bit(h.tc) + Bit(h.rd)
            && m[3] as int == 128 * Bit(h.ra) + 16 * h.z + h.rcode
            && m[4] as int * 256 + m[5] as int == h.qdcount && m[6] as int * 256 + m[7] as int == h.ancount
            && m[8] as int * 256 + m[9] as int == h.nscount && m[10] as int * 256 + m[11] as int == h.arcount
  {
    HighBits(m[2]);
    LowBits(m[3]);
  }

  lemma HighBits(f: int)
    requires 0 <= f < 256
    ensures f == 128 * Bit(f >= 128) + 8 * (f / 8 % 16) + 4 * (f / 4 % 2) + 2 * (f / 2 % 2) + f % 2
  {
    assert f / 8 % 16 == f / 8 - 16 * Bit(f >= 128);
    assert f / 4 % 2 == f / 4 - 2 * (f / 8) && f / 2 % 2 == f / 2 - 2 * (f / 4);
  }

  lemma LowBits(f: int)
    requires 0 <= f < 256
    ensures f == 128 * Bit(f >= 128) + 16 * (f / 16 % 8) + f % 16
  {
    assert f / 16 % 8 == f / 16 - 8 * Bit(f >= 128);
  }

  // ---- Names ----

  /** Labels are 1 to 63 bytes long (section 2.3.4). */
  lemma {:induction false} NamesAreLabels(m: seq<byte>, pos: int, start: int)
    requires 0 <= start <= pos && DecodeName(m, pos, start).Got?
    ensures AllLabels(DecodeName(m, pos, start).value)
    decreases start, |m| - pos
  {
    if m[pos] == 0 {
    } else if m[pos] < 64 {
      NamesAreLabels(m, pos + 1 + m[pos], start);
    } else {
      var target := (m[pos] as int - 192) * 256 + m[pos + 1] as int;
      NamesAreLabels(m, target, target);
    }
  }

  /** The labels alone, each after its length. */
  ghost function EncodeLabels(labels: seq<Label>): seq<byte>
    requires AllLabels(labels)
  {
    if labels == [] then []
    else
      var size: byte := |labels[0]|;
      [size] + labels[0] + EncodeLabels(labels[1..])
  }

  lemma {:induction false} EncodeNameEnds(labels: seq<Label>)
    requires AllLabels(labels)
    ensures EncodeName(labels) == EncodeLabels(labels) + [0]
  {
    if labels != [] {
      EncodeNameEnds(labels[1..]);
    }
  }

  /** A name that goes on after some labels. */
  function After(labels: seq<Label>, rest: Read<seq<Label>>): Read<seq<Label>> {
    match rest
    case Fail => Fail
    case Got(more, next) => Got(labels + more, next)
  }

  lemma AfterAfter(first: Label, labels: seq<Label>, rest: Read<seq<Label>>)
    ensures After([first], After(labels, rest)) == After([first] + labels, rest)
    ensures After([], rest) == rest
  {
    if rest.Got? {
      assert [first] + (labels + rest.value) == [first] + labels + rest.value;
      assert [] + rest.value == rest.value;
    }
  }

  /** After some labels, the name goes on as it does where they end. */
  lemma {:induction false} LabelsThen(m: seq<byte>, pos: int, start: int, labels: seq<Label>)
    requires AllLabels(labels) && 0 <= start <= pos && pos + |EncodeLabels(labels)| <= |m|
    requires m[pos..pos + |EncodeLabels(labels)|] == EncodeLabels(labels)
    ensures DecodeName(m, pos, start) == After(labels, DecodeName(m, pos + |EncodeLabels(labels)|, start))
    decreases |labels|
  {
    var rest := DecodeName(m, pos + |EncodeLabels(labels)|, start);
    if labels == [] {
      AfterAfter([], [], rest);
    } else {
      var first, code := labels[0], EncodeLabels(labels[1..]);
      assert IsLabel(first);
      FirstCode(m, pos, |first|, first, code);
      LabelsThen(m, pos + 1 + |first|, start, labels[1..]);
      LabelThen(m, pos, start, first);
      AfterAfter(first, labels[1..], rest);
      assert labels == [first] + labels[1..];
    }
  }

  lemma LabelThen(m: seq<byte>, pos: int, start: int, first: Label)
    requires IsLabel(first) && 0 <= start <= pos && pos + 1 + |first| <= |m|
    requires m[pos] == |first| && m[pos + 1..pos + 1 + |first|] == first
    ensures DecodeName(m, pos, start) == After([first], DecodeName(m, pos + 1 + |first|, start))
  {
  }

  /** Two codes in a row. */
  lemma InARow(m: seq<byte>, pos: int, a: seq<byte>, b: seq<byte>)
    requires 0 <= pos && pos + |a| + |b| <= |m| && m[pos..pos + |a| + |b|] == a + b
    ensures m[pos..pos + |a|] == a && m[pos + |a|..pos + |a| + |b|] == b
  {
    var c := m[pos..pos + |a| + |b|];
    assert c[..|a|] == a && c[|a|..] == b;
    assert m[pos..pos + |a|] == c[..|a|] && m[pos + |a|..pos + |a| + |b|] == c[|a|..];
  }

  lemma FirstCode(m: seq<byte>, pos: int, size: byte, first: Label, code: seq<byte>)
    requires 0 <= pos && pos + 1 + |first| + |code| <= |m|
    requires m[pos..pos + 1 + |first| + |code|] == [size] + first + code
    ensures m[pos] == size && m[pos + 1..pos + 1 + |first|] == first
    ensures m[pos + 1 + |first|..pos + 1 + |first| + |code|] == code
  {
    InARow(m, pos, [size] + first, code);
    InARow(m, pos, [size], first);
    assert m[pos..pos + 1][0] == m[pos];
  }

  /** A name is its labels and the root label, or its labels and a pointer to an earlier name (section 4.1.4). */
  lemma NameDecodes(m: seq<byte>, pos: int, start: int, labels: seq<Label>)
    requires AllLabels(labels) && 0 <= start <= pos && pos + |EncodeLabels(labels)| < |m|
    requires m[pos..pos + |EncodeLabels(labels)|] == EncodeLabels(labels)
    ensures var at := pos + |EncodeLabels(labels)|;
            && (m[at] == 0 ==> DecodeName(m, pos, start) == Got(labels, at + 1))
            && (m[at] >= 192 && at + 1 < |m| ==>
                  var target := (m[at] as int - 192) * 256 + m[at + 1] as int;
                  DecodeName(m, pos, start) ==
                    if target < start && DecodeName(m, target, target).Got?
                    then Got(labels + DecodeName(m, target, target).value, at + 2) else Fail)
            && (64 <= m[at] < 192 ==> DecodeName(m, pos, start) == Fail)
  {
    LabelsThen(m, pos, start, labels);
    assert labels + [] == labels;
  }

  // ---- Records ----

  ghost predicate ValidRecord(r: Record) {
    && AllLabels(r.name) && 0 <= r.rtype < 65536 && 0 <= r.rclass < 65536
    && 0 <= r.ttl < 0x1_0000_0000 && |r.rdata| < 65536
  }

  /** Section 4.1.3, without compression. */
  ghost function EncodeRecord(r: Record): seq<byte>
    requires ValidRecord(r)
  {
    EncodeName(r.name) + EncodeFields(r.rtype, r.rclass, r.ttl, |r.rdata|) + r.rdata
  }

  function EncodeFields(rtype: int, rclass: int, ttl: int, size: int): (s: seq<byte>)
    requires 0 <= rtype < 65536 && 0 <= rclass < 65536 && 0 <= ttl < 0x1_0000_0000 && 0 <= size < 65536
    ensures |s| == 10
  {
    EncodeU16(rtype) + EncodeU16(rclass) + EncodeU16(ttl / 65536) + EncodeU16(ttl % 65536) + EncodeU16(size)
  }

  lemma RecordDecodes(m: seq<byte>, pos: int, r: Record)
    requires ValidRecord(r) && 0 <= pos && pos + |EncodeRecord(r)| <= |m|
    requires m[pos..pos + |EncodeRecord(r)|] == EncodeRecord(r)
    ensures DecodeRecord(m, pos) == Got(r, pos + |EncodeRecord(r)|)
  {
    var name, fields := EncodeName(r.name), EncodeFields(r.rtype, r.rclass, r.ttl, |r.rdata|);
    InARow(m, pos, name + fields, r.rdata);
    InARow(m, pos, name, fields);
    LabelsOfEncoding(m, pos, r.name);
    LabelsDecode(m, pos, pos);
    Fields(m, pos + |name|, r.rtype, r.rclass, r.ttl, |r.rdata|);
  }

  /** The fields after the name. */
  lemma Fields(m: seq<byte>, pos: int, rtype: int, rclass: int, ttl: int, size: int)
    requires 0 <= pos && pos + 10 <= |m| && 0 <= ttl < 0x1_0000_0000
    requires 0 <= rtype < 65536 && 0 <= rclass < 65536 && 0 <= size < 65536
    requires m[pos..pos + 10] == EncodeFields(rtype, rclass, ttl, size)
    ensures U16(m, pos) == rtype && U16(m, pos + 2) == rclass && U32(m, pos + 4) == ttl && U16(m, pos + 8) == size
  {
    var c := m[pos..pos + 10];
    assert forall i | 0 <= i < 10 :: c[i] == m[pos + i];
    assert c[0] == rtype / 256 && c[1] == rtype % 256 && c[2] == rclass / 256 && c[3] == rclass % 256;
    assert c[4] == ttl / 65536 / 256 && c[5] == ttl / 65536 % 256;
    assert c[6] == ttl % 65536 / 256 && c[7] == ttl % 65536 % 256 && c[8] == size / 256 && c[9] == size % 256;
    assert U16(m, pos + 4) == ttl / 65536 && U16(m, pos + 6) == ttl % 65536;
  }

  // ---- Nothing after the message ----

  lemma {:induction false} NameIn(m: seq<byte>, e: seq<byte>, pos: int, start: int)
    requires 0 <= start <= pos && DecodeName(m, pos, start).Got?
    ensures DecodeName(m + e, pos, start) == DecodeName(m, pos, start)
    decreases start, |m| - pos
  {
    var longer := m + e;
    assert longer[pos] == m[pos];
    if m[pos] == 0 {
    } else if m[pos] < 64 {
      var first := m[pos + 1..pos + 1 + m[pos]];
      assert longer[pos + 1..pos + 1 + m[pos]] == first;
      LabelThen(m, pos, start, first);
      LabelThen(longer, pos, start, first);
      NameIn(m, e, pos + 1 + m[pos], start);
    } else {
      assert longer[pos + 1] == m[pos + 1];
      var target := (m[pos] as int - 192) * 256 + m[pos + 1] as int;
      NameIn(m, e, target, target);
    }
  }

  lemma QuestionIn(m: seq<byte>, e: seq<byte>, pos: int)
    requires 0 <= pos && DecodeQuestion(m, pos).Got?
    ensures DecodeQuestion(m + e, pos) == DecodeQuestion(m, pos)
  {
    NameIn(m, e, pos, pos);
  }

  lemma RecordIn(m: seq<byte>, e: seq<byte>, pos: int)
    requires 0 <= pos && DecodeRecord(m, pos).Got?
    ensures DecodeRecord(m + e, pos) == DecodeRecord(m, pos)
  {
    NameIn(m, e, pos, pos);
    var longer, next := m + e, DecodeName(m, pos, pos).next;
    assert forall i | 0 <= i < |m| :: longer[i] == m[i];
    var length := U16(m, next + 8);
    assert longer[next + 10..next + 10 + length] == m[next + 10..next + 10 + length];
  }

  lemma {:induction false} QuestionsIn(m: seq<byte>, e: seq<byte>, pos: int, n: nat)
    requires 0 <= pos && DecodeQuestions(m, pos, n).Got?
    ensures DecodeQuestions(m + e, pos, n) == DecodeQuestions(m, pos, n)
    decreases n
  {
    if n > 0 {
      QuestionIn(m, e, pos);
      QuestionsIn(m, e, DecodeQuestion(m, pos).next, n - 1);
    }
  }

  lemma {:induction false} RecordsIn(m: seq<byte>, e: seq<byte>, pos: int, n: nat)
    requires 0 <= pos && DecodeRecords(m, pos, n).Got?
    ensures DecodeRecords(m + e, pos, n) == DecodeRecords(m, pos, n)
    decreases n
  {
    if n > 0 {
      RecordIn(m, e, pos);
      RecordsIn(m, e, DecodeRecord(m, pos).next, n - 1);
    }
  }

  lemma HeaderIn(m: seq<byte>, e: seq<byte>)
    requires |m| >= 12
    ensures DecodeHeader(m + e) == DecodeHeader(m)
  {
    var longer := m + e;
    assert longer[..12] == m[..12];
    assert forall i | 0 <= i < 12 :: longer[i] == longer[..12][i] && m[i] == m[..12][i];
  }

  /** A message is decoded to its last byte. */
  lemma NothingFollows(m: seq<byte>, e: seq<byte>)
    requires Decode(m).Some? && e != []
    ensures Decode(m + e).None?
  {
    var longer := m + e;
    HeaderIn(m, e);
    var h := DecodeHeader(longer).value;
    var q, q' := DecodeQuestions(m, 12, h.qdcount), DecodeQuestions(longer, 12, h.qdcount);
    assert q' == q by { QuestionsIn(m, e, 12, h.qdcount); }
    var a, a' := DecodeRecords(m, q.next, h.ancount), DecodeRecords(longer, q.next, h.ancount);
    assert a' == a by { RecordsIn(m, e, q.next, h.ancount); }
    var n, n' := DecodeRecords(m, a.next, h.nscount), DecodeRecords(longer, a.next, h.nscount);
    assert n' == n by { RecordsIn(m, e, a.next, h.nscount); }
    var r, r' := DecodeRecords(m, n.next, h.arcount), DecodeRecords(longer, n.next, h.arcount);
    assert r' == r by { RecordsIn(m, e, n.next, h.arcount); }
  }
}
