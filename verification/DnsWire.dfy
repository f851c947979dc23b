/** The message format of section 4.1 of RFC 1035, written without regard to how vibe's server works:
    a decoder for whole messages, following name compression (section 4.1.4), and an encoder for names. */
module DnsWire {
  import opened Text

  type byte = x: int | 0 <= x < 256
  type Label = seq<byte>

  datatype Header = Header(
    id: int, qr: bool, opcode: int, aa: bool, tc: bool, rd: bool, ra: bool, z: int, rcode: int,
    qdcount: int, ancount: int, nscount: int, arcount: int)

  datatype Question = Question(name: seq<Label>, qtype: int, qclass: int)

  datatype Record = Record(name: seq<Label>, rtype: int, rclass: int, ttl: int, rdata: seq<byte>)

  datatype Message = Message(
    header: Header, questions: seq<Question>, answers: seq<Record>, authority: seq<Record>, additional: seq<Record>)

  /** Something decoded, and the offset just after it. */
  datatype Read<+T> = Fail | Got(value: T, next: int)

  function U16(m: seq<byte>, pos: int): int
    requires 0 <= pos && pos + 2 <= |m|
  {
    (m[pos] as int) * 256 + m[pos + 1] as int
  }

  function U32(m: seq<byte>, pos: int): int
    requires 0 <= pos && pos + 4 <= |m|
  {
    U16(m, pos) * 65536 + U16(m, pos + 2)
  }

  function DecodeHeader(m: seq<byte>): Read<Header> {
    if |m| < 12 then Fail
    else
      var f1: int, f2: int := m[2], m[3];
      Got(Header(U16(m, 0), f1 >= 128, f1 / 8 % 16, f1 / 4 % 2 == 1, f1 / 2 % 2 == 1, f1 % 2 == 1,
                 f2 >= 128, f2 / 16 % 8, f2 % 16, U16(m, 4), U16(m, 6), U16(m, 8), U16(m, 10)), 12)
  }

  /** The name at `pos`, where `start` is the offset at which this run of labels began: a pointer has
      to lead to an earlier offset. */
  function DecodeName(m: seq<byte>, pos: int, start: int): (r: Read<seq<Label>>)
    requires 0 <= start <= pos
    ensures r.Got? ==> pos < r.next <= |m|
    decreases start, |m| - pos
  {
    if pos >= |m| then Fail
    else if m[pos] == 0 then Got([], pos + 1)
    else if m[pos] < 64 then
      if pos + 1 + m[pos] > |m| then Fail
      else
        match DecodeName(m, pos + 1 + m[pos], start)
        case Fail => Fail
        case Got(rest, next) => Got([m[pos + 1..pos + 1 + m[pos]]] + rest, next)
    else if m[pos] >= 192 && pos + 1 < |m| then
      var target := (m[pos] as int - 192) * 256 + m[pos + 1] as int;
      if target >= start then Fail
      else
        match DecodeName(m, target, target)
        case Fail => Fail
        case Got(labels, _) => Got(labels, pos + 2)
    else Fail
  }

  function DecodeQuestion(m: seq<byte>, pos: int): (r: Read<Question>)
    requires 0 <= pos
    ensures r.Got? ==> pos < r.next <= |m|
  {
    match DecodeName(m, pos, pos)
    case Fail => Fail
    case Got(name, next) =>
      if next + 4 > |m| then Fail else Got(Question(name, U16(m, next), U16(m, next + 2)), next + 4)
  }

  function DecodeRecord(m: seq<byte>, pos: int): (r: Read<Record>)
    requires 0 <= pos
    ensures r.Got? ==> pos < r.next <= |m|
  {
    match DecodeName(m, pos, pos)
    case Fail => Fail
    case Got(name, next) =>
      if next + 10 > |m| then Fail
      else
        var length := U16(m, next + 8);
        if next + 10 + length > |m| then Fail
        else Got(Record(name, U16(m, next), U16(m, next + 2), U32(m, next + 4), m[next + 10..next + 10 + length]),
                 next + 10 + length)
  }

  function DecodeQuestions(m: seq<byte>, pos: int, n: nat): (r: Read<seq<Question>>)
    requires 0 <= pos
    ensures r.Got? ==> pos <= r.next
    decreases n
  {
    if n == 0 then Got([], pos)
    else
      match DecodeQuestion(m, pos)
      case Fail => Fail
      case Got(q, next) =>
        match DecodeQuestions(m, next, n - 1)
        case Fail => Fail
        case Got(rest, end) => Got([q] + rest, end)
  }

  function DecodeRecords(m: seq<byte>, pos: int, n: nat): (r: Read<seq<Record>>)
    requires 0 <= pos
    ensures r.Got? ==> pos <= r.next
    decreases n
  {
    if n == 0 then Got([], pos)
    else
      match DecodeRecord(m, pos)
      case Fail => Fail
      case Got(q, next) =>
        match DecodeRecords(m, next, n - 1)
        case Fail => Fail
        case Got(rest, end) => Got([q] + rest, end)
  }

  /** The whole message, with no byte left over. */
  function Decode(m: seq<byte>): Option<Message> {
    match DecodeHeader(m)
    case Fail => None
    case Got(h, p0) =>
      match DecodeQuestions(m, p0, h.qdcount)
      case Fail => None
      case Got(questions, p1) =>
        match DecodeRecords(m, p1, h.ancount)
        case Fail => None
        case Got(answers, p2) =>
          match DecodeRecords(m, p2, h.nscount)
          case Fail => None
          case Got(authority, p3) =>
            match DecodeRecords(m, p3, h.arcount)
            case Fail => None
            case Got(additional, p4) =>
              if p4 == |m| then Some(Message(h, questions, answers, authority, additional)) else None
  }

  predicate IsLabel(l: Label) {
    1 <= |l| <= 63
  }

  ghost predicate AllLabels(labels: seq<Label>) {
    forall i | 0 <= i < |labels| :: IsLabel(labels[i])
  }

  ghost function EncodeName(labels: seq<Label>): (s: seq<byte>)
    requires AllLabels(labels)
    ensures |s| >= 1
  {
    if labels == [] then [0]
    else
      var size: byte := |labels[0]|;
      [size] + labels[0] + EncodeName(labels[1..])
  }
}
