/**
  A DNS query, and the check that a message answers it: sections 4.1.1 to 4.1.4 of RFC 1035.
  The check is compared with a grammar of the messages it should accept.
 */
module DnsVerify {
  import opened Wrappers
  import opened DnsWire

  const FLAG_RD: nat := 0x0100

  datatype Query = Query(id: nat, question: Bytes, wire: Bytes)

  /** The header of section 4.1.1. */
  function Header(id: nat, flags: nat, qd: nat, an: nat, ns: nat, ar: nat): (h: Bytes)
    requires id < 0x10000 && flags < 0x10000 && qd < 0x10000 && an < 0x10000 && ns < 0x10000 && ar < 0x10000
    ensures |h| == HEADER_LEN
    ensures U16(h, 0) == id && U16(h, 2) == flags && U16(h, 4) == qd && U16(h, 6) == an && U16(h, 8) == ns
            && U16(h, 10) == ar
  {
    Put16(id) + Put16(flags) + Put16(qd) + Put16(an) + Put16(ns) + Put16(ar)
  }

  lemma HeaderOf(msg: Bytes)
    requires |msg| >= HEADER_LEN
    ensures msg[..HEADER_LEN] == Header(U16(msg, 0), U16(msg, 2), U16(msg, 4), U16(msg, 6), U16(msg, 8), U16(msg, 10))
  {
    Put16OfU16(msg, 0);
    Put16OfU16(msg, 2);
    Put16OfU16(msg, 4);
    Put16OfU16(msg, 6);
    Put16OfU16(msg, 8);
    Put16OfU16(msg, 10);
  }

  /** `seed` is the random transaction ID. */
  method NewDNSQuery(name: Bytes, seed: nat) returns (q: Option<Query>)
    requires seed < 0x10000
    ensures q == QueryFor(name, seed)
  {
    var question := DnsQuestion(name);
    if question.None? {
      return None;
    }
    var wire: Bytes := Put16(seed);
    wire := wire + Put16(FLAG_RD);
    wire := wire + Put16(1);
    wire := wire + [0, 0, 0, 0, 0, 0];
    assert wire == Header(seed, 0x0100, 1, 0, 0, 0);
    wire := wire + question.value;
    return Some(Query(seed, question.value, wire));
  }

  ghost function QueryFor(name: Bytes, id: nat): Option<Query>
    requires id < 0x10000
  {
    match Question(name)
    case None => None
    case Some(question) => Some(Query(id, question, Header(id, 0x0100, 1, 0, 0, 0) + question))
  }

  /** withID clones the wire bytes before it writes into them. */
  method WithID(wire: array<Byte>, id: nat) returns (out: array<Byte>)
    requires wire.Length >= 2 && id < 0x10000
    ensures fresh(out)
    ensures out[..] == Put16(id) + old(wire[..])[2..]
    ensures wire[..] == old(wire[..])
  {
    out := new Byte[wire.Length](i requires 0 <= i < wire.Length reads wire => wire[i]);
    out[0] := id / 256;
    out[1] := id % 256;
  }

  // ---------------------------------------------------------------- the check

  function Lower(b: Byte): Byte { if 65 <= b <= 90 then b + 32 else b }

  ghost predicate FoldEqual(a: Bytes, b: Bytes) {
    |a| == |b| && forall k :: 0 <= k < |a| ==> Lower(a[k]) == Lower(b[k])
  }

  /** One letter in either case. */
  predicate OneLetter(x: Byte, y: Byte) {
    x == y || ('A' as int <= x <= 'Z' as int && y == x + 32) || ('A' as int <= y <= 'Z' as int && x == y + 32)
  }

  /** Byte strings fold alike when they differ at most in the case of ASCII letters. */
  lemma FoldMeans(a: Bytes, b: Bytes)
    ensures FoldEqual(a, b) <==> |a| == |b| && forall k :: 0 <= k < |a| ==> OneLetter(a[k], b[k])
  {
  }

  method EqualFold(a: Bytes, b: Bytes) returns (same: bool)
    ensures same == FoldEqual(a, b)
  {
    if |a| != |b| {
      return false;
    }
    for i := 0 to |a|
      invariant forall k :: 0 <= k < i ==> Lower(a[k]) == Lower(b[k])
    {
      if Lower(a[i]) != Lower(b[i]) {
        return false;
      }
    }
    return true;
  }

  datatype Verdict = Accepted | ServerError(rcode: nat) | Rejected

  predicate IsResponse(flags: nat) { flags / 0x8000 % 2 == 1 }

  function Opcode(flags: nat): nat { flags / 0x800 % 16 }

  predicate Truncated(flags: nat) { flags / 0x200 % 2 == 1 }

  function Rcode(flags: nat): nat { flags % 16 }

  /** Response bit, standard query, not truncated. */
  predicate ResponseFlags(flags: nat) { IsResponse(flags) && Opcode(flags) == 0 && !Truncated(flags) }

  /** NOERROR and NXDOMAIN complete the query; five codes are valid errors for it. */
  function VerdictOf(rcode: nat): Verdict {
    if rcode in {0, 3} then Accepted
    else if rcode in {1, 2, 4, 5, 6} then ServerError(rcode)
    else Rejected
  }

  /** FORMERR or NOTIMP without a question section. */
  predicate Questionless(msg: Bytes)
    requires |msg| >= HEADER_LEN
  {
    U16(msg, 4) == 0 && Rcode(U16(msg, 2)) in {1, 4}
  }

  function RecordCount(msg: Bytes): nat
    requires |msg| >= HEADER_LEN
  {
    U16(msg, 6) + U16(msg, 8) + U16(msg, 10)
  }

  /** Where the declared records end, if they are all there. */
  function RecordsEnd(question: Bytes, msg: Bytes): Option<nat>
    requires |msg| >= HEADER_LEN
  {
    SkipRecords(msg, HEADER_LEN + |question|, RecordCount(msg))
  }

  ghost function Verify(id: nat, question: Bytes, msg: Bytes): Verdict {
    if |msg| < HEADER_LEN || U16(msg, 0) != id || !ResponseFlags(U16(msg, 2)) then Rejected
    else if Questionless(msg) then
      if |msg| == HEADER_LEN && RecordCount(msg) == 0 then ServerError(Rcode(U16(msg, 2))) else Rejected
    else if U16(msg, 4) != 1 || |msg| < HEADER_LEN + |question| then Rejected
    else if !FoldEqual(msg[HEADER_LEN..HEADER_LEN + |question|], question) then Rejected
    else if RecordsEnd(question, msg).None? then Rejected
    else VerdictOf(Rcode(U16(msg, 2)))
  }

  method VerifyResponse(id: nat, question: Bytes, msg: Bytes) returns (v: Verdict)
    ensures v == Verify(id, question, msg)
  {
    if |msg| < HEADER_LEN {
      return Rejected;
    }
    if U16(msg, 0) != id {
      return Rejected;
    }
    var flags := U16(msg, 2);
    if !IsResponse(flags) || Opcode(flags) != 0 || Truncated(flags) {
      return Rejected;
    }
    var rcode := Rcode(flags);
    var questions := U16(msg, 4);
    if questions == 0 && (rcode == 1 || rcode == 4) {
      if |msg| != HEADER_LEN || U16(msg, 6) != 0 || U16(msg, 8) != 0 || U16(msg, 10) != 0 {
        return Rejected;
      }
      return ServerError(rcode);
    }
    if questions != 1 || |msg| < HEADER_LEN + |question| {
      return Rejected;
    }
    hide FoldEqual, Opcode, Truncated, IsResponse;
    var same := EqualFold(msg[HEADER_LEN..HEADER_LEN + |question|], question);
    if !same {
      return Rejected;
    }
    var total := U16(msg, 6) + U16(msg, 8) + U16(msg, 10);
    var start := HEADER_LEN + |question|;
    var offset := start;
    for i := 0 to total
      invariant start + 11 * i <= offset <= |msg|
      invariant SkipRecords(msg, start, total) == SkipRecords(msg, offset, total - i)
    {
      var next := SkipDNSResourceRecord(msg, offset);
      if next.None? {
        return Rejected;
      }
      offset := next.value;
    }
    return VerdictOf(rcode);
  }

  // ---------------------------------------------------------------- the grammar

  /**
    The flag word of a reply, bit by bit: QR set, a zero opcode, AA, TC clear, RD, the four bits
    RA, Z, AD and CD, and the response code.
   */
  function FlagWord(aa: nat, rd: nat, low: nat, rcode: nat): nat {
    0x8000 + 0x400 * aa + 0x100 * rd + 0x10 * low + rcode
  }

  predicate FlagBits(aa: nat, rd: nat, low: nat, rcode: nat) { aa < 2 && rd < 2 && low < 16 && rcode < 16 }

  /** The flags the check lets through are exactly the words of that form. */
  lemma FlagsAreWords(flags: nat)
    requires flags < 0x10000 && ResponseFlags(flags)
    ensures FlagBits(flags / 0x400 % 2, flags / 0x100 % 2, flags / 0x10 % 16, Rcode(flags))
    ensures flags == FlagWord(flags / 0x400 % 2, flags / 0x100 % 2, flags / 0x10 % 16, Rcode(flags))
  {
    BytesOf(flags);
    HighByte(flags / 0x100);
    LowByte(flags % 0x100);
  }

  lemma BytesOf(flags: nat)
    requires flags < 0x10000
    ensures var high, low := flags / 0x100, flags % 0x100;
      && flags == 0x100 * high + low && high < 0x100 && low < 0x100
      && high / 0x80 == flags / 0x8000 && high / 8 == flags / 0x800
      && high / 4 == flags / 0x400 && high / 2 == flags / 0x200
      && low / 16 == flags / 0x10 % 16 && low % 16 == flags % 16
  {
    var high, low := flags / 0x100, flags % 0x100;
    Quotient(flags, 0x8000, high / 0x80, 0x100 * (high % 0x80) + low);
    Quotient(flags, 0x800, high / 8, 0x100 * (high % 8) + low);
    Quotient(flags, 0x400, high / 4, 0x100 * (high % 4) + low);
    Quotient(flags, 0x200, high / 2, 0x100 * (high % 2) + low);
    Quotient(flags, 0x10, 16 * high + low / 16, low % 16);
    Quotient(16 * high + low / 16, 16, high, low / 16);
  }

  lemma HighByte(high: nat)
    requires high < 0x100 && high / 0x80 % 2 == 1 && high / 8 % 16 == 0 && high / 2 % 2 == 0
    ensures high == 0x80 + 4 * (high / 4 % 2) + high % 2
  {
  }

  lemma LowByte(low: nat)
    requires low < 0x100
    ensures low == 0x10 * (low / 16) + low % 16 && low / 16 < 16
  {
  }

  lemma WordsAreFlags(aa: nat, rd: nat, low: nat, rcode: nat)
    requires FlagBits(aa, rd, low, rcode)
    ensures var flags := FlagWord(aa, rd, low, rcode);
      flags < 0x10000 && ResponseFlags(flags) && Rcode(flags) == rcode
  {
    var flags, tail := FlagWord(aa, rd, low, rcode), 0x100 * rd + 0x10 * low + rcode;
    Quotient(flags, 0x8000, 1, 0x400 * aa + tail);
    Quotient(flags, 0x800, 16, 0x400 * aa + tail);
    Quotient(flags, 0x200, 0x40 + 2 * aa, tail);
    Quotient(flags, 16, 0x800 + 0x40 * aa + 0x10 * rd + low, rcode);
  }

  lemma Quotient(n: nat, d: nat, q: nat, r: nat)
    requires d > 0 && n == d * q + r && r < d
    ensures n / d == q && n % d == r
  {
    assert d * (n / d - q) == r - n % d;
    Small(d, n / d - q, r - n % d);
  }

  lemma Small(d: int, x: int, y: int)
    requires d * x == y && -d < y < d
    ensures x == 0 && y == 0
  {
    assert x >= 1 ==> d * x >= d;
    assert x <= -1 ==> d * x <= -d;
  }

  /** A message that echoes the question and carries what its header declares. */
  datatype Response = Response(aa: nat, rd: nat, low: nat, rcode: nat, answers: nat, authority: nat, additional: nat,
                               echo: Bytes, records: seq<Record>, trailing: Bytes)
  {
    function Flags(): nat { FlagWord(aa, rd, low, rcode) }
  }

  ghost predicate Answers(r: Response, question: Bytes) {
    && FlagBits(r.aa, r.rd, r.low, r.rcode)
    && r.answers < 0x10000 && r.authority < 0x10000 && r.additional < 0x10000
    && FoldEqual(r.echo, question)
    && ValidRecords(r.records)
    && |r.records| == r.answers + r.authority + r.additional
  }

  function Encode(id: nat, r: Response): Bytes
    requires id < 0x10000 && FlagBits(r.aa, r.rd, r.low, r.rcode)
    requires r.answers < 0x10000 && r.authority < 0x10000 && r.additional < 0x10000 && ValidRecords(r.records)
  {
    Header(id, r.Flags(), 1, r.answers, r.authority, r.additional) + r.echo + EncodeRecords(r.records) + r.trailing
  }

  /** The message is some answering response on the wire. */
  ghost predicate IsAnswer(id: nat, question: Bytes, msg: Bytes, rcode: nat)
    requires id < 0x10000
  {
    exists r: Response :: Answers(r, question) && r.rcode == rcode && msg == Encode(id, r)
  }

  /** The message is a bare header saying FORMERR or NOTIMP. */
  ghost predicate IsBareError(id: nat, msg: Bytes, rcode: nat)
    requires id < 0x10000
  {
    && rcode in {1, 4}
    && exists aa, rd, low :: FlagBits(aa, rd, low, rcode) && msg == Header(id, FlagWord(aa, rd, low, rcode), 0, 0, 0, 0)
  }

  lemma EncodedFields(id: nat, question: Bytes, r: Response)
    requires id < 0x10000 && Answers(r, question)
    ensures var msg := Encode(id, r);
            && |msg| >= HEADER_LEN + |question|
            && U16(msg, 0) == id && U16(msg, 2) == r.Flags() && U16(msg, 4) == 1
            && RecordCount(msg) == |r.records|
            && msg[HEADER_LEN..HEADER_LEN + |question|] == r.echo
            && At(msg, HEADER_LEN + |question|, EncodeRecords(r.records))
  {
    var msg, h := Encode(id, r), Header(id, r.Flags(), 1, r.answers, r.authority, r.additional);
    assert forall k :: 0 <= k < HEADER_LEN ==> msg[k] == h[k];
  }

  lemma AnswersVerify(id: nat, question: Bytes, r: Response)
    requires id < 0x10000 && Answers(r, question)
    ensures Verify(id, question, Encode(id, r)) == VerdictOf(r.rcode)
    ensures RecordsEnd(question, Encode(id, r)) == Some(HEADER_LEN + |question| + |EncodeRecords(r.records)|)
  {
    hide At, Encode, EncodeRecords, ValidRecords, SkipRecords, FlagWord, ResponseFlags, Rcode, VerdictOf;
    EncodedFields(id, question, r);
    WordsAreFlags(r.aa, r.rd, r.low, r.rcode);
    SkipsEncodedRecords(Encode(id, r), HEADER_LEN + |question|, r.records);
  }

  lemma Cut(msg: Bytes, a: nat, b: nat, c: nat)
    requires a <= b <= c <= |msg|
    ensures msg == msg[..a] + msg[a..b] + msg[b..c] + msg[c..]
  {
  }

  lemma VerifiedIsAnswer(id: nat, question: Bytes, msg: Bytes) returns (r: Response)
    requires id < 0x10000 && Verify(id, question, msg) != Rejected && !Questionless(msg)
    ensures Answers(r, question) && msg == Encode(id, r) && VerdictOf(r.rcode) == Verify(id, question, msg)
  {
    hide SkipRecords, EncodeRecords, ValidRecords, FoldEqual, Header, U16, VerdictOf, ResponseFlags;
    var start := HEADER_LEN + |question|;
    var records := SkippedAreRecords(msg, start, RecordCount(msg));
    var end := start + |EncodeRecords(records)|;
    assert end <= |msg| && msg[start..end] == EncodeRecords(records);
    hide At;
    var flags := U16(msg, 2);
    FlagsAreWords(flags);
    r := Response(flags / 0x400 % 2, flags / 0x100 % 2, flags / 0x10 % 16, Rcode(flags), U16(msg, 6), U16(msg, 8),
                  U16(msg, 10), msg[HEADER_LEN..start], records, msg[end..]);
    HeaderOf(msg);
    Cut(msg, HEADER_LEN, start, end);
  }

  /**
    The check accepts exactly the grammar. NOERROR and NXDOMAIN answers are accepted, the five
    error codes are reported, in full or as a bare header, and everything else is rejected.
   */
  lemma VerifyIsGrammar(id: nat, question: Bytes, msg: Bytes, rcode: nat)
    requires id < 0x10000
    ensures Verify(id, question, msg) == Accepted
       <==> IsAnswer(id, question, msg, 0) || IsAnswer(id, question, msg, 3)
    ensures Verify(id, question, msg) == ServerError(rcode)
       <==> rcode in {1, 2, 4, 5, 6} && (IsAnswer(id, question, msg, rcode) || IsBareError(id, msg, rcode))
  {
    hide Verify, IsAnswer, IsBareError, VerdictOf;
    if Verify(id, question, msg) != Rejected {
      var c := VerifiedIsGrammar(id, question, msg);
      VerdictCodes(c);
    }
    forall c | IsAnswer(id, question, msg, c)
      ensures Verify(id, question, msg) == VerdictOf(c)
    {
      AnswerVerifies(id, question, msg, c);
    }
    if IsBareError(id, msg, rcode) {
      BareErrorVerifies(id, question, msg, rcode);
    }
    VerdictCodes(rcode);
    VerdictCodes(0);
    VerdictCodes(3);
  }

  lemma VerdictCodes(c: nat)
    ensures VerdictOf(c) == Accepted <==> c in {0, 3}
    ensures VerdictOf(c) == ServerError(c) <==> c in {1, 2, 4, 5, 6}
    ensures VerdictOf(c).ServerError? ==> VerdictOf(c).rcode == c
  {
  }

  lemma VerifiedIsGrammar(id: nat, question: Bytes, msg: Bytes) returns (rcode: nat)
    requires id < 0x10000 && Verify(id, question, msg) != Rejected
    ensures Verify(id, question, msg) == VerdictOf(rcode)
    ensures IsAnswer(id, question, msg, rcode) || (rcode in {1, 4} && IsBareError(id, msg, rcode))
  {
    hide RecordsEnd, EncodeRecords, FoldEqual, ResponseFlags, Encode, Answers, Header, FlagWord, U16;
    rcode := Rcode(U16(msg, 2));
    if !Questionless(msg) {
      var r := VerifiedIsAnswer(id, question, msg);
      assert IsAnswer(id, question, msg, r.rcode);
      rcode := r.rcode;
    } else {
      BareHeader(id, question, msg);
    }
  }

  lemma BareHeader(id: nat, question: Bytes, msg: Bytes)
    requires id < 0x10000 && Verify(id, question, msg) != Rejected && Questionless(msg)
    ensures IsBareError(id, msg, Rcode(U16(msg, 2)))
  {
    hide RecordsEnd, FoldEqual, FlagWord, ResponseFlags;
    HeaderOf(msg);
    assert msg[..HEADER_LEN] == msg;
    FlagsAreWords(U16(msg, 2));
  }

  lemma AnswerVerifies(id: nat, question: Bytes, msg: Bytes, rcode: nat)
    requires id < 0x10000 && IsAnswer(id, question, msg, rcode)
    ensures Verify(id, question, msg) == VerdictOf(rcode)
  {
    hide Encode, Verify, FoldEqual, ValidRecords;
    var r: Response :| Answers(r, question) && r.rcode == rcode && msg == Encode(id, r);
    AnswersVerify(id, question, r);
  }

  lemma BareErrorVerifies(id: nat, question: Bytes, msg: Bytes, rcode: nat)
    requires id < 0x10000 && IsBareError(id, msg, rcode)
    ensures Verify(id, question, msg) == ServerError(rcode)
  {
    var aa, rd, low :| FlagBits(aa, rd, low, rcode) && msg == Header(id, FlagWord(aa, rd, low, rcode), 0, 0, 0, 0);
    WordsAreFlags(aa, rd, low, rcode);
  }

  /**
    Folding case never moves a label boundary: lengths are below the letters and pointers
    above them, so an echo that differs only in case is framed like the question.
   */
  lemma {:induction false} FoldKeepsFraming(a: Bytes, b: Bytes, offset: nat)
    requires FoldEqual(a, b)
    ensures SkipName(a, offset) == SkipName(b, offset)
    decreases |a| - offset
  {
    if offset < |a| {
      assert Lower(a[offset]) == Lower(b[offset]);
      if 0 < a[offset] < 64 && offset + 1 + a[offset] <= |a| {
        FoldKeepsFraming(a, b, offset + 1 + a[offset]);
      }
    }
  }

  /** So the echo of a question asks for the same labels up to case, with exactly its type and class. */
  lemma EchoAsksTheSame(name: Bytes, echo: Bytes)
    requires Question(name).Some? && FoldEqual(echo, Question(name).value)
    ensures var q := Question(name).value;
            && SkipName(echo, 0) == Some(|q| - 4)
            && echo[|q| - 4..] == [0, 1, 0, 1]
  {
    var q := Question(name).value;
    FoldKeepsFraming(echo, q, 0);
    QuestionFramed(q, 0, name);
    assert forall k :: |q| - 4 <= k < |q| ==> echo[k] == q[k];
  }

  /** Without trailing bytes, no strict prefix of a verified response verifies. */
  lemma PrefixesAreRejected(id: nat, question: Bytes, msg: Bytes, k: nat)
    requires Verify(id, question, msg) != Rejected && k < |msg|
    requires !Questionless(msg) ==> RecordsEnd(question, msg) == Some(|msg|)
    ensures Verify(id, question, msg[..k]) == Rejected
  {
    var part := msg[..k];
    if k >= HEADER_LEN + |question| && !Questionless(msg) {
      assert RecordCount(part) == RecordCount(msg);
      if RecordsEnd(question, part).Some? {
        SkipRecordsInPrefix(msg, k, HEADER_LEN + |question|, RecordCount(msg));
      }
    }
  }

  /** A verified response is as long as its records need, however many its header declares. */
  lemma VerifiedIsLongEnough(id: nat, question: Bytes, msg: Bytes)
    requires Verify(id, question, msg) != Rejected
    ensures Questionless(msg) || HEADER_LEN + |question| + 11 * RecordCount(msg) <= |msg|
  {
    if RecordCount(msg) > 0 {
      assert RecordsEnd(question, msg).Some? || Questionless(msg);
    }
  }

  /** A response verifies only for the ID it carries; under another ID it verifies just the same. */
  lemma VerifyUnderNewID(id: nat, newID: nat, question: Bytes, msg: Bytes)
    requires id < 0x10000 && newID < 0x10000 && Verify(id, question, msg) != Rejected
    ensures Verify(newID, question, Put16(newID) + msg[2..]) == Verify(id, question, msg)
    ensures newID != id ==> Verify(newID, question, msg) == Rejected
  {
    var moved := Put16(newID) + msg[2..];
    assert forall k :: 2 <= k < |msg| ==> moved[k] == msg[k];
    hide FoldEqual, SkipRecords, EncodeRecords, ValidRecords, Header;
    if !Questionless(msg) {
      var r := VerifiedIsAnswer(id, question, msg);
      EncodedMoves(id, newID, question, r);
      AnswersVerify(id, question, r);
      AnswersVerify(newID, question, r);
    }
  }

  lemma EncodedMoves(id: nat, newID: nat, question: Bytes, r: Response)
    requires id < 0x10000 && newID < 0x10000 && Answers(r, question)
    ensures Put16(newID) + Encode(id, r)[2..] == Encode(newID, r)
  {
    hide EncodeRecords, ValidRecords, FoldEqual, FlagWord;
    WordsAreFlags(r.aa, r.rd, r.low, r.rcode);
    HeaderMoves(id, newID, r);
    DropTwo(Header(id, r.Flags(), 1, r.answers, r.authority, r.additional), r.echo, EncodeRecords(r.records),
            r.trailing);
  }

  lemma HeaderMoves(id: nat, newID: nat, r: Response)
    requires id < 0x10000 && newID < 0x10000
    requires r.Flags() < 0x10000 && r.answers < 0x10000 && r.authority < 0x10000 && r.additional < 0x10000
    ensures Put16(newID) + Header(id, r.Flags(), 1, r.answers, r.authority, r.additional)[2..]
         == Header(newID, r.Flags(), 1, r.answers, r.authority, r.additional)
  {
  }

  lemma DropTwo(a: Bytes, b: Bytes, c: Bytes, d: Bytes)
    requires |a| >= 2
    ensures (a + b + c + d)[2..] == a[2..] + b + c + d
  {
  }
}
