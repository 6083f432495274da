/**
  Watching the Go resolver's connections, and answering it again from what was heard. A
  stream carries one two-byte length prefix per message (section 4.2.2 of RFC 1035).
 */
module DnsConn {
  import opened Wrappers
  import opened DnsWire
  import opened DnsVerify

  datatype Asked = Asked(id: nat, question: Bytes)

  /** What one lookup heard back. */
  datatype Heard = Heard(answered: bool, failure: Option<nat>, verified: map<Bytes, Bytes>)

  const NOTHING_HEARD := Heard(false, None, map[])

  predicate Echoing(asked: Asked, msg: Bytes) {
    asked.question != [] && |msg| >= HEADER_LEN && U16(msg, 4) == 1
  }

  /** What one message proves about the question that was asked. */
  ghost function Proof(asked: Asked, msg: Bytes): Verdict {
    if Echoing(asked, msg) then Verify(asked.id, asked.question, msg) else Rejected
  }

  ghost function Observe(h: Heard, asked: Asked, msg: Bytes): Heard {
    match Proof(asked, msg)
    case Rejected => h
    case Accepted => Heard(true, h.failure, h.verified[asked.question := msg])
    case ServerError(c) =>
      Heard(true, if h.failure.None? || c < h.failure.value then Some(c) else h.failure, h.verified)
  }

  class DnsResponses {
    var answered: bool
    var failure: Option<nat>
    var verified: map<Bytes, Bytes>

    constructor ()
      ensures Value() == NOTHING_HEARD
    {
      answered, failure, verified := false, None, map[];
    }

    ghost function Value(): Heard
      reads this
    {
      Heard(answered, failure, verified)
    }
  }

  /** The one question a written message asks. */
  function AskedBy(packet: bool, p: Bytes): Option<Asked> {
    if !packet && (|p| < 2 || U16(p, 0) != |p| - 2) then None
    else
      var msg := if packet then p else p[2..];
      if |msg| < HEADER_LEN || U16(msg, 4) != 1 then None
      else match SkipName(msg, HEADER_LEN)
        case None => None
        case Some(end) => if end + 4 <= |msg| then Some(Asked(U16(msg, 0), msg[HEADER_LEN..end + 4])) else None
  }

  /** The bytes read so far hold exactly one framed message. */
  predicate Complete(read: Bytes) {
    |read| >= 2 && U16(read, 0) == |read| - 2
  }

  /** One stream read. */
  ghost function Feed(read: Bytes, h: Heard, asked: Asked, chunk: Bytes): (Bytes, Heard) {
    var all := read + chunk;
    if Complete(all) then ([], Observe(h, asked, all[2..])) else (all, h)
  }

  class ObservedDNSConn {
    const packet: bool
    var asked: Asked
    var read: Bytes
    const responses: DnsResponses

    constructor (packet: bool, responses: DnsResponses)
      ensures this.packet == packet && this.responses == responses && asked == Asked(0, []) && read == []
    {
      this.packet, this.responses, asked, read := packet, responses, Asked(0, []), [];
    }

    /** The wrapped connection accepted the first n bytes of p. */
    method Write(p: Bytes, n: nat)
      requires n <= |p|
      modifies this`asked
      ensures asked == if AskedBy(packet, p[..n]).Some? then AskedBy(packet, p[..n]).value else old(asked)
    {
      var msg := p[..n];
      if !packet {
        if |msg| < 2 || U16(msg, 0) != |msg| - 2 {
          return;
        }
        msg := msg[2..];
      }
      if |msg| >= HEADER_LEN && U16(msg, 4) == 1 {
        var end := SkipDNSName(msg, HEADER_LEN);
        if end.Some? && end.value + 4 <= |msg| {
          asked := Asked(U16(msg, 0), msg[HEADER_LEN..end.value + 4]);
        }
      }
    }

    /** The wrapped connection returned `chunk`. */
    method Read(chunk: Bytes)
      modifies this`read, responses
      ensures packet ==> responses.Value() == Observe(old(responses.Value()), asked, chunk) && read == old(read)
      ensures !packet ==> (read, responses.Value()) == Feed(old(read), old(responses.Value()), asked, chunk)
    {
      if packet {
        ObserveMessage(chunk);
      } else {
        read := read + chunk;
        if |read| >= 2 && |read| - 2 == U16(read, 0) {
          ObserveMessage(read[2..]);
          read := [];
        }
      }
    }

    method ObserveMessage(msg: Bytes)
      modifies responses
      ensures responses.Value() == Observe(old(responses.Value()), asked, msg)
    {
      if |asked.question| == 0 || |msg| < HEADER_LEN || U16(msg, 4) != 1 {
        return;
      }
      var verdict := VerifyResponse(asked.id, asked.question, msg);
      if verdict.Rejected? {
        return;
      }
      responses.answered := true;
      if verdict.ServerError? && (responses.failure.None? || verdict.rcode < responses.failure.value) {
        responses.failure := Some(verdict.rcode);
      }
      if verdict.Accepted? {
        responses.verified := responses.verified[asked.question := msg];
      }
    }
  }

  // ---------------------------------------------------------------- the observer

  /** The observer recovers the ID and the question of every query that can be built, in both framings. */
  lemma ObserverRecoversQuery(name: Bytes, id: nat)
    requires id < 0x10000 && QueryFor(name, id).Some?
    ensures var q := QueryFor(name, id).value;
            && |q.wire| < 0x10000
            && AskedBy(true, q.wire) == Some(Asked(id, q.question))
            && AskedBy(false, Put16(|q.wire|) + q.wire) == Some(Asked(id, q.question))
  {
    var q := QueryFor(name, id).value;
    assert |q.wire| < 0x10000;
    hide SkipName, Split, EncodeLabels, UsableName;
    var header := Header(id, FLAG_RD, 1, 0, 0, 0);
    assert q.wire == header + q.question;
    assert forall k :: 0 <= k < HEADER_LEN ==> q.wire[k] == header[k];
    QuestionFramed(q.wire, HEADER_LEN, name);
    var framed := Put16(|q.wire|) + q.wire;
    assert framed[2..] == q.wire;
    assert U16(framed, 0) == |q.wire|;
  }

  function Concat(chunks: seq<Bytes>): Bytes {
    if chunks == [] then [] else Concat(chunks[..|chunks| - 1]) + chunks[|chunks| - 1]
  }

  /** A stream read as these chunks, from an empty buffer. */
  ghost function FeedAll(h: Heard, asked: Asked, chunks: seq<Bytes>): (Bytes, Heard) {
    if chunks == [] then ([], h)
    else
      var (read, before) := FeedAll(h, asked, chunks[..|chunks| - 1]);
      Feed(read, before, asked, chunks[|chunks| - 1])
  }

  function Frame(msg: Bytes): Bytes
    requires |msg| < 0x10000
  {
    Put16(|msg|) + msg
  }

  lemma CompleteExactlyAtEnd(msg: Bytes, k: nat)
    requires |msg| < 0x10000 && k <= |Frame(msg)|
    ensures Complete(Frame(msg)[..k]) <==> k == |Frame(msg)|
  {
    var part := Frame(msg)[..k];
    if k >= 2 {
      assert part[0] == Frame(msg)[0] && part[1] == Frame(msg)[1];
      assert U16(part, 0) == |msg|;
    }
  }

  lemma {:induction false} ConcatGrows(chunks: seq<Bytes>, k: nat)
    requires k <= |chunks|
    ensures |Concat(chunks[..k])| <= |Concat(chunks)| && Concat(chunks)[..|Concat(chunks[..k])|] == Concat(chunks[..k])
  {
    if k == |chunks| {
      assert chunks[..k] == chunks;
    } else {
      var shorter := chunks[..|chunks| - 1];
      assert shorter[..k] == chunks[..k];
      ConcatGrows(shorter, k);
    }
  }

  /**
    However one framed response is cut into reads: before the last byte nothing is observed,
    and from then on that message has been observed exactly once.
   */
  lemma {:induction false} FramedOnceNeverEarly(h: Heard, asked: Asked, msg: Bytes, chunks: seq<Bytes>)
    requires |msg| < 0x10000 && Concat(chunks) <= Frame(msg)
    ensures Concat(chunks) != Frame(msg) ==> FeedAll(h, asked, chunks) == (Concat(chunks), h)
    ensures Concat(chunks) == Frame(msg) ==> FeedAll(h, asked, chunks) == ([], Observe(h, asked, msg))
  {
    if chunks != [] {
      var shorter, last := chunks[..|chunks| - 1], chunks[|chunks| - 1];
      var soFar := Concat(shorter);
      assert soFar <= Frame(msg);
      FramedOnceNeverEarly(h, asked, msg, shorter);
      if soFar == Frame(msg) {
        assert last == [];
      } else {
        assert soFar + last == Frame(msg)[..|soFar + last|];
        CompleteExactlyAtEnd(msg, |soFar + last|);
        assert Frame(msg)[2..] == msg;
      }
    }
  }

  /**
    The observer looks only at read boundaries: if bytes follow the message, it observes the
    message exactly when some read ends where the message does.
   */
  lemma {:induction false} StraddlingReadsMissTheMessage(h: Heard, asked: Asked, msg: Bytes, chunks: seq<Bytes>)
    requires |msg| < 0x10000 && Frame(msg) <= Concat(chunks)
    requires forall k :: 0 <= k <= |chunks| ==> Concat(chunks[..k]) != Frame(msg)
    ensures FeedAll(h, asked, chunks) == (Concat(chunks), h)
    decreases |chunks|
  {
    var shorter, all := chunks[..|chunks| - 1], Concat(chunks);
    assert chunks[..|chunks|] == chunks;
    forall k | 0 <= k <= |shorter|
      ensures Concat(shorter[..k]) != Frame(msg)
    {
      assert shorter[..k] == chunks[..k];
    }
    ConcatGrows(chunks, |chunks| - 1);
    if Frame(msg) <= Concat(shorter) {
      StraddlingReadsMissTheMessage(h, asked, msg, shorter);
    } else {
      assert Concat(shorter) == Frame(msg)[..|Concat(shorter)|];
      assert shorter[..|shorter|] == shorter;
      FramedOnceNeverEarly(h, asked, msg, shorter);
    }
    assert U16(all, 0) == |msg| by {
      assert all[0] == Frame(msg)[0] && all[1] == Frame(msg)[1];
    }
    assert |all| > |Frame(msg)|;
  }

  datatype Observation = Observation(asked: Asked, msg: Bytes)

  ghost function ObserveAll(os: seq<Observation>): Heard {
    if os == [] then NOTHING_HEARD
    else Observe(ObserveAll(os[..|os| - 1]), os[|os| - 1].asked, os[|os| - 1].msg)
  }

  ghost function ProofOf(o: Observation): Verdict { Proof(o.asked, o.msg) }

  /** No error reply and nothing kept, or the least code of all error replies. */
  ghost predicate LeastCode(os: seq<Observation>, failure: Option<nat>) {
    match failure
    case None => forall o :: o in os ==> !ProofOf(o).ServerError?
    case Some(c) =>
      && (exists o :: o in os && ProofOf(o) == ServerError(c))
      && (forall o :: o in os && ProofOf(o).ServerError? ==> c <= ProofOf(o).rcode)
  }

  lemma LeastCodeStep(os: seq<Observation>, h: Heard, o: Observation)
    requires LeastCode(os, h.failure)
    ensures LeastCode(os + [o], Observe(h, o.asked, o.msg).failure)
  {
    hide Proof;
    assert o in os + [o];
    if h.failure.Some? {
      var e :| e in os && ProofOf(e) == ServerError(h.failure.value);
      assert e in os + [o];
    }
  }

  /**
    Whatever order the replies of concurrent lookups arrive in: the code kept is the least of
    all error replies, any verified reply counts as an answer, and a question is kept exactly
    when a reply completed it.
   */
  lemma {:induction false} KeptAcrossOrders(os: seq<Observation>)
    ensures LeastCode(os, ObserveAll(os).failure)
    ensures ObserveAll(os).answered <==> exists o :: o in os && ProofOf(o) != Rejected
    ensures forall question :: question in ObserveAll(os).verified
                          <==> exists o :: o in os && o.asked.question == question && ProofOf(o) == Accepted
  {
    hide Proof, LeastCode;
    if os == [] {
      NoCodes();
    } else {
      var shorter, last := os[..|os| - 1], os[|os| - 1];
      KeptAcrossOrders(shorter);
      LeastCodeStep(shorter, ObserveAll(shorter), last);
      assert os == shorter + [last];
      assert forall o :: o in os <==> o in shorter || o == last;
      assert ProofOf(last) == Proof(last.asked, last.msg);
    }
  }

  lemma NoCodes()
    ensures LeastCode([], None)
  {
  }

  /** Every kept response verifies, for the question it is kept under. */
  ghost predicate Trustworthy(verified: map<Bytes, Bytes>) {
    forall question :: question in verified ==>
      var msg := verified[question];
      |msg| >= HEADER_LEN && U16(msg, 4) == 1 && Verify(U16(msg, 0), question, msg) == Accepted
  }

  lemma {:induction false} HeardIsTrustworthy(os: seq<Observation>)
    ensures Trustworthy(ObserveAll(os).verified)
  {
    if os != [] {
      HeardIsTrustworthy(os[..|os| - 1]);
    }
  }

  // ---------------------------------------------------------------- the replay

  /** The question a length-prefixed query is looked up under. */
  function ReplayKey(p: Bytes): Option<Bytes> {
    if |p| < 2 + HEADER_LEN then None
    else match SkipName(p[2..], HEADER_LEN)
      case None => None
      case Some(end) => if end + 4 <= |p| - 2 then Some(p[2..][HEADER_LEN..end + 4]) else None
  }

  /** The kept response under the new query's ID. */
  function Readdressed(p: Bytes, response: Bytes): Bytes
    requires |p| >= 4 && |response| >= 2
  {
    p[2..4] + response[2..]
  }

  class ReplayDNSConn {
    const verified: map<Bytes, Bytes>
    var reply: Bytes

    constructor (verified: map<Bytes, Bytes>)
      requires Trustworthy(verified)
      ensures this.verified == verified && reply == []
    {
      this.verified, reply := verified, [];
    }

    method Write(p: Bytes) returns (accepted: bool)
      requires Trustworthy(verified)
      modifies this
      ensures accepted <==>
        ReplayKey(p).Some? && ReplayKey(p).value in verified && |verified[ReplayKey(p).value]| < 0x10000
      ensures accepted ==> reply == Frame(Readdressed(p, verified[ReplayKey(p).value]))
      ensures !accepted ==> reply == old(reply)
    {
      hide SkipName;
      if |p| < 2 + HEADER_LEN {
        return false;
      }
      var query := p[2..];
      var end := SkipDNSName(query, HEADER_LEN);
      if end.None? || end.value + 4 > |query| {
        return false;
      }
      var question := query[HEADER_LEN..end.value + 4];
      if question !in verified || |verified[question]| > 0xffff {
        return false;
      }
      var response := verified[question];
      reply := Put16(|response|);
      reply := reply + query[..2];
      reply := reply + response[2..];
      assert query[..2] == p[2..4];
      assert reply == Frame(Readdressed(p, response));
      return true;
    }

    /** Read into a buffer of `size` bytes; None is io.EOF. */
    method Read(size: nat) returns (chunk: Option<Bytes>)
      modifies this
      ensures old(reply) == [] ==> chunk == None && reply == []
      ensures old(reply) != [] ==>
        chunk.Some? && chunk.value + reply == old(reply) && |chunk.value| == Least(size, |old(reply)|)
    {
      if |reply| == 0 {
        return None;
      }
      var n := Least(size, |reply|);
      chunk := Some(reply[..n]);
      reply := reply[n..];
    }
  }

  function Least(a: nat, b: nat): nat { if a < b then a else b }

  /** Reads of these buffer sizes. */
  function Reads(reply: Bytes, sizes: seq<nat>): seq<Bytes> {
    if sizes == [] then [] else
      var n := Least(sizes[0], |reply|);
      [reply[..n]] + Reads(reply[n..], sizes[1..])
  }

  function Join(chunks: seq<Bytes>): Bytes {
    if chunks == [] then [] else chunks[0] + Join(chunks[1..])
  }

  function Total(sizes: seq<nat>): nat {
    if sizes == [] then 0 else sizes[0] + Total(sizes[1..])
  }

  /** Reads of any sizes concatenate to the front of the reply, and to all of it once there is room. */
  lemma {:induction false} ReadsConcatenate(reply: Bytes, sizes: seq<nat>)
    ensures Join(Reads(reply, sizes)) == reply[..Least(Total(sizes), |reply|)]
  {
    if sizes != [] {
      var n := Least(sizes[0], |reply|);
      ReadsConcatenate(reply[n..], sizes[1..]);
      assert Reads(reply, sizes)[1..] == Reads(reply[n..], sizes[1..]);
    }
  }

  /**
    A response recorded as verified, replayed for any later query with the same question and
    any ID, verifies under that query; the reply frames exactly the new ID and the kept tail.
   */
  lemma ReplayVerifies(os: seq<Observation>, p: Bytes)
    requires ReplayKey(p).Some? && ReplayKey(p).value in ObserveAll(os).verified
    ensures |ObserveAll(os).verified[ReplayKey(p).value]| >= HEADER_LEN
    ensures var kept := ObserveAll(os).verified[ReplayKey(p).value];
            var msg := Readdressed(p, kept);
            && U16(msg, 0) == U16(p, 2) && msg[2..] == kept[2..]
            && Proof(Asked(U16(p, 2), ReplayKey(p).value), msg) == Accepted
  {
    var question := ReplayKey(p).value;
    HeardIsTrustworthy(os);
    var kept := ObserveAll(os).verified[question];
    Put16OfU16(p, 2);
    VerifyUnderNewID(U16(kept, 0), U16(p, 2), question, kept);
    var msg := Readdressed(p, kept);
    assert msg[4] == kept[4] && msg[5] == kept[5];
  }

  /** A framed query built for a name is replayed under exactly the question it was observed with. */
  lemma ReplayKeysAgree(p: Bytes)
    requires AskedBy(false, p).Some?
    ensures ReplayKey(p) == Some(AskedBy(false, p).value.question)
  {
  }
}
