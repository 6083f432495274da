/** DNS names, questions and records on the wire: sections 3.1 and 4.1.1 to 4.1.4 of RFC 1035. */
module DnsWire {
  import opened Wrappers

  // The functions follow the code's offsets; the grammar is stated as an encoder.

  type Byte = x: int | 0 <= x < 256

  type Bytes = seq<Byte>

  const HEADER_LEN: nat := 12

  function U16(msg: Bytes, at: nat): (v: nat)
    requires at + 2 <= |msg|
    ensures v < 0x10000
  {
    msg[at] as int * 256 + msg[at + 1]
  }

  function Put16(v: nat): Bytes
    requires v < 0x10000
  {
    [v / 256, v % 256]
  }

  lemma Put16OfU16(msg: Bytes, at: nat)
    requires at + 2 <= |msg|
    ensures Put16(U16(msg, at)) == msg[at..at + 2]
  {
  }

  // ---------------------------------------------------------------- names and questions

  const DOT: Byte := 46

  function TrimRoot(name: Bytes): Bytes {
    if name != [] && name[|name| - 1] == DOT then name[..|name| - 1] else name
  }

  /** strings.Split at every dot: always at least one label. */
  function Split(name: Bytes): (labels: seq<Bytes>)
    ensures labels != []
  {
    if name == [] then [[]]
    else if name[0] == DOT then [[]] + Split(name[1..])
    else
      var rest := Split(name[1..]);
      [[name[0]] + rest[0]] + rest[1..]
  }

  function JoinDots(labels: seq<Bytes>): Bytes
    requires labels != []
  {
    if |labels| == 1 then labels[0] else labels[0] + [46] + JoinDots(labels[1..])
  }

  lemma {:induction false} JoinOfSplit(name: Bytes)
    ensures JoinDots(Split(name)) == name
  {
    if name != [] {
      JoinOfSplit(name[1..]);
      var rest := Split(name[1..]);
      if name[0] == DOT {
        assert ([[]] + rest)[1..] == rest;
        assert JoinDots([[]] + rest) == [] + [DOT] + JoinDots(rest);
      } else {
        var first := [name[0]] + rest[0];
        assert ([first] + rest[1..])[1..] == rest[1..];
        if |rest| > 1 {
          assert JoinDots([first] + rest[1..]) == first + [DOT] + JoinDots(rest[1..]);
          assert [name[0]] + JoinDots(rest) == first + [DOT] + JoinDots(rest[1..]);
        }
      }
    }
  }

  predicate UsableLabel(piece: Bytes) { 1 <= |piece| <= 63 }

  ghost predicate UsableLabels(labels: seq<Bytes>) {
    forall k :: 0 <= k < |labels| ==> UsableLabel(labels[k])
  }

  function EncodeLabel(piece: Bytes): Bytes
    requires UsableLabel(piece)
  {
    [|piece| as Byte] + piece
  }

  function EncodeLabels(labels: seq<Bytes>): Bytes
    requires UsableLabels(labels)
  {
    if labels == [] then [] else EncodeLabel(labels[0]) + EncodeLabels(labels[1..])
  }

  lemma {:induction false} EncodeLabelsAppend(labels: seq<Bytes>, piece: Bytes)
    requires UsableLabels(labels) && UsableLabel(piece)
    ensures EncodeLabels(labels + [piece]) == EncodeLabels(labels) + EncodeLabel(piece)
  {
    if labels == [] {
      assert [piece][1..] == [];
      assert EncodeLabels([piece]) == EncodeLabel(piece) + EncodeLabels([]);
    } else {
      assert (labels + [piece])[1..] == labels[1..] + [piece];
      EncodeLabelsAppend(labels[1..], piece);
    }
  }

  /** QTYPE A, QCLASS IN. */
  const TYPE_A_CLASS_IN: Bytes := [0, 1, 0, 1]

  ghost predicate UsableName(name: Bytes) {
    var labels := Split(TrimRoot(name));
    UsableLabels(labels) && |EncodeLabels(labels)| + 1 <= 255
  }

  ghost function Question(name: Bytes): Option<Bytes> {
    if UsableName(name) then Some(EncodeLabels(Split(TrimRoot(name))) + [0] + TYPE_A_CLASS_IN) else None
  }

  method DnsQuestion(name: Bytes) returns (question: Option<Bytes>)
    ensures question == Question(name)
  {
    var labels := Split(TrimRoot(name));
    var out: Bytes := [];
    for i := 0 to |labels|
      invariant UsableLabels(labels[..i])
      invariant out == EncodeLabels(labels[..i])
    {
      var piece := labels[i];
      if |piece| == 0 || |piece| > 63 {
        assert !UsableLabel(labels[i]);
        return None;
      }
      assert labels[..i + 1] == labels[..i] + [piece];
      EncodeLabelsAppend(labels[..i], piece);
      out := out + [|piece|];
      out := out + piece;
      assert out == EncodeLabels(labels[..i]) + EncodeLabel(piece);
    }
    assert labels[..|labels|] == labels;
    out := out + [0];
    if |out| > 255 {
      return None;
    }
    return Some(out + TYPE_A_CLASS_IN);
  }

  lemma {:induction false} EncodedLength(labels: seq<Bytes>)
    requires UsableLabels(labels) && labels != []
    ensures |EncodeLabels(labels)| == |JoinDots(labels)| + 1
  {
    if |labels| > 1 {
      EncodedLength(labels[1..]);
    } else {
      assert labels[1..] == [];
    }
  }

  /** A name can be asked about exactly when each label has 1 to 63 bytes and all, with their dots, at most 253. */
  lemma QuestionExactlyWhen(name: Bytes)
    ensures Question(name).Some? <==>
      |TrimRoot(name)| <= 253 && forall piece :: piece in Split(TrimRoot(name)) ==> 1 <= |piece| <= 63
    ensures Question(name).Some? ==> |Question(name).value| == |TrimRoot(name)| + 6
    ensures TrimRoot(name) == if name != [] && name[|name| - 1] == 46 then name[..|name| - 1] else name
  {
    var labels := Split(TrimRoot(name));
    JoinOfSplit(TrimRoot(name));
    assert (forall piece :: piece in labels ==> 1 <= |piece| <= 63) <==> UsableLabels(labels);
    if UsableLabels(labels) {
      EncodedLength(labels);
    }
  }

  // ---------------------------------------------------------------- skipping a name

  function SkipName(msg: Bytes, offset: nat): (end: Option<nat>)
    ensures end.Some? ==> offset < end.value <= |msg|
    decreases |msg| - offset
  {
    if offset >= |msg| then None
    else
      var length := msg[offset];
      if length >= 0xc0 then (if offset + 1 >= |msg| then None else Some(offset + 2))
      else if length == 0 then Some(offset + 1)
      else if length > 63 then None
      else if offset + 1 + length > |msg| then None
      else SkipName(msg, offset + 1 + length)
  }

  method SkipDNSName(msg: Bytes, start: nat) returns (end: Option<nat>)
    ensures end == SkipName(msg, start)
  {
    var offset := start;
    while true
      invariant SkipName(msg, start) == SkipName(msg, offset)
      decreases |msg| - offset
    {
      if offset >= |msg| {
        return None;
      }
      var length := msg[offset];
      if length >= 0xc0 {
        if offset + 1 >= |msg| {
          return None;
        }
        return Some(offset + 2);
      }
      if length == 0 {
        return Some(offset + 1);
      }
      if length > 63 {
        return None;
      }
      offset := offset + 1 + length;
      if offset > |msg| {
        return None;
      }
    }
  }

  datatype NameEnd = Root | Pointer(hi: Byte, lo: Byte)

  /** A possibly compressed name: labels, then the root or a pointer. */
  datatype WireName = WireName(labels: seq<Bytes>, end: NameEnd)

  ghost predicate ValidName(w: WireName) {
    UsableLabels(w.labels) && (w.end.Pointer? ==> w.end.hi >= 0xc0)
  }

  function EncodeEnd(end: NameEnd): Bytes {
    match end
    case Root => [0]
    case Pointer(hi, lo) => [hi, lo]
  }

  function EncodeName(w: WireName): Bytes
    requires ValidName(w)
  {
    EncodeLabels(w.labels) + EncodeEnd(w.end)
  }

  /** The bytes of msg from offset start with the bytes s. */
  predicate At(msg: Bytes, offset: nat, s: Bytes) {
    offset + |s| <= |msg| && msg[offset..offset + |s|] == s
  }

  lemma AtConcat(msg: Bytes, offset: nat, a: Bytes, b: Bytes)
    ensures At(msg, offset, a + b) <==> At(msg, offset, a) && At(msg, offset + |a|, b)
  {
    if At(msg, offset, a + b) {
      assert a == msg[offset..offset + |a + b|][..|a|];
      assert b == msg[offset..offset + |a + b|][|a|..];
    }
    if At(msg, offset, a) && At(msg, offset + |a|, b) {
      assert msg[offset..offset + |a + b|] == msg[offset..offset + |a|] + msg[offset + |a|..offset + |a| + |b|];
    }
  }

  lemma EncodeNameStep(first: Bytes, rest: WireName)
    requires UsableLabel(first) && ValidName(rest)
    ensures var w := WireName([first] + rest.labels, rest.end);
      ValidName(w) && EncodeName(w) == EncodeLabel(first) + EncodeName(rest)
  {
    var w := WireName([first] + rest.labels, rest.end);
    assert w.labels[1..] == rest.labels;
    assert EncodeLabels(w.labels) == EncodeLabel(first) + EncodeLabels(rest.labels);
  }

  /** The bytes of a label are its length and itself. */
  lemma LabelAt(msg: Bytes, offset: nat, first: Bytes)
    requires UsableLabel(first)
    ensures At(msg, offset, EncodeLabel(first))
       <==> offset + 1 + |first| <= |msg| && msg[offset] == |first| && msg[offset + 1..offset + 1 + |first|] == first
  {
    if offset + 1 + |first| <= |msg| {
      assert msg[offset..offset + 1 + |first|] == [msg[offset]] + msg[offset + 1..offset + 1 + |first|];
      assert EncodeLabel(first)[0] == |first| && EncodeLabel(first)[1..] == first;
      assert ([msg[offset]] + msg[offset + 1..offset + 1 + |first|])[1..] == msg[offset + 1..offset + 1 + |first|];
    }
  }

  lemma EndAt(msg: Bytes, offset: nat, w: WireName)
    requires ValidName(w) && w.labels == []
    ensures EncodeName(w) == EncodeEnd(w.end)
    ensures At(msg, offset, EncodeName(w)) <==>
      match w.end
      case Root => offset < |msg| && msg[offset] == 0
      case Pointer(hi, lo) => offset + 1 < |msg| && msg[offset] == hi && msg[offset + 1] == lo
  {
    if offset < |msg| {
      assert msg[offset..offset + 1] == [msg[offset]];
    }
    if offset + 1 < |msg| {
      assert msg[offset..offset + 2] == [msg[offset], msg[offset + 1]];
    }
  }

  lemma {:induction false} SkipsEncodedName(msg: Bytes, offset: nat, w: WireName)
    requires ValidName(w) && At(msg, offset, EncodeName(w))
    ensures SkipName(msg, offset) == Some(offset + |EncodeName(w)|)
    decreases |w.labels|
  {
    hide At, EncodeName;
    if w.labels == [] {
      EndAt(msg, offset, w);
    } else {
      var first, rest := w.labels[0], WireName(w.labels[1..], w.end);
      EncodeNameStep(first, rest);
      assert w == WireName([first] + rest.labels, rest.end);
      AtConcat(msg, offset, EncodeLabel(first), EncodeName(rest));
      LabelAt(msg, offset, first);
      SkipsEncodedName(msg, offset + |EncodeLabel(first)|, rest);
    }
  }

  lemma {:induction false} SkippedIsName(msg: Bytes, offset: nat) returns (w: WireName)
    requires SkipName(msg, offset).Some?
    ensures ValidName(w) && At(msg, offset, EncodeName(w)) && SkipName(msg, offset).value == offset + |EncodeName(w)|
    decreases |msg| - offset
  {
    hide At, EncodeName;
    var length := msg[offset];
    if length >= 0xc0 {
      w := WireName([], Pointer(length, msg[offset + 1]));
      EndAt(msg, offset, w);
    } else if length == 0 {
      w := WireName([], Root);
      EndAt(msg, offset, w);
    } else {
      var rest := SkippedIsName(msg, offset + 1 + length);
      var first := msg[offset + 1..offset + 1 + length];
      w := WireName([first] + rest.labels, rest.end);
      EncodeNameStep(first, rest);
      LabelAt(msg, offset, first);
      AtConcat(msg, offset, EncodeLabel(first), EncodeName(rest));
    }
  }

  /** A skip succeeds exactly on an encoded name, and stops exactly at its end. */
  lemma SkipNameGrammar(msg: Bytes, offset: nat, end: nat)
    ensures SkipName(msg, offset) == Some(end)
       <==> exists w :: ValidName(w) && At(msg, offset, EncodeName(w)) && end == offset + |EncodeName(w)|
  {
    if SkipName(msg, offset) == Some(end) {
      var w := SkippedIsName(msg, offset);
    }
    if w :| ValidName(w) && At(msg, offset, EncodeName(w)) && end == offset + |EncodeName(w)| {
      SkipsEncodedName(msg, offset, w);
    }
  }

  /** What a skip finds in a prefix it finds in the whole, at the same offset. */
  lemma {:induction false} SkipNameInPrefix(msg: Bytes, k: nat, offset: nat)
    requires k <= |msg| && SkipName(msg[..k], offset).Some?
    ensures SkipName(msg, offset) == SkipName(msg[..k], offset)
    decreases |msg| - offset
  {
    var length := msg[offset];
    if 0 < length < 64 {
      SkipNameInPrefix(msg, k, offset + 1 + length);
    }
  }

  // ---------------------------------------------------------------- resource records

  /** Name, TYPE/CLASS/TTL, RDLENGTH and RDATA. */
  datatype Record = Record(name: WireName, fixed: Bytes, rdata: Bytes)

  ghost predicate ValidRecord(r: Record) {
    ValidName(r.name) && |r.fixed| == 8 && |r.rdata| < 0x10000
  }

  function EncodeRecord(r: Record): Bytes
    requires ValidRecord(r)
  {
    EncodeName(r.name) + EncodeTail(r)
  }

  function SkipRecord(msg: Bytes, offset: nat): (end: Option<nat>)
    ensures end.Some? ==> offset + 11 <= end.value <= |msg|
  {
    match SkipName(msg, offset)
    case None => None
    case Some(at) =>
      if at + 10 > |msg| then None
      else if at + 10 + U16(msg, at + 8) > |msg| then None
      else Some(at + 10 + U16(msg, at + 8))
  }

  method SkipDNSResourceRecord(msg: Bytes, start: nat) returns (end: Option<nat>)
    ensures end == SkipRecord(msg, start)
  {
    var name := SkipDNSName(msg, start);
    if name.None? {
      return None;
    }
    var offset := name.value;
    if offset + 10 > |msg| {
      return None;
    }
    var rdlength := U16(msg, offset + 8);
    offset := offset + 10;
    if offset + rdlength > |msg| {
      return None;
    }
    return Some(offset + rdlength);
  }

  /** What follows a record's name. */
  function EncodeTail(r: Record): (tail: Bytes)
    requires |r.fixed| == 8 && |r.rdata| < 0x10000
    ensures |tail| == 10 + |r.rdata|
  {
    r.fixed + Put16(|r.rdata|) + r.rdata
  }

  lemma TailAt(msg: Bytes, at: nat, r: Record)
    requires |r.fixed| == 8 && |r.rdata| < 0x10000
    ensures At(msg, at, EncodeTail(r)) <==>
      at + 10 + |r.rdata| <= |msg| && msg[at..at + 8] == r.fixed && U16(msg, at + 8) == |r.rdata|
      && msg[at + 10..at + 10 + |r.rdata|] == r.rdata
  {
    AtConcat(msg, at, r.fixed + Put16(|r.rdata|), r.rdata);
    AtConcat(msg, at, r.fixed, Put16(|r.rdata|));
    if at + 10 <= |msg| {
      Put16OfU16(msg, at + 8);
      assert Put16(|r.rdata|) == msg[at + 8..at + 10] <==> U16(msg, at + 8) == |r.rdata| by {
        assert msg[at + 8..at + 10] == [msg[at + 8], msg[at + 9]];
      }
    }
  }

  lemma SkipsEncodedRecord(msg: Bytes, offset: nat, r: Record)
    requires ValidRecord(r) && At(msg, offset, EncodeRecord(r))
    ensures SkipRecord(msg, offset) == Some(offset + |EncodeRecord(r)|)
  {
    hide At, EncodeName, SkipName, EncodeTail, Put16, U16;
    AtConcat(msg, offset, EncodeName(r.name), EncodeTail(r));
    SkipsEncodedName(msg, offset, r.name);
    TailAt(msg, offset + |EncodeName(r.name)|, r);
  }

  lemma SkippedIsRecord(msg: Bytes, offset: nat) returns (r: Record)
    requires SkipRecord(msg, offset).Some?
    ensures ValidRecord(r) && At(msg, offset, EncodeRecord(r))
            && SkipRecord(msg, offset).value == offset + |EncodeRecord(r)|
  {
    hide At, EncodeName, SkipName, EncodeTail, Put16, U16;
    var name := SkippedIsName(msg, offset);
    var at := offset + |EncodeName(name)|;
    var size := U16(msg, at + 8);
    r := Record(name, msg[at..at + 8], msg[at + 10..at + 10 + size]);
    TailAt(msg, at, r);
    AtConcat(msg, offset, EncodeName(name), EncodeTail(r));
  }

  ghost predicate ValidRecords(rs: seq<Record>) {
    forall k :: 0 <= k < |rs| ==> ValidRecord(rs[k])
  }

  function EncodeRecords(rs: seq<Record>): Bytes
    requires ValidRecords(rs)
  {
    if rs == [] then [] else EncodeRecord(rs[0]) + EncodeRecords(rs[1..])
  }

  /** The code's loop: skip `count` records one after the other. */
  function SkipRecords(msg: Bytes, offset: nat, count: nat): (end: Option<nat>)
    ensures end.Some? ==> offset + 11 * count <= end.value
    ensures end.Some? && count > 0 ==> end.value <= |msg|
    decreases count
  {
    if count == 0 then Some(offset)
    else match SkipRecord(msg, offset)
      case None => None
      case Some(next) => SkipRecords(msg, next, count - 1)
  }

  lemma EncodeRecordsStep(first: Record, rest: seq<Record>)
    requires ValidRecord(first) && ValidRecords(rest)
    ensures ValidRecords([first] + rest) && EncodeRecords([first] + rest) == EncodeRecord(first) + EncodeRecords(rest)
  {
    hide ValidRecord, EncodeRecord;
    assert ([first] + rest)[1..] == rest;
  }

  lemma {:induction false} SkipsEncodedRecords(msg: Bytes, offset: nat, rs: seq<Record>)
    requires ValidRecords(rs) && At(msg, offset, EncodeRecords(rs))
    ensures SkipRecords(msg, offset, |rs|) == Some(offset + |EncodeRecords(rs)|)
    decreases |rs|
  {
    hide At, EncodeRecord, SkipRecord, ValidRecord;
    if rs != [] {
      var first, rest := rs[0], rs[1..];
      assert rs == [first] + rest;
      EncodeRecordsStep(first, rest);
      AtConcat(msg, offset, EncodeRecord(first), EncodeRecords(rest));
      SkipsEncodedRecord(msg, offset, first);
      SkipsEncodedRecords(msg, offset + |EncodeRecord(first)|, rest);
    }
  }

  lemma {:induction false} SkippedAreRecords(msg: Bytes, offset: nat, count: nat) returns (rs: seq<Record>)
    requires offset <= |msg| && SkipRecords(msg, offset, count).Some?
    ensures ValidRecords(rs) && |rs| == count && At(msg, offset, EncodeRecords(rs))
    ensures SkipRecords(msg, offset, count).value == offset + |EncodeRecords(rs)|
    decreases count
  {
    hide EncodeRecord, SkipRecord, ValidRecord;
    if count == 0 {
      rs := [];
      assert msg[offset..offset] == [];
    } else {
      var first := SkippedIsRecord(msg, offset);
      var rest := SkippedAreRecords(msg, offset + |EncodeRecord(first)|, count - 1);
      rs := [first] + rest;
      EncodeRecordsStep(first, rest);
      AtConcat(msg, offset, EncodeRecord(first), EncodeRecords(rest));
    }
  }

  lemma SkipRecordInPrefix(msg: Bytes, k: nat, offset: nat)
    requires k <= |msg| && SkipRecord(msg[..k], offset).Some?
    ensures SkipRecord(msg, offset) == SkipRecord(msg[..k], offset)
  {
    hide SkipName;
    SkipNameInPrefix(msg, k, offset);
  }

  lemma {:induction false} SkipRecordsInPrefix(msg: Bytes, k: nat, offset: nat, count: nat)
    requires k <= |msg| && SkipRecords(msg[..k], offset, count).Some?
    ensures SkipRecords(msg, offset, count) == SkipRecords(msg[..k], offset, count)
    decreases count
  {
    hide SkipRecord;
    if count > 0 {
      SkipRecordInPrefix(msg, k, offset);
      SkipRecordsInPrefix(msg, k, SkipRecord(msg, offset).value, count - 1);
    }
  }

  // ---------------------------------------------------------------- round trips

  lemma FirstLength(pieces: seq<Bytes>, s: Bytes)
    requires UsableLabels(pieces)
    ensures (EncodeLabels(pieces) + [0] + s)[0] == if pieces == [] then 0 else |pieces[0]|
  {
  }

  lemma {:induction false} LabelsUnique(a: seq<Bytes>, b: seq<Bytes>, s: Bytes, t: Bytes)
    requires UsableLabels(a) && UsableLabels(b)
    requires EncodeLabels(a) + [0] + s == EncodeLabels(b) + [0] + t
    ensures a == b
  {
    var wire := EncodeLabels(a) + [0] + s;
    FirstLength(a, s);
    FirstLength(b, t);
    if a != [] && b != [] {
      assert wire[1..1 + |a[0]|] == a[0] && wire[1..1 + |b[0]|] == b[0];
      assert wire[1 + |a[0]|..] == EncodeLabels(a[1..]) + [0] + s;
      assert wire[1 + |b[0]|..] == EncodeLabels(b[1..]) + [0] + t;
      LabelsUnique(a[1..], b[1..], s, t);
    }
  }

  /** The question determines the name it asks for, up to the root dot. */
  lemma QuestionsIdentifyNames(a: Bytes, b: Bytes)
    requires Question(a).Some? && Question(b).Some?
    ensures Question(a) == Question(b) <==> TrimRoot(a) == TrimRoot(b)
  {
    if Question(a) == Question(b) {
      LabelsUnique(Split(TrimRoot(a)), Split(TrimRoot(b)), TYPE_A_CLASS_IN, TYPE_A_CLASS_IN);
      JoinOfSplit(TrimRoot(a));
      JoinOfSplit(TrimRoot(b));
    }
  }

  /** Skipping an encoded question's name leaves exactly its type and class. */
  lemma QuestionFramed(msg: Bytes, offset: nat, name: Bytes)
    requires Question(name).Some? && At(msg, offset, Question(name).value)
    ensures SkipName(msg, offset) == Some(offset + |Question(name).value| - 4)
  {
    var w := WireName(Split(TrimRoot(name)), Root);
    assert Question(name).value == EncodeName(w) + TYPE_A_CLASS_IN;
    AtConcat(msg, offset, EncodeName(w), TYPE_A_CLASS_IN);
    SkipsEncodedName(msg, offset, w);
  }
}
