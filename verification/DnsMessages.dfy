/** Queries and responses as a standard resolver reads them: section 4.1 of RFC 1035, with the name
    compression of section 4.1.4, written without regard to either program. */
module DnsMessages {
  import opened Options
  import opened Dns
  import opened DnsLaws
  import opened ResponseLaws

  // ----- The standard reading -----

  datatype Header = Header(id: nat, response: bool, opcode: nat, authoritative: bool, truncated: bool,
                           recursionDesired: bool, recursionAvailable: bool, z: nat, rcode: nat)

  datatype Question = Question(name: seq<Bytes>, qtype: nat, qclass: nat)
  datatype Record = Record(name: seq<Bytes>, rtype: nat, rclass: nat, ttl: nat, rdata: Bytes)
  datatype Message = Message(header: Header, questions: seq<Question>, answers: seq<Record>,
                             authority: seq<Record>, additional: seq<Record>)

  /** What was read, and where the next field starts. */
  datatype Read<T> = Read(value: T, end: nat)

  function Octet2(data: Bytes, at: nat): nat
    requires at + 2 <= |data|
  {
    data[at] as int * 256 + data[at + 1] as int
  }

  /** Labels up to an empty one or a pointer to an earlier name. */
  function ReadName(data: Bytes, at: nat, start: nat): Option<Read<seq<Bytes>>>
    decreases start, |data| - at
  {
    if at >= |data| then None
    else if data[at] == 0 then Some(Read([], at + 1))
    else if data[at] >= 192 then
      if at + 2 > |data| || Octet2(data, at) - 0xC000 >= start then None
      else
        var target := Octet2(data, at) - 0xC000;
        match ReadName(data, target, target)
        case None => None
        case Some(name) => Some(Read(name.value, at + 2))
    else if data[at] > 63 || at + 1 + data[at] > |data| then None
    else
      match ReadName(data, at + 1 + data[at], start)
      case None => None
      case Some(rest) => Some(Read([data[at + 1..at + 1 + data[at]]] + rest.value, rest.end))
  }

  function ReadQuestion(data: Bytes, at: nat): Option<Read<Question>> {
    match ReadName(data, at, at)
    case None => None
    case Some(name) =>
      if name.end + 4 > |data| then None
      else Some(Read(Question(name.value, Octet2(data, name.end), Octet2(data, name.end + 2)), name.end + 4))
  }

  function ReadRecord(data: Bytes, at: nat): Option<Read<Record>> {
    match ReadName(data, at, at)
    case None => None
    case Some(name) =>
      var p := name.end;
      if p + 10 > |data| || p + 10 + Octet2(data, p + 8) > |data| then None
      else
        var length := Octet2(data, p + 8);
        Some(Read(Record(name.value, Octet2(data, p), Octet2(data, p + 2),
                         Octet2(data, p + 4) * 65536 + Octet2(data, p + 6), data[p + 10..p + 10 + length]),
                  p + 10 + length))
  }

  function ReadRecords(data: Bytes, at: nat, count: nat): Option<Read<seq<Record>>>
    decreases count
  {
    if count == 0 then Some(Read([], at))
    else
      match ReadRecord(data, at)
      case None => None
      case Some(first) =>
        match ReadRecords(data, first.end, count - 1)
        case None => None
        case Some(rest) => Some(Read([first.value] + rest.value, rest.end))
  }

  function ReadQuestions(data: Bytes, at: nat, count: nat): Option<Read<seq<Question>>>
    decreases count
  {
    if count == 0 then Some(Read([], at))
    else
      match ReadQuestion(data, at)
      case None => None
      case Some(first) =>
        match ReadQuestions(data, first.end, count - 1)
        case None => None
        case Some(rest) => Some(Read([first.value] + rest.value, rest.end))
  }

  predicate Bit(octet: Byte, weight: nat)
    requires weight > 0
  {
    octet / weight % 2 == 1
  }

  function ReadHeader(data: Bytes): Header
    requires |data| >= 12
  {
    Header(Octet2(data, 0), Bit(data[2], 128), data[2] / 8 % 16, Bit(data[2], 4), Bit(data[2], 2),
           Bit(data[2], 1), Bit(data[3], 128), data[3] / 16 % 8, data[3] % 16)
  }

  /** A whole message, with nothing after it. */
  function ReadMessage(data: Bytes): Option<Message> {
    if |data| < 12 then None
    else
      match ReadQuestions(data, 12, Octet2(data, 4))
      case None => None
      case Some(qs) =>
        match ReadRecords(data, qs.end, Octet2(data, 6))
        case None => None
        case Some(ans) =>
          match ReadRecords(data, ans.end, Octet2(data, 8))
          case None => None
          case Some(auth) =>
            match ReadRecords(data, auth.end, Octet2(data, 10))
            case None => None
            case Some(more) =>
              if more.end != |data| then None
              else Some(Message(ReadHeader(data), qs.value, ans.value, auth.value, more.value))
  }

  // ----- The answers -----

  /** One address record for each address: class IN, ten seconds to live. */
  function AddressRecords(name: seq<Bytes>, aton: Aton, ips: seq<string>): seq<Record>
    requires Accepted(aton, ips)
  {
    if ips == [] then []
    else [Record(name, 1, 1, 10, aton(ips[0]).value)] + AddressRecords(name, aton, ips[1..])
  }

  lemma {:induction false} AnswerIsRecord(data: Bytes, pos: nat, q: Quad, name: Read<seq<Bytes>>)
    requires Holds(data, pos, Answer(q)) && 12 < pos && ReadName(data, 12, 12) == Some(name)
    ensures ReadRecord(data, pos) == Some(Read(Record(name.value, 1, 1, 10, q), pos + 16))
  {
    HoldsExactly(data, pos, Answer(q));
    var got := data[pos..pos + 16];
    assert got == Answer(q);
    assert data[pos] == got[0] && data[pos + 1] == got[1] && data[pos + 2] == got[2] && data[pos + 3] == got[3];
    assert data[pos + 4] == got[4] && data[pos + 5] == got[5] && data[pos + 6] == got[6] && data[pos + 7] == got[7];
    assert data[pos + 8] == got[8] && data[pos + 9] == got[9] && data[pos + 10] == got[10] && data[pos + 11] == got[11];
    assert data[pos + 12..pos + 16] == got[12..] == q;
  }

  lemma FirstAnswer(data: Bytes, pos: nat, aton: Aton, ips: seq<string>)
    requires ips != [] && Accepted(aton, ips)
    requires Answers(aton, ips).Ok? && Holds(data, pos, Answers(aton, ips).value)
    ensures Answers(aton, ips[1..]).Ok? && Accepted(aton, ips[1..])
    ensures Holds(data, pos, Answer(aton(ips[0]).value)) && Holds(data, pos + 16, Answers(aton, ips[1..]).value)
  {
    HoldsParts(data, pos, Answer(aton(ips[0]).value), Answers(aton, ips[1..]).value);
  }

  lemma {:induction false} AnswersAreRecords(data: Bytes, pos: nat, aton: Aton, ips: seq<string>,
                                             name: Read<seq<Bytes>>)
    requires Accepted(aton, ips) && Answers(aton, ips).Ok? && Holds(data, pos, Answers(aton, ips).value)
    requires 12 < pos && ReadName(data, 12, 12) == Some(name)
    ensures ReadRecords(data, pos, |ips|)
         == Some(Read(AddressRecords(name.value, aton, ips), pos + 16 * |ips|))
    decreases |ips|
  {
    if ips != [] {
      var q := aton(ips[0]).value;
      FirstAnswer(data, pos, aton, ips);
      AnswerIsRecord(data, pos, q, name);
      AnswersAreRecords(data, pos + 16, aton, ips[1..], name);
      OneMoreRecord(data, pos, |ips|, Read(Record(name.value, 1, 1, 10, q), pos + 16),
                    Read(AddressRecords(name.value, aton, ips[1..]), pos + 16 * |ips|));
    }
  }

  lemma OneMoreRecord(data: Bytes, pos: nat, count: nat, first: Read<Record>, rest: Read<seq<Record>>)
    requires count > 0 && ReadRecord(data, pos) == Some(first)
    requires ReadRecords(data, first.end, count - 1) == Some(rest)
    ensures ReadRecords(data, pos, count) == Some(Read([first.value] + rest.value, rest.end))
  {
  }

  // ----- The question -----

  /** A name written out, without a pointer. */
  ghost predicate WrittenOut(data: Bytes, at: nat)
    decreases |data| - at
  {
    && at < |data|
    && (data[at] == 0 || (data[at] <= 63 && at + 1 + data[at] <= |data| && WrittenOut(data, at + 1 + data[at])))
  }

  /** ... reads the same in every message that has these octets here. */
  lemma {:induction false} NameReadsTheSame(query: Bytes, data: Bytes, at: nat, start: nat, start': nat)
    requires 12 <= at && |query| <= |data| && forall i :: 12 <= i < |query| ==> data[i] == query[i]
    requires WrittenOut(query, at)
    ensures ReadName(query, at, start).Some? && ReadName(data, at, start') == ReadName(query, at, start)
    ensures at < ReadName(query, at, start).value.end <= |query|
    decreases |query| - at
  {
    if query[at] != 0 {
      var next := at + 1 + query[at];
      NameReadsTheSame(query, data, next, start, start');
      assert data[at + 1..next] == query[at + 1..next];
    }
  }

  /** The only question of the message, written out at its end. */
  ghost predicate AsksOneQuestion(query: Bytes, q: Question) {
    |query| > 12 && WrittenOut(query, 12) && ReadQuestion(query, 12) == Some(Read(q, |query|))
  }

  lemma QuestionIs(data: Bytes, at: nat, name: Read<seq<Bytes>>)
    requires ReadName(data, at, at) == Some(name) && name.end + 4 <= |data|
    ensures ReadQuestion(data, at)
         == Some(Read(Question(name.value, Octet2(data, name.end), Octet2(data, name.end + 2)), name.end + 4))
  {
  }

  lemma QuestionReadsTheSame(query: Bytes, data: Bytes, q: Question)
    requires AsksOneQuestion(query, q) && |query| <= |data| && forall i :: 12 <= i < |query| ==> data[i] == query[i]
    ensures ReadQuestion(data, 12) == Some(Read(q, |query|))
    ensures ReadName(data, 12, 12).Some? && ReadName(data, 12, 12).value.value == q.name
  {
    NameReadsTheSame(query, data, 12, 12, 12);
    var name := ReadName(query, 12, 12).value;
    QuestionIs(query, 12, name);
    QuestionIs(data, 12, name);
  }

  lemma OneQuestion(data: Bytes, q: Read<Question>)
    requires ReadQuestion(data, 12) == Some(q)
    ensures ReadQuestions(data, 12, 1) == Some(Read([q.value], q.end))
  {
    var none: seq<Question> := [];
    assert ReadQuestions(data, q.end, 0) == Some(Read(none, q.end)) && [q.value] + none == [q.value];
  }

  // ----- The responder -----

  lemma {:induction false} ResponseHeader(aton: Aton, query: Bytes, ips: seq<string>)
    requires |query| >= 12 && |ips| < 65536 && Accepted(aton, ips) && BuildResponse(aton, query, ips).Ok?
    ensures
      var data := BuildResponse(aton, query, ips).value;
      |data| >= 12 && Octet2(data, 4) == 1 && Octet2(data, 6) == |ips| && Octet2(data, 8) == 0
      && Octet2(data, 10) == 0
      && ReadHeader(data) == Header(Octet2(query, 0), true, 0, true, false, false, false, 0, 0)
  {
    var data := BuildResponse(aton, query, ips).value;
    var head := ResponseHead(query, |ips|);
    var count := Be16(|ips|);
    assert data[..12] == head[..12] == [query[0], query[1], 0x84, 0, 0, 1, count[0], count[1], 0, 0, 0, 0];
    assert data[0] == data[..12][0] && data[1] == data[..12][1] && data[2] == data[..12][2];
    assert data[3] == data[..12][3] && data[4] == data[..12][4] && data[5] == data[..12][5];
    assert data[6] == data[..12][6] && data[7] == data[..12][7] && data[8] == data[..12][8];
    assert data[9] == data[..12][9] && data[10] == data[..12][10] && data[11] == data[..12][11];
  }

  /** To any message that asks one question, the response is a standard one: the identifier and the question
      of the query, an authoritative answer without error, and for each address, in order, one record of
      the name asked for, type A, class IN, ten seconds to live. */
  lemma {:induction false} ResponseIsStandard(aton: Aton, query: Bytes, ips: seq<string>, q: Question)
    requires AsksOneQuestion(query, q) && |ips| < 65536 && Accepted(aton, ips)
    ensures BuildResponse(aton, query, ips).Ok?
    ensures ReadMessage(BuildResponse(aton, query, ips).value)
         == Some(Message(Header(Octet2(query, 0), true, 0, true, false, false, false, 0, 0), [q],
                         AddressRecords(q.name, aton, ips), [], []))
  {
    ResponseHolds(aton, query, ips);
    ResponseHeader(aton, query, ips);
    StandardFrom(query, BuildResponse(aton, query, ips).value, aton, ips, q);
  }

  lemma StandardFrom(query: Bytes, data: Bytes, aton: Aton, ips: seq<string>, q: Question)
    requires AsksOneQuestion(query, q) && Accepted(aton, ips) && Answers(aton, ips).Ok?
    requires |data| == |query| + 16 * |ips| && Holds(data, |query|, Answers(aton, ips).value)
    requires forall i :: 12 <= i < |query| ==> data[i] == query[i]
    requires Octet2(data, 4) == 1 && Octet2(data, 6) == |ips| && Octet2(data, 8) == 0 && Octet2(data, 10) == 0
    ensures ReadMessage(data)
         == Some(Message(ReadHeader(data), [q], AddressRecords(q.name, aton, ips), [], []))
  {
    QuestionReadsTheSame(query, data, q);
    RecordsRead(data, |query|, aton, ips, q.name);
    WholeMessage(data, q, AddressRecords(q.name, aton, ips), |query|, |ips|);
  }

  lemma RecordsRead(data: Bytes, start: nat, aton: Aton, ips: seq<string>, name: seq<Bytes>)
    requires Accepted(aton, ips) && Answers(aton, ips).Ok? && Holds(data, start, Answers(aton, ips).value)
    requires 12 < start && |data| == start + 16 * |ips|
    requires ReadName(data, 12, 12).Some? && ReadName(data, 12, 12).value.value == name
    ensures ReadRecords(data, start, |ips|) == Some(Read(AddressRecords(name, aton, ips), |data|))
  {
    AnswersAreRecords(data, start, aton, ips, ReadName(data, 12, 12).value);
  }

  lemma WholeMessage(data: Bytes, q: Question, answers: seq<Record>, end: nat, count: nat)
    requires |data| >= 12 && Octet2(data, 4) == 1 && Octet2(data, 6) == count
    requires Octet2(data, 8) == 0 && Octet2(data, 10) == 0
    requires ReadQuestion(data, 12) == Some(Read(q, end))
    requires ReadRecords(data, end, count) == Some(Read(answers, |data|))
    ensures ReadMessage(data) == Some(Message(ReadHeader(data), [q], answers, [], []))
  {
    OneQuestion(data, Read(q, end));
    assert ReadRecords(data, |data|, 0) == Some(Read([], |data|));
  }

  // ----- The client's query -----

  /** What a label may be: 1 to 63 octets, here of ASCII. */
  predicate StandardLabel(part: string) { GoodLabel(part) && |part| <= 63 }

  function Octets(labels: seq<string>): seq<Bytes> {
    if labels == [] then [] else [Encode(labels[0])] + Octets(labels[1..])
  }

  lemma {:induction false} LabelsRead(data: Bytes, at: nat, labels: seq<string>, start: nat)
    requires EncodeLabels(labels).Ok? && Holds(data, at, EncodeLabels(labels).value + [0])
    requires forall i :: 0 <= i < |labels| ==> StandardLabel(labels[i])
    ensures WrittenOut(data, at)
    ensures ReadName(data, at, start) == Some(Read(Octets(labels), at + |EncodeLabels(labels).value| + 1))
    decreases |labels|
  {
    if labels == [] {
      HoldsEnd(data, at);
    } else {
      SplitLabel(data, at, labels);
      AsciiIsOneOctetEach(labels[0]);
      var next := at + 1 + |labels[0]|;
      LabelOctets(data, at, |labels[0]|, Encode(labels[0]));
      LabelsRead(data, next, labels[1..], start);
    }
  }

  lemma LabelOctets(data: Bytes, at: nat, n: Byte, piece: Bytes)
    requires |piece| == n && Holds(data, at, [n] + piece)
    ensures at + 1 + n <= |data| && data[at] == n && data[at + 1..at + 1 + n] == piece
  {
    HoldsParts(data, at, [n], piece);
    HoldsExactly(data, at + 1, piece);
  }

  lemma QueryEnds(name: string)
    requires BuildQuery(name).Ok?
    ensures
      var query := BuildQuery(name).value;
      |query| >= 12 + 5 && query[..12] == QUERY_HEADER && query[|query| - 4..] == QUERY_TAIL
  {
    QueryHolds(name);
    var body := EncodeLabels(Split(name)).value;
    var query := BuildQuery(name).value;
    assert query == QUERY_HEADER + (body + [0]) + QUERY_TAIL;
    assert query == (QUERY_HEADER + (body + [0])) + QUERY_TAIL;
  }

  /** The client's query is a standard one: recursion desired, and one question, the name label by label,
      type A, class IN. */
  lemma {:induction false} QueryIsStandard(name: string)
    requires forall i :: 0 <= i < |Split(name)| ==> StandardLabel(Split(name)[i])
    ensures BuildQuery(name).Ok?
    ensures
      var q := Question(Octets(Split(name)), 1, 1);
      AsksOneQuestion(BuildQuery(name).value, q) && Octet2(BuildQuery(name).value, 0) == 0x1234
      && ReadMessage(BuildQuery(name).value)
         == Some(Message(Header(0x1234, false, 0, false, false, true, false, 0, 0), [q], [], [], []))
  {
    EncodesExactly(Split(name));
    QueryHolds(name);
    QueryEnds(name);
    var query := BuildQuery(name).value;
    var labels := Split(name);
    LabelsRead(query, 12, labels, 12);
    QueryAsks(query, Octets(labels));
    var q := Question(Octets(labels), 1, 1);
    QuestionReadsTheSame(query, query, q);
    assert ReadRecords(query, |query|, 0) == Some(Read([], |query|));
    WholeMessage(query, q, [], |query|, 0);
  }

  lemma QueryAsks(query: Bytes, name: seq<Bytes>)
    requires |query| > 16 && query[..12] == QUERY_HEADER && query[|query| - 4..] == QUERY_TAIL
    requires WrittenOut(query, 12) && ReadName(query, 12, 12) == Some(Read(name, |query| - 4))
    ensures AsksOneQuestion(query, Question(name, 1, 1))
    ensures ReadHeader(query) == Header(0x1234, false, 0, false, false, true, false, 0, 0)
    ensures Octet2(query, 0) == 0x1234 && Octet2(query, 4) == 1 && Octet2(query, 6) == 0
    ensures Octet2(query, 8) == 0 && Octet2(query, 10) == 0
  {
    var head, tail := query[..12], query[|query| - 4..];
    assert query[0] == head[0] && query[1] == head[1] && query[2] == head[2] && query[3] == head[3];
    assert query[4] == head[4] && query[5] == head[5] && query[6] == head[6] && query[7] == head[7];
    assert query[8] == head[8] && query[9] == head[9] && query[10] == head[10] && query[11] == head[11];
    assert query[|query| - 4] == tail[0] && query[|query| - 3] == tail[1];
    assert query[|query| - 2] == tail[2] && query[|query| - 1] == tail[3];
  }

  /** Together: the response to the client's query, as any standard resolver reads it. */
  lemma {:induction false} LookupIsStandard(aton: Aton, name: string, ips: seq<string>)
    requires forall i :: 0 <= i < |Split(name)| ==> StandardLabel(Split(name)[i])
    requires |ips| < 65536 && Accepted(aton, ips)
    ensures BuildQuery(name).Ok? && BuildResponse(aton, BuildQuery(name).value, ips).Ok?
    ensures
      var asked := Octets(Split(name));
      ReadMessage(BuildResponse(aton, BuildQuery(name).value, ips).value)
      == Some(Message(Header(0x1234, true, 0, true, false, false, false, 0, 0), [Question(asked, 1, 1)],
                      AddressRecords(asked, aton, ips), [], []))
  {
    QueryIsStandard(name);
    ResponseIsStandard(aton, BuildQuery(name).value, ips, Question(Octets(Split(name)), 1, 1));
  }
}
