/** What the query client reads out of a response of the responder. */
module ResponseLaws {
  import opened Options
  import opened Dns
  import opened DnsLaws
  import opened AddressText

  // ----- Answers -----

  /** What an address list denotes, in the client's notation. */
  function Addresses(aton: Aton, ips: seq<string>): seq<string>
    requires forall i :: 0 <= i < |ips| ==> aton(ips[i]).Some?
  {
    if ips == [] then [] else [Dotted(aton(ips[0]).value)] + Addresses(aton, ips[1..])
  }

  ghost predicate Accepted(aton: Aton, ips: seq<string>) {
    forall i :: 0 <= i < |ips| ==> aton(ips[i]).Some?
  }

  lemma {:induction false} AcceptedAreBuilt(aton: Aton, ips: seq<string>)
    ensures Answers(aton, ips).Ok? <==> Accepted(aton, ips)
    ensures Accepted(aton, ips) ==> |Answers(aton, ips).value| == 16 * |ips|
  {
    if ips != [] {
      AcceptedAreBuilt(aton, ips[1..]);
      assert ips == [ips[0]] + ips[1..];
    }
  }

  lemma HoldsThree(data: Bytes, at: nat, a: Bytes, b: Bytes, c: Bytes)
    requires Holds(data, at, (a + b) + c)
    ensures Slice(data, at + |a|, |b|) == b && Slice(data, at + |a| + |b|, |c|) == c
  {
    HoldsChain(data, at, a, b, c);
    HoldsParts(data, at + |a|, b, c);
    HoldsSlice(data, at + |a|, b, |b|);
    HoldsSlice(data, at + |a| + |b|, c, |c|);
  }

  /** One answer, as the client reads it. */
  lemma ReadsBackAnswer(data: Bytes, pos: nat, q: Quad)
    requires Holds(data, pos, Answer(q))
    ensures Slice(data, pos + 10, 2) == [0, 4] && Slice(data, pos + 12, 4) == q
  {
    var fixed: Bytes, length: Bytes := [0xC0, 0x0C, 0, 1, 0, 1, 0, 0, 0, 10], [0, 4];
    assert Answer(q) == (fixed + length) + q;
    HoldsThree(data, pos, fixed, length, q);
  }

  lemma {:induction false} ReadsBackAnswers(data: Bytes, pos: nat, aton: Aton, ips: seq<string>, done: seq<string>)
    requires Accepted(aton, ips) && Answers(aton, ips).Ok? && Holds(data, pos, Answers(aton, ips).value)
    ensures ReadAnswers(data, pos, |ips|, done) == Ok(done + Addresses(aton, ips))
    decreases |ips|
  {
    if ips == [] {
      assert done + [] == done;
    } else {
      var q := aton(ips[0]).value;
      HoldsParts(data, pos, Answer(q), Answers(aton, ips[1..]).value);
      ReadsBackAnswer(data, pos, q);
      var field: Bytes := [0, 4];
      assert FromBe16(field) == 4;
      ReadsBackAnswers(data, pos + 16, aton, ips[1..], done + [Dotted(q)]);
      assert done + [Dotted(q)] + Addresses(aton, ips[1..]) == done + ([Dotted(q)] + Addresses(aton, ips[1..]));
    }
  }

  // ----- The message around them -----

  /** The name of the question ends in its first zero octet, and its type and class end the message. */
  ghost predicate EndsInQuestion(query: Bytes) {
    |query| >= 12 && SkipName(query, 12).Ok? && SkipName(query, 12).value + 5 == |query|
  }

  /** Skipping a name looks at nothing past its zero octet. */
  lemma {:induction false} SkipsTheSame(query: Bytes, data: Bytes, pos: nat)
    requires |query| <= |data| && 12 <= pos && forall i :: 12 <= i < |query| ==> data[i] == query[i]
    requires SkipName(query, pos).Ok?
    ensures SkipName(data, pos) == SkipName(query, pos)
    ensures pos <= SkipName(query, pos).value < |query|
    decreases |query| - pos
  {
    if query[pos] != 0 {
      SkipsTheSame(query, data, pos + query[pos] + 1);
    }
  }

  lemma ResponseHolds(aton: Aton, query: Bytes, ips: seq<string>)
    requires |query| >= 12 && |ips| < 65536 && Accepted(aton, ips)
    ensures BuildResponse(aton, query, ips).Ok? && Answers(aton, ips).Ok?
    ensures
      var data := BuildResponse(aton, query, ips).value;
      |data| == |query| + 16 * |ips|
      && (forall i :: 12 <= i < |query| ==> data[i] == query[i])
      && data[6..8] == Be16(|ips|)
      && Holds(data, |query|, Answers(aton, ips).value)
  {
    AcceptedAreBuilt(aton, ips);
    var answers := Answers(aton, ips).value;
    var head := ResponseHead(query, |ips|);
    var data := BuildResponse(aton, query, ips).value;
    HeadIs(query, |ips|);
    assert data == head + answers;
    assert data[6..8] == head[6..8];
    assert data[|query|..|query| + |answers|] == answers;
    HoldsExactly(data, |query|, answers);
  }

  lemma HeadIs(query: Bytes, count: nat)
    requires |query| >= 12 && count < 65536
    ensures
      var head := ResponseHead(query, count);
      |head| == |query| && head[6..8] == Be16(count) && forall i :: 12 <= i < |query| ==> head[i] == query[i]
  {
    var fixed: Bytes := [0x84, 0x00, 0, 1];
    var zeros: Bytes := [0, 0, 0, 0];
    var head := ResponseHead(query, count);
    assert head == query[..2] + fixed + Be16(count) + zeros + query[12..];
    assert |head| == |query|;
    assert head[6] == Be16(count)[0] && head[7] == Be16(count)[1];
    assert head[6..8] == [head[6], head[7]] == Be16(count);
  }

  /** What the client prints for a response: the count comes from the header, octets 6 and 7. */
  function ClientReads(data: Bytes): Result<seq<string>, Error> {
    var field := Slice(data, 6, 2);
    if |field| != 2 then Err(StructError)
    else if FromBe16(field) == 0 then Ok([])
    else ParseARecords(data, FromBe16(field))
  }

  lemma CountIsRead(data: Bytes, count: nat)
    requires |data| >= 12 && count < 65536 && data[6..8] == Be16(count)
    ensures Slice(data, 6, 2) == Be16(count) && FromBe16(Be16(count)) == count
  {
  }

  /** The client counts what the header says and starts after the question of the query. */
  lemma {:induction false} ClientStarts(query: Bytes, data: Bytes, count: nat)
    requires 12 <= |query| <= |data| && forall i :: 12 <= i < |query| ==> data[i] == query[i]
    requires SkipName(query, 12).Ok? && 0 < count < 65536 && data[6..8] == Be16(count)
    ensures ClientReads(data) == ReadAnswers(data, SkipName(query, 12).value + 5, count, [])
  {
    CountIsRead(data, count);
    SkipsTheSame(query, data, 12);
  }

  lemma ReadsAllAnswers(data: Bytes, start: nat, aton: Aton, ips: seq<string>)
    requires Accepted(aton, ips) && Answers(aton, ips).Ok? && Holds(data, start, Answers(aton, ips).value)
    ensures ReadAnswers(data, start, |ips|, []) == Ok(Addresses(aton, ips))
  {
    ReadsBackAnswers(data, start, aton, ips, []);
    var none: seq<string> := [];
    assert none + Addresses(aton, ips) == Addresses(aton, ips);
  }

  lemma ClientReadsNothing(data: Bytes)
    requires |data| >= 12 && data[6..8] == Be16(0)
    ensures ClientReads(data) == Ok([])
  {
    CountIsRead(data, 0);
  }

  /** Sections 4.1.1 to 4.1.4 of RFC 1035, both ways: a client that asked a question ending its message
      reads back exactly the addresses the responder put in, in order. */
  lemma {:induction false} ResponseRoundTrip(aton: Aton, query: Bytes, ips: seq<string>)
    requires EndsInQuestion(query) && |ips| < 65536 && Accepted(aton, ips)
    ensures BuildResponse(aton, query, ips).Ok?
    ensures ClientReads(BuildResponse(aton, query, ips).value) == Ok(Addresses(aton, ips))
  {
    ResponseHolds(aton, query, ips);
    var data := BuildResponse(aton, query, ips).value;
    ReadsAllAnswers(data, |query|, aton, ips);
    if ips == [] {
      ClientReadsNothing(data);
    } else {
      ClientStarts(query, data, |ips|);
    }
  }

  // ----- Which questions end their message -----

  /** The client skips as many labels as the responder understands. */
  lemma {:induction false} SkipsWhatIsUnderstood(data: Bytes, at: nat, labels: seq<string>)
    requires EncodeLabels(labels).Ok? && Holds(data, at, EncodeLabels(labels).value + [0])
    requires Understood(labels).Ok?
    ensures SkipName(data, at).Ok?
    ensures
      var end := at + |EncodeLabels(labels).value|;
      if Understood(labels).value == labels then SkipName(data, at).value == end
      else SkipName(data, at).value < end
    decreases |labels|
  {
    if labels == [] {
      HoldsEnd(data, at);
    } else {
      SplitLabel(data, at, labels);
      HoldsParts(data, at, [|labels[0]|], Encode(labels[0]));
      if labels[0] != "" {
        SkipsWhatIsUnderstood(data, at + 1 + |labels[0]|, labels[1..]);
        assert labels == [labels[0]] + labels[1..];
      }
    }
  }

  lemma {:induction false} AsciiIsUnderstood(labels: seq<string>)
    requires forall i :: 0 <= i < |labels| ==> AsciiText(labels[i])
    ensures Understood(labels).Ok?
  {
    if labels != [] {
      AsciiIsUnderstood(labels[1..]);
    }
  }

  /** Among ASCII names, those without an empty label, and they alone, make a query that ends in its question. */
  lemma QueryEndsExactly(name: string)
    requires AsciiName(name) && BuildQuery(name).Ok?
    ensures
      var query := BuildQuery(name).value;
      |query| >= 12 && SkipName(query, 12).Ok?
      && (if GoodName(name) then EndsInQuestion(query) else SkipName(query, 12).value + 5 < |query|)
  {
    var labels := Split(name);
    QueryHolds(name);
    AsciiIsUnderstood(labels);
    UnderstoodExactly(labels);
    SkipsWhatIsUnderstood(BuildQuery(name).value, 12, labels);
  }

  // ----- Questions that do not -----

  const ZEROS: Quad := [0, 0, 0, 0]
  const ONES: Quad := [1, 1, 1, 1]

  /** A one-address response up to its address. */
  function Unaddressed(query: Bytes): Bytes {
    ResponseHead(query, 1) + [0xC0, 0x0C, 0, 1, 0, 1, 0, 0, 0, 10, 0, 4]
  }

  /** What the client takes for the addresses when it starts reading answers too early: it does not
      depend on the address. */
  function TooEarly(query: Bytes, start: nat): seq<string> {
    var field := Slice(Unaddressed(query), start + 10, 2);
    if field == [0, 4] then [Dotted(Slice(Unaddressed(query), start + 12, 4))] else []
  }

  lemma SlicePrefix(data: Bytes, n: nat, at: nat, length: nat)
    requires at + length <= n <= |data|
    ensures Slice(data[..n], at, length) == Slice(data, at, length)
    ensures |Slice(data, at, length)| == length
  {
    assert data[..n][at..at + length] == data[at..at + length];
  }

  lemma UnaddressedIs(aton: Aton, query: Bytes, ip: string)
    requires |query| >= 12 && aton(ip).Some?
    ensures BuildResponse(aton, query, [ip]).Ok?
    ensures
      var data := BuildResponse(aton, query, [ip]).value;
      |data| == |query| + 16 && data[..|query| + 12] == Unaddressed(query)
  {
    var q := aton(ip).value;
    var head := ResponseHead(query, 1);
    HeadIs(query, 1);
    assert Answers(aton, [ip]) == Prepend(Answer(q), Answers(aton, [ip][1..]));
    var data := BuildResponse(aton, query, [ip]).value;
    assert data == Unaddressed(query) + q;
  }

  /** Three octets or fewer too early, the length field is cut out of the answer's fixed part: not 4. */
  lemma JustTooEarly(query: Bytes, start: nat)
    requires |query| >= 12 && start < |query| < start + 4
    ensures Slice(Unaddressed(query), start + 10, 2) != [0, 4]
  {
    HeadIs(query, 1);
    var u := Unaddressed(query);
    assert u[|query| + 7] == 0 && u[|query| + 8] == 0 && u[|query| + 9] == 10 && u[|query| + 10] == 0;
    assert Slice(u, start + 10, 2) == [u[start + 10], u[start + 11]];
  }

  lemma ReadsOne(data: Bytes, pos: nat)
    requires |Slice(data, pos + 10, 2)| == 2
    ensures ReadAnswers(data, pos, 1, []) ==
            Ok(if Slice(data, pos + 10, 2) == [0, 4] then [Dotted(Slice(data, pos + 12, 4))] else [])
  {
    var field := Slice(data, pos + 10, 2);
    assert field == [field[0], field[1]];
    assert FromBe16(field) == 4 <==> field[0] == 0 && field[1] == 4;
    var none: seq<string>, one := [], [Dotted(Slice(data, pos + 12, 4))];
    assert none + none == none && none + one == one;
  }

  lemma ReadsOneTooEarly(data: Bytes, query: Bytes, start: nat)
    requires |query| >= 12 && start < |query|
    requires |data| == |query| + 16 && data[..|query| + 12] == Unaddressed(query)
    ensures ReadAnswers(data, start, 1, []) == Ok(TooEarly(query, start))
  {
    SlicePrefix(data, |query| + 12, start + 10, 2);
    ReadsOne(data, start);
    if |query| < start + 4 {
      JustTooEarly(query, start);
    } else {
      SlicePrefix(data, |query| + 12, start + 12, 4);
    }
  }

  lemma {:induction false} ReadsTooEarly(aton: Aton, query: Bytes, ip: string)
    requires |query| >= 12 && SkipName(query, 12).Ok? && SkipName(query, 12).value + 5 < |query|
    requires aton(ip).Some?
    ensures BuildResponse(aton, query, [ip]).Ok?
    ensures ClientReads(BuildResponse(aton, query, [ip]).value) == Ok(TooEarly(query, SkipName(query, 12).value + 5))
  {
    ResponseHolds(aton, query, [ip]);
    UnaddressedIs(aton, query, ip);
    var data := BuildResponse(aton, query, [ip]).value;
    ClientStarts(query, data, 1);
    ReadsOneTooEarly(data, query, SkipName(query, 12).value + 5);
  }

  /** A client that stops skipping too early does not read both of two one-address responses right. */
  lemma {:induction false} OneIsMisread(aton: Aton, query: Bytes)
    requires |query| >= 12 && SkipName(query, 12).Ok? && SkipName(query, 12).value + 5 < |query|
    requires aton("0.0.0.0").Some? && aton("1.1.1.1").Some?
    ensures BuildResponse(aton, query, ["0.0.0.0"]).Ok? && BuildResponse(aton, query, ["1.1.1.1"]).Ok?
    ensures ClientReads(BuildResponse(aton, query, ["0.0.0.0"]).value) != Ok(["0.0.0.0"])
         || ClientReads(BuildResponse(aton, query, ["1.1.1.1"]).value) != Ok(["1.1.1.1"])
  {
    ReadsTooEarly(aton, query, "0.0.0.0");
    ReadsTooEarly(aton, query, "1.1.1.1");
    assert ["0.0.0.0"][0] != ["1.1.1.1"][0] by {
      assert "0.0.0.0"[0] != "1.1.1.1"[0];
    }
  }

  /** The client reads back every address list the responder can send to this query. */
  ghost predicate ReadsEveryList(aton: Aton, query: Bytes) {
    forall ips: seq<string> | |ips| < 65536 && Accepted(aton, ips) ::
      match BuildResponse(aton, query, ips)
      case Err(_) => false
      case Ok(data) => ClientReads(data) == Ok(Addresses(aton, ips))
  }

  /** For ASCII names (the responder drops the others), the round trip holds for every address list
      exactly when no label is empty: a name with a trailing dot is answered and misread. */
  lemma {:induction false} RoundTripsExactly(aton: Aton, name: string)
    requires AsciiName(name) && BuildQuery(name).Ok?
    requires aton("0.0.0.0") == Some(ZEROS) && aton("1.1.1.1") == Some(ONES)
    ensures ReadsEveryList(aton, BuildQuery(name).value) <==> GoodName(name)
  {
    var query := BuildQuery(name).value;
    QueryEndsExactly(name);
    if GoodName(name) {
      forall ips: seq<string> | |ips| < 65536 && Accepted(aton, ips)
        ensures match BuildResponse(aton, query, ips)
                case Err(_) => false
                case Ok(data) => ClientReads(data) == Ok(Addresses(aton, ips))
      {
        ResponseRoundTrip(aton, query, ips);
      }
    } else {
      OneIsMisread(aton, query);
      DottedPlain(aton);
      assert Accepted(aton, ["0.0.0.0"]) && Accepted(aton, ["1.1.1.1"]);
    }
  }

  lemma DottedPlain(aton: Aton)
    requires aton("0.0.0.0") == Some(ZEROS) && aton("1.1.1.1") == Some(ONES)
    ensures Addresses(aton, ["0.0.0.0"]) == ["0.0.0.0"] && Addresses(aton, ["1.1.1.1"]) == ["1.1.1.1"]
  {
    Dotted4(ZEROS);
    Dotted4(ONES);
    assert Decimal(0) == "0" && Decimal(1) == "1";
    assert "0" + "." + ("0" + "." + ("0" + "." + "0")) == "0.0.0.0";
    assert "1" + "." + ("1" + "." + ("1" + "." + "1")) == "1.1.1.1";
    AddressesOfOne(aton, "0.0.0.0");
    AddressesOfOne(aton, "1.1.1.1");
  }

  lemma AddressesOfOne(aton: Aton, ip: string)
    requires aton(ip).Some?
    ensures Addresses(aton, [ip]) == [Dotted(aton(ip).value)]
  {
    assert [ip][1..] == [];
  }

  // ----- A datagram of 512 octets -----

  function Dots(s: string): nat {
    if s == "" then 0 else (if s[0] == '.' then 1 else 0) + Dots(s[1..])
  }

  lemma {:induction false} DotsAdd(s: string, t: string)
    ensures Dots(s + t) == Dots(s) + Dots(t)
  {
    if s == "" {
      assert s + t == t;
    } else {
      assert (s + t)[1..] == s[1..] + t;
      DotsAdd(s[1..], t);
    }
  }

  lemma {:induction false} DecimalHasNoDots(b: nat)
    ensures Dots(Decimal(b)) == 0
    decreases b
  {
    var digit := [(b % 10 + 48) as char];
    assert digit[1..] == "" && Dots(digit) == 0;
    if b >= 10 {
      DecimalHasNoDots(b / 10);
      DotsAdd(Decimal(b / 10), digit);
    }
  }

  lemma {:induction false} DottedHasDots(octets: Bytes)
    ensures Dots(Dotted(octets)) == if octets == [] then 0 else |octets| - 1
  {
    if octets != [] {
      DecimalHasNoDots(octets[0]);
      if |octets| > 1 {
        DottedHasDots(octets[1..]);
        DotsAdd(Decimal(octets[0]), "." + Dotted(octets[1..]));
        DotsAdd(".", Dotted(octets[1..]));
        assert "."[1..] == "" && Dots(".") == 1;
        assert Decimal(octets[0]) + ("." + Dotted(octets[1..])) == Dotted(octets);
      }
    }
  }

  /** Cut inside an answer, a response is not read as the addresses it was built from. */
  lemma {:induction false} CutIsMisread(data: Bytes, cut: nat, pos: nat, aton: Aton, ips: seq<string>,
                                        done: seq<string>)
    requires Accepted(aton, ips) && Answers(aton, ips).Ok? && Holds(data, pos, Answers(aton, ips).value)
    requires pos <= cut < pos + 16 * |ips| && cut <= |data|
    ensures ReadAnswers(data[..cut], pos, |ips|, done) != Ok(done + Addresses(aton, ips))
    decreases |ips|
  {
    var q := aton(ips[0]).value;
    HoldsParts(data, pos, Answer(q), Answers(aton, ips[1..]).value);
    ReadsBackAnswer(data, pos, q);
    if pos + 16 <= cut {
      SlicePrefix(data, cut, pos + 10, 2);
      SlicePrefix(data, cut, pos + 12, 4);
      CutIsMisread(data, cut, pos + 16, aton, ips[1..], done + [Dotted(q)]);
      assert done + [Dotted(q)] + Addresses(aton, ips[1..]) == done + ([Dotted(q)] + Addresses(aton, ips[1..]));
    } else {
      CutInAnswer(data, cut, pos, q, |ips|, done);
      assert Addresses(aton, ips)[0] == Dotted(q);
      assert (done + Addresses(aton, ips))[|done|] == Dotted(q);
    }
  }

  /** The answer that the cut goes through is not read as its address. */
  lemma CutInAnswer(data: Bytes, cut: nat, pos: nat, q: Quad, count: nat, done: seq<string>)
    requires Holds(data, pos, Answer(q)) && pos <= cut < pos + 16 && cut <= |data| && count > 0
    ensures ReadAnswers(data[..cut], pos, count, done).Ok? ==>
      var r := ReadAnswers(data[..cut], pos, count, done).value;
      |r| == |done| + 1 && r[|done|] != Dotted(q)
  {
    ReadsBackAnswer(data, pos, q);
    if pos + 12 <= cut {
      SlicePrefix(data, cut, pos + 10, 2);
      assert FromBe16(Slice(data[..cut], pos + 10, 2)) == 4;
      var short := Slice(data[..cut], pos + 12, 4);
      assert |short| < 4;
      DottedHasDots(short);
      DottedHasDots(q);
      CutAfterOne(data[..cut], pos + 16, count - 1, done + [Dotted(short)]);
    } else {
      assert |Slice(data[..cut], pos + 10, 2)| < 2;
    }
  }

  /** Past the end there are no more answers. */
  lemma CutAfterOne(data: Bytes, pos: nat, count: nat, ips: seq<string>)
    requires |data| <= pos
    ensures ReadAnswers(data, pos, count, ips) == if count == 0 then Ok(ips) else Err(StructError)
  {
  }

  lemma {:induction false} TooLongIsMisread(query: Bytes, data: Bytes, aton: Aton, ips: seq<string>)
    requires EndsInQuestion(query) && |query| <= 512 < |data| == |query| + 16 * |ips| && |ips| < 65536
    requires (forall i :: 12 <= i < |query| ==> data[i] == query[i]) && data[6..8] == Be16(|ips|)
    requires Accepted(aton, ips) && Answers(aton, ips).Ok? && Holds(data, |query|, Answers(aton, ips).value)
    ensures ClientReads(data[..512]) != Ok(Addresses(aton, ips))
  {
    ClientStartsCut(query, data, |ips|);
    CutIsMisread(data, 512, |query|, aton, ips, []);
    var none: seq<string> := [];
    assert none + Addresses(aton, ips) == Addresses(aton, ips);
  }

  lemma ClientStartsCut(query: Bytes, data: Bytes, count: nat)
    requires EndsInQuestion(query) && |query| <= 512 < |data| && 0 < count < 65536
    requires (forall i :: 12 <= i < |query| ==> data[i] == query[i]) && data[6..8] == Be16(count)
    ensures ClientReads(data[..512]) == ReadAnswers(data[..512], |query|, count, [])
  {
    var got := data[..512];
    assert got[6..8] == data[6..8];
    assert forall i :: 12 <= i < |query| ==> got[i] == query[i];
    ClientStarts(query, got, count);
  }

  /** Client and responder receive at most 512 octets: the addresses arrive exactly when the response fits. */
  lemma {:induction false} FitsExactly(aton: Aton, query: Bytes, ips: seq<string>)
    requires EndsInQuestion(query) && |query| <= 512 && |ips| < 65536 && Accepted(aton, ips)
    ensures BuildResponse(aton, query, ips).Ok?
    ensures
      var data := BuildResponse(aton, query, ips).value;
      ClientReads(Take(data, 512)) == Ok(Addresses(aton, ips)) <==> |query| + 16 * |ips| <= 512
  {
    ResponseHolds(aton, query, ips);
    var data := BuildResponse(aton, query, ips).value;
    if |data| <= 512 {
      ResponseRoundTrip(aton, query, ips);
      assert Take(data, 512) == data;
    } else {
      TooLongIsMisread(query, data, aton, ips);
    }
  }

  // ----- End to end -----

  lemma {:induction false} LowerConcat(s: string, t: string)
    ensures Lower(s + t) == Lower(s) + Lower(t)
  {
    if s == "" {
      assert s + t == t;
    } else {
      assert (s + t)[1..] == s[1..] + t;
      LowerConcat(s[1..], t);
    }
  }

  lemma AcceptedConcat(aton: Aton, xs: seq<string>, ys: seq<string>)
    requires Accepted(aton, xs) && Accepted(aton, ys)
    ensures Accepted(aton, xs + ys)
  {
  }

  lemma {:induction false} ValidAreAccepted(aton: Aton, ips: seq<string>)
    ensures Accepted(aton, Valid(aton, ips))
    ensures Accepted(aton, ips) ==> Valid(aton, ips) == ips
  {
    if ips != [] {
      ValidAreAccepted(aton, ips[1..]);
      assert ips == [ips[0]] + ips[1..];
      if aton(ips[0]).Some? {
        AcceptedConcat(aton, [ips[0]], Valid(aton, ips[1..]));
      }
    }
  }

  /** A query for a name outside ASCII (up to its first empty label) is dropped. */
  lemma ForeignNamesGetNoReply(aton: Aton, alive: string -> seq<string>, domain: string, name: string)
    requires BuildQuery(name).Ok? && Understood(Split(name)).Err?
    ensures HandleQuery(aton, alive, domain, BuildQuery(name).value) == None
  {
    QueryHolds(name);
    ReadsBackLabels(BuildQuery(name).value, 12, Split(name), []);
    PrependTwice([], [], Understood(Split(name)));
  }

  /** What the client makes of a truncated query's name: it runs out of octets or finds the true end. */
  lemma {:induction false} SkipsCut(query: Bytes, got: Bytes, at: nat, labels: seq<string>)
    requires EncodeLabels(labels).Ok? && Holds(query, at, EncodeLabels(labels).value + [0])
    requires forall i :: 0 <= i < |labels| ==> GoodLabel(labels[i])
    requires 12 <= at && |got| <= |query| && forall i :: 12 <= i < |got| ==> got[i] == query[i]
    ensures SkipName(got, at) == Err(IndexError) || SkipName(got, at) == Ok(at + |EncodeLabels(labels).value|)
    decreases |labels|
  {
    if labels == [] {
      HoldsEnd(query, at);
    } else {
      SplitLabel(query, at, labels);
      HoldsParts(query, at, [|labels[0]|], Encode(labels[0]));
      SkipsCut(query, got, at + 1 + |labels[0]|, labels[1..]);
    }
  }

  /** The responder receives 512 octets of a longer query. Whatever it answers, the client, which
      receives 512 octets of that, reads no addresses at all. */
  lemma LongQueryIsLost(aton: Aton, name: string, ips: seq<string>)
    requires GoodName(name) && BuildQuery(name).Ok? && |BuildQuery(name).value| > 512
    requires 0 < |ips| < 65536 && Accepted(aton, ips)
    ensures
      var received := BuildQuery(name).value[..512];
      BuildResponse(aton, received, ips).Ok? && |BuildResponse(aton, received, ips).value| > 512
      && ClientReads(BuildResponse(aton, received, ips).value[..512]).Err?
  {
    var query, labels := BuildQuery(name).value, Split(name);
    var received := query[..512];
    QueryHolds(name);
    ResponseHolds(aton, received, ips);
    var data := BuildResponse(aton, received, ips).value;
    var got := data[..512];
    SkipsCut(query, got, 12, labels);
    assert got[6..8] == data[6..8];
    CountIsRead(got, |ips|);
    if SkipName(got, 12).Ok? {
      CutAfterOne(got, |query|, |ips|, []);
    }
  }

  /** A reply answers with the valid addresses of some service. */
  lemma RepliesAreResponses(aton: Aton, alive: string -> seq<string>, domain: string, data: Bytes)
    returns (ips: seq<string>)
    requires HandleQuery(aton, alive, domain, data).Some?
    ensures 0 < |ips| < 65536 && Accepted(aton, ips)
    ensures BuildResponse(aton, data, ips) == Ok(HandleQuery(aton, alive, domain, data).value)
  {
    var name, suffix := Qname(data).value, Lower("." + domain);
    var nodes := alive(name[..|name| - |suffix|]);
    ValidAreAccepted(aton, nodes);
    ips := Valid(aton, nodes);
  }

  /** While the query fits in a datagram, the responder answers for exactly the service asked for. */
  lemma AnsweredExactly(aton: Aton, alive: string -> seq<string>, domain: string, service: string)
    requires GoodName(service + "." + domain) && BuildQuery(service + "." + domain).Ok?
    ensures
      var query := BuildQuery(service + "." + domain).value;
      var ips := Valid(aton, alive(Lower(service)));
      Accepted(aton, ips) && EndsInQuestion(query)
      && HandleQuery(aton, alive, domain, query)
         == if 0 < |ips| < 65536 && BuildResponse(aton, query, ips).Ok?
            then Some(BuildResponse(aton, query, ips).value) else None
  {
    var name, suffix := service + "." + domain, "." + domain;
    assert name == service + suffix;
    NameRoundTrip(name);
    LowerConcat(service, suffix);
    var low := Lower(name);
    assert low == Lower(service) + Lower(suffix);
    HandlesName(aton, alive, domain, BuildQuery(name).value, Lower(service));
    ValidAreAccepted(aton, alive(Lower(service)));
    QueryEndsExactly(name);
    if 0 < |Valid(aton, alive(Lower(service)))| < 65536 {
      AcceptedAreBuilt(aton, Valid(aton, alive(Lower(service))));
    }
  }

  lemma HandlesName(aton: Aton, alive: string -> seq<string>, domain: string, data: Bytes, service: string)
    requires Qname(data) == Ok(service + Lower("." + domain))
    ensures
      var ips := Valid(aton, alive(service));
      HandleQuery(aton, alive, domain, data)
      == if ips != [] && BuildResponse(aton, data, ips).Ok? then Some(BuildResponse(aton, data, ips).value) else None
  {
    var name, suffix := service + Lower("." + domain), Lower("." + domain);
    assert name[|name| - |suffix|..] == suffix && name[..|name| - |suffix|] == service;
  }

  /** A lookup as both programs receive it, 512 octets at a time, in whatever case the name is typed: the
      client reads exactly the valid addresses of the service's alive nodes, in order, if and only if
      there are some and the query with sixteen octets for each of them fits in a datagram. */
  lemma LookupEndToEnd(aton: Aton, alive: string -> seq<string>, domain: string, service: string)
    requires GoodName(service + "." + domain) && BuildQuery(service + "." + domain).Ok?
    ensures
      var query := BuildQuery(service + "." + domain).value;
      var ips := Valid(aton, alive(Lower(service)));
      var reply := HandleQuery(aton, alive, domain, Take(query, 512));
      Accepted(aton, ips)
      && (reply.Some? && ClientReads(Take(reply.value, 512)) == Ok(Addresses(aton, ips))
          <==> ips != [] && |query| + 16 * |ips| <= 512)
  {
    var query := BuildQuery(service + "." + domain).value;
    var ips := Valid(aton, alive(Lower(service)));
    AnsweredExactly(aton, alive, domain, service);
    if |query| <= 512 {
      assert Take(query, 512) == query;
      if 0 < |ips| < 65536 {
        FitsExactly(aton, query, ips);
      }
    } else if HandleQuery(aton, alive, domain, query[..512]).Some? {
      var others := RepliesAreResponses(aton, alive, domain, query[..512]);
      LongQueryIsLost(aton, service + "." + domain, others);
    }
  }

  // ----- The registered text itself -----

  ghost predicate AllPlain(ips: seq<string>) { forall i :: 0 <= i < |ips| ==> PlainAddress(ips[i]) }

  /** An address list comes back as the very strings registered if and only if these are plain. Others
      that the system accepts ("127.1") come back spelled out. */
  lemma {:induction false} PlainAddressesSurvive(aton: Aton, ips: seq<string>)
    requires ReadsPlain(aton) && Accepted(aton, ips)
    ensures Addresses(aton, ips) == ips <==> AllPlain(ips)
  {
    if ips != [] {
      PlainAddressesSurvive(aton, ips[1..]);
      assert ips == [ips[0]] + ips[1..];
      if PlainAddress(ips[0]) {
        PlainIsDotted(ips[0]);
      }
      DottedIsPlain(aton(ips[0]).value);
    }
  }

  /** After any query that ends in its question, any list of fewer than 65536 plain addresses comes back
      exactly, in order. */
  lemma PlainRoundTrip(aton: Aton, query: Bytes, ips: seq<string>)
    requires ReadsPlain(aton) && EndsInQuestion(query) && |ips| < 65536 && AllPlain(ips)
    ensures BuildResponse(aton, query, ips).Ok?
    ensures ClientReads(BuildResponse(aton, query, ips).value) == Ok(ips)
  {
    assert Accepted(aton, ips);
    ResponseRoundTrip(aton, query, ips);
    PlainAddressesSurvive(aton, ips);
  }

  /** The client reads back every list of plain addresses sent in answer to this query. */
  ghost predicate ReturnsEveryPlainList(aton: Aton, query: Bytes) {
    forall ips: seq<string> | |ips| < 65536 && AllPlain(ips) ::
      match BuildResponse(aton, query, ips)
      case Err(_) => false
      case Ok(data) => ClientReads(data) == Ok(ips)
  }

  /** For ASCII names (the responder drops the others), every plain address list comes back exactly when
      no label is empty: a name with a trailing dot is answered and misread. */
  lemma PlainRoundTripsExactly(aton: Aton, name: string)
    requires ReadsPlain(aton) && AsciiName(name) && BuildQuery(name).Ok?
    ensures ReturnsEveryPlainList(aton, BuildQuery(name).value) <==> GoodName(name)
  {
    var query := BuildQuery(name).value;
    QueryEndsExactly(name);
    if GoodName(name) {
      forall ips: seq<string> | |ips| < 65536 && AllPlain(ips)
        ensures match BuildResponse(aton, query, ips)
                case Err(_) => false
                case Ok(data) => ClientReads(data) == Ok(ips)
      {
        PlainRoundTrip(aton, query, ips);
      }
    } else {
      MisreadsPlain(aton, query);
    }
  }

  lemma MisreadsPlain(aton: Aton, query: Bytes)
    requires ReadsPlain(aton)
    requires |query| >= 12 && SkipName(query, 12).Ok? && SkipName(query, 12).value + 5 < |query|
    ensures !ReturnsEveryPlainList(aton, query)
  {
    TwoPlain();
    assert aton("0.0.0.0").Some? && aton("1.1.1.1").Some?;
    OneIsMisread(aton, query);
    if ClientReads(BuildResponse(aton, query, ["0.0.0.0"]).value) != Ok(["0.0.0.0"]) {
      OneIsEnough(aton, query, "0.0.0.0");
    } else {
      OneIsEnough(aton, query, "1.1.1.1");
    }
  }

  lemma OneIsEnough(aton: Aton, query: Bytes, ip: string)
    requires PlainAddress(ip) && BuildResponse(aton, query, [ip]).Ok?
    requires ClientReads(BuildResponse(aton, query, [ip]).value) != Ok([ip])
    ensures !ReturnsEveryPlainList(aton, query)
  {
    assert AllPlain([ip]);
  }

  lemma TwoPlain()
    ensures PlainAddress("0.0.0.0") && PlainAddress("1.1.1.1")
  {
    var zeros: Quad, ones: Quad := [0, 0, 0, 0], [1, 1, 1, 1];
    assert Decimal(0) == "0" && Decimal(1) == "1";
    Dotted4(zeros);
    Dotted4(ones);
    assert "0" + "." + ("0" + "." + ("0" + "." + "0")) == "0.0.0.0";
    assert "1" + "." + ("1" + "." + ("1" + "." + "1")) == "1.1.1.1";
    DottedIsPlain(zeros);
    DottedIsPlain(ones);
  }
}
