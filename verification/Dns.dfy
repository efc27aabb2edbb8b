/** The DNS responder (huddle_cluster_pkg/cluster_service_discovery.py) and the query client
    (demos/dns_query.py), byte by byte: sections 3.1 and 4.1 of RFC 1035. */
module Dns {
  import opened Options

  type Byte = b: int | 0 <= b < 256
  type Bytes = seq<Byte>

  datatype Error = ValueError | UnicodeDecodeError | IndexError | StructError | OsError

  /** s[n:], which is empty past the end. */
  function Drop(s: Bytes, n: nat): Bytes { if n <= |s| then s[n..] else [] }

  /** s[:n] */
  function Take(s: Bytes, n: nat): Bytes { if n <= |s| then s[..n] else s }

  /** What a loop has collected so far, followed by what the rest of it will: an error stays one. */
  function Prepend<T>(xs: seq<T>, r: Result<seq<T>, Error>): Result<seq<T>, Error> {
    if r.Err? then r else Ok(xs + r.value)
  }

  lemma PrependTwice<T>(xs: seq<T>, ys: seq<T>, r: Result<seq<T>, Error>)
    ensures Prepend(xs, Prepend(ys, r)) == Prepend(xs + ys, r)
    ensures Prepend([], r) == r
  {
    if r.Ok? {
      assert xs + (ys + r.value) == (xs + ys) + r.value;
      assert [] + r.value == r.value;
    }
  }

  // ----- Names -----

  /** name.split(".") */
  function Split(name: string): (labels: seq<string>)
    ensures labels != []
  {
    if name == "" then [""]
    else
      var rest := Split(name[1..]);
      if name[0] == '.' then [""] + rest else [[name[0]] + rest[0]] + rest[1..]
  }

  /** ".".join(labels) */
  function Join(labels: seq<string>): string {
    if labels == [] then "" else if |labels| == 1 then labels[0] else labels[0] + "." + Join(labels[1..])
  }

  function LowerChar(c: char): char { if 'A' <= c <= 'Z' then (c as int + 32) as char else c }

  /** str.lower() on ASCII text */
  function Lower(s: string): (t: string)
    ensures |t| == |s|
  {
    if s == "" then "" else [LowerChar(s[0])] + Lower(s[1..])
  }

  /** The last n octets of a character's UTF-8 form, six bits each. */
  function Continuation(v: nat, n: nat): (r: Bytes)
    ensures |r| == n
  {
    if n == 0 then [] else Continuation(v / 64, n - 1) + [0x80 + v % 64]
  }

  /** str.encode(), one character */
  function Utf8(c: char): (r: Bytes)
    ensures |r| >= 1
    ensures if c as int < 128 then r == [c as int] else r[0] >= 128
  {
    var v := c as int;
    if v < 0x80 then [v]
    else if v < 0x800 then [0xC0 + v / 0x40] + Continuation(v, 1)
    else if v < 0x10000 then [0xE0 + v / 0x1000] + Continuation(v, 2)
    else [0xF0 + v / 0x40000] + Continuation(v, 3)
  }

  function Encode(s: string): Bytes { if s == "" then [] else Utf8(s[0]) + Encode(s[1..]) }

  // ----- build_query -----

  /** bytes([len(p)]) + p.encode(), for each label: the length counts characters, not octets. */
  function EncodeLabels(labels: seq<string>): Result<Bytes, Error> {
    if labels == [] then Ok([])
    else if |labels[0]| > 255 then Err(ValueError)
    else Prepend([|labels[0]|] + Encode(labels[0]), EncodeLabels(labels[1..]))
  }

  const QUERY_HEADER: Bytes := [0x12, 0x34, 0x01, 0x00, 0x00, 0x01, 0, 0, 0, 0, 0, 0]
  const QUERY_TAIL: Bytes := [0, 1, 0, 1]   // QTYPE A, QCLASS IN

  function BuildQuery(name: string): Result<Bytes, Error> {
    match EncodeLabels(Split(name))
    case Err(e) => Err(e)
    case Ok(qname) => Ok(QUERY_HEADER + qname + [0] + QUERY_TAIL)
  }

  // ----- The responder's QNAME loop -----

  /** bytes.decode("ascii") */
  function DecodeAscii(s: Bytes): Result<string, Error> {
    if s == [] then Ok("")
    else if s[0] >= 128 then Err(UnicodeDecodeError)
    else Prepend([s[0] as char], DecodeAscii(s[1..]))
  }

  /** data[idx : idx + length] */
  function Slice(data: Bytes, idx: nat, length: nat): Bytes {
    if idx >= |data| then []
    else if idx + length <= |data| then data[idx..idx + length]
    else data[idx..]
  }

  /** The labels from the length octet at idx on, after the labels already read. */
  function DecodeLabels(data: Bytes, idx: nat, parts: seq<string>): Result<seq<string>, Error>
    decreases |data| - idx
  {
    if idx >= |data| || data[idx] == 0 then Ok(parts)
    else
      var length: nat := data[idx];
      match DecodeAscii(Slice(data, idx + 1, length))
      case Err(e) => Err(e)
      case Ok(part) => DecodeLabels(data, idx + 1 + length, parts + [part])
  }

  /** The queried name, from offset 12 of a message. */
  function Qname(data: Bytes): Result<string, Error> {
    match DecodeLabels(data, 12, [])
    case Err(e) => Err(e)
    case Ok(labels) => Ok(Lower(Join(labels)))
  }

  method DecodeQname(data: Bytes) returns (name: Result<string, Error>)
    ensures name == Qname(data)
  {
    var parts: seq<string> := [];
    var idx: nat := 12;
    while idx < |data|
      invariant DecodeLabels(data, 12, []) == DecodeLabels(data, idx, parts)
      decreases |data| - idx
    {
      var length: nat := data[idx];
      if length == 0 {
        break;
      }
      idx := idx + 1;
      var part := DecodeAscii(Slice(data, idx, length));
      if part.Err? {
        return Err(part.error);
      }
      parts := parts + [part.value];
      idx := idx + length;
    }
    name := Ok(Lower(Join(parts)));
  }

  // ----- _build_dns_response -----

  type Quad = q: Bytes | |q| == 4 witness [0, 0, 0, 0]

  /** socket.inet_aton: None is OSError. */
  type Aton = string -> Option<Quad>

  function Be16(n: nat): Bytes
    requires n < 65536
  {
    [n / 256, n % 256]
  }

  /** Name pointer to offset 12, type A, class IN, TTL 10, RDLENGTH 4, address. */
  function Answer(q: Quad): Bytes { [0xC0, 0x0C, 0, 1, 0, 1, 0, 0, 0, 10, 0, 4] + q }

  function Answers(aton: Aton, ips: seq<string>): Result<Bytes, Error> {
    if ips == [] then Ok([])
    else
      match aton(ips[0])
      case None => Err(OsError)
      case Some(q) => Prepend(Answer(q), Answers(aton, ips[1..]))
  }

  function ResponseHead(query: Bytes, count: nat): Bytes
    requires count < 65536
  {
    Take(query, 2) + [0x84, 0x00, 0, 1] + Be16(count) + [0, 0, 0, 0] + Drop(query, 12)
  }

  function BuildResponse(aton: Aton, query: Bytes, ips: seq<string>): Result<Bytes, Error> {
    if |ips| >= 65536 then Err(StructError)
    else
      match Answers(aton, ips)
      case Err(e) => Err(e)
      case Ok(answers) => Ok(ResponseHead(query, |ips|) + answers)
  }

  method BuildDnsResponse(aton: Aton, query: Bytes, ips: seq<string>) returns (r: Result<Bytes, Error>)
    ensures r == BuildResponse(aton, query, ips)
  {
    if |ips| >= 65536 {
      return Err(StructError);
    }
    var answers: Bytes := [];
    PrependTwice(answers, [], Answers(aton, ips));
    assert ips[0..] == ips;
    for i := 0 to |ips|
      invariant Answers(aton, ips) == Prepend(answers, Answers(aton, ips[i..]))
    {
      assert ips[i..][1..] == ips[i + 1..];
      match aton(ips[i]) {
        case None => return Err(OsError);
        case Some(q) =>
          PrependTwice(answers, Answer(q), Answers(aton, ips[i + 1..]));
          answers := answers + Answer(q);
      }
    }
    assert ips[|ips|..] == [] && answers + [] == answers;
    r := Ok(ResponseHead(query, |ips|) + answers);
  }

  /** `_handle_dns_query`: None is a dropped query. `alive` is the registry. */
  function HandleQuery(aton: Aton, alive: string -> seq<string>, domain: string, data: Bytes): Option<Bytes> {
    match Qname(data)
    case Err(_) => None
    case Ok(name) =>
      var suffix := Lower("." + domain);
      if |name| < |suffix| || name[|name| - |suffix|..] != suffix then None
      else
        var ips := Valid(aton, alive(name[..|name| - |suffix|]));
        if ips == [] then None
        else
          match BuildResponse(aton, data, ips)
          case Err(_) => None
          case Ok(response) => Some(response)
  }

  function Valid(aton: Aton, ips: seq<string>): seq<string> {
    if ips == [] then []
    else if aton(ips[0]).Some? then [ips[0]] + Valid(aton, ips[1..])
    else Valid(aton, ips[1..])
  }

  // ----- parse_a_records -----

  /** str(b) */
  function Decimal(b: nat): string
    decreases b
  {
    var digit := [(b % 10 + 48) as char];
    if b < 10 then digit else Decimal(b / 10) + digit
  }

  function Dotted(octets: Bytes): string {
    if octets == [] then ""
    else if |octets| == 1 then Decimal(octets[0])
    else Decimal(octets[0]) + "." + Dotted(octets[1..])
  }

  /** From a length octet to the zero octet that ends the name. */
  function SkipName(data: Bytes, pos: nat): Result<nat, Error>
    decreases |data| - pos
  {
    if pos >= |data| then Err(IndexError)
    else if data[pos] == 0 then Ok(pos)
    else
      var length: nat := data[pos];
      SkipName(data, pos + length + 1)
  }

  /** struct.unpack(">H", field) */
  function FromBe16(field: Bytes): nat
    requires |field| == 2
  {
    var hi: nat, lo: nat := field[0], field[1];
    hi * 256 + lo
  }

  /** `count` answers from pos on, after the addresses already read. */
  function ReadAnswers(data: Bytes, pos: nat, count: nat, ips: seq<string>): Result<seq<string>, Error>
    decreases count
  {
    if count == 0 then Ok(ips)
    else
      var field := Slice(data, pos + 10, 2);
      if |field| != 2 then Err(StructError)
      else
        var rdlength := FromBe16(field);
        var address := if rdlength == 4 then [Dotted(Slice(data, pos + 12, 4))] else [];
        ReadAnswers(data, pos + 12 + rdlength, count - 1, ips + address)
  }

  function ParseARecords(data: Bytes, ancount: nat): Result<seq<string>, Error> {
    match SkipName(data, 12)
    case Err(e) => Err(e)
    case Ok(pos) => ReadAnswers(data, pos + 5, ancount, [])
  }

  method ParseARecordsLoop(data: Bytes, ancount: nat) returns (r: Result<seq<string>, Error>)
    ensures r == ParseARecords(data, ancount)
  {
    var ips: seq<string> := [];
    var pos: nat := 12;
    while pos < |data| && data[pos] != 0
      invariant SkipName(data, 12) == SkipName(data, pos)
      decreases |data| - pos
    {
      var length: nat := data[pos];
      pos := pos + length + 1;
    }
    if pos >= |data| {
      return Err(IndexError);
    }
    pos := pos + 1 + 4;
    for k := 0 to ancount
      invariant ParseARecords(data, ancount) == ReadAnswers(data, pos, ancount - k, ips)
    {
      pos := pos + 2 + 2 + 2 + 4;
      var field := Slice(data, pos, 2);
      if |field| != 2 {
        return Err(StructError);
      }
      var rdlength := FromBe16(field);
      pos := pos + 2;
      if rdlength == 4 {
        ips := ips + [Dotted(Slice(data, pos, 4))];
      } else {
        assert ips + [] == ips;
      }
      pos := pos + rdlength;
    }
    r := Ok(ips);
  }
}
