/** What a name and an address list become on the way through the query client, the responder and back. */
module DnsLaws {
  import opened Options
  import opened Dns

  // ----- Text -----

  lemma {:induction false} JoinSplit(name: string)
    ensures Join(Split(name)) == name
  {
    if name != "" {
      JoinSplit(name[1..]);
      var rest := Split(name[1..]);
      if name[0] == '.' {
        assert ([""] + rest)[1..] == rest;
      } else {
        assert ([[name[0]] + rest[0]] + rest[1..])[1..] == rest[1..];
        assert Join(Split(name)) == [name[0]] + Join(rest);
      }
    }
  }

  predicate AsciiText(s: string) { forall i :: 0 <= i < |s| ==> s[i] as int < 128 }

  lemma {:induction false} AsciiIsOneOctetEach(s: string)
    requires AsciiText(s)
    ensures |Encode(s)| == |s| && DecodeAscii(Encode(s)) == Ok(s)
  {
    if s != "" {
      AsciiIsOneOctetEach(s[1..]);
      assert Encode(s)[1..] == Encode(s[1..]);
      assert [s[0]] + s[1..] == s;
    }
  }

  /** As many octets as there are characters take in the first octet outside ASCII. */
  lemma {:induction false} OtherTextShows(s: string)
    ensures |Encode(s)| >= |s|
    ensures !AsciiText(s) ==> DecodeAscii(Encode(s)[..|s|]) == Err(UnicodeDecodeError)
  {
    if s != "" {
      OtherTextShows(s[1..]);
      if s[0] as int < 128 {
        assert Encode(s)[..|s|][1..] == Encode(s[1..])[..|s| - 1];
        assert AsciiText(s[1..]) ==> AsciiText(s) by {
          assert forall i :: 1 <= i < |s| ==> s[i] == s[1..][i - 1];
        }
      }
    }
  }

  // ----- The responder's reading of a name -----

  /** What the responder makes of the labels a client sends: it stops at an empty one and gives up on
      one with a character outside ASCII. */
  function Understood(labels: seq<string>): Result<seq<string>, Error> {
    if labels == [] || labels[0] == "" then Ok([])
    else if !AsciiText(labels[0]) then Err(UnicodeDecodeError)
    else Prepend([labels[0]], Understood(labels[1..]))
  }

  /** The message has this piece at this offset. */
  ghost predicate Holds(data: Bytes, at: nat, piece: Bytes)
    decreases |piece|
  {
    if piece == [] then at <= |data|
    else at < |data| && data[at] == piece[0] && Holds(data, at + 1, piece[1..])
  }

  lemma {:induction false} HoldsExactly(data: Bytes, at: nat, piece: Bytes)
    ensures Holds(data, at, piece) <==> at + |piece| <= |data| && data[at..at + |piece|] == piece
    decreases |piece|
  {
    if piece != [] {
      HoldsExactly(data, at + 1, piece[1..]);
      if at + |piece| <= |data| {
        assert data[at..at + |piece|] == [data[at]] + data[at + 1..at + |piece|];
        assert piece == [piece[0]] + piece[1..];
      }
    }
  }

  lemma {:induction false} HoldsParts(data: Bytes, at: nat, a: Bytes, b: Bytes)
    requires Holds(data, at, a + b)
    ensures Holds(data, at, a) && Holds(data, at + |a|, b)
    decreases |a|
  {
    if a == [] {
      assert a + b == b;
      HoldsExactly(data, at, b);
    } else {
      assert (a + b)[1..] == a[1..] + b;
      HoldsParts(data, at + 1, a[1..], b);
    }
  }

  lemma HoldsChain(data: Bytes, at: nat, a: Bytes, b: Bytes, c: Bytes)
    requires Holds(data, at, (a + b) + c)
    ensures Holds(data, at, a) && Holds(data, at + |a|, b + c)
  {
    assert (a + b) + c == a + (b + c);
    HoldsParts(data, at, a, b + c);
  }

  lemma HoldsSlice(data: Bytes, at: nat, piece: Bytes, n: nat)
    requires Holds(data, at, piece) && n <= |piece|
    ensures Slice(data, at, n) == piece[..n]
  {
    HoldsExactly(data, at, piece);
    assert data[at..at + |piece|][..n] == data[at..at + n];
    assert at >= |data| ==> n == 0 && piece[..n] == [];
  }

  /** The responder reads as many octets as the label has characters. */
  lemma ReadsBackPart(data: Bytes, at: nat, name: string)
    requires Holds(data, at, Encode(name))
    ensures DecodeAscii(Slice(data, at, |name|)) == if AsciiText(name) then Ok(name) else Err(UnicodeDecodeError)
  {
    OtherTextShows(name);
    HoldsSlice(data, at, Encode(name), |name|);
    if AsciiText(name) {
      AsciiIsOneOctetEach(name);
      assert Encode(name)[..|name|] == Encode(name);
    }
  }

  lemma ReadsOneLabel(data: Bytes, at: nat, name: string, parts: seq<string>)
    requires at < |data| && data[at] == |name|
    requires DecodeAscii(Slice(data, at + 1, |name|)) == if AsciiText(name) then Ok(name) else Err(UnicodeDecodeError)
    ensures
      DecodeLabels(data, at, parts) ==
      if name == "" then Ok(parts)
      else if !AsciiText(name) then Err(UnicodeDecodeError)
      else DecodeLabels(data, at + 1 + |name|, parts + [name])
  {
  }

  /** One label of a message, as the responder reads it. */
  lemma ReadsBackLabel(data: Bytes, at: nat, name: string, parts: seq<string>)
    requires |name| <= 255 && Holds(data, at, [|name|] + Encode(name))
    ensures
      DecodeLabels(data, at, parts) ==
      if name == "" then Ok(parts)
      else if !AsciiText(name) then Err(UnicodeDecodeError)
      else DecodeLabels(data, at + 1 + |name|, parts + [name])
  {
    var length: Bytes := [|name|];
    HoldsParts(data, at, length, Encode(name));
    assert at < |data| && data[at] == length[0] == |name|;
    ReadsBackPart(data, at + 1, name);
    ReadsOneLabel(data, at, name, parts);
  }

  lemma {:induction false} ReadsBackLabels(data: Bytes, at: nat, labels: seq<string>, parts: seq<string>)
    requires EncodeLabels(labels).Ok? && Holds(data, at, EncodeLabels(labels).value + [0])
    ensures DecodeLabels(data, at, parts) == Prepend(parts, Understood(labels))
    decreases |labels|
  {
    if labels == [] {
      HoldsEnd(data, at);
      PrependNothing(parts);
    } else {
      SplitLabel(data, at, labels);
      ReadsBackLabel(data, at, labels[0], parts);
      if labels[0] == "" {
        PrependNothing(parts);
      } else if AsciiText(labels[0]) {
        ReadsBackLabels(data, at + 1 + |labels[0]|, labels[1..], parts + [labels[0]]);
        PrependTwice(parts, [labels[0]], Understood(labels[1..]));
      }
    }
  }

  lemma HoldsEnd(data: Bytes, at: nat)
    requires Holds(data, at, [] + [0])
    ensures at < |data| && data[at] == 0
  {
    assert [] + [0] == [0];
  }

  lemma PrependNothing(parts: seq<string>)
    ensures Prepend(parts, Ok([])) == Ok(parts)
  {
    assert parts + [] == parts;
  }

  lemma SplitLabel(data: Bytes, at: nat, labels: seq<string>)
    requires labels != [] && EncodeLabels(labels).Ok? && Holds(data, at, EncodeLabels(labels).value + [0])
    ensures |labels[0]| <= 255 && Holds(data, at, [|labels[0]|] + Encode(labels[0]))
    ensures EncodeLabels(labels[1..]).Ok?
    ensures Holds(data, at + 1 + |Encode(labels[0])|, EncodeLabels(labels[1..]).value + [0])
    ensures AsciiText(labels[0]) ==> |Encode(labels[0])| == |labels[0]|
  {
    if AsciiText(labels[0]) {
      AsciiIsOneOctetEach(labels[0]);
    }
    HoldsChain(data, at, [|labels[0]|] + Encode(labels[0]), EncodeLabels(labels[1..]).value, [0]);
  }

  // ----- Which names survive -----

  predicate GoodLabel(part: string) { part != "" && AsciiText(part) }

  predicate GoodName(name: string) { forall i :: 0 <= i < |Split(name)| ==> GoodLabel(Split(name)[i]) }

  predicate AsciiName(name: string) { forall i :: 0 <= i < |Split(name)| ==> AsciiText(Split(name)[i]) }

  lemma {:induction false} UnderstoodExactly(labels: seq<string>)
    ensures Understood(labels) == Ok(labels) <==> forall i :: 0 <= i < |labels| ==> GoodLabel(labels[i])
  {
    if labels != [] {
      UnderstoodExactly(labels[1..]);
      assert labels == [labels[0]] + labels[1..];
    }
  }

  /** Labels lost at the end of a name are missed in its text, unless the name was empty. */
  lemma {:induction false} UnderstoodIsShorter(labels: seq<string>)
    requires Understood(labels).Ok? && Understood(labels).value != labels && labels != [""]
    ensures |Join(Understood(labels).value)| < |Join(labels)|
  {
    if labels[0] != "" {
      assert labels == [labels[0]] + labels[1..];
      if labels[1..] != [""] {
        UnderstoodIsShorter(labels[1..]);
      }
    }
  }

  lemma {:induction false} EncodesExactly(labels: seq<string>)
    ensures EncodeLabels(labels).Ok? <==> forall i :: 0 <= i < |labels| ==> |labels[i]| <= 255
  {
    if labels != [] {
      EncodesExactly(labels[1..]);
      assert forall i :: 1 <= i < |labels| ==> labels[i] == labels[1..][i - 1];
      assert forall i :: 0 <= i < |labels[1..]| ==> labels[1..][i] == labels[i + 1];
    }
  }

  lemma QueryHolds(name: string)
    requires BuildQuery(name).Ok?
    ensures
      var query := BuildQuery(name).value;
      |query| == 12 + |EncodeLabels(Split(name)).value| + 5
      && Holds(query, 12, EncodeLabels(Split(name)).value + [0])
  {
    var body: Bytes := EncodeLabels(Split(name)).value + [0];
    var query := BuildQuery(name).value;
    assert query == QUERY_HEADER + body + QUERY_TAIL;
    assert query[12..12 + |body|] == body;
    HoldsExactly(query, 12, body);
  }

  /** The responder reads a name back, in lower case, exactly when every label is non-empty ASCII (or
      the name itself is empty). */
  lemma NameRoundTrip(name: string)
    ensures BuildQuery(name).Ok? <==> forall i :: 0 <= i < |Split(name)| ==> |Split(name)[i]| <= 255
    ensures BuildQuery(name).Ok? ==>
              (Qname(BuildQuery(name).value) == Ok(Lower(name)) <==> name == "" || GoodName(name))
  {
    var labels := Split(name);
    EncodesExactly(labels);
    JoinSplit(name);
    if BuildQuery(name).Ok? {
      QueryHolds(name);
      var query := BuildQuery(name).value;
      ReadsBackLabels(query, 12, labels, []);
      PrependTwice([], [], Understood(labels));
      UnderstoodExactly(labels);
      if Understood(labels).Ok? && Understood(labels).value != labels && labels != [""] {
        UnderstoodIsShorter(labels);
      }
    }
  }
}
