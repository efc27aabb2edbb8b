/** Plain dotted-quad text: four decimal numbers below 256, without leading zeros, joined by dots. What
    the client prints is such text, and it says which address it is. */
module AddressText {
  import opened Options
  import opened Dns
  import opened DnsLaws

  predicate Digits(s: string) { forall i :: 0 <= i < |s| ==> '0' <= s[i] <= '9' }

  /** int(s) */
  function ValueOf(s: string): nat
    requires Digits(s)
  {
    if s == "" then 0 else 10 * ValueOf(s[..|s| - 1]) + (s[|s| - 1] as int - 48)
  }

  /** A number as `str` writes it. */
  predicate PlainNumber(s: string) { s != "" && Digits(s) && (s[0] == '0' ==> |s| == 1) }

  predicate PlainOctet(s: string) { PlainNumber(s) && ValueOf(s) < 256 }

  predicate PlainAddress(s: string) {
    |Split(s)| == 4 && forall i :: 0 <= i < 4 ==> PlainOctet(Split(s)[i])
  }

  function QuadOf(s: string): Quad
    requires PlainAddress(s)
  {
    var p := Split(s);
    [ValueOf(p[0]), ValueOf(p[1]), ValueOf(p[2]), ValueOf(p[3])]
  }

  // ----- Numbers -----

  lemma {:induction false} DecimalIsPlain(b: nat)
    ensures PlainNumber(Decimal(b)) && ValueOf(Decimal(b)) == b
    ensures b > 0 ==> Decimal(b)[0] != '0'
    decreases b
  {
    var s := Decimal(b);
    if b >= 10 {
      DecimalIsPlain(b / 10);
      assert s[..|s| - 1] == Decimal(b / 10);
      assert s[0] == Decimal(b / 10)[0];
    } else {
      assert s[..0] == "";
    }
  }

  lemma LastDigit(v: nat, d: nat)
    requires d < 10
    ensures (10 * v + d) / 10 == v && (10 * v + d) % 10 == d
  {
  }

  lemma {:induction false} PlainIsDecimal(s: string)
    requires PlainNumber(s)
    ensures Decimal(ValueOf(s)) == s
  {
    var init, d := s[..|s| - 1], s[|s| - 1] as int - 48;
    assert s == init + [s[|s| - 1]];
    if init != "" {
      PlainIsDecimal(init);
      var v := ValueOf(init);
      assert Decimal(0)[0] == '0' && init[0] == s[0] != '0';
      assert v != 0;
      LastDigit(v, d);
    }
  }

  // ----- Four of them -----

  predicate NoDot(s: string) { forall i :: 0 <= i < |s| ==> s[i] != '.' }

  lemma {:induction false} SplitFirst(a: string, rest: string)
    requires NoDot(a)
    ensures Split(a) == [a]
    ensures Split(a + "." + rest) == [a] + Split(rest)
  {
    if a == "" {
      assert ("" + "." + rest)[1..] == rest;
    } else {
      SplitFirst(a[1..], rest);
      assert (a + "." + rest)[1..] == a[1..] + "." + rest;
      assert [a[0]] + a[1..] == a;
    }
  }

  lemma PlainHasNoDot(s: string)
    requires PlainNumber(s)
    ensures NoDot(s)
  {
  }

  lemma SplitFour(a: string, b: string, c: string, d: string)
    requires NoDot(a) && NoDot(b) && NoDot(c) && NoDot(d)
    ensures Split(a + "." + (b + "." + (c + "." + d))) == [a, b, c, d]
  {
    SplitFirst(a, b + "." + (c + "." + d));
    SplitFirst(b, c + "." + d);
    SplitFirst(c, d);
    SplitFirst(d, "");
  }

  lemma Dotted4(q: Quad)
    ensures Dotted(q) == Decimal(q[0]) + "." + (Decimal(q[1]) + "." + (Decimal(q[2]) + "." + Decimal(q[3])))
  {
    assert q[1..][1..] == q[2..] && q[2..][1..] == q[3..];
    assert Dotted(q[3..]) == Decimal(q[3]);
    assert Dotted(q[2..]) == Decimal(q[2]) + "." + Dotted(q[3..]);
    assert Dotted(q[1..]) == Decimal(q[1]) + "." + Dotted(q[2..]);
  }

  /** What the client prints for an address is plain, and is that address. */
  lemma DottedIsPlain(q: Quad)
    ensures PlainAddress(Dotted(q)) && QuadOf(Dotted(q)) == q
  {
    Dotted4(q);
    var a, b, c, d := Decimal(q[0]), Decimal(q[1]), Decimal(q[2]), Decimal(q[3]);
    DecimalIsPlain(q[0]);
    DecimalIsPlain(q[1]);
    DecimalIsPlain(q[2]);
    DecimalIsPlain(q[3]);
    SplitFour(a, b, c, d);
    var p := Split(Dotted(q));
    assert p[0] == a && p[1] == b && p[2] == c && p[3] == d;
  }

  /** A plain address is what the client prints for it. */
  lemma PlainIsDotted(s: string)
    requires PlainAddress(s)
    ensures Dotted(QuadOf(s)) == s
  {
    var p := Split(s);
    assert PlainOctet(p[0]) && PlainOctet(p[1]) && PlainOctet(p[2]) && PlainOctet(p[3]);
    PlainIsDecimal(p[0]);
    PlainIsDecimal(p[1]);
    PlainIsDecimal(p[2]);
    PlainIsDecimal(p[3]);
    Dotted4(QuadOf(s));
    JoinSplit(s);
    JoinFour(p);
  }

  lemma JoinFour(p: seq<string>)
    requires |p| == 4
    ensures Join(p) == p[0] + "." + (p[1] + "." + (p[2] + "." + p[3]))
  {
    assert p[1..][1..] == p[2..] && p[2..][1..] == p[3..];
    assert Join(p[3..]) == p[3];
    assert Join(p[2..]) == p[2] + "." + Join(p[3..]);
    assert Join(p[1..]) == p[1] + "." + Join(p[2..]);
  }

  /** `inet_aton` accepts more than plain addresses; what matters is that it reads those right. */
  ghost predicate ReadsPlain(aton: Aton) {
    forall s :: PlainAddress(s) ==> aton(s) == Some(QuadOf(s))
  }
}
