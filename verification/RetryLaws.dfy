/** What a request with retries promises: which server each attempt gets, when the request ends and how, and
    what the failed attempts leave on the servers. */
module RetryLaws {
  import opened Options
  import opened Rings
  import opened RingLaws
  import opened RoutingLaws

  // ----- The next server -----

  /** The scan stops at the first id from the front that is not excluded, and leaves it at the end. */
  lemma {:induction false} ScanTakesFirst(inner: seq<Id>, excluded: set<Id>, n: nat, i: nat)
    requires i < |inner| && i <= n && (inner[i] !in excluded || i == n)
    requires forall j :: 0 <= j < i ==> inner[j] in excluded
    ensures Scan(inner, excluded, n) == (inner[i + 1..] + inner[..i + 1], inner[i])
    decreases n
  {
    if i > 0 {
      var turned := Turn(inner);
      assert forall j :: 0 <= j < |inner| - 1 ==> turned[j] == inner[j + 1];
      ScanTakesFirst(turned, excluded, n - 1, i - 1);
      TurnedParts(inner, i);
    } else {
      assert inner[1..] + inner[..1] == Turn(inner);
    }
  }

  lemma TurnedParts(inner: seq<Id>, i: nat)
    requires i < |inner|
    ensures Turn(inner)[i..] + Turn(inner)[..i] == inner[i + 1..] + inner[..i + 1]
  {
    var turned := Turn(inner);
    assert turned[i..] == inner[i + 1..] + [inner[0]];
    assert inner[..i + 1] == [inner[0]] + turned[..i];
  }

  /** A retry goes to the first server from the front that the request has not tried, and the ring turns
      until that one is last; nothing else changes. */
  lemma RetryTakesFirst(r: Ring, tried: set<Id>, i: nat)
    requires i < |r.inner| && r.inner[i] !in tried && forall j :: 0 <= j < i ==> r.inner[j] in tried
    ensures GetExcluding(r, tried) == (r.(inner := r.inner[i + 1..] + r.inner[..i + 1]), Some(r.inner[i]))
  {
    ScanTakesFirst(r.inner, tried, |r.inner|, i);
  }

  lemma {:induction false} ScanComesRound(inner: seq<Id>, excluded: set<Id>, rest: seq<Id>)
    requires inner != [] && (forall x :: x in inner ==> x in excluded) && |rest| <= |inner|
    requires rest == inner[..|rest|]
    ensures Scan(inner, excluded, |rest|)
         == (Turn(inner[|rest|..] + rest), (inner[|rest|..] + rest)[0])
    decreases |rest|
  {
    if rest == [] {
      assert inner[0..] + rest == inner;
    } else {
      var turned, less := Turn(inner), rest[1..];
      TurnBag(inner);
      assert less == turned[..|less|];
      ScanComesRound(turned, excluded, less);
      assert turned[|less|..] + less == inner[|rest|..] + rest;
    }
  }

  /** When all were tried the scan comes round to the front. */
  lemma RetryStartsOver(r: Ring, tried: set<Id>)
    requires r.inner != [] && forall x :: x in r.inner ==> x in tried
    ensures GetExcluding(r, tried) == (r.(inner := Turn(r.inner)), Some(r.inner[0]))
  {
    ScanComesRound(r.inner, tried, r.inner);
    assert r.inner[..|r.inner|] == r.inner && r.inner[|r.inner|..] + r.inner == r.inner;
  }

  // ----- The end of the request -----

  /** There is no server at all. */
  ghost predicate Deserted(r: Ring) { r.inner == [] && r.outer == [] && r.draining == [] }

  lemma {:induction false} NextExists(r: Ring, key: Option<SessionKey>, tried: seq<Id>)
    ensures Next(r, key, tried).1.None? <==> Deserted(r)
    ensures Deserted(Next(r, key, tried).0) <==> Deserted(r)
  {
    if r.inner != [] {
      NextIsUntried(r, key, tried);
    }
  }

  ghost predicate AllRetryable(outcomes: seq<Outcome>, n: nat)
    requires n <= |outcomes|
  {
    forall i :: 0 <= i < n ==> outcomes[i] == FailsRetryable
  }

  /** How the request ends, told from the outcomes of its attempts. */
  ghost predicate EndsAsToldBy(r: Ring, before: nat, outcomes: seq<Outcome>, t: Retry) {
    && before <= |t.tried|
    && var n := |t.tried| - before;
       n <= |outcomes|
       && match t.verdict
          case Returned(id) =>
            n > 0 && AllRetryable(outcomes, n - 1) && outcomes[n - 1] == Succeeds && id == t.tried[|t.tried| - 1]
          case Raised(id) =>
            n > 0 && AllRetryable(outcomes, n - 1) && outcomes[n - 1] == FailsFatal && id == t.tried[|t.tried| - 1]
          case Exhausted =>
            if Deserted(r) then n == 0 else n == |outcomes| && AllRetryable(outcomes, n)
  }

  lemma OneMoreAttempt(r: Ring, r1: Ring, before: nat, outcomes: seq<Outcome>, t: Retry)
    requires outcomes != [] && outcomes[0] == FailsRetryable && !Deserted(r) && !Deserted(r1)
    requires EndsAsToldBy(r1, before + 1, outcomes[1..], t)
    ensures EndsAsToldBy(r, before, outcomes, t)
  {
    assert forall i :: 0 < i < |outcomes| ==> outcomes[i] == outcomes[1..][i - 1];
  }

  lemma {:induction false} AttemptsEnd(r: Ring, key: Option<SessionKey>, tried: seq<Id>, outcomes: seq<Outcome>)
    ensures EndsAsToldBy(r, |tried|, outcomes, Attempts(r, key, tried, outcomes))
    decreases |outcomes|
  {
    if outcomes != [] {
      NextExists(r, key, tried);
      var (r1, id) := Next(r, key, tried);
      if id.Some? && outcomes[0] == FailsRetryable {
        var r2 := PenaliseServer(r1, id.value);
        AttemptsEnd(r2, key, tried + [id.value], outcomes[1..]);
        OneMoreAttempt(r, r2, |tried|, outcomes, Attempts(r2, key, tried + [id.value], outcomes[1..]));
      }
    }
  }

  /** The first attempt that succeeds ends the request with its server, the first fatal failure raises, and
      with neither the request goes on until its attempts are used up; only a cluster without any server ends
      it before. */
  lemma {:induction false} RequestEndsExactly(r: Ring, key: Option<SessionKey>, outcomes: seq<Outcome>, n: nat)
    requires !Deserted(r) && n <= |outcomes| && AllRetryable(outcomes, n)
    requires n < |outcomes| ==> outcomes[n] != FailsRetryable
    ensures var t := Attempts(r, key, [], outcomes);
      if n == |outcomes| then |t.tried| == n && t.verdict == Exhausted
      else
        |t.tried| == n + 1
        && t.verdict == if outcomes[n] == Succeeds then Returned(t.tried[n]) else Raised(t.tried[n])
  {
    AttemptsEnd(r, key, [], outcomes);
  }

  // ----- What failures leave behind -----

  function Power(x: real, n: nat): real { if n == 0 then 1.0 else x * Power(x, n - 1) }

  /** The error rate after `n` failed attempts: each takes a tenth of what is missing to 1. */
  function Worn(rate: real, n: nat): real {
    if n == 0 then rate
    else
      var missing := (1.0 - rate) * Power(0.9, n);
      if missing > 0.0 then 1.0 - missing else 1.0
  }

  lemma Tenth(missing: real, power: real)
    ensures missing * (0.9 * power) == 0.9 * (missing * power)
  {
  }

  lemma {:induction false} WornOnce(rate: real, n: nat)
    ensures Worn(rate, n + 1) == if Worn(rate, n) * 0.9 + 0.1 < 1.0 then Worn(rate, n) * 0.9 + 0.1 else 1.0
    ensures n > 0 ==> Worn(rate, n) <= Worn(rate, n + 1)
  {
    Tenth(1.0 - rate, Power(0.9, n));
  }

  /** The metrics after `n` failed attempts on a server. */
  function Wear(m: Metrics, n: nat): Metrics {
    m.(errorRate := Worn(m.errorRate, n), healthy := m.healthy && (n == 0 || Worn(m.errorRate, n) <= 0.5))
  }

  lemma WearOnce(m: Metrics, n: nat)
    ensures Penalise(Wear(m, n)) == Wear(m, n + 1)
  {
    WornOnce(m.errorRate, n);
  }

  /** Nothing of the servers but the metrics of those that failed. */
  ghost predicate WornBy(before: map<Id, Server>, after: map<Id, Server>, failures: multiset<Id>) {
    && before.Keys == after.Keys
    && forall id :: id in before ==> after[id] == before[id].(metrics := Wear(before[id].metrics, failures[id]))
  }

  lemma OneMoreFailure(before: map<Id, Server>, r: Ring, failures: multiset<Id>, id: Id)
    requires WornBy(before, r.servers, failures)
    ensures WornBy(before, PenaliseServer(r, id).servers, failures + multiset{id})
  {
    if id in before {
      WearOnce(before[id].metrics, failures[id]);
    }
  }

  lemma NextLeavesServers(r: Ring, key: Option<SessionKey>, tried: seq<Id>)
    ensures Next(r, key, tried).0.servers == r.servers
  {
  }

  /** The attempts that failed and may be retried: all but the last, and the last too if the request
      is exhausted. */
  function Failures(t: Retry): seq<Id> {
    if t.verdict == Exhausted || t.tried == [] then t.tried else t.tried[..|t.tried| - 1]
  }

  lemma {:induction false} AttemptsWear(before: map<Id, Server>, r: Ring, key: Option<SessionKey>, tried: seq<Id>,
                                        outcomes: seq<Outcome>)
    requires WornBy(before, r.servers, multiset(tried))
    ensures var t := Attempts(r, key, tried, outcomes);
      WornBy(before, t.ring.servers, multiset(Failures(t)))
    decreases |outcomes|
  {
    if outcomes != [] {
      NextLeavesServers(r, key, tried);
      var (r1, id) := Next(r, key, tried);
      if id.Some? {
        assert (tried + [id.value])[..|tried|] == tried;
        if outcomes[0] == FailsRetryable {
          OneMoreFailure(before, r1, multiset(tried), id.value);
          assert multiset(tried + [id.value]) == multiset(tried) + multiset{id.value};
          AttemptsWear(before, PenaliseServer(r1, id.value), key, tried + [id.value], outcomes[1..]);
        }
      }
    }
  }

  /** A request leaves its mark on exactly the servers whose attempts failed and were retried: after n
      failures on one server its error rate is 1 - (1 - e) 0.9^n, and it is unhealthy once that is above
      one half. A success and a fatal failure leave none. */
  lemma {:induction false} PenaltiesAreExact(r: Ring, key: Option<SessionKey>, outcomes: seq<Outcome>)
    ensures var t := Attempts(r, key, [], outcomes);
      WornBy(r.servers, t.ring.servers, multiset(Failures(t)))
  {
    AttemptsWear(r.servers, r, key, [], outcomes);
  }

  /** So a server without errors stands six failures and is unhealthy after the seventh. */
  lemma SeventhFailureTells(m: Metrics, n: nat)
    requires m.healthy && m.errorRate == 0.0
    ensures Wear(m, n).healthy <==> n < 7
  {
    PowerIs(n);
  }

  lemma {:induction false} PowerIs(n: nat)
    ensures 0.0 < Power(0.9, n)
    ensures n <= 6 ==> Power(0.9, n) >= 0.5
    ensures n >= 7 ==> Power(0.9, n) < 0.5
  {
    if n == 7 {
      assert Power(0.9, 6) == 0.9 * (0.9 * (0.9 * (0.9 * (0.9 * (0.9 * 1.0))))) by { SixthPower(); }
    } else if n <= 6 {
      SixthPower();
    }
    if n > 0 { PowerIs(n - 1); }
  }

  lemma SixthPower()
    ensures Power(0.9, 1) == 0.9 && Power(0.9, 2) == 0.81 && Power(0.9, 3) == 0.729 && Power(0.9, 4) == 0.6561
    ensures Power(0.9, 5) == 0.59049 && Power(0.9, 6) == 0.531441 && Power(0.9, 7) == 0.4782969
  {
    assert Power(0.9, 1) == 0.9 * Power(0.9, 0);
    assert Power(0.9, 2) == 0.9 * Power(0.9, 1);
    assert Power(0.9, 3) == 0.9 * Power(0.9, 2);
    assert Power(0.9, 4) == 0.9 * Power(0.9, 3);
    assert Power(0.9, 5) == 0.9 * Power(0.9, 4);
    assert Power(0.9, 6) == 0.9 * Power(0.9, 5);
    assert Power(0.9, 7) == 0.9 * Power(0.9, 6);
  }
}
