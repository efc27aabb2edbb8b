/** Round-robin fairness and retries, on an inner ring that no other operation changes meanwhile. */
module RoutingLaws {
  import opened Options
  import opened Rings
  import opened RingLaws

  // ----- Fairness -----

  /** The servers picked by `k` calls of `get_server()`. */
  function Picks(r: Ring, k: nat): seq<Id>
    requires r.inner != []
    decreases k
  {
    if k == 0 then []
    else
      var (r1, id) := GetServer(r, None);
      [id.value] + Picks(r1, k - 1)
  }

  lemma {:induction false} DivStep(k: nat, n: nat)
    requires n > 0
    ensures (k + 1) / n == if k % n == n - 1 then k / n + 1 else k / n
    ensures (k + 1) % n == if k % n == n - 1 then 0 else k % n + 1
  {
    var q, p := k / n, k % n;
    if p == n - 1 {
      assert k + 1 == (q + 1) * n;
      DivUnique(k + 1, n, q + 1, 0);
    } else {
      DivUnique(k + 1, n, q, p + 1);
    }
  }

  lemma {:induction false} DivUnique(a: nat, n: nat, q: nat, p: nat)
    requires n > 0 && a == q * n + p && p < n
    ensures a / n == q && a % n == p
  {
    var m: int := n;
    var d := a / n - q;
    assert d * m == p - a % n;
    MultipleGrows(d, n);
  }

  lemma MultipleGrows(d: int, m: nat)
    ensures d >= 1 ==> d * m >= m
    ensures d <= -1 ==> -(d * m) >= m
  {
    if d >= 1 {
      assert (d - 1) * m >= 0;
    } else if d <= -1 {
      assert (-d - 1) * m >= 0;
    }
  }

  /** The `i`-th pick goes round the ring. */
  lemma PicksGoRound(r: Ring, k: nat, i: nat)
    requires r.inner != [] && i < k
    ensures |Picks(r, k)| == k && Picks(r, k)[i] == r.inner[i % |r.inner|]
    decreases k
  {
    var n := |r.inner|;
    var r1 := GetServer(r, None).0;
    if k > 1 { PicksGoRound(r1, k - 1, if i > 0 then i - 1 else 0); }
    if i > 0 {
      DivStep(i - 1, n);
    }
  }

  lemma PicksExtend(r: Ring, k: nat)
    requires r.inner != []
    ensures Picks(r, k + 1) == Picks(r, k) + [r.inner[k % |r.inner|]]
  {
    PicksGoRound(r, k + 1, k);
    if k > 0 { PicksGoRound(r, k, 0); }
    forall i | 0 <= i < k ensures Picks(r, k + 1)[i] == Picks(r, k)[i] {
      PicksGoRound(r, k + 1, i);
      PicksGoRound(r, k, i);
    }
  }

  lemma {:induction false} CountPicks(r: Ring, k: nat, j: nat)
    requires Distinct(r.inner) && j < |r.inner|
    ensures multiset(Picks(r, k))[r.inner[j]] == Laps(k, |r.inner|, j)
    decreases k
  {
    if k > 0 {
      CountPicks(r, k - 1, j);
      PicksExtend(r, k - 1);
      CountOne(r.inner, Picks(r, k - 1), Picks(r, k), k - 1, j);
    } else {
      NoLaps(|r.inner|, j);
    }
  }

  lemma NoLaps(n: nat, j: nat)
    requires n > 0
    ensures Laps(0, n, j) == 0
  {
    DivUnique(0, n, 0, 0);
  }

  lemma {:induction false} CountOne(inner: seq<Id>, before: seq<Id>, after: seq<Id>, k: nat, j: nat)
    requires Distinct(inner) && j < |inner|
    requires after == before + [inner[k % |inner|]]
    requires multiset(before)[inner[j]] == Laps(k, |inner|, j)
    ensures multiset(after)[inner[j]] == Laps(k + 1, |inner|, j)
  {
    LapStep(k, |inner|, j);
    SameServer(inner, k % |inner|, j);
    CountAppend(before, inner[k % |inner|], inner[j]);
  }

  function Laps(k: nat, n: nat, j: nat): nat
    requires n > 0
  {
    k / n + (if j < k % n then 1 else 0)
  }

  lemma {:induction false} LapStep(k: nat, n: nat, j: nat)
    requires j < n
    ensures Laps(k + 1, n, j) == Laps(k, n, j) + (if k % n == j then 1 else 0)
  {
    DivStep(k, n);
  }

  lemma CountAppend(s: seq<Id>, x: Id, y: Id)
    ensures multiset(s + [x])[y] == multiset(s)[y] + (if x == y then 1 else 0)
  {}

  lemma SameServer(inner: seq<Id>, i: nat, j: nat)
    requires Distinct(inner) && i < |inner| && j < |inner|
    ensures inner[i] == inner[j] <==> i == j
  {}

  /** Of any `k` picks the server `j` places from the front gets exactly floor(k/n), and one more if
      the last lap reached it: no two servers ever differ by more than one. */
  lemma {:induction false} RoundRobinIsFair(r: Ring, k: nat, j: nat)
    requires Conserved(r) && j < |r.inner|
    ensures var n := |r.inner|;
      multiset(Picks(r, k))[r.inner[j]] == k / n + (if j < k % n then 1 else 0)
  {
    InnerDistinct(r);
    CountPicks(r, k, j);
  }

  // ----- Retries -----

  lemma ScanFindsUntried(inner: seq<Id>, excluded: set<Id>, n: nat, i: nat)
    requires i < |inner| && i < n && inner[i] !in excluded
    ensures Scan(inner, excluded, n).1 !in excluded
    decreases n
  {
    if inner[0] in excluded {
      assert Turn(inner)[i - 1] == inner[i];
      ScanFindsUntried(Turn(inner), excluded, n - 1, i - 1);
    }
  }

  /** `_get_server_excluding` returns an inner server, and an untried one whenever there is one. */
  lemma ExcludingFindsUntried(r: Ring, excluded: set<Id>)
    requires r.inner != []
    ensures var id := GetExcluding(r, excluded).1;
      && id.Some? && id.value in r.inner
      && (id.value in excluded ==> forall x :: x in r.inner ==> x in excluded)
  {
    ScanMember(r.inner, excluded, |r.inner|);
    var id := Scan(r.inner, excluded, |r.inner|).1;
    if id in excluded {
      forall x | x in r.inner ensures x in excluded {
        var i :| 0 <= i < |r.inner| && r.inner[i] == x;
        if x !in excluded { ScanFindsUntried(r.inner, excluded, |r.inner|, i); }
      }
    }
  }

  lemma ScanMember(inner: seq<Id>, excluded: set<Id>, n: nat)
    requires inner != []
    ensures Scan(inner, excluded, n).1 in inner
    decreases n
  {
    TurnBag(inner);
    if n > 0 && inner[0] in excluded { ScanMember(Turn(inner), excluded, n - 1); }
  }

  /** What the caller's function did on one attempt. */
  datatype Outcome = Succeeds | FailsRetryable | FailsFatal

  datatype Answer = Returned(server: Id) | Raised(server: Id) | Exhausted

  /** The penalty of a failed attempt. */
  function Penalise(m: Metrics): Metrics {
    var rate := if m.errorRate * 0.9 + 0.1 < 1.0 then m.errorRate * 0.9 + 0.1 else 1.0;
    m.(errorRate := rate, healthy := m.healthy && rate <= 0.5)
  }

  function PenaliseServer(r: Ring, id: Id): Ring {
    if id in r.servers
    then r.(servers := r.servers[id := r.servers[id].(metrics := Penalise(r.servers[id].metrics))])
    else r
  }

  datatype Retry = Retry(ring: Ring, tried: seq<Id>, verdict: Answer)

  function SetOf(s: seq<Id>): set<Id> { set x | x in s }

  /** The attempts of `request_with_retry` from the one after `tried`; `outcomes` are those to come. */
  function Attempts(r: Ring, key: Option<SessionKey>, tried: seq<Id>, outcomes: seq<Outcome>): Retry
    decreases |outcomes|
  {
    if outcomes == [] then Retry(r, tried, Exhausted)
    else
      var (r1, id) := Next(r, key, tried);
      if id.None? then Retry(r1, tried, Exhausted)
      else
        match outcomes[0]
        case Succeeds => Retry(r1, tried + [id.value], Returned(id.value))
        case FailsFatal => Retry(r1, tried + [id.value], Raised(id.value))
        case FailsRetryable => Attempts(PenaliseServer(r1, id.value), key, tried + [id.value], outcomes[1..])
  }

  /** No server is tried again before every inner server has been tried. */
  ghost predicate NoEarlyRepeat(inner: seq<Id>, tried: seq<Id>) {
    forall i :: 0 <= i < |tried| && tried[i] in tried[..i] ==> forall x :: x in inner ==> x in tried[..i]
  }

  lemma OneMoreTry(inner: seq<Id>, tried: seq<Id>, id: Id)
    requires NoEarlyRepeat(inner, tried) && (id in tried ==> forall x :: x in inner ==> x in tried)
    ensures NoEarlyRepeat(inner, tried + [id])
  {
    var t := tried + [id];
    forall i | 0 <= i < |t| && t[i] in t[..i] ensures forall x :: x in inner ==> x in t[..i] {
      assert t[..i] == tried[..i];
    }
  }

  /** The server of the next attempt. */
  function Next(r: Ring, key: Option<SessionKey>, tried: seq<Id>): (Ring, Option<Id>) {
    if tried == [] then GetServer(r, key) else GetExcluding(r, SetOf(tried))
  }

  lemma NextIsUntried(r: Ring, key: Option<SessionKey>, tried: seq<Id>)
    requires r.inner != []
    ensures var (r1, id) := Next(r, key, tried);
      && id.Some? && id.value in r.inner
      && (id.value in tried ==> forall x :: x in r.inner ==> x in tried)
      && (forall x :: x in r1.inner <==> x in r.inner) && r1.inner != []
  {
    TurnBag(r.inner);
    ScanBag(r.inner, SetOf(tried), |r.inner|);
    ExcludingFindsUntried(r, SetOf(tried));
  }

  lemma AttemptsDoNotRepeat(r: Ring, key: Option<SessionKey>, tried: seq<Id>, outcomes: seq<Outcome>, inner: seq<Id>)
    requires r.inner != [] && (forall x :: x in r.inner <==> x in inner)
    requires NoEarlyRepeat(inner, tried) && forall x :: x in tried ==> x in inner
    ensures var t := Attempts(r, key, tried, outcomes).tried;
      NoEarlyRepeat(inner, t) && forall x :: x in t ==> x in inner
    decreases |outcomes|
  {
    if outcomes != [] {
      NextIsUntried(r, key, tried);
      var (r1, id) := Next(r, key, tried);
      OneMoreTry(inner, tried, id.value);
      if outcomes[0] == FailsRetryable {
        AttemptsDoNotRepeat(PenaliseServer(r1, id.value), key, tried + [id.value], outcomes[1..], inner);
      }
    }
  }

  lemma SetOfDistinct(s: seq<Id>)
    ensures |SetOf(s)| <= |s| && (Distinct(s) ==> |SetOf(s)| == |s|)
  {
    if s != [] {
      assert s == [s[0]] + s[1..];
      assert SetOf(s) == {s[0]} + SetOf(s[1..]);
      SetOfDistinct(s[1..]);
      if Distinct(s) { TailDistinct(s[0], s[1..]); }
    }
  }

  /** The first `n` attempts of one request, on `n` inner servers, go to pairwise distinct servers. */
  lemma RetriesAreDistinct(r: Ring, key: Option<SessionKey>, outcomes: seq<Outcome>)
    requires Conserved(r) && r.inner != []
    ensures var t := Attempts(r, key, [], outcomes).tried;
      Distinct(t[..Min(|t|, |r.inner|)]) && forall x :: x in t ==> x in r.inner
  {
    AttemptsDoNotRepeat(r, key, [], outcomes, r.inner);
    var t := Attempts(r, key, [], outcomes).tried;
    InnerDistinct(r);
    forall i, j | 0 <= i < j < Min(|t|, |r.inner|) ensures t[i] != t[j] {
      if t[i] == t[j] {
        assert t[j] in t[..j] by { assert t[..j][i] == t[i]; }
        SetOfDistinct(t[..j]);
        SetOfDistinct(r.inner);
        Subset(SetOf(r.inner), SetOf(t[..j]));
      }
    }
  }

  lemma Subset(a: set<Id>, b: set<Id>)
    requires a <= b
    ensures |a| <= |b|
  {
    assert b == a + (b - a);
  }

  // ----- The backup of a hedged request -----

  lemma {:induction false} OthersMembers(s: seq<Id>, x: Id)
    ensures forall id :: id in Others(s, x) <==> id in s && id != x
  {
    if s != [] {
      OthersMembers(s[1..], x);
      assert s == [s[0]] + s[1..];
    }
  }

  ghost predicate Least(servers: map<Id, Server>, ids: seq<Id>, x: Id) {
    x in ids && forall id :: id in ids ==> At(servers, x).temperature <= At(servers, id).temperature
  }

  lemma LeastOfMore(servers: map<Id, Server>, ids: seq<Id>, best: Id, last: Id)
    requires Least(servers, ids, best)
    ensures Least(servers, ids + [last],
                  if At(servers, last).temperature < At(servers, best).temperature then last else best)
  {
  }

  lemma {:induction false} CoolestIsLeast(servers: map<Id, Server>, ids: seq<Id>)
    ensures match Coolest(servers, ids)
            case None => ids == []
            case Some(x) => Least(servers, ids, x)
  {
    if ids != [] {
      var init, last := ids[..|ids| - 1], ids[|ids| - 1];
      CoolestIsLeast(servers, init);
      assert ids == init + [last];
      if init == [] {
        assert ids == [last];
      } else {
        LeastOfMore(servers, init, Coolest(servers, init).value, last);
      }
    }
  }

  /** `x` is in this list, is not the primary, and nobody else there is cooler. */
  ghost predicate CoolestOther(r: Ring, ids: seq<Id>, primary: Id, x: Id) {
    && x in ids && x != primary
    && forall id :: id in ids && id != primary ==> At(r.servers, x).temperature <= At(r.servers, id).temperature
  }

  /** A second server of the inner ring if it has one, and else, however hot or blocked, one of the outer
      ring; none only if the primary is alone in both. */
  lemma {:induction false} BackupIsCoolest(r: Ring, primary: Id)
    ensures match Backup(r, primary)
            case Some(x) =>
              || CoolestOther(r, r.inner, primary, x)
              || ((forall id :: id in r.inner ==> id == primary) && CoolestOther(r, r.outer, primary, x))
            case None => forall id :: id in r.inner || id in r.outer ==> id == primary
  {
    OthersMembers(r.inner, primary);
    OthersMembers(r.outer, primary);
    CoolestIsLeast(r.servers, Others(r.inner, primary));
    CoolestIsLeast(r.servers, Others(r.outer, primary));
    if Others(r.inner, primary) != [] {
      assert Others(r.inner, primary)[0] in Others(r.inner, primary);
    }
    if Others(r.outer, primary) != [] {
      assert Others(r.outer, primary)[0] in Others(r.outer, primary);
    }
  }
}
