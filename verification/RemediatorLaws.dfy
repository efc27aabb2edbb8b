/** The hourly limit against every attempt ever made, over runs in which remediations of many callers
    interleave. */
module RemediatorLaws {
  import opened Remediation

  datatype Attempt = Attempt(server: Id, at: real, limit: int)

  /** A remediator with everything that ever happened: attempts, history entries, actions under way. */
  datatype Tracked = Tracked(rem: Remediator, log: seq<Attempt>, notes: seq<Entry>, running: multiset<Id>)

  const START := Tracked(FRESH, [], [], multiset{})

  datatype Op =
    | Admitting(id: Id, limit: int, now: real, then_: real)
    | Concluding(id: Id, success: bool, at: real)
    | Evicting(id: Id, at: real)
    | Recovering(id: Id)
    | Clearing(id: Id)

  /** The clock does not run backwards, and only an action under way is concluded. */
  ghost predicate Enabled(t: Tracked, op: Op, clock: real) {
    match op
    case Admitting(_, _, now, then_) => clock <= now <= then_
    case Concluding(id, _, at) => clock <= at && id in t.running
    case Evicting(_, at) => clock <= at
    case _ => true
  }

  function ClockAfter(op: Op, clock: real): real {
    match op
    case Admitting(_, _, _, then_) => then_
    case Concluding(_, _, at) => at
    case Evicting(_, at) => at
    case _ => clock
  }

  function Apply(t: Tracked, op: Op): Tracked {
    match op
    case Admitting(id, limit, now, then_) =>
      var (r, admitted) := Admit(t.rem, limit, id, now, then_);
      if admitted
      then Tracked(r, t.log + [Attempt(id, then_, limit)], t.notes, t.running + multiset{id})
      else Tracked(r, t.log, t.notes + [Entry(then_, id, false, true)], t.running)
    case Concluding(id, success, at) =>
      Tracked(Conclude(t.rem, id, success, at), t.log, t.notes + [Entry(at, id, success, false)],
              t.running - multiset{id})
    case Evicting(id, at) => t.(rem := CountEviction(t.rem, id, at))
    case Recovering(id) => t.(rem := Recover(t.rem, id))
    case Clearing(id) => t.(rem := Clear(t.rem, id))
  }

  /** The attempts of one server, oldest first. */
  function Of(log: seq<Attempt>, id: Id): seq<Attempt> {
    if log == [] then []
    else
      var before := Of(log[..|log| - 1], id);
      if log[|log| - 1].server == id then before + [log[|log| - 1]] else before
  }

  function Stamps(a: seq<Attempt>): seq<real> {
    if a == [] then [] else Stamps(a[..|a| - 1]) + [a[|a| - 1].at]
  }

  // ----- The invariant -----

  /** Dropped timestamps are too old for any check from `clock` on. */
  ghost predicate WindowExact(t: Tracked, id: Id, clock: real) {
    forall c: real :: c >= clock - HOUR ==> After(Attempts(t.rem, id), c) == After(Stamps(Of(t.log, id)), c)
  }

  ghost predicate InOrder(a: seq<Attempt>, clock: real) {
    && (forall i, j :: 0 <= i < j < |a| ==> a[i].at <= a[j].at)
    && (forall i :: 0 <= i < |a| ==> a[i].at <= clock)
  }

  /** Attempts less than an hour apart, the two included, are no more than the later one's limit. */
  ghost predicate WithinLimit(a: seq<Attempt>) {
    forall i, j :: 0 <= i <= j < |a| && a[j].at - a[i].at < HOUR ==> j - i + 1 <= a[j].limit
  }

  ghost predicate Sound(t: Tracked, id: Id, clock: real) {
    WindowExact(t, id, clock) && InOrder(Of(t.log, id), clock) && WithinLimit(Of(t.log, id))
  }

  lemma {:induction false} AfterConcat(a: seq<real>, b: seq<real>, c: real)
    ensures After(a + b, c) == After(a, c) + After(b, c)
  {
    if a == [] {
      assert a + b == b;
    } else {
      assert (a + b)[1..] == a[1..] + b;
      AfterConcat(a[1..], b, c);
    }
  }

  lemma {:induction false} AfterTwice(a: seq<real>, lower: real, c: real)
    requires c >= lower
    ensures After(After(a, lower), c) == After(a, c)
  {
    if a != [] {
      AfterTwice(a[1..], lower, c);
      if a[0] > lower {
        assert After(a, lower)[1..] == After(a[1..], lower);
      }
    }
  }

  lemma OfAppend(log: seq<Attempt>, x: Attempt, id: Id)
    ensures Of(log + [x], id) == if x.server == id then Of(log, id) + [x] else Of(log, id)
  {
    assert (log + [x])[..|log|] == log;
  }

  lemma StampsAppend(a: seq<Attempt>, x: Attempt)
    ensures Stamps(a + [x]) == Stamps(a) + [x.at]
  {
    assert (a + [x])[..|a|] == a;
  }

  /** A suffix of attempts, all after `c`, is counted among those after `c`. */
  lemma {:induction false} SuffixIsCounted(a: seq<Attempt>, i: nat, c: real)
    requires i <= |a| && forall k :: i <= k < |a| ==> a[k].at > c
    ensures |After(Stamps(a), c)| >= |a| - i
  {
    if i < |a| {
      var init := a[..|a| - 1];
      SuffixIsCounted(init, i, c);
      AfterConcat(Stamps(init), [a[|a| - 1].at], c);
    }
  }

  /** An attempt is admitted exactly when the full log holds fewer attempts of the last hour than the limit. */
  lemma AdmittedExactly(t: Tracked, id: Id, limit: int, clock: real, now: real, then_: real)
    requires Sound(t, id, clock) && clock <= now
    ensures Admit(t.rem, limit, id, now, then_).1 <==> |After(Stamps(Of(t.log, id)), now - HOUR)| < limit
  {
  }

  lemma AppendWithinLimit(a: seq<Attempt>, x: Attempt, now: real, clock: real)
    requires InOrder(a, clock) && WithinLimit(a) && clock <= now <= x.at
    requires |After(Stamps(a), now - HOUR)| < x.limit
    ensures InOrder(a + [x], x.at) && WithinLimit(a + [x])
  {
    var b := a + [x];
    forall i, j | 0 <= i <= j < |b| && b[j].at - b[i].at < HOUR
      ensures j - i + 1 <= b[j].limit
    {
      if j == |a| {
        SuffixIsCounted(a, i, now - HOUR);
      }
    }
  }

  lemma WindowKept(t: Tracked, u: Tracked, id: Id, clock: real, now: real)
    requires WindowExact(t, id, clock) && clock <= now && Of(u.log, id) == Of(t.log, id)
    requires Attempts(u.rem, id) == Attempts(t.rem, id)
          || Attempts(u.rem, id) == After(Attempts(t.rem, id), now - HOUR)
    ensures WindowExact(u, id, now)
  {
    forall c: real | c >= now - HOUR
      ensures After(Attempts(u.rem, id), c) == After(Stamps(Of(u.log, id)), c)
    {
      AfterTwice(Attempts(t.rem, id), now - HOUR, c);
    }
  }

  lemma WindowGrows(kept: seq<real>, all: seq<real>, now: real, then_: real, c: real)
    requires now <= then_ && c >= then_ - HOUR
    requires After(kept, c) == After(all, c)
    ensures After(After(kept, now - HOUR) + [then_], c) == After(all + [then_], c)
  {
    AfterConcat(After(kept, now - HOUR), [then_], c);
    AfterTwice(kept, now - HOUR, c);
    AfterConcat(all, [then_], c);
  }

  lemma AdmittedIsSound(t: Tracked, limit: int, id: Id, clock: real, now: real, then_: real)
    requires Sound(t, id, clock) && clock <= now <= then_ && Admit(t.rem, limit, id, now, then_).1
    ensures Sound(Apply(t, Admitting(id, limit, now, then_)), id, then_)
  {
    var u := Apply(t, Admitting(id, limit, now, then_));
    var x := Attempt(id, then_, limit);
    var a := Of(t.log, id);
    OfAppend(t.log, x, id);
    AdmittedExactly(t, id, limit, clock, now, then_);
    AppendWithinLimit(a, x, now, clock);
    StampsAppend(a, x);
    forall c: real | c >= then_ - HOUR
      ensures After(Attempts(u.rem, id), c) == After(Stamps(Of(u.log, id)), c)
    {
      WindowGrows(Attempts(t.rem, id), Stamps(a), now, then_, c);
    }
  }

  lemma SameLogIsSound(t: Tracked, u: Tracked, id: Id, clock: real, now: real, then_: real)
    requires Sound(t, id, clock) && clock <= now <= then_ && Of(u.log, id) == Of(t.log, id)
    requires Attempts(u.rem, id) == Attempts(t.rem, id)
          || Attempts(u.rem, id) == After(Attempts(t.rem, id), now - HOUR)
    ensures Sound(u, id, then_)
  {
    WindowKept(t, u, id, clock, now);
    WindowKept(u, u, id, now, then_);
  }

  lemma AdmissionIsSound(t: Tracked, op: Op, id: Id, clock: real)
    requires Sound(t, id, clock) && op.Admitting? && Enabled(t, op, clock)
    ensures Sound(Apply(t, op), id, op.then_)
  {
    if op.id == id && Admit(t.rem, op.limit, id, op.now, op.then_).1 {
      AdmittedIsSound(t, op.limit, id, clock, op.now, op.then_);
    } else {
      OfAppend(t.log, Attempt(op.id, op.then_, op.limit), id);
      SameLogIsSound(t, Apply(t, op), id, clock, op.now, op.then_);
    }
  }

  lemma StepIsSound(t: Tracked, op: Op, id: Id, clock: real)
    requires Sound(t, id, clock) && Enabled(t, op, clock)
    ensures Sound(Apply(t, op), id, ClockAfter(op, clock))
  {
    if op.Admitting? {
      AdmissionIsSound(t, op, id, clock);
    } else {
      var now := ClockAfter(op, clock);
      SameLogIsSound(t, Apply(t, op), id, clock, now, now);
    }
  }

  // ----- Runs -----

  /** The state after a run, its clock starting at `clock`. */
  ghost predicate IsRun(ops: seq<Op>, states: seq<Tracked>, clocks: seq<real>) {
    && |states| == |clocks| == |ops| + 1 && states[0] == START
    && (forall k :: 0 <= k < |ops| ==>
          Enabled(states[k], ops[k], clocks[k])
          && states[k + 1] == Apply(states[k], ops[k]) && clocks[k + 1] == ClockAfter(ops[k], clocks[k]))
  }

  lemma {:induction false} RunsAreSound(ops: seq<Op>, states: seq<Tracked>, clocks: seq<real>, k: nat, id: Id)
    requires IsRun(ops, states, clocks) && k < |states|
    ensures Sound(states[k], id, clocks[k])
  {
    if k > 0 {
      RunsAreSound(ops, states, clocks, k - 1, id);
      StepIsSound(states[k - 1], ops[k - 1], id, clocks[k - 1]);
    }
  }

  /** Whatever interleaves with it, an attempt runs exactly when the server's full log of attempts holds
      fewer than the limit in the hour up to the check. */
  lemma HourlyLimitIsExact(ops: seq<Op>, states: seq<Tracked>, clocks: seq<real>, k: nat)
    requires IsRun(ops, states, clocks) && k < |ops| && ops[k].Admitting?
    ensures
      var t, op := states[k], ops[k];
      states[k + 1].log != t.log <==> |After(Stamps(Of(t.log, op.id)), op.now - HOUR)| < op.limit
  {
    RunsAreSound(ops, states, clocks, k, ops[k].id);
    AdmittedExactly(states[k], ops[k].id, ops[k].limit, clocks[k], ops[k].now, ops[k].then_);
  }

  /** How many attempts fall in [from, to), or in (from, to]. */
  function CountIn(a: seq<Attempt>, from: real, to: real, leftOpen: bool): nat {
    if a == [] then 0
    else
      var at := a[|a| - 1].at;
      CountIn(a[..|a| - 1], from, to, leftOpen)
      + if (if leftOpen then from < at <= to else from <= at < to) then 1 else 0
  }

  /** The attempts in a window of an hour follow each other in the log: the last of them bounds them. */
  lemma {:induction false} WindowIsBounded(a: seq<Attempt>, from: real, leftOpen: bool, most: nat, clock: real)
    requires InOrder(a, clock) && WithinLimit(a) && forall i :: 0 <= i < |a| ==> a[i].limit <= most
    ensures CountIn(a, from, from + HOUR, leftOpen) <= most
  {
    if a != [] {
      var init, last := a[..|a| - 1], a[|a| - 1];
      if if leftOpen then from < last.at <= from + HOUR else from <= last.at < from + HOUR {
        var i := FirstIn(a, from, leftOpen);
        assert last.at - a[i].at < HOUR;
      } else {
        WindowIsBounded(init, from, leftOpen, most, clock);
      }
    }
  }

  lemma {:induction false} FirstIn(a: seq<Attempt>, from: real, leftOpen: bool) returns (i: nat)
    requires a != [] && forall i, j :: 0 <= i < j < |a| ==> a[i].at <= a[j].at
    requires var at := a[|a| - 1].at; if leftOpen then from < at <= from + HOUR else from <= at < from + HOUR
    ensures i < |a| && (if leftOpen then from < a[i].at else from <= a[i].at)
    ensures CountIn(a, from, from + HOUR, leftOpen) == |a| - i
  {
    i := |a| - 1;
    var init := a[..|a| - 1];
    if init != [] && (if leftOpen then from < init[|init| - 1].at else from <= init[|init| - 1].at) {
      i := FirstIn(init, from, leftOpen);
    } else {
      NoneIn(init, from, leftOpen);
    }
  }

  lemma {:induction false} NoneIn(a: seq<Attempt>, from: real, leftOpen: bool)
    requires forall i, j :: 0 <= i < j < |a| ==> a[i].at <= a[j].at
    requires a != [] ==> if leftOpen then a[|a| - 1].at <= from else a[|a| - 1].at < from
    ensures CountIn(a, from, from + HOUR, leftOpen) == 0
  {
    if a != [] {
      NoneIn(a[..|a| - 1], from, leftOpen);
    }
  }

  /** In every reachable state, any half-open hour of a server's full attempt log holds at most the
      largest limit ever applied to it. */
  lemma AtMostLimitPerHour(ops: seq<Op>, states: seq<Tracked>, clocks: seq<real>, k: nat, id: Id,
                           from: real, leftOpen: bool, most: nat)
    requires IsRun(ops, states, clocks) && k < |states|
    requires forall i :: 0 <= i < |Of(states[k].log, id)| ==> Of(states[k].log, id)[i].limit <= most
    ensures CountIn(Of(states[k].log, id), from, from + HOUR, leftOpen) <= most
  {
    RunsAreSound(ops, states, clocks, k, id);
    WindowIsBounded(Of(states[k].log, id), from, leftOpen, most, clocks[k]);
  }

  // ----- Accounts -----

  function Newest<T>(s: seq<T>, n: nat): seq<T> { if |s| <= n then s else s[|s| - n..] }

  lemma NoteKeepsNewest(notes: seq<Entry>, e: Entry)
    ensures Note(Newest(notes, HISTORY_LIMIT), e) == Newest(notes + [e], HISTORY_LIMIT)
  {
  }

  /** Every admitted action is successful, failed or under way; every refusal and every conclusion is in
      the notes; the history is the newest hundred of them. */
  ghost predicate Balanced(t: Tracked) {
    && t.rem.total == |t.log| == t.rem.successful + t.rem.failed + |t.running|
    && |t.notes| == t.rem.throttled + t.rem.successful + t.rem.failed
    && t.rem.history == Newest(t.notes, HISTORY_LIMIT)
  }

  lemma StepBalances(t: Tracked, op: Op, clock: real)
    requires Balanced(t) && Enabled(t, op, clock)
    ensures Balanced(Apply(t, op))
  {
    match op {
      case Admitting(id, _, _, then_) => NoteKeepsNewest(t.notes, Entry(then_, id, false, true));
      case Concluding(id, success, at) => NoteKeepsNewest(t.notes, Entry(at, id, success, false));
      case _ =>
    }
  }

  lemma {:induction false} RunsBalance(ops: seq<Op>, states: seq<Tracked>, clocks: seq<real>, k: nat)
    requires IsRun(ops, states, clocks) && k < |states|
    ensures Balanced(states[k])
  {
    if k > 0 {
      RunsBalance(ops, states, clocks, k - 1);
      StepBalances(states[k - 1], ops[k - 1], clocks[k - 1]);
    }
  }

  // ----- States and quarantine set -----

  /** A server recorded as quarantined or healing is in the set of quarantined servers, which the rotation
      consults. (Which servers really get traffic is the matter of `QuarantineLaws`.) */
  ghost predicate StatesAgree(r: Remediator) {
    forall id :: id in r.states && (r.states[id] == Quarantined || r.states[id] == Healing) ==> id in r.quarantined
  }

  /** A successful end of an action whose quarantine somebody lifted while it ran. */
  predicate LiftedMeanwhile(t: Tracked, op: Op) { op.Concluding? && op.success && op.id !in t.rem.quarantined }

  /** Only one step can set the two apart. */
  lemma StatesAgreeExactly(t: Tracked, op: Op)
    requires StatesAgree(t.rem)
    ensures StatesAgree(Apply(t, op).rem) <==> !LiftedMeanwhile(t, op)
  {
    var u := Apply(t, op);
    if LiftedMeanwhile(t, op) {
      assert u.rem.states[op.id] == Healing;
    }
  }

  lemma {:induction false} UnliftedAgree(ops: seq<Op>, states: seq<Tracked>, clocks: seq<real>, k: nat)
    requires IsRun(ops, states, clocks) && k < |states|
    requires forall i :: 0 <= i < |ops| ==> !LiftedMeanwhile(states[i], ops[i])
    ensures StatesAgree(states[k].rem)
  {
    if k > 0 {
      UnliftedAgree(ops, states, clocks, k - 1);
      StatesAgreeExactly(states[k - 1], ops[k - 1]);
    }
  }

  /** Over a run: states and quarantine set agree at every moment if and only if no action succeeds whose
      quarantine was lifted meanwhile. */
  lemma {:induction false} AgreeThroughoutExactly(ops: seq<Op>, states: seq<Tracked>, clocks: seq<real>)
    requires IsRun(ops, states, clocks)
    ensures (forall k :: 0 <= k < |states| ==> StatesAgree(states[k].rem)) <==>
            (forall k :: 0 <= k < |ops| ==> !LiftedMeanwhile(states[k], ops[k]))
  {
    if forall k :: 0 <= k < |ops| ==> !LiftedMeanwhile(states[k], ops[k]) {
      forall k | 0 <= k < |states|
        ensures StatesAgree(states[k].rem)
      {
        UnliftedAgree(ops, states, clocks, k);
      }
    }
    if forall k :: 0 <= k < |states| ==> StatesAgree(states[k].rem) {
      forall k | 0 <= k < |ops|
        ensures !LiftedMeanwhile(states[k], ops[k])
      {
        assert StatesAgree(states[k].rem) && StatesAgree(states[k + 1].rem);
        StatesAgreeExactly(states[k], ops[k]);
      }
    }
  }

  /** Three steps do it: a remediation begins, its quarantine is cleared, it succeeds. */
  lemma ClearedThenHealed() returns (states: seq<Tracked>)
    ensures IsRun([Admitting(0, 3, 0.0, 0.0), Clearing(0), Concluding(0, true, 0.0)], states, [0.0, 0.0, 0.0, 0.0])
    ensures 0 in states[3].rem.states && states[3].rem.states[0] == Healing && 0 !in states[3].rem.quarantined
  {
    var s1 := Apply(START, Admitting(0, 3, 0.0, 0.0));
    var s2 := Apply(s1, Clearing(0));
    states := [START, s1, s2, Apply(s2, Concluding(0, true, 0.0))];
  }
}
