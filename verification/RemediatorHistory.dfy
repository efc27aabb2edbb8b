/** The remediator's books against the story of each server: what it records of a server is exactly what the
    evictions, remediations, recoveries and releases of that server tell, whatever happens to the others. */
module RemediatorHistory {
  import opened Options
  import opened Remediation
  import opened RemediatorLaws

  // ----- The story of one server -----

  /** All its attempts ever; its evictions since they were last set back; since when it has been listed; its
      health, once it has any; and whether it is held in quarantine. */
  datatype Story = Story(attempts: seq<real>, evictions: nat, listed: Option<real>, health: Option<Health>, held: bool)

  const UNTOLD := Story([], 0, None, None, false)

  /** How many of these times lie after `start`. */
  function CountAfter(times: seq<real>, start: real): nat {
    if times == [] then 0 else CountAfter(times[..|times| - 1], start) + (if times[|times| - 1] > start then 1 else 0)
  }

  function Tell(st: Story, op: Op): Story {
    match op
    case Admitting(_, limit, now, then_) =>
      if CountAfter(st.attempts, now - HOUR) < limit
      then st.(attempts := st.attempts + [then_], health := Some(Quarantined), held := true)
      else st.(health := Some(DeadLetter))
    case Concluding(_, success, _) =>
      if success then st.(health := Some(Healing), evictions := 0) else st.(health := Some(DeadLetter))
    case Evicting(_, at) =>
      st.(evictions := st.evictions + 1, listed := if st.listed.None? then Some(at) else st.listed)
    case Recovering(_) =>
      var st1 := st.(evictions := 0, listed := None);
      if st.health == Some(Healing) || st.health == Some(Verifying)
      then st1.(health := Some(Recovered), held := false)
      else st1
    case Clearing(_) => st.(evictions := 0, listed := None, health := Some(Healthy), held := false)
  }

  function StoryOf(ops: seq<Op>, id: Id): Story {
    if ops == [] then UNTOLD
    else
      var before, op := StoryOf(ops[..|ops| - 1], id), ops[|ops| - 1];
      if op.id == id then Tell(before, op) else before
  }

  // ----- The books -----

  function HealthOf(r: Remediator, id: Id): Option<Health> { if id in r.states then Some(r.states[id]) else None }

  /** Since when the server is listed: its first entry. */
  function ListedSince(ws: seq<Wait>, id: Id): Option<real> {
    if ws == [] then None else if ws[0].id == id then Some(ws[0].from_) else ListedSince(ws[1..], id)
  }

  ghost predicate Agrees(t: Tracked, id: Id, st: Story) {
    && Stamps(Of(t.log, id)) == st.attempts && Evictions(t.rem, id) == st.evictions
    && ListedSince(t.rem.since, id) == st.listed && HealthOf(t.rem, id) == st.health
    && (id in t.rem.quarantined <==> st.held)
  }

  lemma {:induction false} CountIsAfter(times: seq<real>, start: real)
    ensures CountAfter(times, start) == |After(times, start)|
  {
    if times != [] {
      var init, last := times[..|times| - 1], times[|times| - 1];
      CountIsAfter(init, start);
      assert times == init + [last];
      AfterConcat(init, [last], start);
    }
  }

  lemma {:induction false} ListedIffIn(ws: seq<Wait>, id: Id)
    ensures ListedSince(ws, id).Some? <==> id in WaitIds(ws)
  {
    if ws != [] {
      ListedIffIn(ws[1..], id);
    }
  }

  lemma {:induction false} ListedAppend(ws: seq<Wait>, w: Wait, id: Id)
    ensures ListedSince(ws + [w], id) ==
            if ListedSince(ws, id).Some? then ListedSince(ws, id) else if w.id == id then Some(w.from_) else None
  {
    if ws == [] {
      assert ws + [w] == [w];
    } else {
      assert (ws + [w])[1..] == ws[1..] + [w];
      ListedAppend(ws[1..], w, id);
    }
  }

  lemma {:induction false} ListedUnlisted(ws: seq<Wait>, gone: Id, id: Id)
    ensures ListedSince(Unlisted(ws, gone), id) == if id == gone then None else ListedSince(ws, id)
  {
    if ws != [] {
      ListedUnlisted(ws[1..], gone, id);
      if ws[0].id != gone {
        assert ([ws[0]] + Unlisted(ws[1..], gone))[1..] == Unlisted(ws[1..], gone);
      }
    }
  }

  lemma EvictingAgrees(t: Tracked, op: Op, id: Id, st: Story)
    requires Agrees(t, id, st) && op.Evicting?
    ensures Agrees(Apply(t, op), id, if op.id == id then Tell(st, op) else st)
  {
    ListedIffIn(t.rem.since, op.id);
    ListedAppend(t.rem.since, Wait(op.id, op.at), id);
  }

  lemma ReleaseAgrees(t: Tracked, op: Op, id: Id, st: Story)
    requires Agrees(t, id, st) && (op.Recovering? || op.Clearing?)
    ensures Agrees(Apply(t, op), id, if op.id == id then Tell(st, op) else st)
  {
    ListedUnlisted(t.rem.since, op.id, id);
  }

  lemma AdmissionIsTold(t: Tracked, op: Op, st: Story, clock: real)
    requires Agrees(t, op.id, st) && op.Admitting? && Sound(t, op.id, clock) && Enabled(t, op, clock)
    ensures Admit(t.rem, op.limit, op.id, op.now, op.then_).1 <==> CountAfter(st.attempts, op.now - HOUR) < op.limit
  {
    AdmittedExactly(t, op.id, op.limit, clock, op.now, op.then_);
    CountIsAfter(st.attempts, op.now - HOUR);
  }

  lemma AdmittingAgrees(t: Tracked, op: Op, id: Id, st: Story)
    requires Agrees(t, id, st) && op.Admitting?
    requires op.id == id ==>
               (Admit(t.rem, op.limit, id, op.now, op.then_).1 <==> CountAfter(st.attempts, op.now - HOUR) < op.limit)
    ensures Agrees(Apply(t, op), id, if op.id == id then Tell(st, op) else st)
  {
    var admitted := Admit(t.rem, op.limit, op.id, op.now, op.then_).1;
    AdmitWrites(t.rem, op.limit, op.id, op.now, op.then_, id);
    AdmitLogs(t, op, id);
    AdmissionAgrees(t, Apply(t, op), op, id, st, admitted);
  }

  lemma AdmitLogs(t: Tracked, op: Op, id: Id)
    requires op.Admitting?
    ensures var (r, admitted) := Admit(t.rem, op.limit, op.id, op.now, op.then_);
      Apply(t, op).rem == r
      && Stamps(Of(Apply(t, op).log, id))
         == Stamps(Of(t.log, id)) + (if admitted && op.id == id then [op.then_] else [])
  {
    var x := Attempt(op.id, op.then_, op.limit);
    OfAppend(t.log, x, id);
    StampsAppend(Of(t.log, id), x);
    assert Stamps(Of(t.log, id)) + [] == Stamps(Of(t.log, id));
  }

  lemma AdmissionAgrees(t: Tracked, u: Tracked, op: Op, id: Id, st: Story, admitted: bool)
    requires Agrees(t, id, st) && op.Admitting?
    requires op.id == id ==> (admitted <==> CountAfter(st.attempts, op.now - HOUR) < op.limit)
    requires Stamps(Of(u.log, id)) == Stamps(Of(t.log, id)) + (if admitted && op.id == id then [op.then_] else [])
    requires u.rem.since == t.rem.since && u.rem.evictions == t.rem.evictions
    requires HealthOf(u.rem, id) == (if op.id != id then HealthOf(t.rem, id)
                                     else Some(if admitted then Quarantined else DeadLetter))
    requires id in u.rem.quarantined <==> id in t.rem.quarantined || (admitted && op.id == id)
    ensures Agrees(u, id, if op.id == id then Tell(st, op) else st)
  {
    assert st.attempts + [] == st.attempts;
  }

  /** What an admission, or its refusal, writes down. */
  lemma AdmitWrites(r: Remediator, limit: int, id: Id, now: real, then_: real, other: Id)
    ensures var (t, admitted) := Admit(r, limit, id, now, then_);
      && t.since == r.since && t.evictions == r.evictions
      && HealthOf(t, other) == (if other != id then HealthOf(r, other)
                                else Some(if admitted then Quarantined else DeadLetter))
      && (other in t.quarantined <==> other in r.quarantined || (admitted && other == id))
  {
  }

  lemma StepAgrees(t: Tracked, op: Op, id: Id, st: Story, clock: real)
    requires Agrees(t, id, st) && Sound(t, op.id, clock) && Enabled(t, op, clock)
    ensures Agrees(Apply(t, op), id, if op.id == id then Tell(st, op) else st)
  {
    match op {
      case Admitting(_, _, _, _) =>
        if op.id == id {
          AdmissionIsTold(t, op, st, clock);
        }
        AdmittingAgrees(t, op, id, st);
      case Concluding(_, _, _) =>
      case Evicting(_, _) => EvictingAgrees(t, op, id, st);
      case _ => ReleaseAgrees(t, op, id, st);
    }
  }

  lemma NothingTold(id: Id)
    ensures Agrees(START, id, UNTOLD)
  {
    assert Of([], id) == [] && Stamps([]) == [];
  }

  /** In every run, however the remediations of many callers interleave, the books on a server agree with
      its own story: an attempt runs if and only if fewer attempts than the limit lie in the hour before;
      evictions count from the last recovery, release or success; the listing dates from the first eviction
      since the last recovery or release. */
  lemma {:induction false} BooksTellTheStory(ops: seq<Op>, states: seq<Tracked>, clocks: seq<real>, k: nat, id: Id)
    requires IsRun(ops, states, clocks) && k < |states|
    ensures Agrees(states[k], id, StoryOf(ops[..k], id))
  {
    if k == 0 {
      NothingTold(id);
    } else {
      var last := k - 1;
      BooksTellTheStory(ops, states, clocks, last, id);
      RunsAreSound(ops, states, clocks, last, ops[last].id);
      assert ops[..k][..last] == ops[..last] && ops[..k][last] == ops[last];
      StepAgrees(states[last], ops[last], id, StoryOf(ops[..last], id), clocks[last]);
    }
  }

  // ----- Which policy answers -----

  predicate Qualifies(p: Policy, cause: Cause, count: int) {
    p.enabled && p.cause == cause && (cause == ConsecutiveOverheat ==> count >= p.evictionsNeeded)
  }

  /** The first policy that qualifies, in the order the policies were added. */
  ghost predicate IsFirst(policies: seq<Policy>, cause: Cause, count: int, found: Option<Policy>) {
    match found
    case None => forall i :: 0 <= i < |policies| ==> !Qualifies(policies[i], cause, count)
    case Some(p) =>
      exists i :: 0 <= i < |policies| && policies[i] == p && Qualifies(p, cause, count)
                  && forall j :: 0 <= j < i ==> !Qualifies(policies[j], cause, count)
  }

  lemma {:induction false} MatchIsFirst(policies: seq<Policy>, cause: Cause, count: int)
    ensures IsFirst(policies, cause, count, FirstMatch(policies, cause, count))
  {
    if policies != [] {
      var rest := policies[1..];
      MatchIsFirst(rest, cause, count);
      if !Qualifies(policies[0], cause, count) {
        LaterFirst(policies, cause, count, FirstMatch(rest, cause, count));
      }
    }
  }

  lemma LaterFirst(policies: seq<Policy>, cause: Cause, count: int, found: Option<Policy>)
    requires policies != [] && !Qualifies(policies[0], cause, count) && IsFirst(policies[1..], cause, count, found)
    ensures IsFirst(policies, cause, count, found)
  {
    var rest := policies[1..];
    assert policies == [policies[0]] + rest;
    match found {
      case None =>
      case Some(p) =>
        var i :| 0 <= i < |rest| && rest[i] == p && Qualifies(p, cause, count)
                 && forall j :: 0 <= j < i ==> !Qualifies(rest[j], cause, count);
        assert policies[i + 1] == p;
        assert forall j :: 0 < j < i + 1 ==> policies[j] == rest[j - 1];
    }
  }

  /** In every run, the next eviction of a server is answered with the first policy against overheating
      whose count the evictions since the last recovery, release or success, with this one, have reached. */
  lemma {:induction false} PolicyAnswersTheStory(u: Setup, ops: seq<Op>, states: seq<Tracked>, clocks: seq<real>,
                                                 k: nat, id: Id, now: real)
    requires IsRun(ops, states, clocks) && k < |states| && u.enabled
    ensures IsFirst(u.policies, ConsecutiveOverheat, StoryOf(ops[..k], id).evictions + 1,
                    RecordEviction(u, states[k].rem, id, now).1)
  {
    BooksTellTheStory(ops, states, clocks, k, id);
    AnswerIsFirst(u, states[k].rem, id, now);
  }

  lemma AnswerIsFirst(u: Setup, r: Remediator, id: Id, now: real)
    requires u.enabled
    ensures IsFirst(u.policies, ConsecutiveOverheat, Evictions(r, id) + 1, RecordEviction(u, r, id, now).1)
  {
    MatchIsFirst(u.policies, ConsecutiveOverheat, Evictions(r, id) + 1);
  }
}
