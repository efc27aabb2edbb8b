/** Every event ever recorded is exported once, still pending, or was trimmed first; and exactly when a
    round breaks that. */
module ExportLaws {
  import opened Options
  import opened ExportBuffer

  /** A round under way: it read the buffer after `logged` events, `upTo` of them buffered, and sends
      those numbered from `from` on. */
  datatype Round = Round(from: int, logged: nat, upTo: nat, sending: seq<Event>)

  /** The buffer with all events ever recorded, and the numbers of those the collector took, in order. */
  datatype Tracked = Tracked(buf: Buffer, round: Option<Round>, log: seq<Event>, taken: seq<int>)

  datatype Op = Recording(e: Event) | Begin | End(ok: bool)

  function Start(size: nat): Tracked { Tracked(NewBuffer(size), None, [], []) }

  /** How many events have been trimmed: the number of the oldest one buffered. */
  function Base(t: Tracked): int { |t.log| - |t.buf.events| }

  /** The number of the next event to export. */
  function Cursor(t: Tracked): int { Base(t) + t.buf.index }

  /** lo, lo + 1, .. hi - 1 */
  function Numbers(lo: int, hi: int): (s: seq<int>)
    ensures |s| == (if lo < hi then hi - lo else 0)
    ensures forall i :: 0 <= i < |s| ==> s[i] == lo + i
    decreases hi - lo
  {
    if lo >= hi then [] else [lo] + Numbers(lo + 1, hi)
  }

  /** One exporter thread: rounds do not overlap, and a round with nothing pending does not start. */
  ghost predicate Enabled(t: Tracked, op: Op) {
    match op
    case Recording(_) => true
    case Begin => t.round == None
    case End(_) => t.round.Some?
  }

  function Apply(t: Tracked, op: Op): Tracked
    requires op.End? ==> t.round.Some?
  {
    match op
    case Recording(e) => t.(buf := Record(t.buf, e), log := t.log + [e])
    case Begin =>
      if Pending(t.buf) == [] then t
      else t.(round := Some(Round(Cursor(t), |t.log|, |t.buf.events|, Pending(t.buf))))
    case End(ok) =>
      var r := t.round.value;
      t.(buf := Finish(t.buf, |r.sending|, r.upTo, ok), round := None,
         taken := if ok then t.taken + Numbers(r.from, r.logged) else t.taken)
  }

  // ----- Invariants -----

  /** The buffer is the newest part of the log, and a round sends what it read of it. */
  ghost predicate Faithful(t: Tracked) {
    && t.buf.size > 0 && |t.buf.events| <= t.buf.size
    && 0 <= Base(t) && t.buf.events == t.log[Base(t)..]
    && t.buf.index <= |t.buf.events|
    && t.buf.recorded == |t.log| && t.buf.exported == |t.taken|
    && (t.round.Some? ==>
          var r := t.round.value;
          && 0 <= r.from < r.logged <= |t.log| && r.upTo <= |t.buf.events| && r.upTo <= r.logged
          && r.logged - r.upTo <= r.from && r.logged - r.upTo <= Base(t)
          && r.sending == t.log[r.from..r.logged])
  }

  /** Taken in order, at most once, all below the cursor; and nothing below the cursor is left in the
      buffer untaken. */
  ghost predicate ExactlyOnce(t: Tracked) {
    && (forall i, j :: 0 <= i < j < |t.taken| ==> t.taken[i] < t.taken[j])
    && (forall i :: 0 <= i < |t.taken| ==> t.taken[i] < Cursor(t))
    && (forall n :: Base(t) <= n < Cursor(t) ==> n in t.taken)
  }

  /** The round under way starts where the cursor stands, unless trimming moved the cursor on. */
  ghost predicate RoundInStep(t: Tracked) {
    t.round.Some? ==>
      var r := t.round.value;
      && (forall i :: 0 <= i < |t.taken| ==> t.taken[i] < r.from)
      && r.from <= Cursor(t) && (Cursor(t) == r.from || Cursor(t) == Base(t))
  }

  ghost predicate Sound(t: Tracked) { Faithful(t) && ExactlyOnce(t) && RoundInStep(t) }

  /** Nothing has been trimmed since the round read the buffer: there was room for what was recorded. */
  ghost predicate Undisturbed(t: Tracked) {
    t.round.Some? ==> |t.log| - t.round.value.logged <= t.buf.size - t.round.value.upTo
  }

  /** Undisturbed(t), for a round that has its numbers right. */
  ghost predicate BufferUntrimmed(t: Tracked) {
    t.round.Some? ==> Base(t) == t.round.value.logged - t.round.value.upTo
  }

  /** Full buffers stay full: a round was disturbed exactly when there was no room. */
  ghost predicate RoomTold(t: Tracked) {
    (Undisturbed(t) <==> BufferUntrimmed(t)) && (!BufferUntrimmed(t) ==> |t.buf.events| == t.buf.size)
  }

  /** What happened to event `n`: it was exported, it is pending, or it was trimmed unexported. */
  ghost predicate WasExported(t: Tracked, n: int) { n in t.taken }
  ghost predicate IsPending(t: Tracked, n: int) { n >= Cursor(t) }
  ghost predicate WasLost(t: Tracked, n: int) { n < Base(t) && n !in t.taken }

  /** Exactly one of these holds of each event ever recorded; it was exported at most once; and while it
      is pending, the next round sends it. */
  lemma EachEventOnce(t: Tracked, n: nat)
    requires Sound(t) && n < |t.log|
    ensures WasExported(t, n) || IsPending(t, n) || WasLost(t, n)
    ensures !(WasExported(t, n) && IsPending(t, n)) && !(IsPending(t, n) && WasLost(t, n))
    ensures !(WasExported(t, n) && WasLost(t, n))
    ensures WasExported(t, n) ==> multiset(t.taken)[n] == 1
    ensures IsPending(t, n) ==> Pending(t.buf)[n - Cursor(t)] == t.log[n]
  {
    if n in t.taken {
      OnceInOrder(t.taken, n);
    }
  }

  lemma {:induction false} OnceInOrder(s: seq<int>, n: int)
    requires (forall i, j :: 0 <= i < j < |s| ==> s[i] < s[j]) && n in s
    ensures multiset(s)[n] == 1
  {
    var init := s[..|s| - 1];
    assert s == init + [s[|s| - 1]];
    if n in init {
      OnceInOrder(init, n);
    } else {
      assert multiset(init)[n] == 0;
    }
  }

  // ----- Steps -----

  lemma RecordingIsFaithful(t: Tracked, e: Event)
    requires Faithful(t)
    ensures Faithful(Apply(t, Recording(e)))
    ensures
      var u := Apply(t, Recording(e));
      && Base(u) == (if |t.buf.events| == t.buf.size then Base(t) + 1 else Base(t))
      && Cursor(u) == if Cursor(t) >= Base(u) then Cursor(t) else Base(u)
  {
    var u := Apply(t, Recording(e));
    var grown := t.log + [e];
    assert t.buf.events + [e] == grown[Base(t)..];
    if |t.buf.events| == t.buf.size {
      assert u.buf.events == grown[Base(t)..][1..] == grown[Base(t) + 1..];
    }
    if t.round.Some? {
      assert grown[t.round.value.from..t.round.value.logged] == t.log[t.round.value.from..t.round.value.logged];
    }
  }

  lemma BeginIsFaithful(t: Tracked)
    requires Faithful(t)
    ensures Faithful(Apply(t, Begin))
  {
    if Pending(t.buf) != [] {
      assert t.log[Base(t)..][t.buf.index..] == t.log[Cursor(t)..] == t.log[Cursor(t)..|t.log|];
    }
  }

  lemma StepIsFaithful(t: Tracked, op: Op)
    requires Faithful(t) && RoomTold(t) && Enabled(t, op)
    ensures Faithful(Apply(t, op)) && RoomTold(Apply(t, op))
  {
    match op {
      case Recording(e) => RecordingIsFaithful(t, e);
      case Begin => BeginIsFaithful(t);
      case End(_) =>
    }
  }

  /** A successful round leaves nothing behind exactly when it was undisturbed. */
  lemma SuccessExactly(t: Tracked)
    requires Sound(t) && RoomTold(t) && t.round.Some?
    ensures Sound(Apply(t, End(true))) <==> Undisturbed(t)
  {
    var u, r := Apply(t, End(true)), t.round.value;
    StepIsFaithful(t, End(true));
    if Undisturbed(t) {
      assert Cursor(u) == r.logged;
      forall n | Base(u) <= n < Cursor(u)
        ensures n in u.taken
      {
        if n >= r.from {
          assert Numbers(r.from, r.logged)[n - r.from] == n;
        } else {
          assert n in t.taken;
        }
      }
    } else {
      var n := if r.logged >= Base(u) then r.logged else Base(u);
      assert Base(u) <= n < Cursor(u) && n !in u.taken;
    }
  }

  /** Every other step keeps every event in its place. */
  lemma {:induction false} StepIsSound(t: Tracked, op: Op)
    requires Sound(t) && RoomTold(t) && Enabled(t, op) && op != End(true)
    ensures Sound(Apply(t, op))
  {
    StepIsFaithful(t, op);
    if op.Recording? {
      RecordingIsFaithful(t, op.e);
    }
  }

  /** What a disturbed round skips: as many of the events recorded since it began as were trimmed
      meanwhile, none of them ever sent, all of them still in the buffer or trimmed unsent. */
  lemma DisturbedSkips(t: Tracked, n: int)
    requires Sound(t) && RoomTold(t) && t.round.Some? && !Undisturbed(t)
    ensures
      var u := Apply(t, End(true));
      t.round.value.logged <= n < Cursor(u) ==> n !in u.taken && n < |u.log|
    ensures Cursor(Apply(t, End(true))) - t.round.value.logged
         == Base(t) - (t.round.value.logged - t.round.value.upTo) > 0
  {
  }

  // ----- Runs -----

  ghost predicate IsRun(size: nat, ops: seq<Op>, states: seq<Tracked>) {
    && |states| == |ops| + 1 && states[0] == Start(size)
    && (forall k :: 0 <= k < |ops| ==> Enabled(states[k], ops[k]) && states[k + 1] == Apply(states[k], ops[k]))
  }

  lemma {:induction false} RunsAreFaithful(size: nat, ops: seq<Op>, states: seq<Tracked>, k: nat)
    requires size > 0 && IsRun(size, ops, states) && k < |states|
    ensures Faithful(states[k]) && RoomTold(states[k])
  {
    if k > 0 {
      RunsAreFaithful(size, ops, states, k - 1);
      StepIsFaithful(states[k - 1], ops[k - 1]);
    }
  }

  /** Every successful round found room for all that was recorded while it was sending. */
  ghost predicate AllUndisturbed(ops: seq<Op>, states: seq<Tracked>)
    requires |states| == |ops| + 1
  {
    forall k :: 0 <= k < |ops| && ops[k] == End(true) ==> Undisturbed(states[k])
  }

  lemma {:induction false} UndisturbedRunsAreSound(size: nat, ops: seq<Op>, states: seq<Tracked>, k: nat)
    requires size > 0 && IsRun(size, ops, states) && k < |states| && AllUndisturbed(ops, states)
    ensures Sound(states[k])
  {
    if k > 0 {
      UndisturbedRunsAreSound(size, ops, states, k - 1);
      RunsAreFaithful(size, ops, states, k - 1);
      if ops[k - 1] == End(true) {
        SuccessExactly(states[k - 1]);
      } else {
        StepIsSound(states[k - 1], ops[k - 1]);
      }
    }
  }

  /** Over a whole run, every event is exported once in order, pending, or trimmed first, at every
      moment, if and only if no successful round was disturbed. */
  lemma RunIsSoundExactly(size: nat, ops: seq<Op>, states: seq<Tracked>)
    requires size > 0 && IsRun(size, ops, states)
    ensures (forall k :: 0 <= k < |states| ==> Sound(states[k])) <==> AllUndisturbed(ops, states)
  {
    if AllUndisturbed(ops, states) {
      forall k | 0 <= k < |states|
        ensures Sound(states[k])
      {
        UndisturbedRunsAreSound(size, ops, states, k);
      }
    } else {
      var k :| 0 <= k < |ops| && ops[k] == End(true) && !Undisturbed(states[k]);
      RunsAreFaithful(size, ops, states, k);
      if Sound(states[k]) {
        SuccessExactly(states[k]);
        assert !Sound(states[k + 1]);
      }
    }
  }

  /** Rounds during which nothing is recorded are never disturbed. */
  lemma AtomicRoundsAreUndisturbed(size: nat, ops: seq<Op>, states: seq<Tracked>)
    requires size > 0 && IsRun(size, ops, states)
    requires forall k :: 0 <= k < |ops| && ops[k].Recording? ==> states[k].round == None
    ensures AllUndisturbed(ops, states)
  {
    forall k | 0 <= k < |ops| && ops[k] == End(true)
      ensures Undisturbed(states[k])
    {
      AtomicRound(size, ops, states, k);
    }
  }

  lemma {:induction false} AtomicRound(size: nat, ops: seq<Op>, states: seq<Tracked>, k: nat)
    requires size > 0 && IsRun(size, ops, states) && k < |states|
    requires forall i :: 0 <= i < |ops| && ops[i].Recording? ==> states[i].round == None
    ensures states[k].round.Some? ==> states[k].round.value.logged == |states[k].log|
    ensures states[k].round.Some? ==> states[k].round.value.upTo <= states[k].buf.size
  {
    if k > 0 {
      AtomicRound(size, ops, states, k - 1);
      RunsAreFaithful(size, ops, states, k - 1);
    }
  }

  /** A disturbed round exists: with room for one event, the second arrives while the first is sent, and
      is buffered but never exported. */
  lemma BusyRoundLosesAnEvent() returns (ops: seq<Op>, states: seq<Tracked>)
    ensures IsRun(1, ops, states) && !AllUndisturbed(ops, states)
    ensures
      var t := states[|ops|];
      t.log == [7, 8] && t.buf.events == [8] && t.taken == [0] && t.round == None && Pending(t.buf) == []
  {
    ops := [Recording(7), Begin, Recording(8), End(true)];
    var t1 := Apply(Start(1), ops[0]);
    assert t1 == Tracked(Buffer(1, [7], 0, 1, 0, 0), None, [7], []);
    var t2 := Apply(t1, ops[1]);
    assert t2 == t1.(round := Some(Round(0, 1, 1, [7])));
    var t3 := Apply(t2, ops[2]);
    assert t3.buf == Buffer(1, [8], 0, 2, 0, 0) && t3.log == [7, 8];
    var t4 := Apply(t3, ops[3]);
    assert Numbers(0, 1) == [0];
    assert t4.taken == [0] && t4.buf == Buffer(1, [8], 1, 2, 1, 0);
    states := [Start(1), t1, t2, t3, t4];
    assert ops[3] == End(true) && !Undisturbed(states[3]);
  }

  // ----- The buffer and its counters -----

  function RecordedBy(ops: seq<Op>): seq<Event> {
    if ops == [] then []
    else
      var before := RecordedBy(ops[..|ops| - 1]);
      match ops[|ops| - 1]
      case Recording(e) => before + [e]
      case _ => before
  }

  function FailedRounds(ops: seq<Op>): nat {
    if ops == [] then 0 else FailedRounds(ops[..|ops| - 1]) + (if ops[|ops| - 1] == End(false) then 1 else 0)
  }

  function Newest(s: seq<Event>, n: nat): seq<Event> { if |s| <= n then s else s[|s| - n..] }

  /** In every run the buffer holds exactly the newest events there is room for, and the counters tell how
      many were recorded and how many rounds failed. */
  lemma {:induction false} BufferIsNewest(size: nat, ops: seq<Op>, states: seq<Tracked>, k: nat)
    requires IsRun(size, ops, states) && k < |states|
    ensures var b := states[k].buf;
      b.size == size && b.events == Newest(RecordedBy(ops[..k]), size)
      && b.recorded == |RecordedBy(ops[..k])| && b.errors == FailedRounds(ops[..k])
  {
    if k > 0 {
      var last := k - 1;
      BufferIsNewest(size, ops, states, last);
      assert ops[..k][..last] == ops[..last] && ops[..k][last] == ops[last];
      BufferStep(states[last], ops[last], RecordedBy(ops[..last]));
    }
  }

  lemma BufferStep(t: Tracked, op: Op, recorded: seq<Event>)
    requires Enabled(t, op) && t.buf.events == Newest(recorded, t.buf.size) && t.buf.recorded == |recorded|
    ensures var all := if op.Recording? then recorded + [op.e] else recorded;
      var b := Apply(t, op).buf;
      b.size == t.buf.size && b.events == Newest(all, b.size) && b.recorded == |all|
      && b.errors == t.buf.errors + (if op == End(false) then 1 else 0)
  {
  }
}
