/** Whole runs under round robin: how long an instance in the deque can wait, and exactly when the
    assertion of the scheduling decision fails. */
module RoundRobinRuns {
  import opened Basics
  import opened Lifecycle
  import opened Component
  import R = RoundRobinScheduling
  import opened Turns
  import C = Conservation
  import S = Scheduling

  /** While the thread sleeps, a non-empty deque means that a task runs and that the thread wakes no
      later than the slice ends. */
  ghost predicate Inv(s: State) {
    && C.Inv(s) && s.policy.RoundRobin?
    && (!s.notified && s.policy.r.fifo != [] ==> Guarded(s))
  }

  predicate Guarded(s: State)
    requires s.policy.RoundRobin?
  {
    s.comp.running.Keys != {} && s.deadline.Some? && s.deadline.value <= s.policy.r.expires
  }

  /** `id` is at position j of the deque, the slice has not been missed, and the thread will be
      awake in time. */
  predicate Queued(s: State, id: int, j: nat) {
    && s.policy.RoundRobin?
    && j < |s.policy.r.fifo| && s.policy.r.fifo[j] == id
    && s.clock <= s.policy.r.expires
    && (s.notified || Guarded(s))
  }

  // ---- what a pass does to the deque --------------------------------------------------------------------

  /** Up to the decision nothing in the deque moves; releases join at the end. */
  lemma {:induction false} AddAllFifo(c: Comp, r: R.State, ts: seq<Task>, now: Time)
    ensures var p := AddAll(c, S.RoundRobin(r), ts, now).1;
            p.RoundRobin? && r.fifo <= p.r.fifo && p.r.slice == r.slice && p.r.expires == r.expires
    decreases ts
  {
    if ts != [] {
      AddAllFifo(ReleaseTask(c, ts[0], now), R.Added(r, ts[0]), ts[1..], now);
    }
  }

  lemma ChargeFifo(c: Comp, r: R.State, clock: Time, now: Time)
    requires C.Sound(c, S.RoundRobin(r), clock)
    ensures ChargeRunning(c, S.RoundRobin(r), now).1 == S.RoundRobin(r)
  {
    if c.running.Keys != {} {
      var id := Begin(c.running);
      R.RemovedAgree(r, RanTask(c.running[id], c.assignedAt, now), c.ready);
    }
  }

  lemma BeforeFifo(s: State, now: Time, released: seq<Task>)
    requires C.Inv(s) && s.policy.RoundRobin?
    ensures var p := BeforeDecision(s, released, now).1;
            && p.RoundRobin? && s.policy.r.fifo <= p.r.fifo
            && p.r.slice == s.policy.r.slice && p.r.expires == s.policy.r.expires
  {
    ChargeFifo(s.comp, s.policy.r, s.clock, now);
    AddAllFifo(ChargeRunning(s.comp, s.policy, now).0, s.policy.r, released, now);
  }

  /** After any pass whose assertion holds, the guard is up again. */
  lemma PassGuards(c: Comp, r: R.State, now: Time, notified: bool)
    requires C.Sound(c, S.RoundRobin(r), now) && C.UpToDate(c, now) && R.DecisionAssert(r, now, c.running)
    ensures var s1 := AfterDecision(c, S.RoundRobin(r), now, notified);
            s1.policy.RoundRobin? && (s1.policy.r.fifo != [] ==> Guarded(s1) && now < s1.policy.r.expires)
  {
    var (d, r1) := R.Decide(r, now, c.ready, c.running);
    S.RoundRobinAgreeKeys(r, now, c.ready, c.running);
    var c1 := ResignPart(c, d, now);
    var slice := R.TimeSlice(r1, now, c1.running);
    C.MovedSound(c, S.RoundRobin(r), now);
    C.SliceNotPast(S.RoundRobin(r1), now, c1.ready, c1.running);
    C.WaitBounded(slice, Moved(c, d, now));
  }

  lemma StepInv(s: State, e: Event)
    requires Inv(s) && Possible(s, e) && Allowed(s, e)
    ensures Inv(Step(s, e))
  {
    C.StepInv(s, e);
    match e {
      case Arrive(_, _) =>
      case Wake(now, released) =>
        BeforeFifo(s, now, released);
        C.BeforeDecisionSound(s, now, released);
        var (c, p) := BeforeDecision(s, released, now);
        PassGuards(c, p.r, now, released != []);
      case Latency(_, _) =>
    }
  }

  lemma {:induction false} RunInv(s: State, es: seq<Event>)
    requires Inv(s) && Legal(s, es) && AllAllowed(s, es)
    ensures Inv(Run(s, es))
    decreases es
  {
    if es != [] {
      StepInv(s, es[0]);
      RunInv(Step(s, es[0]), es[1..]);
    }
  }

  lemma StartInv(s: State)
    requires C.Start(s) && s.policy.RoundRobin?
    ensures Inv(s)
  {
    C.StartInv(s);
  }

  // ---- waiting ------------------------------------------------------------------------------------------

  /** The end of the j-th slice after the current one. */
  function SliceEnd(r: R.State, j: nat): Time {
    r.expires + j as real * r.slice
  }

  lemma NextSlice(expires: Time, slice: Time, j: nat)
    requires j > 0
    ensures expires + slice + (j - 1) as real * slice == expires + j as real * slice
  {
    assert (j - 1) as real == j as real - 1.0;
    assert (j as real - 1.0) * slice == j as real * slice - slice;
  }

  lemma SliceEndLater(r: R.State, j: nat)
    requires 0.0 < r.slice
    ensures r.expires <= SliceEnd(r, j)
  {
    assert 0.0 <= j as real * r.slice;
  }

  ghost predicate AssignedBy(trace: seq<Op>, from: nat, id: int, bound: Time) {
    exists i :: from <= i < |trace| && trace[i].kind == Assign && trace[i].task.id == id && trace[i].at <= bound
  }

  /** One pass assigns the instance or moves it no further from its turn. */
  lemma PassQueued(c: Comp, r: R.State, now: Time, notified: bool, id: int, j: nat)
    requires C.Sound(c, S.RoundRobin(r), now) && C.UpToDate(c, now) && R.DecisionAssert(r, now, c.running)
    requires j < |r.fifo| && r.fifo[j] == id && now <= r.expires
    ensures var s1 := AfterDecision(c, S.RoundRobin(r), now, notified);
            || AssignedBy(s1.comp.trace, |c.trace|, id, SliceEnd(r, j))
            || exists j1 :: Queued(s1, id, j1) && SliceEnd(s1.policy.r, j1) <= SliceEnd(r, j)
  {
    PassGuards(c, r, now, notified);
    SliceEndLater(r, j);
    var s1 := AfterDecision(c, S.RoundRobin(r), now, notified);
    var (d, r1) := R.Decide(r, now, c.ready, c.running);
    S.RoundRobinAgreeKeys(r, now, c.ready, c.running);
    if S.Assigns(d) {
      if j == 0 {
        var i := |s1.comp.trace| - 1;
        assert s1.comp.trace[i].task.id == id;
      } else {
        NextSlice(r.expires, r.slice, j);
        assert r1.fifo[j - 1] == id;
        assert Queued(s1, id, j - 1);
      }
    } else {
      assert Queued(s1, id, j);
    }
  }

  /** The deque as the decision of a pass finds it. */
  lemma DecisionQueued(s: State, now: Time, released: seq<Task>, id: int, j: nat)
    requires Inv(s) && Queued(s, id, j) && Possible(s, Wake(now, released))
    ensures var (c, p) := BeforeDecision(s, released, now);
            && p.RoundRobin? && C.Sound(c, p, now) && C.UpToDate(c, now) && R.DecisionAssert(p.r, now, c.running)
            && j < |p.r.fifo| && p.r.fifo[j] == id && now <= p.r.expires
            && p.r.slice == s.policy.r.slice && p.r.expires == s.policy.r.expires
            && |s.comp.trace| <= |c.trace|
  {
    BeforeFifo(s, now, released);
    C.BeforeDecisionSound(s, now, released);
    BeforeTrace(s, released, now);
  }

  /** Whoever waits in time is not waiting for an overrun. */
  lemma QueuedAllowed(s: State, e: Event, id: int, j: nat)
    requires Inv(s) && Queued(s, id, j) && Possible(s, e)
    ensures Allowed(s, e)
  {
    if e.Wake? {
      DecisionQueued(s, e.at, e.released, id, j);
    }
  }

  lemma WakeQueued(s: State, now: Time, released: seq<Task>, id: int, j: nat)
    requires Inv(s) && Queued(s, id, j) && Possible(s, Wake(now, released))
    ensures var s1 := Pass(s, now, released);
            || AssignedBy(s1.comp.trace, |s.comp.trace|, id, SliceEnd(s.policy.r, j))
            || exists j1 :: Queued(s1, id, j1) && SliceEnd(s1.policy.r, j1) <= SliceEnd(s.policy.r, j)
  {
    DecisionQueued(s, now, released, id, j);
    var (c, p) := BeforeDecision(s, released, now);
    var bound := SliceEnd(s.policy.r, j);
    assert SliceEnd(p.r, j) == bound;
    PassQueued(c, p.r, now, released != [], id, j);
    var s1 := Pass(s, now, released);
    assert s1 == AfterDecision(c, S.RoundRobin(p.r), now, released != []);
    if AssignedBy(s1.comp.trace, |c.trace|, id, bound) {
      LaterFrom(s1.comp.trace, |s.comp.trace|, |c.trace|, id, bound, bound);
    }
  }

  lemma LaterFrom(trace: seq<Op>, from: nat, from1: nat, id: int, bound: Time, bound1: Time)
    requires AssignedBy(trace, from1, id, bound1) && from <= from1 && bound1 <= bound
    ensures AssignedBy(trace, from, id, bound)
  {
  }

  lemma StepQueued(s: State, e: Event, id: int, j: nat)
    requires Inv(s) && Queued(s, id, j) && Possible(s, e)
    ensures var s1 := Step(s, e);
            || AssignedBy(s1.comp.trace, |s.comp.trace|, id, SliceEnd(s.policy.r, j))
            || exists j1 :: Queued(s1, id, j1) && SliceEnd(s1.policy.r, j1) <= SliceEnd(s.policy.r, j)
  {
    match e {
      case Arrive(now, t) => assert Queued(Step(s, e), id, j);
      case Wake(now, released) => WakeQueued(s, now, released, id, j);
      case Latency(_, _) => assert Queued(Step(s, e), id, j);
    }
  }

  /** Bounded waiting: an instance at position k of the deque, queued no later than the end of the
      current slice, is assigned no later than k slices after that end, in every continuation; until
      then the clock has not passed that instant and the thread's time-out does not lie beyond it. */
  lemma {:induction false} BoundedWaiting(s: State, es: seq<Event>, id: int, k: nat)
    requires Inv(s) && Queued(s, id, k) && Legal(s, es)
    ensures var r := Run(s, es);
            var bound := SliceEnd(s.policy.r, k);
            || AssignedBy(r.comp.trace, |s.comp.trace|, id, bound)
            || (r.clock <= bound && r.policy.RoundRobin? && id in r.policy.r.fifo
                && (r.notified || (r.deadline.Some? && r.deadline.value <= bound)))
    decreases es
  {
    var bound := SliceEnd(s.policy.r, k);
    if es == [] {
      SliceEndLater(s.policy.r, k);
    } else {
      var s1 := Step(s, es[0]);
      QueuedAllowed(s, es[0], id, k);
      StepInv(s, es[0]);
      StepQueued(s, es[0], id, k);
      StepTrace(s, es[0]);
      RunTrace(s1, es[1..]);
      if AssignedBy(s1.comp.trace, |s.comp.trace|, id, bound) {
        var i :| |s.comp.trace| <= i < |s1.comp.trace| && s1.comp.trace[i].kind == Assign
          && s1.comp.trace[i].task.id == id && s1.comp.trace[i].at <= bound;
        assert Run(s, es).comp.trace[i] == s1.comp.trace[i];
      } else {
        var j :| Queued(s1, id, j) && SliceEnd(s1.policy.r, j) <= bound;
        BoundedWaiting(s1, es[1..], id, j);
        if AssignedBy(Run(s, es).comp.trace, |s1.comp.trace|, id, SliceEnd(s1.policy.r, j)) {
          LaterFrom(Run(s, es).comp.trace, |s.comp.trace|, |s1.comp.trace|, id, bound, SliceEnd(s1.policy.r, j));
        }
      }
    }
  }

  // ---- turns and slices -------------------------------------------------------------------------------------

  /** The deque is the line of the trace, turns and slices have been kept, and the slice of the running instance
      began with its assignment. */
  predicate Told(c: Comp, r: R.State) {
    && r.fifo == InLine(Everyone, UntilAssigned, c.trace) && InTurn(Everyone, UntilAssigned, c.trace)
    && FullSlices(c.trace, r.slice)
    && (c.running.Keys != {} ==> LastAssign(c.trace, Begin(c.running)) == Some(r.expires - r.slice))
  }

  lemma ReleaseTold(c: Comp, r: R.State, t: Task, now: Time)
    requires Told(c, r)
    ensures Told(ReleaseTask(c, t, now), R.Added(r, t))
  {
    Turns.Snoc(Everyone, UntilAssigned, c.trace, Op(Release, t, now));
    SliceSnoc(c.trace, Op(Release, t, now), r.slice);
    hide InLine, InTurn, FullSlices, LastAssign;
  }

  lemma {:induction false} AddAllTold(c: Comp, r: R.State, ts: seq<Task>, now: Time)
    requires Told(c, r)
    ensures var (c1, p1) := AddAll(c, S.RoundRobin(r), ts, now);
            p1.RoundRobin? && Told(c1, p1.r) && p1.r.slice == r.slice
    decreases ts
  {
    hide Told;
    if ts != [] {
      ReleaseTold(c, r, ts[0], now);
      AddAllTold(ReleaseTask(c, ts[0], now), R.Added(r, ts[0]), ts[1..], now);
    }
  }

  lemma OtherTold(trace: seq<Op>, op: Op, slice: Time)
    requires op.kind == FinishDii || op.kind == FinishLat
    ensures InLine(Everyone, UntilAssigned, trace + [op]) == InLine(Everyone, UntilAssigned, trace)
    ensures InTurn(Everyone, UntilAssigned, trace + [op]) <==> InTurn(Everyone, UntilAssigned, trace)
    ensures FullSlices(trace + [op], slice) <==> FullSlices(trace, slice)
    ensures forall id :: LastAssign(trace + [op], id) == LastAssign(trace, id)
  {
    Turns.Snoc(Everyone, UntilAssigned, trace, op);
    SliceSnoc(trace, op, slice);
  }

  lemma ChargeTold(c: Comp, r: R.State, clock: Time, now: Time)
    requires C.Sound(c, S.RoundRobin(r), clock) && Told(c, r)
    ensures var (c1, p1) := ChargeRunning(c, S.RoundRobin(r), now); p1 == S.RoundRobin(r) && Told(c1, r)
  {
    if c.running.Keys != {} {
      C.Holder(c, S.RoundRobin(r), clock);
      var id := Begin(c.running);
      var t := RanTask(c.running[id], c.assignedAt, now);
      R.RemovedAgree(r, t, c.ready);
      OtherTold(c.trace, Op(FinishDii, t, now), r.slice);
      OtherTold(c.trace + [Op(FinishDii, t, now)], Op(FinishLat, t, now), r.slice);
      var c1 := c.(running := c.running[id := t], assignedAt := now);
      assert c1.running.Keys == {id};
      hide C.Sound, InLine, InTurn, FullSlices, LastAssign;
    }
  }

  /** A task starts in its turn. */
  lemma AssignTold(c: Comp, r: R.State, now: Time)
    requires Told(c, r) && c.running == map[]
    requires r.fifo != [] && r.fifo[0] in c.ready && c.ready[r.fifo[0]].id == r.fifo[0]
    ensures Told(AssignTask(c, c.ready[r.fifo[0]], now), R.State(r.fifo[1..], r.slice, now + r.slice))
  {
    var t := c.ready[r.fifo[0]];
    Turns.Snoc(Everyone, UntilAssigned, c.trace, Op(Assign, t, now));
    SliceSnoc(c.trace, Op(Assign, t, now), r.slice);
    hide InLine, InTurn, FullSlices, LastAssign;
    assert AssignTask(c, t, now).running.Keys == {t.id};
  }

  /** A task is resigned at the end of its slice. */
  lemma ResignTold(c: Comp, r: R.State, t: Task, now: Time)
    requires Told(c, r) && c.running == map[t.id := t] && now == r.expires
    ensures Told(ResignTask(c, t, now), r.(fifo := r.fifo + [t.id])) && ResignTask(c, t, now).running == map[]
  {
    Turns.Snoc(Everyone, UntilAssigned, c.trace, Op(Resign, t, now));
    SliceSnoc(c.trace, Op(Resign, t, now), r.slice);
    hide InLine, InTurn, FullSlices, LastAssign;
    assert c.running.Keys == {t.id};
    assert ResignTask(c, t, now).running == map[];
  }

  lemma DecisionTold(c: Comp, r: R.State, now: Time, notified: bool)
    requires C.Sound(c, S.RoundRobin(r), now) && Told(c, r)
    ensures var s1 := AfterDecision(c, S.RoundRobin(r), now, notified);
            s1.policy.RoundRobin? && Told(s1.comp, s1.policy.r) && s1.policy.r.slice == r.slice
  {
    hide Told;
    var (d, r1) := R.Decide(r, now, c.ready, c.running);
    if S.Assigns(d) {
      R.PopAgree(r, c.ready);
      if c.running.Keys == {} {
        assert c.running == map[];
        AssignTold(c, r, now);
      } else {
        C.Holder(c, S.RoundRobin(r), now);
        var t := c.running[Begin(c.running)];
        assert c.running == map[t.id := t];
        ResignTold(c, r, t, now);
        AssignTold(ResignTask(c, t, now), r.(fifo := r.fifo + [t.id]), now);
        assert (r.fifo + [t.id])[1..] == r.fifo[1..] + [t.id];
      }
    }
  }

  lemma LatencyTold(c: Comp, r: R.State, t: Task, now: Time)
    requires Told(c, r)
    ensures Told(FinishLatencyTask(c, t, now), r)
  {
    OtherTold(c.trace, Op(FinishLat, t, now), r.slice);
    hide InLine, InTurn, FullSlices, LastAssign;
  }

  lemma StepTold(s: State, e: Event)
    requires C.Inv(s) && s.policy.RoundRobin? && Possible(s, e) && Told(s.comp, s.policy.r)
    ensures var s1 := Step(s, e);
            s1.policy.RoundRobin? && Told(s1.comp, s1.policy.r) && s1.policy.r.slice == s.policy.r.slice
  {
    hide Told, PhaseOf;
    match e {
      case Arrive(now, t) => ReleaseTold(s.comp, s.policy.r, t, now);
      case Wake(now, released) =>
        ChargeTold(s.comp, s.policy.r, s.clock, now);
        var (c1, p1) := ChargeRunning(s.comp, s.policy, now);
        AddAllTold(c1, s.policy.r, released, now);
        C.BeforeDecisionSound(s, now, released);
        var (c, p) := BeforeDecision(s, released, now);
        DecisionTold(c, p.r, now, released != []);
      case Latency(now, t) => LatencyTold(s.comp, s.policy.r, t, now);
    }
  }

  lemma {:induction false} RunTold(s: State, es: seq<Event>)
    requires C.Inv(s) && s.policy.RoundRobin? && Legal(s, es) && Told(s.comp, s.policy.r)
    ensures var r := Run(s, es);
            r.policy.RoundRobin? && Told(r.comp, r.policy.r) && r.policy.r.slice == s.policy.r.slice
    decreases es
  {
    if es != [] {
      C.StepInv(s, es[0]);
      StepTold(s, es[0]);
      hide Told, C.Inv, Possible, Step;
      RunTold(Step(s, es[0]), es[1..]);
    }
  }

  lemma StartTold(s: State)
    requires C.Start(s) && s.policy.RoundRobin?
    ensures C.Inv(s) && Told(s.comp, s.policy.r)
  {
    C.StartInv(s);
    HeadIn(s.policy.r.fifo);
  }

  /** Turns: in every run instances are assigned in the order in which they were released or, having been preempted,
      came back; the deque is that line. */
  lemma {:induction false} TurnsKept(s: State, es: seq<Event>)
    requires C.Start(s) && s.policy.RoundRobin? && Legal(s, es)
    ensures var r := Run(s, es);
            && r.policy.RoundRobin? && InTurn(Everyone, UntilAssigned, r.comp.trace)
            && r.policy.r.fifo == InLine(Everyone, UntilAssigned, r.comp.trace)
  {
    StartTold(s);
    RunTold(s, es);
  }

  /** Slices: in every run an instance is preempted exactly one slice after its last assignment, never earlier and
      never later. */
  lemma {:induction false} SlicesKept(s: State, es: seq<Event>)
    requires C.Start(s) && s.policy.RoundRobin? && Legal(s, es)
    ensures Run(s, es).policy.RoundRobin? && FullSlices(Run(s, es).comp.trace, s.policy.r.slice)
  {
    StartTold(s);
    RunTold(s, es);
  }

  // ---- the assertion that can fail ------------------------------------------------------------------------

  /** At `now` a task is still unfinished although its slice has ended. */
  predicate Overrun(s: State, now: Time) {
    && s.policy.RoundRobin? && s.policy.r.expires < now
    && s.comp.holder.Some? && s.comp.holder.value in s.comp.running
    && now < s.comp.assignedAt + s.comp.running[s.comp.holder.value].remaining
  }

  /** In a sleeping state before which no assertion has failed, a task released at `now` makes the next pass fail
      its assertion exactly when a task that is then still unfinished has been running past the end of its
      slice; and such a task runs alone. */
  lemma {:induction false} ArrivalFails(s: State, es: seq<Event>, now: Time, t: Task)
    requires C.Start(s) && s.policy.RoundRobin? && Legal(s, es) && AllAllowed(s, es)
    requires !Run(s, es).notified && Possible(Run(s, es), Arrive(now, t))
    ensures var r := Run(s, es);
            && Possible(Step(r, Arrive(now, t)), Wake(now, []))
            && (Allowed(Step(r, Arrive(now, t)), Wake(now, [])) <==> !Overrun(r, now))
            && (Overrun(r, now) ==> r.policy.r.fifo == [])
  {
    StartInv(s);
    RunInv(s, es);
    SleepingArrival(Run(s, es), now, t);
  }

  lemma SleepingArrival(r: State, now: Time, t: Task)
    requires Inv(r) && !r.notified && Possible(r, Arrive(now, t))
    ensures Possible(Step(r, Arrive(now, t)), Wake(now, []))
    ensures Allowed(Step(r, Arrive(now, t)), Wake(now, [])) <==> !Overrun(r, now)
    ensures Overrun(r, now) ==> r.policy.r.fifo == []
  {
    var r1 := Step(r, Arrive(now, t));
    StepInv(r, Arrive(now, t));
    BeforeFifo(r1, now, []);
    if r.comp.holder.Some? {
      assert r.comp.holder.value in r.comp.running;
      C.Holder(r.comp, r.policy, r.clock);
    }
  }

  /** The family is not empty: a task of delay 100 alone on slices of 10, and a second one at 50. */
  lemma LoneTaskOverruns()
    ensures var s := State(Comp(map[], map[], None, 0.0, {}, []), S.RoundRobin(R.State([], 10.0, 0.0)),
                           0.0, None, true);
            var t := Task(1, 1, 0, 100.0, 100.0, 100.0);
            var u := Task(2, 1, 0, 5.0, 5.0, 5.0);
            var es := [Arrive(0.0, t), Wake(0.0, []), Arrive(50.0, u)];
            && C.Start(s) && Legal(s, es) && AllAllowed(s, es)
            && Possible(Run(s, es), Wake(50.0, [])) && !Allowed(Run(s, es), Wake(50.0, []))
  {
    var s := State(Comp(map[], map[], None, 0.0, {}, []), S.RoundRobin(R.State([], 10.0, 0.0)), 0.0, None, true);
    var t := Task(1, 1, 0, 100.0, 100.0, 100.0);
    var u := Task(2, 1, 0, 5.0, 5.0, 5.0);
    var s1 := Step(s, Arrive(0.0, t));
    var s2 := Step(s1, Wake(0.0, []));
    var s3 := Step(s2, Arrive(50.0, u));
    var es := [Arrive(0.0, t), Wake(0.0, []), Arrive(50.0, u)];
    assert PhaseOf(s.comp.trace, 1) == Unborn;
    assert s1.comp.ready == map[1 := t] && s1.policy.r == R.State([1], 10.0, 0.0);
    assert s2.comp.running == map[1 := t] && s2.policy.r == R.State([], 10.0, 10.0);
    assert Begin(s2.comp.running) == 1;
    assert s2.deadline == Some(100.0);
    PhaseSnoc([Op(Release, t, 0.0)], Op(Assign, t, 0.0), 2);
    assert s2.comp.trace == [Op(Release, t, 0.0)] + [Op(Assign, t, 0.0)];
    assert PhaseOf(s2.comp.trace, 2) == Unborn;
    assert es == [es[0]] + ([es[1]] + ([es[2]] + []));
    RunCons(s, es[0], [es[1]] + ([es[2]] + []));
    RunCons(s1, es[1], [es[2]] + []);
    RunCons(s2, es[2], []);
  }
}
