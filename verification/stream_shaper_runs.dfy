/** Whole runs under the stream shaper: starts keep their distance and their order, and the thread wakes
    exactly when the next start is allowed. */
module StreamShaperRuns {
  import opened Basics
  import opened Lifecycle
  import opened Component
  import opened History
  import H = StreamShaping
  import C = Conservation
  import S = Scheduling

  /** The times of all assignments, in order. */
  function AssignTimes(trace: seq<Op>): seq<Time> {
    if trace == [] then []
    else
      var last := trace[|trace| - 1];
      AssignTimes(trace[..|trace| - 1]) + (if last.kind == Assign then [last.at] else [])
  }

  predicate Spaced(times: seq<Time>, period: Time) {
    forall i :: 0 <= i < |times| - 1 ==> times[i] + period <= times[i + 1]
  }

  /** What the trace and the shaper know of each other: the starts are spaced and the last one is the one
      the shaper remembers, and whoever has not started is queued in the order of arrival. */
  ghost predicate Told(trace: seq<Op>, h: H.State) {
    && Spaced(AssignTimes(trace), h.period)
    && (AssignTimes(trace) != [] ==> !h.firstRun && AssignTimes(trace)[|AssignTimes(trace)| - 1] == h.lastAssign)
    && TaskIds(Arrivals(trace)) == Starts(trace) + h.fifo
  }

  ghost predicate Inv(s: State) {
    && C.Inv(s) && s.policy.Shaper? && Told(s.comp.trace, s.policy.h)
    && (!s.notified && s.comp.running.Keys == {} && s.policy.h.fifo != [] ==> Waiting(s))
  }

  /** An idle resource with a queue sleeps until the next start is allowed. */
  predicate Waiting(s: State)
    requires s.policy.Shaper?
  {
    && !s.policy.h.firstRun && s.deadline == Some(s.policy.h.lastAssign + s.policy.h.period)
    && s.clock <= s.deadline.value
  }

  lemma SnocTold(trace: seq<Op>, op: Op)
    ensures AssignTimes(trace + [op]) == AssignTimes(trace) + (if op.kind == Assign then [op.at] else [])
    ensures TaskIds(Arrivals(trace + [op]))
            == TaskIds(Arrivals(trace)) + (if op.kind == Release then [op.task.id] else [])
  {
    assert (trace + [op])[..|trace|] == trace;
    Snoc(trace, op);
  }

  lemma ReleaseTold(c: Comp, h: H.State, t: Task, now: Time)
    requires Told(c.trace, h)
    ensures Told(ReleaseTask(c, t, now).trace, H.Added(h, t))
  {
    hide Arrivals, Starts, AssignTimes, TaskIds;
    var op := Op(Release, t, now);
    SnocTold(c.trace, op);
    Snoc(c.trace, op);
    assert (Starts(c.trace) + h.fifo) + [t.id] == Starts(c.trace) + (h.fifo + [t.id]);
  }

  lemma QuietTold(trace: seq<Op>, op: Op, h: H.State)
    requires Told(trace, h) && op.kind != Assign && op.kind != Release
    ensures Told(trace + [op], h)
  {
    SnocTold(trace, op);
    Snoc(trace, op);
  }

  lemma FinishTold(c: Comp, h: H.State, t: Task, now: Time)
    requires Told(c.trace, h)
    ensures Told(FinishDiiTask(c, t, now).trace, h)
  {
    var op := Op(FinishDii, t, now);
    QuietTold(c.trace, op, h);
    QuietTold(c.trace + [op], Op(FinishLat, t, now), h);
  }

  lemma ChargeTold(c: Comp, h: H.State, clock: Time, now: Time)
    requires C.Sound(c, S.Shaper(h), clock) && Told(c.trace, h)
    ensures var (c1, p1) := ChargeRunning(c, S.Shaper(h), now);
            p1 == S.Shaper(h) && Told(c1.trace, h)
  {
    hide Told;
    if c.running.Keys != {} {
      C.Holder(c, S.Shaper(h), clock);
      var id := Begin(c.running);
      var t := RanTask(c.running[id], c.assignedAt, now);
      EraseAbsent(h.fifo, id);
      FinishTold(c.(running := c.running[id := t], assignedAt := now), h, t, now);
    }
  }

  lemma {:induction false} AddAllTold(c: Comp, h: H.State, ts: seq<Task>, now: Time)
    requires Told(c.trace, h)
    ensures var (c1, p1) := AddAll(c, S.Shaper(h), ts, now);
            p1.Shaper? && Told(c1.trace, p1.h) && p1.h.period == h.period
    decreases ts
  {
    if ts != [] {
      hide Told;
      ReleaseTold(c, h, ts[0], now);
      AddAllTold(ReleaseTask(c, ts[0], now), H.Added(h, ts[0]), ts[1..], now);
    }
  }

  /** A start: the front of the queue, at least a period after the start before it. */
  lemma StartTold(c: Comp, h: H.State, now: Time)
    requires Told(c.trace, h) && h.fifo != [] && h.fifo[0] in c.ready && c.ready[h.fifo[0]].id == h.fifo[0]
    requires h.fifo[0] !in Starts(c.trace)
    requires h.firstRun || h.lastAssign + h.period <= now
    ensures Told(AssignTask(c, c.ready[h.fifo[0]], now).trace, H.State(h.fifo[1..], h.period, now, false))
  {
    hide Arrivals, Starts, AssignTimes, TaskIds;
    var op := Op(Assign, c.ready[h.fifo[0]], now);
    SnocTold(c.trace, op);
    Snoc(c.trace, op);
    assert Starts(c.trace) + h.fifo == (Starts(c.trace) + [h.fifo[0]]) + h.fifo[1..];
  }

  /** Whoever is queued has never been started. */
  lemma {:induction false} QueuedNotStarted(trace: seq<Op>, h: H.State)
    requires Told(trace, h) && NoDup(TaskIds(Arrivals(trace))) && h.fifo != []
    ensures h.fifo[0] !in Starts(trace)
  {
    var ids := TaskIds(Arrivals(trace));
    assert ids[|Starts(trace)|] == h.fifo[0];
    forall i | 0 <= i < |Starts(trace)| ensures Starts(trace)[i] != h.fifo[0] {
      assert ids[i] == Starts(trace)[i];
    }
  }

  /** What the decision makes of the trace. */
  lemma DecisionTold(c: Comp, h: H.State, now: Time, notified: bool)
    requires C.Sound(c, S.Shaper(h), now) && Told(c.trace, h)
    ensures var s1 := AfterDecision(c, S.Shaper(h), now, notified);
            s1.policy.Shaper? && Told(s1.comp.trace, s1.policy.h) && s1.policy.h.period == h.period
  {
    hide Told;
    var (d, h1) := H.Decide(h, now, c.running);
    if d.OnlyAssign? {
      var id := h.fifo[0];
      assert id in h.fifo;
      C.StoryDistinct(c);
      QueuedNotStarted(c.trace, h);
      StartTold(c, h, now);
    } else {
      KeptTold(c.trace, h, h1);
    }
  }

  lemma KeptTold(trace: seq<Op>, h: H.State, h1: H.State)
    requires Told(trace, h) && h1 in {h, h.(firstRun := false)}
    ensures Told(trace, h1)
  {
  }

  /** After a pass an idle resource with a queue waits for the next start. */
  lemma DecisionWaits(c: Comp, h: H.State, now: Time, notified: bool)
    requires C.Sound(c, S.Shaper(h), now) && C.UpToDate(c, now)
    ensures var s1 := AfterDecision(c, S.Shaper(h), now, notified);
            s1.policy.Shaper? && (s1.comp.running.Keys == {} && s1.policy.h.fifo != [] ==> Waiting(s1))
  {
    var (d, h1) := H.Decide(h, now, c.running);
    C.AfterDecisionSound(c, S.Shaper(h), now, notified);
    var s1 := AfterDecision(c, S.Shaper(h), now, notified);
    if d.OnlyAssign? {
      assert h.fifo[0] in s1.comp.running;
    }
  }

  lemma StepInv(s: State, e: Event)
    requires Inv(s) && Possible(s, e)
    ensures Inv(Step(s, e))
  {
    hide Told;
    C.StepInv(s, e);
    match e {
      case Arrive(now, t) => ReleaseTold(s.comp, s.policy.h, t, now);
      case Wake(now, released) => WakeInv(s, now, released);
      case Latency(now, t) => QuietTold(s.comp.trace, Op(FinishLat, t, now), s.policy.h);
    }
  }

  lemma WakeInv(s: State, now: Time, released: seq<Task>)
    requires Inv(s) && Possible(s, Wake(now, released))
    ensures var s1 := Pass(s, now, released);
            && s1.policy.Shaper? && Told(s1.comp.trace, s1.policy.h)
            && (s1.comp.running.Keys == {} && s1.policy.h.fifo != [] ==> Waiting(s1))
  {
    hide Told, Waiting;
    ChargeTold(s.comp, s.policy.h, s.clock, now);
    var (c1, p1) := ChargeRunning(s.comp, s.policy, now);
    AddAllTold(c1, s.policy.h, released, now);
    C.BeforeDecisionSound(s, now, released);
    var (c, p) := BeforeDecision(s, released, now);
    DecisionTold(c, p.h, now, released != []);
    DecisionWaits(c, p.h, now, released != []);
  }

  lemma {:induction false} RunInv(s: State, es: seq<Event>)
    requires Inv(s) && Legal(s, es)
    ensures Inv(Run(s, es))
    decreases es
  {
    if es != [] {
      StepInv(s, es[0]);
      RunInv(Step(s, es[0]), es[1..]);
    }
  }

  lemma StartInv(s: State)
    requires C.Start(s) && s.policy.Shaper?
    ensures Inv(s)
  {
    C.StartInv(s);
    NobodyQueued(s.policy.h.fifo, s.comp.ready.Keys);
  }

  lemma NobodyQueued(q: seq<int>, s: set<int>)
    requires Lists(q, s) && s == {}
    ensures q == []
  {
    HeadIn(q);
  }

  /** Shaping: in every run the starts are at least a shaping period apart. */
  lemma {:induction false} StartsSpaced(s: State, es: seq<Event>)
    requires C.Start(s) && s.policy.Shaper? && Legal(s, es)
    ensures Run(s, es).policy.Shaper? && Spaced(AssignTimes(Run(s, es).comp.trace), Run(s, es).policy.h.period)
  {
    StartInv(s);
    RunInv(s, es);
  }

  /** The stream stays in order: at any time the arrivals are those that were started, in the order of their
      starts, followed by the queue. */
  lemma {:induction false} StreamInOrder(s: State, es: seq<Event>)
    requires C.Start(s) && s.policy.Shaper? && Legal(s, es)
    ensures var r := Run(s, es);
            r.policy.Shaper? && TaskIds(Arrivals(r.comp.trace)) == Starts(r.comp.trace) + r.policy.h.fifo
  {
    StartInv(s);
    RunInv(s, es);
  }

  /** No needless idling: an idle resource with a queue sleeps exactly until the next start is allowed, and
      the pass at that instant starts the front of the queue; no earlier pass does. */
  lemma {:induction false} WakesForStart(s: State, es: seq<Event>, now: Time)
    requires C.Start(s) && s.policy.Shaper? && Legal(s, es)
    requires var r := Run(s, es);
             && !r.notified && r.comp.running.Keys == {} && r.comp.ready.Keys != {} && OnTime(r, now)
    ensures var r := Run(s, es);
            && r.policy.Shaper? && r.deadline == Some(r.policy.h.lastAssign + r.policy.h.period)
            && (Pass(r, now, []).comp.running.Keys != {} <==> now == r.deadline.value)
  {
    StartInv(s);
    RunInv(s, es);
    IdlePass(Run(s, es), now);
  }

  lemma IdlePass(r: State, now: Time)
    requires Inv(r) && !r.notified && r.comp.running.Keys == {} && r.comp.ready.Keys != {} && OnTime(r, now)
    ensures r.deadline == Some(r.policy.h.lastAssign + r.policy.h.period)
    ensures Pass(r, now, []).comp.running.Keys != {} <==> now == r.deadline.value
  {
    hide Told;
    var id := Begin(r.comp.ready);
    assert id in r.policy.h.fifo;
    assert r.comp.running == map[];
    assert BeforeDecision(r, [], now) == (r.comp, r.policy);
    C.BeforeDecisionSound(r, now, []);
    C.AfterDecisionSound(r.comp, r.policy, now, false);
    var first := r.policy.h.fifo[0];
    assert first in r.policy.h.fifo;
    var s1 := AfterDecision(r.comp, r.policy, now, false);
    if now == r.deadline.value {
      assert first in s1.comp.running;
    }
  }
}
