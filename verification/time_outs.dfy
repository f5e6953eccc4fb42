/** How long the thread sleeps: exactly until the running task or the slice of the policy ends. */
module TimeOuts {
  import opened Basics
  import opened Lifecycle
  import opened Component
  import C = Conservation
  import W = TtccRuns
  import S = Scheduling
  import T = TdmaScheduling
  import R = RoundRobinScheduling
  import H = StreamShaping
  import K = TtccScheduling
  import A = AvbScheduling

  /** When the running task will have finished, as charged so far. */
  function Finish(c: Comp): Time
    requires c.running.Keys != {}
  {
    c.assignedAt + c.running[Begin(c.running)].remaining
  }

  function Sooner(finish: Time, end: Option<Time>): Time {
    if end.Some? && end.value < finish then end.value else finish
  }

  /** While a task runs, the thread sleeps until it finishes, or until `end` if that is sooner: no longer and no
      shorter. */
  predicate SleepsUntil(s: State, end: Option<Time>) {
    s.comp.running.Keys != {} ==> s.deadline == Some(Sooner(Finish(s.comp), end))
  }

  // ---- one pass -----------------------------------------------------------------------------------------------

  /** The slice a policy names between the two parts of a decision ends at this instant. */
  function NamedEnd(c: Comp, policy: S.Policy, now: Time): Option<Time> {
    match C.SliceOf(c, policy, now)
    case None => None
    case Some(slice) => Some(now + slice)
  }

  predicate LeavesTime(slice: Option<Time>) {
    slice.Some? ==> 0.0 < slice.value
  }

  /** After a pass the thread sleeps until the running task finishes or the named slice ends; without a running task,
      until the slice ends, or for ever. */
  lemma PassSleeps(c: Comp, policy: S.Policy, now: Time, notified: bool)
    requires C.Sound(c, policy, now) && C.UpToDate(c, now)
    ensures var s1 := AfterDecision(c, policy, now, notified);
            && SleepsUntil(s1, NamedEnd(c, policy, now))
            && (s1.comp.running.Keys == {} ==> s1.deadline == NamedEnd(c, policy, now))
            && (s1.comp.running.Keys != {} ==> s1.comp.assignedAt == now)
            && (s1.comp.running.Keys != {} && LeavesTime(C.SliceOf(c, policy, now)) ==>
                  s1.deadline.Some? && now < s1.deadline.value)
  {
    hide C.Sound, C.Inv, C.UpToDate, S.Decide, S.TimeSlice, S.After, S.Executable;
    var s1 := AfterDecision(c, policy, now, notified);
    C.AfterDecisionSound(c, policy, now, notified);
    if s1.comp.running.Keys != {} {
      RunsCharged(s1, now);
    }
  }

  lemma RunsCharged(s: State, now: Time)
    requires C.Inv(s) && C.UpToDate(s.comp, now) && s.comp.running.Keys != {}
    ensures s.comp.assignedAt == now && 0.0 < s.comp.running[Begin(s.comp.running)].remaining
  {
    C.Holder(s.comp, s.policy, s.clock);
  }

  /** In every run: after every pass the time-out is exactly the sooner of the end of the running task and the end of
      the slice that the policy named, and time passes before it unless that slice is empty. */
  lemma {:induction false} TimeOutExact(s: State, es: seq<Event>, now: Time, released: seq<Task>)
    requires C.Start(s) && Legal(s, es) && Possible(Run(s, es), Wake(now, released))
    ensures var r := Run(s, es);
            var (c, p) := BeforeDecision(r, released, now);
            var s1 := Pass(r, now, released);
            && SleepsUntil(s1, NamedEnd(c, p, now))
            && (s1.comp.running.Keys == {} ==> s1.deadline == NamedEnd(c, p, now))
            && (s1.comp.running.Keys != {} && LeavesTime(C.SliceOf(c, p, now)) ==>
                  s1.deadline.Some? && now < s1.deadline.value)
  {
    C.StartInv(s);
    C.RunInv(s, es);
    var r := Run(s, es);
    C.BeforeDecisionSound(r, now, released);
    var (c, p) := BeforeDecision(r, released, now);
    PassSleeps(c, p, now, released != []);
    hide C.Sound, C.Inv, C.SliceOf, SleepsUntil, AfterDecision, BeforeDecision;
  }

  /** Between passes neither the running task nor the time-out changes. */
  lemma OtherSleeps(s: State, e: Event, end: Option<Time>)
    requires !e.Wake? && SleepsUntil(s, end)
    ensures SleepsUntil(Step(s, e), end) && Step(s, e).comp.running == s.comp.running
    ensures Step(s, e).comp.assignedAt == s.comp.assignedAt
  {
  }

  // ---- which slices there are -----------------------------------------------------------------------------

  /** Where the slice ends that the policy grants a task charged last at `since`: never under static priority; at the
      end of the slot that contains the instant, found by walking the slots, under time division; when the first
      waiting class has paid its debt under credit-based shaping; at the next allowed start of the stream shaper; at
      the end of the current slot of the time-triggered controller. */
  function SliceEnd(p: S.Policy, since: Time): Option<Time> {
    match p
    case Priority(_) => None
    case RoundRobin(r) => if since < r.expires then Some(r.expires) else None
    case Tdma(t) =>
      if t.cycle == 0.0 then None
      else
        var x := T.CycleTime(since, t.cycle);
        var i := T.Scan(t.slots, x);
        if i < |t.slots| then Some(since + (T.Offset(t.slots, i + 1) - x)) else None
    case Avb(a) =>
      if forall i :: 0 <= i < |a.classes| ==> a.classes[i].bw != 0.0 then Some(since + A.NeededTime(a.classes))
      else None
    case Shaper(h) => if since < h.lastAssign + h.period then Some(h.lastAssign + h.period) else None
    case Ttcc(k) => Some(k.lastAssign + k.remaining)
  }

  /** The slice that a pass names, if it leaves a task running.  Round robin names none for a task that is alone when
      it is assigned, because the deque is empty by then; credit-based shaping names none when a task has been running
      before the pass. */
  lemma NamedIs(c: Comp, policy: S.Policy, now: Time, notified: bool)
    requires C.Sound(c, policy, now) && C.UpToDate(c, now)
    requires policy.Ttcc? ==> policy.k.lastAssign <= now && (policy.k.current == -1 ==> policy.k.remaining == 0.0)
    requires AfterDecision(c, policy, now, notified).comp.running.Keys != {}
    ensures var s1 := AfterDecision(c, policy, now, notified);
            || NamedEnd(c, policy, now) == SliceEnd(s1.policy, now)
            || (NamedEnd(c, policy, now) == None && s1.policy.RoundRobin? && s1.policy.r.fifo == [])
            || (NamedEnd(c, policy, now) == None && s1.policy.Avb?)
  {
    hide PhaseOf, C.Sound, C.UpToDate;
    match policy {
      case Priority(_) =>
      case RoundRobin(r) => NamedByRoundRobin(c, r, now, notified);
      case Tdma(t) => NamedByTdma(c, t, now, notified);
      case Avb(a) => NamedByAvb(c, a, now, notified);
      case Shaper(h) => NamedByShaper(c, h, now, notified);
      case Ttcc(k) => NamedByTtcc(c, k, now, notified);
    }
  }

  lemma NamedByRoundRobin(c: Comp, r: R.State, now: Time, notified: bool)
    ensures var s1 := AfterDecision(c, S.RoundRobin(r), now, notified);
            || NamedEnd(c, S.RoundRobin(r), now) == SliceEnd(s1.policy, now)
            || (NamedEnd(c, S.RoundRobin(r), now) == None && s1.policy.RoundRobin? && s1.policy.r.fifo == [])
  {
    hide R.Decide, Component.ResignPart, Component.AssignPart, WaitTime;
  }

  lemma NamedByTdma(c: Comp, t: T.State, now: Time, notified: bool)
    requires C.Sound(c, S.Tdma(t), now) && C.UpToDate(c, now)
    requires AfterDecision(c, S.Tdma(t), now, notified).comp.running.Keys != {}
    ensures NamedEnd(c, S.Tdma(t), now) == SliceEnd(AfterDecision(c, S.Tdma(t), now, notified).policy, now)
  {
    hide C.Sound, C.UpToDate, T.Configured, T.Decide, Component.ResignPart, Component.AssignPart, WaitTime;
    hide T.RemainingSlice, T.Scan, T.CycleTime, T.CurrentSlot, T.DecisionAssert, T.Offset;
    TdmaCounts(c, t, now, notified);
    T.LookupIsScan(t, now);
  }

  lemma NamedByAvb(c: Comp, a: A.State, now: Time, notified: bool)
    ensures var s1 := AfterDecision(c, S.Avb(a), now, notified);
            && s1.policy.Avb?
            && (NamedEnd(c, S.Avb(a), now) == SliceEnd(s1.policy, now) || NamedEnd(c, S.Avb(a), now) == None)
            && (c.running.Keys != {} ==> NamedEnd(c, S.Avb(a), now) == None)
  {
    hide A.Decide, A.SliceAssert, A.NeededTime, Component.AssignPart, WaitTime;
    AvbResignsNobody(a, now, c.running);
  }

  lemma AvbResignsNobody(a: A.State, now: Time, running: TaskMap)
    ensures !S.Resigns(A.Decide(a, now, running).0)
  {
  }

  lemma NamedByShaper(c: Comp, h: H.State, now: Time, notified: bool)
    ensures NamedEnd(c, S.Shaper(h), now) == SliceEnd(AfterDecision(c, S.Shaper(h), now, notified).policy, now)
  {
    hide Component.ResignPart, Component.AssignPart, WaitTime;
  }

  lemma NamedByTtcc(c: Comp, k: K.State, now: Time, notified: bool)
    requires C.Sound(c, S.Ttcc(k), now) && C.UpToDate(c, now)
    requires k.lastAssign <= now && (k.current == -1 ==> k.remaining == 0.0)
    requires AfterDecision(c, S.Ttcc(k), now, notified).comp.running.Keys != {}
    ensures NamedEnd(c, S.Ttcc(k), now) == SliceEnd(AfterDecision(c, S.Ttcc(k), now, notified).policy, now)
  {
    hide C.Sound, C.UpToDate, K.Configured, K.Decide, Component.ResignPart, Component.AssignPart, WaitTime;
    TtccCounts(c, k, now, notified);
    K.DecideConfigured(k, now, c.running);
    DecidesNow(k, now, c.running);
  }

  lemma DecidesNow(k: K.State, now: Time, running: TaskMap)
    ensures K.Decide(k, now, running).1.lastAssign == now
  {
  }

  /** Somebody is there if somebody runs after the pass. */
  lemma SomebodyThere(c: Comp, policy: S.Policy, now: Time, notified: bool)
    requires C.Sound(c, policy, now) && C.UpToDate(c, now)
    requires AfterDecision(c, policy, now, notified).comp.running.Keys != {}
    ensures |c.ready + c.running| != 0
  {
    C.AfterDecisionSound(c, policy, now, notified);
    var d := S.Decide(policy, now, c.ready, c.running).0;
    var s1 := AfterDecision(c, policy, now, notified);
    S.AfterTidy(d, c.ready, c.running);
    hide C.Sound, S.Decide, AfterDecision;
    assert Begin(s1.comp.running) in s1.comp.ready + s1.comp.running;
    assert c.ready + c.running != map[];
  }

  lemma TdmaCounts(c: Comp, t: T.State, now: Time, notified: bool)
    requires C.Sound(c, S.Tdma(t), now) && C.UpToDate(c, now)
    requires AfterDecision(c, S.Tdma(t), now, notified).comp.running.Keys != {}
    ensures t.processCount != 0 && T.Configured(t)
  {
    SomebodyThere(c, S.Tdma(t), now, notified);
  }

  lemma TtccCounts(c: Comp, k: K.State, now: Time, notified: bool)
    requires C.Sound(c, S.Ttcc(k), now) && C.UpToDate(c, now)
    requires AfterDecision(c, S.Ttcc(k), now, notified).comp.running.Keys != {}
    ensures k.processCount != 0 && K.Configured(k)
  {
    SomebodyThere(c, S.Ttcc(k), now, notified);
  }

  // ---- runs -------------------------------------------------------------------------------------------------------

  /** A state of a run sleeps until the sooner of task and slice; a round-robin task that was alone when it was
      assigned may sleep until it finishes, and so may a task that had been running before the last pass under
      credit-based shaping. */
  predicate Sleeps(s: State) {
    || SleepsUntil(s, SliceEnd(s.policy, s.comp.assignedAt))
    || (s.policy.RoundRobin? && SleepsUntil(s, None) && (s.notified || s.policy.r.fifo == []))
    || (s.policy.Avb? && (s.notified || SleepsUntil(s, None)))
  }

  ghost predicate Inv(s: State) {
    C.Inv(s) && (s.policy.Ttcc? ==> W.Inv(s)) && Sleeps(s)
  }

  lemma {:induction false} ScanFrame(a: seq<T.Slot>, b: seq<T.Slot>, x: Time)
    requires |a| == |b| && forall i :: 0 <= i < |a| ==> a[i].length == b[i].length
    ensures T.Scan(a, x) == T.Scan(b, x)
  {
    if |a| > 1 && a[0].length <= x {
      ScanFrame(a[1..], b[1..], x - a[0].length);
    }
  }

  lemma TdmaFrame(a: T.State, b: T.State, since: Time)
    requires a.cycle == b.cycle && |a.slots| == |b.slots|
    requires forall i :: 0 <= i < |a.slots| ==> a.slots[i].length == b.slots[i].length
    ensures SliceEnd(S.Tdma(a), since) == SliceEnd(S.Tdma(b), since)
  {
    if a.cycle != 0.0 {
      var x := T.CycleTime(since, a.cycle);
      ScanFrame(a.slots, b.slots, x);
      if T.Scan(a.slots, x) < |a.slots| {
        T.OffsetFrame(a.slots, b.slots, T.Scan(a.slots, x) + 1);
      }
    }
  }

  /** An arrival moves no slice. */
  lemma AddedEnd(p: S.Policy, t: Task, since: Time)
    requires S.Configured(p) && !p.Avb?
    ensures SliceEnd(S.Added(p, t), since) == SliceEnd(p, since)
  {
    if p.Tdma? {
      TdmaFrame(p.t, T.Added(p.t, t), since);
    }
  }

  lemma WakeSleeps(s: State, now: Time, released: seq<Task>)
    requires Inv(s) && Possible(s, Wake(now, released))
    ensures Sleeps(Pass(s, now, released))
  {
    C.BeforeDecisionSound(s, now, released);
    SameKind(s, now, released);
    var (c, p) := BeforeDecision(s, released, now);
    if p.Ttcc? {
      W.WalkBefore(s, now, released);
    }
    hide C.Sound, C.Inv, C.UpToDate, BeforeDecision, SliceEnd, NamedEnd, SleepsUntil;
    PassSleeps(c, p, now, released != []);
    var s1 := AfterDecision(c, p, now, released != []);
    if s1.comp.running.Keys != {} {
      NamedIs(c, p, now, released != []);
    }
  }

  /** A policy stays what it is. */
  lemma SameKind(s: State, now: Time, released: seq<Task>)
    ensures var p := BeforeDecision(s, released, now).1;
            (p.Avb? <==> s.policy.Avb?) && (p.Ttcc? <==> s.policy.Ttcc?)
    ensures var p := Pass(s, now, released).policy;
            (p.Avb? <==> s.policy.Avb?) && (p.Ttcc? <==> s.policy.Ttcc?)
  {
    var (c1, p1) := ChargeRunning(s.comp, s.policy, now);
    AddAllKind(c1, p1, released, now);
    var (c, p) := BeforeDecision(s, released, now);
    DecideKind(p, now, c.ready, c.running);
  }

  lemma {:induction false} AddAllKind(c: Comp, p: S.Policy, ts: seq<Task>, now: Time)
    ensures var p1 := AddAll(c, p, ts, now).1; (p1.Avb? <==> p.Avb?) && (p1.Ttcc? <==> p.Ttcc?)
    decreases ts
  {
    if ts != [] {
      var (c1, p1) := AddTask(c, p, ts[0], now);
      AddAllKind(c1, p1, ts[1..], now);
    }
  }

  lemma DecideKind(p: S.Policy, now: Time, ready: TaskMap, running: TaskMap)
    ensures var p1 := S.Decide(p, now, ready, running).1; (p1.Avb? <==> p.Avb?) && (p1.Ttcc? <==> p.Ttcc?)
  {
  }

  lemma StepInv(s: State, e: Event)
    requires Inv(s) && Possible(s, e)
    ensures Inv(Step(s, e))
  {
    hide C.Inv, W.Inv, Sleeps, Possible, Pass, S.Added;
    C.StepInv(s, e);
    if s.policy.Ttcc? {
      W.StepInv(s, e);
    }
    match e {
      case Arrive(_, t) => ArriveSleeps(s, e);
      case Wake(now, released) =>
        SameKind(s, now, released);
        WakeSleeps(s, now, released);
      case Latency(_, _) => LatencySleeps(s, e);
    }
  }

  lemma ArriveSleeps(s: State, e: Event)
    requires C.Inv(s) && Sleeps(s) && e.Arrive?
    ensures var p := Step(s, e).policy; (p.Avb? <==> s.policy.Avb?) && (p.Ttcc? <==> s.policy.Ttcc?)
    ensures Sleeps(Step(s, e))
  {
    if s.policy.Avb? {
      return;
    }
    AddedEnd(s.policy, e.task, s.comp.assignedAt);
    if SleepsUntil(s, SliceEnd(s.policy, s.comp.assignedAt)) {
      OtherSleeps(s, e, SliceEnd(s.policy, s.comp.assignedAt));
    } else {
      OtherSleeps(s, e, None);
    }
  }

  lemma LatencySleeps(s: State, e: Event)
    requires Sleeps(s) && e.Latency?
    ensures Step(s, e).policy == s.policy && Sleeps(Step(s, e))
  {
    if SleepsUntil(s, SliceEnd(s.policy, s.comp.assignedAt)) {
      OtherSleeps(s, e, SliceEnd(s.policy, s.comp.assignedAt));
    } else if SleepsUntil(s, None) {
      OtherSleeps(s, e, None);
    }
  }

  lemma {:induction false} RunInv(s: State, es: seq<Event>)
    requires Inv(s) && Legal(s, es)
    ensures Inv(Run(s, es))
    decreases es
  {
    hide Inv, Possible, Step;
    if es != [] {
      StepInv(s, es[0]);
      RunInv(Step(s, es[0]), es[1..]);
    }
  }

  /** In every reachable state in which the thread sleeps and a task runs, it sleeps until the task ends or until the
      end of the slice that its policy grants it, whichever is sooner: exactly one of the two instants.  A round-robin
      task that was alone when it was assigned has no slice until the pass that an arrival asks for; under credit-based
      shaping the slice is void once a pass finds the task running. */
  lemma {:induction false} SleepsExactly(s: State, es: seq<Event>)
    requires C.Start(s) && Legal(s, es) && (s.policy.Ttcc? ==> W.Start(s))
    ensures var r := Run(s, es);
            !r.notified && r.comp.running.Keys != {} ==>
              || r.deadline == Some(Sooner(Finish(r.comp), SliceEnd(r.policy, r.comp.assignedAt)))
              || (r.policy.RoundRobin? && r.policy.r.fifo == [] && r.deadline == Some(Finish(r.comp)))
              || (r.policy.Avb? && r.deadline == Some(Finish(r.comp)))
  {
    C.StartInv(s);
    if s.policy.Ttcc? {
      W.StartInv(s);
    }
    assert s.comp.running == map[];
    assert SleepsUntil(s, SliceEnd(s.policy, s.comp.assignedAt)) by {
      hide SliceEnd;
    }
    hide C.Inv, W.Inv, SliceEnd, C.Start, W.Start;
    RunInv(s, es);
  }
}
