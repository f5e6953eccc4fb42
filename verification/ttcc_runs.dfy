/** Whole runs of the time-triggered controller: while tasks are present, slots follow each other without a
    gap, a running task is in its own slot, and who is served in which cycle. */
module TtccRuns {
  import opened Basics
  import opened Lifecycle
  import opened Component
  import opened History
  import T = TdmaScheduling
  import K = TtccScheduling
  import C = Conservation
  import S = Scheduling

  /** Where the current slot ends. */
  function Boundary(k: K.State): Time {
    k.lastAssign + k.remaining
  }

  /** The running instance belongs to the current slot, and its own filter selects the current cycle. */
  predicate InPlace(k: K.State, running: TaskMap) {
    forall id :: id in running ==>
      id in K.FifoOf(k.slots, k.current) && K.Allowed(K.FilterOf(k.filters, id), k.cycle, false)
  }

  predicate Walking(k: K.State, now: Time) {
    && k.lastAssign <= now
    && (k.current == -1 ==> k.remaining == 0.0)
    && (0 <= k.current ==> k.remaining <= K.LengthOf(k.slots, k.current))
  }

  ghost predicate Inv(s: State) {
    && C.Inv(s) && s.policy.Ttcc?
    && Walking(s.policy.k, s.clock) && InPlace(s.policy.k, s.comp.running)
    && (!s.notified && Occupied(s) ==> s.deadline.Some?)
    && (s.deadline.Some? ==> s.deadline.value <= Boundary(s.policy.k))
  }

  predicate Occupied(s: State) {
    s.comp.ready.Keys != {} || s.comp.running.Keys != {}
  }

  /** Arrivals and departures do not touch the walk. */
  predicate SameWalk(a: K.State, b: K.State) {
    && b.current == a.current && b.cycle == a.cycle && b.remaining == a.remaining && b.lastAssign == a.lastAssign
    && |b.slots| == |a.slots| && forall i :: 0 <= i < |a.slots| ==> b.slots[i].length == a.slots[i].length
  }

  // ---- one decision -------------------------------------------------------------------------------------

  /** The slot walk of one decision.  Before the end of a slot nothing moves.  At its end the next slot
      begins; the end of the last slot takes two decisions at the same instant, the second of which begins
      the next cycle.  After idle time the next slot begins when somebody is there again. */
  lemma DecideWalk(k: K.State, now: Time, running: TaskMap)
    requires K.Configured(k) && Walking(k, now)
    ensures var k1 := K.Decide(k, now, running).1;
            && K.Configured(k1) && Walking(k1, now) && k1.lastAssign == now && k1.slots == k.slots
            && (now < Boundary(k) ==> k1.current == k.current && k1.cycle == k.cycle && Boundary(k1) == Boundary(k))
            && (Boundary(k) <= now && k.current + 1 < |k.slots| ==>
                  k1.current == k.current + 1 && k1.cycle == k.cycle
                    && Boundary(k1) == now + k.slots[k.current + 1].length)
            && (Boundary(k) <= now && k.current + 1 == |k.slots| && 0.0 < k.remaining ==>
                  k1.current == k.current && k1.cycle == k.cycle && Boundary(k1) == now)
            && (Boundary(k) <= now && k.current + 1 == |k.slots| && k.remaining == 0.0 ==>
                  k1.current == 0 && k1.cycle == k.cycle + 1 && Boundary(k1) == now + k.slots[0].length)
  {
    K.DecideConfigured(k, now, running);
  }

  /** Whoever runs after a decision is in place: it was chosen for the slot, or stays in its slot. */
  lemma DecideInPlace(k: K.State, now: Time, ready: TaskMap, running: TaskMap)
    requires K.Configured(k) && Walking(k, now) && S.Tidy(ready, running) && InPlace(k, running)
    requires running.Keys != {} ==> running.Keys == {Begin(running)}
    ensures var (d, k1) := K.Decide(k, now, running);
            InPlace(k1, S.After(d, ready, running).1)
  {
    var (d, k1) := K.Decide(k, now, running);
    K.ServedHere(k, now, running);
    if running.Keys != {} {
      S.MoveBack(ready, running, Begin(running));
    }
  }

  // ---- up to the decision -----------------------------------------------------------------------------------

  lemma AddedPlace(k: K.State, t: Task, running: TaskMap)
    requires InPlace(k, running) && t.id !in running
    ensures SameWalk(k, K.Added(k, t)) && InPlace(K.Added(k, t), running)
  {
    hide K.Allowed;
  }

  lemma {:induction false} AddAllPlace(c: Comp, k: K.State, ts: seq<Task>, now: Time)
    requires C.Sound(c, S.Ttcc(k), now) && NewTasks(c, ts) && InPlace(k, c.running)
    ensures var (c1, p1) := AddAll(c, S.Ttcc(k), ts, now);
            p1.Ttcc? && SameWalk(k, p1.k) && InPlace(p1.k, c1.running)
    decreases ts
  {
    hide InPlace, C.Sound, NewTask, NewTasks, PhaseOf;
    if ts != [] {
      NewTasksRest(c, ts, now);
      AddOneSound(c, k, ts[0], now);
      AddedPlace(k, ts[0], c.running);
      AddAllPlace(ReleaseTask(c, ts[0], now), K.Added(k, ts[0]), ts[1..], now);
    }
  }

  lemma AddOneSound(c: Comp, k: K.State, t: Task, now: Time)
    requires C.Sound(c, S.Ttcc(k), now) && NewTask(c, t)
    ensures C.Sound(ReleaseTask(c, t, now), S.Ttcc(K.Added(k, t)), now)
    ensures K.Configured(k) && t.id !in c.ready && t.id !in c.running
  {
    C.AddSound(c, S.Ttcc(k), t, now);
    assert C.Tells(c, t.id);
  }

  lemma ChargePlace(c: Comp, k: K.State, clock: Time, now: Time)
    requires C.Sound(c, S.Ttcc(k), clock) && InPlace(k, c.running)
    ensures var (c1, p1) := ChargeRunning(c, S.Ttcc(k), now);
            p1.Ttcc? && SameWalk(k, p1.k) && InPlace(p1.k, c1.running)
  {
    hide K.Allowed, PhaseOf;
    if c.running.Keys != {} {
      C.Holder(c, S.Ttcc(k), clock);
      hide C.Sound;
    }
  }

  lemma BeforePlace(s: State, now: Time, released: seq<Task>)
    requires Inv(s) && OnTime(s, now) && NewTasks(s.comp, released)
    ensures var (c, p) := BeforeDecision(s, released, now);
            && p.Ttcc? && SameWalk(s.policy.k, p.k) && InPlace(p.k, c.running)
  {
    ChargePlace(s.comp, s.policy.k, s.clock, now);
    C.ChargeSound(s.comp, s.policy, s.clock, now);
    var (c1, p1) := ChargeRunning(s.comp, s.policy, now);
    assert NewTasks(c1, released);
    hide InPlace, C.Sound;
    AddAllPlace(c1, p1.k, released, now);
  }

  // ---- a pass -----------------------------------------------------------------------------------------------

  /** The thread sleeps no longer than the slot lasts, as long as anybody is there. */
  lemma SliceIsSlot(c: Comp, k: K.State, now: Time, notified: bool)
    requires C.Sound(c, S.Ttcc(k), now) && C.UpToDate(c, now) && Walking(k, now)
    requires c.ready.Keys != {} || c.running.Keys != {}
    ensures var s1 := AfterDecision(c, S.Ttcc(k), now, notified);
            s1.policy.Ttcc? && s1.deadline.Some? && now <= s1.deadline.value <= Boundary(s1.policy.k)
  {
    var (d, k1) := K.Decide(k, now, c.running);
    DecideWalk(k, now, c.running);
    K.DecideConfigured(k, now, c.running);
    C.AfterDecisionSound(c, S.Ttcc(k), now, notified);
    hide K.Decide, K.Agree, Walking;
    C.SliceHonoured(c, S.Ttcc(k), now, notified);
  }

  /** A pass that leaves nobody behind asks for no time-out. */
  lemma NobodySleeps(c: Comp, k: K.State, now: Time, notified: bool)
    requires C.Sound(c, S.Ttcc(k), now) && C.UpToDate(c, now) && c.ready.Keys == {} && c.running.Keys == {}
    ensures AfterDecision(c, S.Ttcc(k), now, notified).deadline == None
  {
    assert c.ready + c.running == map[] && k.processCount == 0;
    K.DecideConfigured(k, now, c.running);
    C.AfterDecisionSound(c, S.Ttcc(k), now, notified);
    var d := K.Decide(k, now, c.running).0;
    hide K.Decide, PhaseOf;
    assert !S.Assigns(d) && !S.Resigns(d);
  }

  lemma PassPlace(c: Comp, k: K.State, now: Time, notified: bool)
    requires C.Sound(c, S.Ttcc(k), now) && C.UpToDate(c, now) && Walking(k, now) && InPlace(k, c.running)
    ensures var s1 := AfterDecision(c, S.Ttcc(k), now, notified);
            && s1.policy == S.Ttcc(K.Decide(k, now, c.running).1) && s1.clock == now
            && Walking(s1.policy.k, now) && InPlace(s1.policy.k, s1.comp.running)
            && (Occupied(s1) <==> c.ready.Keys != {} || c.running.Keys != {})
  {
    var s1 := AfterDecision(c, S.Ttcc(k), now, notified);
    var (d, k1) := K.Decide(k, now, c.running);
    if c.running.Keys != {} {
      C.Holder(c, S.Ttcc(k), now);
    }
    DecideWalk(k, now, c.running);
    DecideInPlace(k, now, c.ready, c.running);
    AfterKeeps(c, k, now, notified);
    hide K.Decide, InPlace, Walking, K.Agree, C.Sound;
    SameDomain(c.ready, c.running, s1.comp.ready, s1.comp.running);
  }

  /** A decision only moves instances. */
  lemma AfterKeeps(c: Comp, k: K.State, now: Time, notified: bool)
    requires C.Sound(c, S.Ttcc(k), now) && C.UpToDate(c, now)
    ensures var s1 := AfterDecision(c, S.Ttcc(k), now, notified);
            var (d, k1) := K.Decide(k, now, c.running);
            && s1.policy == S.Ttcc(k1) && k1.filters == k.filters
            && s1.comp.ready.Keys !! s1.comp.running.Keys && s1.comp.ready + s1.comp.running == c.ready + c.running
            && s1.comp.running == S.After(d, c.ready, c.running).1
  {
    var (d, k1) := K.Decide(k, now, c.running);
    K.DecideConfigured(k, now, c.running);
    C.AfterDecisionSound(c, S.Ttcc(k), now, notified);
    hide K.Decide, K.Agree;
    S.AfterTidy(d, c.ready, c.running);
  }

  lemma SameDomain(ready: TaskMap, running: TaskMap, ready1: TaskMap, running1: TaskMap)
    requires ready1 + running1 == ready + running
    ensures ready1.Keys + running1.Keys == ready.Keys + running.Keys
  {
    assert (ready1 + running1).Keys == ready1.Keys + running1.Keys;
    assert (ready + running).Keys == ready.Keys + running.Keys;
  }

  lemma WakeInv(s: State, now: Time, released: seq<Task>)
    requires Inv(s) && Possible(s, Wake(now, released))
    ensures Inv(Pass(s, now, released))
  {
    hide PhaseOf, InPlace;
    BeforePlace(s, now, released);
    C.StepInv(s, Wake(now, released));
    C.BeforeDecisionSound(s, now, released);
    var (c, p) := BeforeDecision(s, released, now);
    assert Walking(p.k, now);
    hide C.Sound, C.Inv, C.UpToDate;
    PassPlace(c, p.k, now, released != []);
    if c.ready.Keys != {} || c.running.Keys != {} {
      SliceIsSlot(c, p.k, now, released != []);
    } else {
      NobodySleeps(c, p.k, now, released != []);
    }
  }

  lemma ArriveInv(s: State, now: Time, t: Task)
    requires Inv(s) && Possible(s, Arrive(now, t))
    ensures Inv(Step(s, Arrive(now, t)))
  {
    hide InPlace, PhaseOf, C.Inv, K.Added;
    NewcomerAbsent(s, now, t);
    C.StepInv(s, Arrive(now, t));
    AddedPlace(s.policy.k, t, s.comp.running);
  }

  lemma NewcomerAbsent(s: State, now: Time, t: Task)
    requires C.Inv(s) && Possible(s, Arrive(now, t))
    ensures t.id !in s.comp.ready && t.id !in s.comp.running
  {
    assert C.Tells(s.comp, t.id);
  }

  lemma StepInv(s: State, e: Event)
    requires Inv(s) && Possible(s, e)
    ensures Inv(Step(s, e))
  {
    match e {
      case Arrive(now, t) =>
        ArriveInv(s, now, t);
        hide *;
      case Wake(now, released) =>
        WakeInv(s, now, released);
        hide Inv, Pass;
      case Latency(_, _) =>
        C.StepInv(s, e);
        hide InPlace, C.Inv;
    }
  }

  lemma {:induction false} RunInv(s: State, es: seq<Event>)
    requires Inv(s) && Legal(s, es)
    ensures Inv(Run(s, es))
    decreases es
  {
    if es != [] {
      StepInv(s, es[0]);
      RunInv(Step(s, es[0]), es[1..]);
    }
  }

  // ---- the filters ------------------------------------------------------------------------------------------

  /** The one map of filters is what the arrivals, in their order, have made of the configured one. */
  predicate Recorded(c: Comp, k: K.State, processes: map<int, K.Filter>) {
    k.filters == K.Registered(processes, Arrivals(c.trace))
  }

  lemma AddedRecorded(c: Comp, k: K.State, t: Task, now: Time, processes: map<int, K.Filter>)
    requires K.Configured(k) && Recorded(c, k, processes)
    ensures Recorded(ReleaseTask(c, t, now), K.Added(k, t), processes)
  {
    Snoc(c.trace, Op(Release, t, now));
    K.RegisteredSnoc(processes, Arrivals(c.trace), t);
  }

  lemma {:induction false} AddAllRecorded(c: Comp, k: K.State, ts: seq<Task>, now: Time, processes: map<int, K.Filter>)
    requires K.Configured(k) && Recorded(c, k, processes)
    ensures var (c1, p1) := AddAll(c, S.Ttcc(k), ts, now); p1.Ttcc? && Recorded(c1, p1.k, processes)
    decreases ts
  {
    hide Recorded;
    if ts != [] {
      AddedRecorded(c, k, ts[0], now, processes);
      AddAllRecorded(ReleaseTask(c, ts[0], now), K.Added(k, ts[0]), ts[1..], now, processes);
    }
  }

  lemma FinishArrivals(c: Comp, t: Task, now: Time)
    ensures Arrivals(FinishDiiTask(c, t, now).trace) == Arrivals(c.trace)
  {
    OtherKeeps(c.trace, Op(FinishDii, t, now));
    OtherKeeps(c.trace + [Op(FinishDii, t, now)], Op(FinishLat, t, now));
    hide Arrivals;
  }

  lemma RemovedFilters(k: K.State, t: Task)
    requires K.Configured(k)
    ensures K.Configured(K.Removed(k, t)) && K.Removed(k, t).filters == k.filters
  {
  }

  lemma ChargeRecorded(c: Comp, k: K.State, now: Time, processes: map<int, K.Filter>)
    requires K.Configured(k) && Recorded(c, k, processes)
    ensures var (c1, p1) := ChargeRunning(c, S.Ttcc(k), now);
            p1.Ttcc? && K.Configured(p1.k) && Recorded(c1, p1.k, processes)
  {
    if c.running.Keys != {} {
      var t := RanTask(c.running[Begin(c.running)], c.assignedAt, now);
      FinishArrivals(c.(running := c.running[Begin(c.running) := t], assignedAt := now), t, now);
      RemovedFilters(k, t);
      hide Arrivals, K.Registered, FinishDiiTask, K.Removed, K.Configured;
    }
  }

  lemma AfterRecorded(c: Comp, k: K.State, now: Time, notified: bool, processes: map<int, K.Filter>)
    requires K.Configured(k) && Recorded(c, k, processes)
    ensures var s1 := AfterDecision(c, S.Ttcc(k), now, notified);
            s1.policy.Ttcc? && Recorded(s1.comp, s1.policy.k, processes)
  {
    K.DecideConfigured(k, now, c.running);
    var (d, k1) := K.Decide(k, now, c.running);
    hide K.Decide;
    var c1 := Component.ResignPart(c, d, now);
    if S.Resigns(d) && d.resign in c.running {
      OtherKeeps(c.trace, Op(Resign, c.running[d.resign], now));
    }
    if S.Assigns(d) && d.assign in c1.ready {
      OtherKeeps(c1.trace, Op(Assign, c1.ready[d.assign], now));
    }
    hide Arrivals, K.Registered;
  }

  lemma StepRecorded(s: State, e: Event, processes: map<int, K.Filter>)
    requires Inv(s) && Possible(s, e) && Recorded(s.comp, s.policy.k, processes)
    ensures var s1 := Step(s, e); s1.policy.Ttcc? && Recorded(s1.comp, s1.policy.k, processes)
  {
    hide Recorded, InPlace, PhaseOf, Possible;
    assert K.Configured(s.policy.k);
    match e {
      case Arrive(now, t) => AddedRecorded(s.comp, s.policy.k, t, now, processes);
      case Wake(now, released) =>
        ChargeRecorded(s.comp, s.policy.k, now, processes);
        var (c1, p1) := ChargeRunning(s.comp, s.policy, now);
        AddAllRecorded(c1, p1.k, released, now, processes);
        AddAllConfigured(c1, p1.k, released, now);
        var (c2, p2) := BeforeDecision(s, released, now);
        AfterRecorded(c2, p2.k, now, released != [], processes);
      case Latency(now, t) => DoneRecorded(s.comp, s.policy.k, t, now, processes);
    }
  }

  lemma DoneRecorded(c: Comp, k: K.State, t: Task, now: Time, processes: map<int, K.Filter>)
    requires Recorded(c, k, processes)
    ensures Recorded(FinishLatencyTask(c, t, now), k, processes)
  {
    OtherKeeps(c.trace, Op(FinishLat, t, now));
  }

  /** Only a release adds to the arrivals. */
  lemma OtherKeeps(trace: seq<Op>, op: Op)
    requires op.kind != Release
    ensures Arrivals(trace + [op]) == Arrivals(trace)
  {
    Snoc(trace, op);
  }

  lemma {:induction false} AddAllConfigured(c: Comp, k: K.State, ts: seq<Task>, now: Time)
    requires K.Configured(k)
    ensures var p1 := AddAll(c, S.Ttcc(k), ts, now).1; p1.Ttcc? && K.Configured(p1.k)
    decreases ts
  {
    if ts != [] {
      AddAllConfigured(ReleaseTask(c, ts[0], now), K.Added(k, ts[0]), ts[1..], now);
    }
  }

  lemma {:induction false} RunRecorded(s: State, es: seq<Event>, processes: map<int, K.Filter>)
    requires Inv(s) && Legal(s, es) && Recorded(s.comp, s.policy.k, processes)
    ensures var r := Run(s, es); r.policy.Ttcc? && Recorded(r.comp, r.policy.k, processes)
    decreases es
  {
    if es != [] {
      StepInv(s, es[0]);
      StepRecorded(s, es[0], processes);
      hide Recorded, Inv, Possible, Step;
      RunRecorded(Step(s, es[0]), es[1..], processes);
    }
  }

  // ---- results -----------------------------------------------------------------------------------------------

  /** A component with the configured scheduler, before its first decision. */
  ghost predicate Start(s: State) {
    && C.Start(s) && s.policy.Ttcc?
    && s.policy.k.current == -1 && s.policy.k.remaining == 0.0 && s.policy.k.lastAssign == 0.0
  }

  lemma StartInv(s: State)
    requires Start(s)
    ensures Inv(s)
  {
    C.StartInv(s);
  }

  /** The slot walk: in every run, a pass before the end of the slot leaves slot, cycle and end as they are,
      and no pass comes after the end, if the pass before left somebody behind.  The pass at the end starts the
      next slot at that very instant; at the end of the last slot it uses up the slot, and the pass after it,
      at the same instant, starts the first slot of the next cycle. */
  lemma {:induction false} SlotWalk(s: State, es: seq<Event>, now: Time, released: seq<Task>)
    requires Start(s) && Legal(s, es)
    requires Possible(Run(s, es), Wake(now, released))
    ensures var r := Run(s, es);
            var s1 := Pass(r, now, released);
            && r.policy.Ttcc? && s1.policy.Ttcc?
            && var k, k1 := r.policy.k, s1.policy.k;
               && |k1.slots| == |k.slots| && 0 <= k1.current < |k1.slots|
               && (r.deadline.Some? ==> now <= Boundary(k))
               && (now < Boundary(k) ==> k1.current == k.current && k1.cycle == k.cycle && Boundary(k1) == Boundary(k))
               && (now == Boundary(k) && k.current + 1 < |k.slots| ==>
                     k1.current == k.current + 1 && k1.cycle == k.cycle
                       && Boundary(k1) == now + k1.slots[k1.current].length)
               && (now == Boundary(k) && k.current + 1 == |k.slots| && 0.0 < k.remaining ==>
                     k1.current == k.current && k1.cycle == k.cycle && Boundary(k1) == now && k1.remaining == 0.0)
               && (now == Boundary(k) && k.current + 1 == |k.slots| && k.remaining == 0.0 ==>
                     k1.current == 0 && k1.cycle == k.cycle + 1 && Boundary(k1) == now + k1.slots[0].length)
  {
    StartInv(s);
    RunInv(s, es);
    PassWalk(Run(s, es), now, released);
  }

  lemma PassWalk(r: State, now: Time, released: seq<Task>)
    requires Inv(r) && Possible(r, Wake(now, released))
    ensures var s1 := Pass(r, now, released);
            && s1.policy.Ttcc?
            && var k, k1 := r.policy.k, s1.policy.k;
               && |k1.slots| == |k.slots| && 0 <= k1.current < |k1.slots|
               && (now < Boundary(k) ==> k1.current == k.current && k1.cycle == k.cycle && Boundary(k1) == Boundary(k))
               && (now == Boundary(k) && k.current + 1 < |k.slots| ==>
                     k1.current == k.current + 1 && k1.cycle == k.cycle
                       && Boundary(k1) == now + k1.slots[k1.current].length)
               && (now == Boundary(k) && k.current + 1 == |k.slots| && 0.0 < k.remaining ==>
                     k1.current == k.current && k1.cycle == k.cycle && Boundary(k1) == now && k1.remaining == 0.0)
               && (now == Boundary(k) && k.current + 1 == |k.slots| && k.remaining == 0.0 ==>
                     k1.current == 0 && k1.cycle == k.cycle + 1 && Boundary(k1) == now + k1.slots[0].length)
  {
    hide InPlace, K.Agree;
    WalkBefore(r, now, released);
    C.BeforeDecisionSound(r, now, released);
    var (c, p) := BeforeDecision(r, released, now);
    assert K.Configured(p.k);
    hide C.Sound, C.Inv, K.Decide, Possible;
    DecideWalk(p.k, now, c.running);
    K.DecideConfigured(p.k, now, c.running);
  }

  lemma {:induction false} AddAllWalk(c: Comp, k: K.State, ts: seq<Task>, now: Time)
    ensures var p1 := AddAll(c, S.Ttcc(k), ts, now).1; p1.Ttcc? && SameWalk(k, p1.k)
    decreases ts
  {
    if ts != [] {
      AddAllWalk(ReleaseTask(c, ts[0], now), K.Added(k, ts[0]), ts[1..], now);
    }
  }

  lemma WalkBefore(r: State, now: Time, released: seq<Task>)
    requires r.policy.Ttcc?
    ensures var p := BeforeDecision(r, released, now).1; p.Ttcc? && SameWalk(r.policy.k, p.k)
  {
    var (c1, p1) := ChargeRunning(r.comp, r.policy, now);
    AddAllWalk(c1, p1.k, released, now);
  }

  // ---- the ends of the slots ----------------------------------------------------------------------------

  /** How many slots have begun, counted over all cycles, less one. */
  function SlotNo(k: K.State): int {
    k.cycle * |k.slots| + k.current
  }

  /** The lengths of the slots after the n-th up to the m-th, the walk going round. */
  function Span(slots: seq<T.Slot>, n: int, m: int): Time
    requires |slots| > 0
    decreases m - n
  {
    if m <= n then 0.0 else Span(slots, n, m - 1) + slots[m % |slots|].length
  }

  predicate SameLengths(a: seq<T.Slot>, b: seq<T.Slot>) {
    |a| == |b| && forall i :: 0 <= i < |a| ==> a[i].length == b[i].length
  }

  lemma {:induction false} SpanFrame(a: seq<T.Slot>, b: seq<T.Slot>, n: int, m: int)
    requires |a| > 0 && SameLengths(a, b)
    ensures Span(a, n, m) == Span(b, n, m)
    decreases m - n
  {
    if n < m {
      SpanFrame(a, b, n, m - 1);
    }
  }

  lemma {:induction false} SpanChain(slots: seq<T.Slot>, n: int, m: int, l: int)
    requires |slots| > 0 && n <= m <= l
    ensures Span(slots, n, m) + Span(slots, m, l) == Span(slots, n, l)
    decreases l - m
  {
    if m < l {
      SpanChain(slots, n, m, l - 1);
    }
  }

  /** Every pass of the run, and the one before it, leaves somebody behind. */
  predicate StaysOccupied(s: State, es: seq<Event>)
    decreases es
  {
    s.deadline.Some? && (es == [] || StaysOccupied(Step(s, es[0]), es[1..]))
  }

  /** From state s to state r the end of the slot has moved by exactly the lengths of the slots begun. */
  ghost predicate Spaced(s: State, r: State) {
    && s.policy.Ttcc? && r.policy.Ttcc? && |s.policy.k.slots| > 0 && SameLengths(s.policy.k.slots, r.policy.k.slots)
    && SlotNo(s.policy.k) <= SlotNo(r.policy.k)
    && Boundary(r.policy.k) == Boundary(s.policy.k) + Span(s.policy.k.slots, SlotNo(s.policy.k), SlotNo(r.policy.k))
  }

  lemma SpacedTrans(s: State, m: State, r: State)
    requires Spaced(s, m) && Spaced(m, r)
    ensures Spaced(s, r)
  {
    var n0, n1, n2 := SlotNo(s.policy.k), SlotNo(m.policy.k), SlotNo(r.policy.k);
    SpanFrame(s.policy.k.slots, m.policy.k.slots, n1, n2);
    SpanChain(s.policy.k.slots, n0, n1, n2);
    hide SlotNo, Boundary, Span;
  }

  lemma NextSlot(k: K.State, k1: K.State)
    requires SameLengths(k.slots, k1.slots) && |k.slots| > 0
    requires -1 <= k.current < |k.slots| && 0 <= k1.current < |k1.slots|
    requires || (k1.current == k.current + 1 && k1.cycle == k.cycle)
             || (k.current + 1 == |k.slots| && k1.current == 0 && k1.cycle == k.cycle + 1)
    ensures SlotNo(k1) == SlotNo(k) + 1 && SlotNo(k1) % |k.slots| == k1.current
  {
    var n := |k.slots|;
    assert (k.cycle + 1) * n == k.cycle * n + n;
    Remainder(k1.cycle, n, k1.current);
  }

  lemma Remainder(q: int, n: int, x: int)
    requires 0 <= x < n
    ensures (q * n + x) % n == x
  {
    var y := q * n + x;
    var d := y / n - q;
    assert y == (y / n) * n + y % n;
    assert x - y % n == d * n by {
      assert d * n == (y / n) * n - q * n;
    }
    assert d >= 1 ==> d * n >= n;
    assert d <= -1 ==> d * n <= -n;
  }

  lemma OneSlotOn(s: State, r: State)
    requires s.policy.Ttcc? && r.policy.Ttcc? && |s.policy.k.slots| > 0
    requires SameLengths(s.policy.k.slots, r.policy.k.slots)
    requires var k, k1 := s.policy.k, r.policy.k;
             && -1 <= k.current < |k.slots| && 0 <= k1.current < |k1.slots|
             && (|| (k1.current == k.current + 1 && k1.cycle == k.cycle)
                 || (k.current + 1 == |k.slots| && k1.current == 0 && k1.cycle == k.cycle + 1))
             && Boundary(k1) == Boundary(k) + k1.slots[k1.current].length
    ensures Spaced(s, r)
  {
    var k, k1 := s.policy.k, r.policy.k;
    NextSlot(k, k1);
    hide Boundary;
    var n := SlotNo(k);
    assert Span(k.slots, n, n) == 0.0;
    assert Span(k.slots, n, n + 1) == Span(k.slots, n, n) + k.slots[(n + 1) % |k.slots|].length;
  }

  lemma StillHere(s: State, r: State)
    requires s.policy.Ttcc? && r.policy.Ttcc? && |s.policy.k.slots| > 0
    requires SameLengths(s.policy.k.slots, r.policy.k.slots)
    requires var k, k1 := s.policy.k, r.policy.k;
             k1.current == k.current && k1.cycle == k.cycle && Boundary(k1) == Boundary(k)
    ensures Spaced(s, r)
  {
  }

  lemma WakeSpaced(s: State, now: Time, released: seq<Task>)
    requires Inv(s) && Possible(s, Wake(now, released)) && s.deadline.Some?
    ensures Spaced(s, Pass(s, now, released))
  {
    var s1 := Pass(s, now, released);
    PassWalk(s, now, released);
    PassLengths(s, now, released);
    assert -1 <= s.policy.k.current < |s.policy.k.slots| && 0.0 <= s.policy.k.remaining && now <= Boundary(s.policy.k);
    hide Inv, Possible, Pass, Boundary, Spaced;
    var k, k1 := s.policy.k, s1.policy.k;
    if now < Boundary(k) || (k.current + 1 == |k.slots| && 0.0 < k.remaining) {
      StillHere(s, s1);
    } else {
      OneSlotOn(s, s1);
    }
  }

  lemma PassLengths(s: State, now: Time, released: seq<Task>)
    requires Inv(s) && Possible(s, Wake(now, released))
    ensures var s1 := Pass(s, now, released); s1.policy.Ttcc? && SameLengths(s.policy.k.slots, s1.policy.k.slots)
  {
    WalkBefore(s, now, released);
    C.BeforeDecisionSound(s, now, released);
    var (c, p) := BeforeDecision(s, released, now);
    K.DecideConfigured(p.k, now, c.running);
    hide Inv, C.Sound, K.Decide, Possible;
  }

  lemma StepSpaced(s: State, e: Event)
    requires Inv(s) && Possible(s, e) && s.deadline.Some?
    ensures Spaced(s, Step(s, e))
  {
    hide InPlace, PhaseOf;
    assert |s.policy.k.slots| > 0;
    match e {
      case Arrive(_, t) => StillHere(s, Step(s, e));
      case Wake(now, released) => WakeSpaced(s, now, released);
      case Latency(_, _) => StillHere(s, Step(s, e));
    }
  }

  /** Over a whole run: as long as every pass leaves somebody behind, the end of the slot moves by exactly the
      lengths of the slots that are begun, one after the other and round the cycle; so the ends of consecutive
      slots are exactly one slot length apart. */
  lemma {:induction false} SlotEnds(s: State, es: seq<Event>)
    requires Inv(s) && Legal(s, es) && StaysOccupied(s, es)
    ensures Spaced(s, Run(s, es))
    decreases es
  {
    if es == [] {
      hide InPlace, PhaseOf;
      assert |s.policy.k.slots| > 0;
      StillHere(s, s);
    } else {
      StepInv(s, es[0]);
      StepSpaced(s, es[0]);
      hide Spaced, Inv, Possible, Step;
      SlotEnds(Step(s, es[0]), es[1..]);
      SpacedTrans(s, Step(s, es[0]), Run(Step(s, es[0]), es[1..]));
    }
  }

  // ---- who is served ----------------------------------------------------------------------------------------

  /** The filters of the processes: in every run whose tasks belong to configured processes, all processes have
      kept their filters if and only if every task that has arrived is harmless, that is, its instance id is
      not the id of a process with another filter than its own process. */
  lemma {:induction false} FiltersKept(s: State, es: seq<Event>)
    requires Start(s) && Legal(s, es) && K.AllKnown(Arrivals(Run(s, es).comp.trace), s.policy.k.filters)
    ensures var r := Run(s, es);
            && r.policy.Ttcc?
            && (K.Keeps(r.policy.k.filters, s.policy.k.filters)
                <==> K.AllHarmless(Arrivals(r.comp.trace), s.policy.k.filters))
  {
    StartInv(s);
    RunInv(s, es);
    StartRecorded(s);
    RunRecorded(s, es, s.policy.k.filters);
    var r := Run(s, es);
    RunDistinct(r);
    hide *;
    RecordedKeeps(r, s.policy.k.filters);
  }

  lemma StartRecorded(s: State)
    requires Start(s)
    ensures Recorded(s.comp, s.policy.k, s.policy.k.filters)
  {
  }

  lemma RunDistinct(r: State)
    requires Inv(r)
    ensures NoDup(TaskIds(Arrivals(r.comp.trace)))
  {
    C.StoryDistinct(r.comp);
  }

  lemma RecordedKeeps(r: State, processes: map<int, K.Filter>)
    requires r.policy.Ttcc? && Recorded(r.comp, r.policy.k, processes)
    requires NoDup(TaskIds(Arrivals(r.comp.trace))) && K.AllKnown(Arrivals(r.comp.trace), processes)
    ensures K.Keeps(r.policy.k.filters, processes) <==> K.AllHarmless(Arrivals(r.comp.trace), processes)
  {
    K.KeepsExactly(processes, Arrivals(r.comp.trace));
  }

  /** Isolation: at every instant of every run, a running task stands in the deque of the current slot, the
      instant lies between start and end of that slot, and the cycle is one that the filter selects which its
      process had when the task arrived, after the i tasks before it.  If all tasks belong to configured
      processes and are harmless, that is the filter configured for its process. */
  lemma {:induction false} ServedInSlot(s: State, es: seq<Event>, t: Time, id: int) returns (i: nat)
    requires Start(s) && Legal(s, es)
    requires var r := Run(s, es); r.clock <= t && (r.deadline.Some? ==> t <= r.deadline.value) && id in r.comp.running
    ensures var r, f := Run(s, es), s.policy.k.filters;
            var arr := Arrivals(r.comp.trace);
            && r.policy.Ttcc?
            && var k := r.policy.k;
               && 0 <= k.current < |k.slots| && id in k.slots[k.current].fifo
               && Boundary(k) - k.slots[k.current].length <= t <= Boundary(k)
               && i < |arr| && arr[i].id == id && arr[i].pid == r.comp.running[id].pid
               && K.Allowed(K.FilterOf(K.Registered(f, arr[..i]), arr[i].pid), k.cycle, false)
               && (K.AllKnown(arr, f) && K.AllHarmless(arr, f) ==> K.Allowed(f[arr[i].pid], k.cycle, false))
  {
    StartInv(s);
    RunInv(s, es);
    var r, f := Run(s, es), s.policy.k.filters;
    InSlot(r, t, id);
    StartRecorded(s);
    RunRecorded(s, es, f);
    RunDistinct(r);
    i := RunningArrived(r, id);
    hide *;
    ItsFilter(r, f, i);
  }

  lemma RunningArrived(r: State, id: int) returns (i: nat)
    requires Inv(r) && id in r.comp.running
    ensures var arr := Arrivals(r.comp.trace);
            i < |arr| && arr[i].id == id && arr[i].pid == r.comp.running[id].pid
  {
    assert C.Tells(r.comp, id);
    i := AliveArrived(r.comp.trace, id);
  }

  lemma ItsFilter(r: State, processes: map<int, K.Filter>, i: nat)
    requires r.policy.Ttcc? && Recorded(r.comp, r.policy.k, processes)
    requires var arr := Arrivals(r.comp.trace); NoDup(TaskIds(arr)) && i < |arr|
    ensures var arr := Arrivals(r.comp.trace);
            && K.FilterOf(r.policy.k.filters, arr[i].id) == K.FilterOf(K.Registered(processes, arr[..i]), arr[i].pid)
            && (K.AllKnown(arr, processes) && K.AllHarmless(arr, processes) ==>
                  arr[i].pid in processes && K.FilterOf(r.policy.k.filters, arr[i].id) == processes[arr[i].pid])
  {
    var arr := Arrivals(r.comp.trace);
    K.OwnFilter(processes, arr, i);
    if K.AllKnown(arr, processes) && K.AllHarmless(arr, processes) {
      K.ConfiguredFilter(processes, arr, i);
    }
  }

  lemma InSlot(r: State, t: Time, id: int)
    requires Inv(r) && r.clock <= t && (r.deadline.Some? ==> t <= r.deadline.value) && id in r.comp.running
    ensures var k := r.policy.k;
            && 0 <= k.current < |k.slots| && id in k.slots[k.current].fifo
            && Boundary(k) - k.slots[k.current].length <= t <= Boundary(k)
            && K.Allowed(K.FilterOf(k.filters, id), k.cycle, false)
  {
    assert r.comp.holder.Some? && r.deadline.Some?;
    hide K.Allowed, C.Inv;
  }

  // ---- a process served in a cycle its filter forbids ----------------------------------------------------

  const CONFIGURED: map<int, K.Filter> := map[0 := K.Filter(0, 0), 1 := K.Filter(1, 1)]
  const FIRST: Task := Task(1, 0, 0, 1.0, 1.0, 1.0)
  const SECOND: Task := Task(2, 1, 0, 1.0, 1.0, 1.0)

  /** Two slots of the same length, one for each of two processes. */
  function TwoSlots(a: seq<int>, b: seq<int>, filters: map<int, K.Filter>, current: int, remaining: Time,
                    last: Time, count: int): K.State {
    K.State([T.Slot("a", 10.0, a), T.Slot("b", 10.0, b)], map[0 := 0, 1 := 1], filters,
            current, 0, remaining, last, count)
  }

  /** Before the first pass. */
  function Early(ready: TaskMap, k: K.State, trace: seq<Op>): State {
    State(Comp(ready, map[], None, 0.0, {}, trace), S.Ttcc(k), 0.0, None, true)
  }

  /** An instance of process 0 is queued with the filter of that process. */
  lemma QueuedA(b: seq<int>, f: map<int, K.Filter>, count: int)
    ensures K.Added(TwoSlots([], b, f, -1, 0.0, 0.0, count), FIRST)
            == TwoSlots([1], b, f[1 := K.FilterOf(f, 0)], -1, 0.0, 0.0, count + 1)
  {
    var k := TwoSlots([], b, f, -1, 0.0, 0.0, count);
    var r := K.Added(k, FIRST);
    assert K.FifoOf(k.slots, 0) + [FIRST.id] == [1];
    assert r.slots == [T.Slot("a", 10.0, [1]), T.Slot("b", 10.0, b)];
    assert r.pidMap == map[0 := 0, 1 := 1];
  }

  lemma QueuedB(a: seq<int>, f: map<int, K.Filter>, count: int)
    ensures K.Added(TwoSlots(a, [], f, -1, 0.0, 0.0, count), SECOND)
            == TwoSlots(a, [2], f[2 := K.FilterOf(f, 1)], -1, 0.0, 0.0, count + 1)
  {
    var k := TwoSlots(a, [], f, -1, 0.0, 0.0, count);
    var r := K.Added(k, SECOND);
    assert K.FifoOf(k.slots, 1) + [SECOND.id] == [2];
    assert r.slots == [T.Slot("a", 10.0, a), T.Slot("b", 10.0, [2])];
    assert r.pidMap == map[0 := 0, 1 := 1];
  }

  lemma EmptyStart()
    ensures Start(Early(map[], TwoSlots([], [], CONFIGURED, -1, 0.0, 0.0, 0), []))
  {
    var k := TwoSlots([], [], CONFIGURED, -1, 0.0, 0.0, 0);
    assert K.Configured(k);
    NobodyQueued(k);
    hide K.Agree, K.Configured;
    assert S.Agree(S.Ttcc(k), map[], map[]) by {
      var none: TaskMap := map[];
      assert none + none == none;
    }
  }

  lemma NobodyQueued(k: K.State)
    requires k.processCount == 0 && forall i :: 0 <= i < |k.slots| ==> k.slots[i].fifo == []
    ensures K.Agree(k, map[])
  {
    forall i | 0 <= i < |k.slots| ensures Lists(k.slots[i].fifo, T.Members(k.pidMap, map[], i)) {
      assert T.Members(k.pidMap, map[], i) == {};
    }
  }

  lemma EarlyArrives(ready: TaskMap, k: K.State, trace: seq<Op>, t: Task)
    requires Fresh(t) && t.prio == 0 && PhaseOf(trace, t.id) == Unborn
    ensures var s := Early(ready, k, trace);
            && Possible(s, Arrive(0.0, t))
            && Step(s, Arrive(0.0, t)) == Early(ready[t.id := t], K.Added(k, t), trace + [Op(Release, t, 0.0)])
  {
    hide K.Added, PhaseOf;
  }

  lemma FirstArrives()
    ensures var s := Early(map[], TwoSlots([], [], CONFIGURED, -1, 0.0, 0.0, 0), []);
            && Start(s) && Possible(s, Arrive(0.0, FIRST))
            && Step(s, Arrive(0.0, FIRST))
               == Early(map[1 := FIRST], TwoSlots([1], [], CONFIGURED[1 := K.Filter(0, 0)], -1, 0.0, 0.0, 1),
                        [Op(Release, FIRST, 0.0)])
  {
    EarlyArrives(map[], TwoSlots([], [], CONFIGURED, -1, 0.0, 0.0, 0), [], FIRST);
    QueuedA([], CONFIGURED, 0);
    EmptyStart();
    hide K.Added, Start, Step, Possible, TwoSlots, Early;
    assert [] + [Op(Release, FIRST, 0.0)] == [Op(Release, FIRST, 0.0)];
    assert map[][1 := FIRST] == map[1 := FIRST];
  }

  lemma SecondArrives()
    ensures var f := CONFIGURED[1 := K.Filter(0, 0)];
            var s := Early(map[1 := FIRST], TwoSlots([1], [], f, -1, 0.0, 0.0, 1), [Op(Release, FIRST, 0.0)]);
            && Possible(s, Arrive(0.0, SECOND))
            && Step(s, Arrive(0.0, SECOND))
               == Early(map[1 := FIRST][2 := SECOND], TwoSlots([1], [2], f[2 := K.Filter(0, 0)], -1, 0.0, 0.0, 2),
                        [Op(Release, FIRST, 0.0)] + [Op(Release, SECOND, 0.0)])
  {
    var f := CONFIGURED[1 := K.Filter(0, 0)];
    SecondIsNew();
    EarlyArrives(map[1 := FIRST], TwoSlots([1], [], f, -1, 0.0, 0.0, 1), [Op(Release, FIRST, 0.0)], SECOND);
    QueuedB([1], f, 1);
    hide K.Added, PhaseOf, Step, Possible, TwoSlots, Early;
  }

  lemma SecondIsNew()
    ensures PhaseOf([Op(Release, FIRST, 0.0)], 2) == Unborn
  {
    PhaseSnoc([], Op(Release, FIRST, 0.0), 2);
    assert [] + [Op(Release, FIRST, 0.0)] == [Op(Release, FIRST, 0.0)];
  }

  /** The first slot begins, and serves the first task. */
  lemma FirstServed(f: map<int, K.Filter>, trace: seq<Op>)
    requires K.FilterOf(f, 1) == K.Filter(0, 0)
    ensures var s := Early(map[1 := FIRST][2 := SECOND], TwoSlots([1], [2], f, -1, 0.0, 0.0, 2), trace);
            && Possible(s, Wake(0.0, []))
            && Step(s, Wake(0.0, []))
               == State(Comp(map[2 := SECOND], map[1 := FIRST], Some(1), 0.0, {}, trace + [Op(Assign, FIRST, 0.0)]),
                        S.Ttcc(TwoSlots([1], [2], f, 0, 10.0, 0.0, 2)), 0.0, Some(1.0), false)
  {
    var k := TwoSlots([1], [2], f, -1, 0.0, 0.0, 2);
    var ready := map[1 := FIRST][2 := SECOND];
    assert K.Decide(k, 0.0, map[]) == (OnlyAssign(1), TwoSlots([1], [2], f, 0, 10.0, 0.0, 2));
    assert ready - {1} == map[2 := SECOND];
    assert map[1 := FIRST].Keys == {1};
    assert Begin(map[1 := FIRST]) == 1;
  }

  /** It finishes, and nobody else belongs to the slot. */
  lemma FirstFinishes(f: map<int, K.Filter>, trace: seq<Op>)
    ensures var s := State(Comp(map[2 := SECOND], map[1 := FIRST], Some(1), 0.0, {}, trace),
                           S.Ttcc(TwoSlots([1], [2], f, 0, 10.0, 0.0, 2)), 0.0, Some(1.0), false);
            var done := FIRST.(remaining := 0.0);
            && Possible(s, Wake(1.0, []))
            && Step(s, Wake(1.0, []))
               == State(Comp(map[2 := SECOND], map[], None, 1.0, {},
                             trace + [Op(FinishDii, done, 1.0)] + [Op(FinishLat, done, 1.0)]),
                        S.Ttcc(TwoSlots([], [2], f, 0, 9.0, 1.0, 1)), 1.0, Some(10.0), false)
  {
    var k, done := TwoSlots([1], [2], f, 0, 10.0, 0.0, 2), FIRST.(remaining := 0.0);
    assert Begin(map[1 := FIRST]) == 1;
    assert RanTask(FIRST, 0.0, 1.0) == done;
    assert map[1 := FIRST][1 := done] - {1} == map[];
    assert Erase([1], 1) == [];
    assert K.Removed(k, done) == TwoSlots([], [2], f, 0, 10.0, 0.0, 1) by {
      assert map[0 := 0, 1 := 1][0 := 0] == map[0 := 0, 1 := 1];
    }
    assert K.Decide(TwoSlots([], [2], f, 0, 10.0, 0.0, 1), 1.0, map[])
           == (NoChange, TwoSlots([], [2], f, 0, 9.0, 1.0, 1));
  }

  /** The second slot begins, and serves the second task with the filter of the first one's process. */
  lemma SecondServed(f: map<int, K.Filter>, trace: seq<Op>)
    requires K.FilterOf(f, 2) == K.Filter(0, 0)
    ensures var s := State(Comp(map[2 := SECOND], map[], None, 1.0, {}, trace),
                           S.Ttcc(TwoSlots([], [2], f, 0, 9.0, 1.0, 1)), 1.0, Some(10.0), false);
            && Possible(s, Wake(10.0, []))
            && var r := Step(s, Wake(10.0, []));
               && r.policy == S.Ttcc(TwoSlots([], [2], f, 1, 10.0, 10.0, 1)) && r.comp.running == map[2 := SECOND]
  {
    var k := TwoSlots([], [2], f, 0, 9.0, 1.0, 1);
    assert K.Decide(k, 10.0, map[]) == (OnlyAssign(2), TwoSlots([], [2], f, 1, 10.0, 10.0, 1));
    assert map[][2 := SECOND] == map[2 := SECOND];
  }

  /** The excluded family is not empty: process 1 is to be served from cycle 1 on; the first instance of process
      0 has the instance id 1, so its filter replaces the one of process 1, and an instance of process 1 that
      arrives later runs in cycle 0. */
  lemma WrongCycle()
    ensures var s := Early(map[], TwoSlots([], [], CONFIGURED, -1, 0.0, 0.0, 0), []);
            var es := [Arrive(0.0, FIRST), Arrive(0.0, SECOND), Wake(0.0, []), Wake(1.0, []), Wake(10.0, [])];
            && Start(s) && Legal(s, es)
            && var r := Run(s, es);
               && r.policy.Ttcc? && 2 in r.comp.running && r.comp.running[2].pid == 1
               && !K.Allowed(CONFIGURED[1], r.policy.k.cycle, false)
  {
    var s := Early(map[], TwoSlots([], [], CONFIGURED, -1, 0.0, 0.0, 0), []);
    var e0, e1, e2, e3, e4 := Arrive(0.0, FIRST), Arrive(0.0, SECOND), Wake(0.0, []), Wake(1.0, []), Wake(10.0, []);
    var f := CONFIGURED[1 := K.Filter(0, 0)][2 := K.Filter(0, 0)];
    var t2 := [Op(Release, FIRST, 0.0)] + [Op(Release, SECOND, 0.0)];
    var t3, done := t2 + [Op(Assign, FIRST, 0.0)], FIRST.(remaining := 0.0);
    FirstArrives();
    SecondArrives();
    FirstServed(f, t2);
    FirstFinishes(f, t3);
    SecondServed(f, t3 + [Op(FinishDii, done, 1.0)] + [Op(FinishLat, done, 1.0)]);
    RunFive(s, e0, e1, e2, e3, e4);
    hide Step, Possible, Start, Run, Legal;
  }

  lemma RunFive(s: State, e0: Event, e1: Event, e2: Event, e3: Event, e4: Event)
    ensures var s1 := Step(s, e0);
            var s2 := Step(s1, e1);
            var s3 := Step(s2, e2);
            var s4 := Step(s3, e3);
            && Run(s, [e0, e1, e2, e3, e4]) == Step(s4, e4)
            && (Legal(s, [e0, e1, e2, e3, e4])
                <==> Possible(s, e0) && Possible(s1, e1) && Possible(s2, e2) && Possible(s3, e3) && Possible(s4, e4))
  {
    hide Step, Possible;
    var s1 := Step(s, e0);
    var s2 := Step(s1, e1);
    var s3 := Step(s2, e2);
    var s4 := Step(s3, e3);
    assert [e0, e1, e2, e3, e4] == [e0] + ([e1] + ([e2] + ([e3] + ([e4] + []))));
    RunCons(s4, e4, []);
    RunCons(s3, e3, [e4] + []);
    RunCons(s2, e2, [e3] + ([e4] + []));
    RunCons(s1, e1, [e2] + ([e3] + ([e4] + [])));
    RunCons(s, e0, [e1] + ([e2] + ([e3] + ([e4] + []))));
  }
}
