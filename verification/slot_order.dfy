/** The deques of the slots, under time division and in the time-triggered controller: in what order their tasks
    stand, and who is served. */
module SlotOrder {
  import opened Basics
  import opened Lifecycle
  import opened Component
  import opened Turns
  import T = TdmaScheduling
  import K = TtccScheduling
  import W = TtccRuns
  import D = TdmaRuns
  import C = Conservation
  import S = Scheduling

  /** Every deque is the line of its slot. */
  predicate Filed(pids: map<int, nat>, slots: seq<T.Slot>, trace: seq<Op>) {
    && AllMapped(pids, trace)
    && forall i :: 0 <= i < |slots| ==> slots[i].fifo == InLine(Slot(pids, i), UntilDone, trace)
  }

  lemma MapFiled(pids: map<int, nat>, pid: int, i: nat, slots: seq<T.Slot>, trace: seq<Op>)
    requires Filed(pids, slots, trace) && (pid in pids ==> pids[pid] == i)
    ensures Filed(pids[pid := i], slots, trace)
  {
    forall k | 0 <= k < |slots| ensures slots[k].fifo == InLine(Slot(pids[pid := i], k), UntilDone, trace) {
      MoreMapped(pids, pids[pid := i], k, trace);
    }
  }

  lemma MappedSnoc(pids: map<int, nat>, trace: seq<Op>, op: Op)
    requires AllMapped(pids, trace) && (op.kind == Release || op.kind == FinishDii ==> op.task.pid in pids)
    ensures AllMapped(pids, trace + [op])
  {
  }

  lemma ReleaseFiled(pids: map<int, nat>, slots: seq<T.Slot>, trace: seq<Op>, t: Task, now: Time)
    requires Filed(pids, slots, trace) && t.pid in pids && pids[t.pid] < |slots|
    ensures var i := pids[t.pid];
            Filed(pids, slots[i := slots[i].(fifo := slots[i].fifo + [t.id])], trace + [Op(Release, t, now)])
  {
    hide InLine, AllMapped;
    var op := Op(Release, t, now);
    MappedSnoc(pids, trace, op);
    forall k: nat ensures InLine(Slot(pids, k), UntilDone, trace + [op])
                     == InLine(Slot(pids, k), UntilDone, trace) + (if pids[t.pid] == k then [t.id] else []) {
      Turns.Snoc(Slot(pids, k), UntilDone, trace, op);
    }
  }

  lemma FinishFiled(pids: map<int, nat>, slots: seq<T.Slot>, trace: seq<Op>, t: Task, now: Time)
    requires Filed(pids, slots, trace) && t.pid in pids && pids[t.pid] < |slots|
    ensures var i := pids[t.pid];
            Filed(pids, slots[i := slots[i].(fifo := Erase(slots[i].fifo, t.id))], trace + [Op(FinishDii, t, now)])
  {
    hide InLine, AllMapped;
    var op := Op(FinishDii, t, now);
    MappedSnoc(pids, trace, op);
    forall k: nat ensures
        var before := InLine(Slot(pids, k), UntilDone, trace);
        InLine(Slot(pids, k), UntilDone, trace + [op]) == if pids[t.pid] == k then Erase(before, t.id) else before {
      Turns.Snoc(Slot(pids, k), UntilDone, trace, op);
    }
  }

  lemma QuietFiled(pids: map<int, nat>, slots: seq<T.Slot>, trace: seq<Op>, op: Op)
    requires Filed(pids, slots, trace) && op.kind != Release && op.kind != FinishDii
    ensures Filed(pids, slots, trace + [op])
  {
    hide InLine, AllMapped;
    MappedSnoc(pids, trace, op);
    forall k: nat ensures InLine(Slot(pids, k), UntilDone, trace + [op]) == InLine(Slot(pids, k), UntilDone, trace) {
      Turns.Snoc(Slot(pids, k), UntilDone, trace, op);
    }
  }

  // ---- both schedulers ----------------------------------------------------------------------------------------

  predicate Slotted(p: S.Policy) {
    p.Tdma? || p.Ttcc?
  }

  function Pids(p: S.Policy): map<int, nat>
    requires Slotted(p)
  {
    if p.Tdma? then p.t.pidMap else p.k.pidMap
  }

  function Slots(p: S.Policy): seq<T.Slot>
    requires Slotted(p)
  {
    if p.Tdma? then p.t.slots else p.k.slots
  }

  predicate Told(trace: seq<Op>, p: S.Policy) {
    Slotted(p) && Filed(Pids(p), Slots(p), trace)
  }

  lemma ReleaseTold(trace: seq<Op>, p: S.Policy, t: Task, now: Time)
    requires S.Configured(p) && Told(trace, p)
    ensures Told(trace + [Op(Release, t, now)], S.Added(p, t))
  {
    hide AllMapped, InLine;
    if p.Tdma? {
      var s1 := T.WithSlot(p.t, t.pid);
      MapFiled(p.t.pidMap, t.pid, s1.pidMap[t.pid], p.t.slots, trace);
      assert s1.pidMap == p.t.pidMap[t.pid := s1.pidMap[t.pid]];
      ReleaseFiled(s1.pidMap, p.t.slots, trace, t, now);
    } else {
      var i := K.SlotOf(p.k.pidMap, t.pid);
      MapFiled(p.k.pidMap, t.pid, i, p.k.slots, trace);
      ReleaseFiled(p.k.pidMap[t.pid := i], p.k.slots, trace, t, now);
    }
  }

  lemma FinishTold(trace: seq<Op>, p: S.Policy, t: Task, now: Time)
    requires S.Configured(p) && Told(trace, p) && t.pid in Pids(p)
    ensures Told(trace + [Op(FinishDii, t, now)], S.Removed(p, t))
  {
    hide AllMapped, InLine;
    FinishFiled(Pids(p), Slots(p), trace, t, now);
    if p.Ttcc? {
      assert p.k.pidMap[t.pid := p.k.pidMap[t.pid]] == p.k.pidMap;
    }
  }

  lemma QuietTold(trace: seq<Op>, p: S.Policy, op: Op)
    requires Told(trace, p) && op.kind != Release && op.kind != FinishDii
    ensures Told(trace + [op], p)
  {
    hide Filed;
    QuietFiled(Pids(p), Slots(p), trace, op);
  }

  lemma ChargeTold(c: Comp, p: S.Policy, clock: Time, now: Time)
    requires C.Sound(c, p, clock) && Told(c.trace, p)
    ensures var (c1, p1) := ChargeRunning(c, p, now); Told(c1.trace, p1)
  {
    hide Filed, PhaseOf, S.Configured, S.Removed, Lists;
    if c.running.Keys != {} {
      var id := Begin(c.running);
      var t := RanTask(c.running[id], c.assignedAt, now);
      assert t.pid in Pids(p) by {
        assert (c.ready + c.running)[id] == c.running[id];
      }
      hide S.Agree;
      if t.remaining == 0.0 {
        FinishTold(c.trace, p, t, now);
        QuietTold(c.trace + [Op(FinishDii, t, now)], S.Removed(p, t), Op(FinishLat, t, now));
      }
    }
  }

  lemma {:induction false} AddAllTold(c: Comp, p: S.Policy, ts: seq<Task>, now: Time)
    requires C.Sound(c, p, now) && NewTasks(c, ts) && Told(c.trace, p)
    ensures var (c1, p1) := AddAll(c, p, ts, now); Told(c1.trace, p1)
    decreases ts
  {
    hide Told, NewTasks, NewTask, S.Agree, S.Configured, S.Added;
    if ts != [] {
      NewTasksRest(c, ts, now);
      C.AddSound(c, p, ts[0], now);
      ReleaseTold(c.trace, p, ts[0], now);
      hide C.Sound;
      var (c1, p1) := AddTask(c, p, ts[0], now);
      AddAllTold(c1, p1, ts[1..], now);
    }
  }

  /** A decision moves nobody in a deque. */
  lemma DecideKeeps(p: S.Policy, now: Time, ready: TaskMap, running: TaskMap)
    requires Slotted(p)
    ensures var p1 := S.Decide(p, now, ready, running).1; Slotted(p1) && Pids(p1) == Pids(p) && Slots(p1) == Slots(p)
  {
  }

  lemma DecisionTold(c: Comp, p: S.Policy, now: Time, notified: bool)
    requires Told(c.trace, p)
    ensures var s1 := AfterDecision(c, p, now, notified); Told(s1.comp.trace, s1.policy)
  {
    DecideKeeps(p, now, c.ready, c.running);
    hide Filed, S.Decide;
    var (d, p1) := S.Decide(p, now, c.ready, c.running);
    var c1 := Component.ResignPart(c, d, now);
    if S.Resigns(d) && d.resign in c.running {
      QuietTold(c.trace, p, Op(Resign, c.running[d.resign], now));
    }
    if S.Assigns(d) && d.assign in c1.ready {
      QuietTold(c1.trace, p, Op(Assign, c1.ready[d.assign], now));
    }
  }

  lemma BeforeTold(s: State, now: Time, released: seq<Task>)
    requires C.Inv(s) && Possible(s, Wake(now, released)) && Told(s.comp.trace, s.policy)
    ensures var (c, p) := BeforeDecision(s, released, now); C.Sound(c, p, now) && C.UpToDate(c, now) && Told(c.trace, p)
  {
    hide Told, PhaseOf, S.Agree, S.Configured;
    ChargeTold(s.comp, s.policy, s.clock, now);
    C.ChargeSound(s.comp, s.policy, s.clock, now);
    var (c1, p1) := ChargeRunning(s.comp, s.policy, now);
    AddAllTold(c1, p1, released, now);
    C.BeforeDecisionSound(s, now, released);
  }

  lemma StepTold(s: State, e: Event)
    requires C.Inv(s) && Possible(s, e) && Told(s.comp.trace, s.policy)
    ensures Told(Step(s, e).comp.trace, Step(s, e).policy)
  {
    hide Told, PhaseOf;
    match e {
      case Arrive(now, t) => ReleaseTold(s.comp.trace, s.policy, t, now);
      case Wake(now, released) =>
        BeforeTold(s, now, released);
        var (c, p) := BeforeDecision(s, released, now);
        DecisionTold(c, p, now, released != []);
      case Latency(now, t) => QuietTold(s.comp.trace, s.policy, Op(FinishLat, t, now));
    }
  }

  lemma {:induction false} RunTold(s: State, es: seq<Event>)
    requires C.Inv(s) && Legal(s, es) && Told(s.comp.trace, s.policy)
    ensures var r := Run(s, es); C.Inv(r) && Told(r.comp.trace, r.policy)
    decreases es
  {
    if es != [] {
      C.StepInv(s, es[0]);
      StepTold(s, es[0]);
      hide Told, C.Inv, Possible, Step;
      RunTold(Step(s, es[0]), es[1..]);
    }
  }

  lemma StartTold(s: State)
    requires C.Start(s) && Slotted(s.policy)
    ensures C.Inv(s) && Told(s.comp.trace, s.policy)
  {
    C.StartInv(s);
    var slots := Slots(s.policy);
    forall i | 0 <= i < |slots| ensures slots[i].fifo == [] {
      var all: TaskMap := map[] + map[];
      assert T.Members(Pids(s.policy), all, i) == {};
      assert Lists(slots[i].fifo, T.Members(Pids(s.policy), all, i));
      HeadIn(slots[i].fifo);
    }
  }

  // ---- results ------------------------------------------------------------------------------------------------

  /** In every run of either scheduler, a deque holds the unfinished tasks of the processes of its slot, in the order of
      their arrival. */
  lemma {:induction false} DequesInOrder(s: State, es: seq<Event>, i: nat)
    requires C.Start(s) && Slotted(s.policy) && Legal(s, es)
    ensures var r := Run(s, es);
            && Slotted(r.policy)
            && (i < |Slots(r.policy)| ==>
                  Slots(r.policy)[i].fifo == InLine(Slot(Pids(r.policy), i), UntilDone, r.comp.trace))
  {
    StartTold(s);
    RunTold(s, es);
  }

  /** Time division: after every pass of every run the front of the deque of the slot that contains the instant runs,
      or nobody when that deque is empty. */
  lemma {:induction false} FrontServed(s: State, es: seq<Event>, now: Time, released: seq<Task>)
    requires C.Start(s) && s.policy.Tdma? && Legal(s, es) && Possible(Run(s, es), Wake(now, released))
    ensures var s1 := Pass(Run(s, es), now, released);
            && s1.policy.Tdma? && s1.policy.t.cycle != 0.0
            && var t := s1.policy.t;
               var i := T.Scan(t.slots, T.CycleTime(now, t.cycle));
               && i < |t.slots|
               && s1.comp.running.Keys == (if t.slots[i].fifo == [] then {} else {t.slots[i].fifo[0]})
  {
    D.StartInv(s);
    D.RunInv(s, es);
    var r := Run(s, es);
    C.BeforeDecisionSound(r, now, released);
    D.BeforeTable(r, now, released);
    var (c, p) := BeforeDecision(r, released, now);
    hide C.Inv, Possible, BeforeDecision, AfterDecision;
    PassFront(c, p.t, now, released != []);
  }

  lemma PassFront(c: Comp, t: T.State, now: Time, notified: bool)
    requires C.Sound(c, S.Tdma(t), now) && C.UpToDate(c, now)
    ensures t.cycle != 0.0 && AfterDecision(c, S.Tdma(t), now, notified).policy == S.Tdma(t)
    ensures var i := T.Scan(t.slots, T.CycleTime(now, t.cycle));
            && i < |t.slots|
            && AfterDecision(c, S.Tdma(t), now, notified).comp.running.Keys
               == (if t.slots[i].fifo == [] then {} else {t.slots[i].fifo[0]})
  {
    assert T.Configured(t);
    hide C.Sound, C.UpToDate, T.Scan, T.CycleTime, T.CurrentSlot, T.Decide, T.Configured, T.RemainingSlice;
    T.LookupIsScan(t, now);
    D.DecisionServesSlot(c, t, now);
  }

  // ---- the time-triggered controller -----------------------------------------------------------------------

  predicate Passes(k: K.State, id: int, within: bool) {
    K.Allowed(K.FilterOf(k.filters, id), k.cycle, within)
  }

  /** Nobody of the current deque passes the filter, or the one that is served is the first to pass it. */
  predicate ServesFirst(k: K.State, served: set<int>, within: bool) {
    var fifo := K.FifoOf(k.slots, k.current);
    if served == {} then forall j :: 0 <= j < |fifo| ==> !Passes(k, fifo[j], within)
    else exists j :: 0 <= j < |fifo| && FirstToPass(k, fifo, j, within) && served == {fifo[j]}
  }

  predicate FirstToPass(k: K.State, fifo: seq<int>, j: nat, within: bool) {
    j < |fifo| && Passes(k, fifo[j], within) && forall i :: 0 <= i < j ==> !Passes(k, fifo[i], within)
  }

  lemma {:induction false} FirstIsFirst(k: K.State, fifo: seq<int>, within: bool) returns (j: nat)
    ensures j <= |fifo| && forall i :: 0 <= i < j ==> !Passes(k, fifo[i], within)
    ensures K.FirstAllowed(fifo, k.filters, k.cycle, within) == if j < |fifo| then Some(fifo[j]) else None
    ensures j < |fifo| ==> Passes(k, fifo[j], within)
  {
    if fifo == [] || Passes(k, fifo[0], within) {
      j := 0;
    } else {
      var i := FirstIsFirst(k, fifo[1..], within);
      j := i + 1;
    }
  }

  /** Whether a slot begins in a pass: the slot before has ended, and for the last slot of a cycle that has been noted
      by a pass of its own. */
  predicate Begins(k: K.State, now: Time) {
    W.Boundary(k) <= now && (k.current + 1 == |k.slots| ==> k.remaining == 0.0)
  }

  /** What runs after a decision for the current slot. */
  predicate Serving(k: K.State, k1: K.State, now: Time, before: TaskMap, after: TaskMap) {
    if Begins(k, now) then ServesFirst(k1, after.Keys, false)
    else if before.Keys != {} then after == before
    else if k.current + 1 < |k.slots| then ServesFirst(k1, after.Keys, true)
    else after.Keys == {}
  }

  /** Making way for a chosen instance leaves that one running, and making way for nobody leaves nobody. */
  lemma ServeServes(choice: Option<int>, ready: TaskMap, running: TaskMap)
    requires S.Tidy(ready, running) && (choice.Some? ==> choice.value in ready + running)
    requires running.Keys != {} ==> running.Keys == {Begin(running)}
    ensures S.After(K.Serve(choice, running), ready, running).1.Keys
            == if choice.Some? then {choice.value} else {}
  {
    if running.Keys != {} {
      S.MoveBack(ready, running, Begin(running));
    }
  }

  lemma ChoiceServes(k: K.State, ready: TaskMap, running: TaskMap, within: bool)
    requires S.Tidy(ready, running) && K.Agree(k, ready + running)
    requires running.Keys != {} ==> running.Keys == {Begin(running)}
    ensures var choice := K.FirstAllowed(K.FifoOf(k.slots, k.current), k.filters, k.cycle, within);
            ServesFirst(k, S.After(K.Serve(choice, running), ready, running).1.Keys, within)
  {
    hide K.FirstAllowed, S.After, K.Serve, Passes, Keyed;
    var fifo := K.FifoOf(k.slots, k.current);
    var j := FirstIsFirst(k, fifo, within);
    var choice := K.FirstAllowed(fifo, k.filters, k.cycle, within);
    if j < |fifo| {
      assert FirstToPass(k, fifo, j, within);
      assert Lists(fifo, T.Members(k.pidMap, ready + running, k.current)) && fifo[j] in fifo;
    }
    ServeServes(choice, ready, running);
  }

  /** The decision in the terms of the slot that is current after it. */
  lemma Chosen(k: K.State, now: Time, running: TaskMap)
    requires K.Configured(k) && W.Walking(k, now)
    ensures var (d, k1) := K.Decide(k, now, running);
            var fifo := K.FifoOf(k1.slots, k1.current);
            && k1.slots == k.slots && k1.pidMap == k.pidMap && k1.processCount == k.processCount
            && (if Begins(k, now) then d == K.Serve(K.FirstAllowed(fifo, k1.filters, k1.cycle, false), running)
                else if running.Keys == {} && k.current + 1 < |k.slots| then
                  d == K.Serve(K.FirstAllowed(fifo, k1.filters, k1.cycle, true), running)
                else d == NoChange)
  {
    hide K.FirstAllowed;
  }

  lemma DecisionServes(k: K.State, now: Time, ready: TaskMap, running: TaskMap)
    requires K.Configured(k) && W.Walking(k, now) && S.Tidy(ready, running) && K.Agree(k, ready + running)
    requires running.Keys != {} ==> running.Keys == {Begin(running)}
    ensures var (d, k1) := K.Decide(k, now, running);
            Serving(k, k1, now, running, S.After(d, ready, running).1)
  {
    hide K.Decide, K.FirstAllowed, ServesFirst, Begins, K.Serve, S.Tidy;
    Chosen(k, now, running);
    var (d, k1) := K.Decide(k, now, running);
    assert K.Agree(k1, ready + running);
    ChoiceServes(k1, ready, running, false);
    ChoiceServes(k1, ready, running, true);
  }

  /** The time-triggered controller: in every run a pass that begins a slot serves the first instance of its deque
      whose filter selects the cycle, or leaves the resource idle if there is none; within a slot a running instance
      runs on, and a free resource goes to the first instance of the deque that passes the stricter filter; within
      the last slot a free resource stays idle. */
  lemma {:induction false} SlotServes(s: State, es: seq<Event>, now: Time, released: seq<Task>)
    requires W.Start(s) && Legal(s, es) && Possible(Run(s, es), Wake(now, released))
    ensures var r := Run(s, es);
            var s1 := Pass(r, now, released);
            && r.policy.Ttcc? && s1.policy.Ttcc?
            && Serving(r.policy.k, s1.policy.k, now, BeforeDecision(r, released, now).0.running, s1.comp.running)
  {
    W.StartInv(s);
    W.RunInv(s, es);
    var r := Run(s, es);
    C.BeforeDecisionSound(r, now, released);
    W.WalkBefore(r, now, released);
    var (c, p) := BeforeDecision(r, released, now);
    assert W.Walking(p.k, now);
    PassServes(c, p.k, now, released != []);
    hide W.Inv, C.Inv, C.Sound, Possible, BeforeDecision, AfterDecision, ServesFirst;
  }

  lemma PassServes(c: Comp, k: K.State, now: Time, notified: bool)
    requires C.Sound(c, S.Ttcc(k), now) && C.UpToDate(c, now) && W.Walking(k, now)
    ensures var s1 := AfterDecision(c, S.Ttcc(k), now, notified);
            s1.policy.Ttcc? && Serving(k, s1.policy.k, now, c.running, s1.comp.running)
  {
    if c.running.Keys != {} {
      C.Holder(c, S.Ttcc(k), now);
    }
    DecisionServes(k, now, c.ready, c.running);
    W.AfterKeeps(c, k, now, notified);
    hide Serving, C.Sound, K.Decide, AfterDecision;
  }
}
