/** The scheduler interface: which policy is plugged in, and what each call does to its state.
    Dynamic dispatch on the scheduler object is a match on the policy. */
module Scheduling {
  import opened Basics
  import P = PriorityScheduling
  import R = RoundRobinScheduling
  import T = TdmaScheduling
  import A = AvbScheduling
  import H = StreamShaping
  import K = TtccScheduling

  datatype Policy =
    | Priority(p: P.State)
    | RoundRobin(r: R.State)
    | Tdma(t: T.State)
    | Avb(a: A.State)
    | Shaper(h: H.State)
    | Ttcc(k: K.State)

  function Added(s: Policy, t: Task): Policy {
    match s
    case Priority(p) => Priority(P.Added(p, t))
    case RoundRobin(r) => RoundRobin(R.Added(r, t))
    case Tdma(d) => Tdma(T.Added(d, t))
    case Avb(a) => Avb(A.Added(a, t))
    case Shaper(h) => Shaper(H.Added(h, t))
    case Ttcc(k) => Ttcc(K.Added(k, t))
  }

  function Removed(s: Policy, t: Task): Policy {
    match s
    case Priority(_) => s
    case RoundRobin(r) => RoundRobin(R.Removed(r, t))
    case Tdma(d) => Tdma(T.Removed(d, t))
    case Avb(_) => s
    case Shaper(h) => Shaper(H.Removed(h, t))
    case Ttcc(k) => Ttcc(K.Removed(k, t))
  }

  function Decide(s: Policy, now: Time, ready: TaskMap, running: TaskMap): (Decision, Policy) {
    match s
    case Priority(p) => var (d, p1) := P.Decide(p, ready, running); (d, Priority(p1))
    case RoundRobin(r) => var (d, r1) := R.Decide(r, now, ready, running); (d, RoundRobin(r1))
    case Tdma(t) => (T.Decide(t, now, running), s)
    case Avb(a) => var (d, a1) := A.Decide(a, now, running); (d, Avb(a1))
    case Shaper(h) => var (d, h1) := H.Decide(h, now, running); (d, Shaper(h1))
    case Ttcc(k) => var (d, k1) := K.Decide(k, now, running); (d, Ttcc(k1))
  }

  function TimeSlice(s: Policy, now: Time, ready: TaskMap, running: TaskMap): Option<Time> {
    match s
    case Priority(_) => None
    case RoundRobin(r) => R.TimeSlice(r, now, running)
    case Tdma(t) => T.TimeSlice(t, now, running)
    case Avb(a) => A.TimeSlice(a, ready, running)
    case Shaper(h) => H.TimeSlice(h, now)
    case Ttcc(k) => K.TimeSlice(k, running)
  }

  /** The assertions inside the scheduling decisions. */
  predicate DecisionAssert(s: Policy, now: Time, running: TaskMap) {
    match s
    case RoundRobin(r) => R.DecisionAssert(r, now, running)
    case Tdma(t) => T.DecisionAssert(t, now)
    case _ => true
  }

  /** What the environment has to see to: only the round-robin scheduler's assertion depends on it. */
  predicate DecisionAllowed(s: Policy, now: Time, running: TaskMap) {
    s.RoundRobin? ==> R.DecisionAssert(s.r, now, running)
  }

  /** Sensible parameters: positive slices, periods and slot lengths, bandwidths in (0,1]. */
  ghost predicate Configured(s: Policy) {
    match s
    case Priority(_) => true
    case RoundRobin(r) => 0.0 < r.slice
    case Tdma(t) => T.Configured(t)
    case Avb(a) => A.Configured(a)
    case Shaper(h) => 0.0 <= h.period
    case Ttcc(k) => K.Configured(k)
  }

  /** The scheduler's private queues and the component's maps name the same instances. */
  ghost predicate Agree(s: Policy, ready: TaskMap, running: TaskMap) {
    match s
    case Priority(p) => P.Agree(p, ready)
    case RoundRobin(r) => R.Agree(r, ready)
    case Tdma(t) => T.Agree(t, ready + running)
    case Avb(a) => A.Agree(a, ready)
    case Shaper(h) => Lists(h.fifo, ready.Keys)
    case Ttcc(k) => K.Agree(k, ready + running)
  }

  /** The assertions of the other schedulers hold in every configuration. */
  lemma AllowedAsserts(s: Policy, now: Time, running: TaskMap)
    requires Configured(s) && DecisionAllowed(s, now, running)
    ensures DecisionAssert(s, now, running)
  {
    if s.Tdma? {
      T.LookupIsScan(s.t, now);
    }
  }

  // ---- what a decision does to the component's maps ------------------------------------------

  predicate Resigns(d: Decision) {
    d.Resigned? || d.Preempt?
  }

  predicate Assigns(d: Decision) {
    d.OnlyAssign? || d.Preempt?
  }

  /** The maps after the resign part of a decision. */
  function AfterResign(d: Decision, ready: TaskMap, running: TaskMap): (TaskMap, TaskMap) {
    if Resigns(d) && d.resign in running
      then (ready[d.resign := running[d.resign]], running - {d.resign}) else (ready, running)
  }

  /** The maps after the assign part of a decision. */
  function AfterAssign(d: Decision, ready: TaskMap, running: TaskMap): (TaskMap, TaskMap) {
    if Assigns(d) && d.assign in ready
      then (ready - {d.assign}, running[d.assign := ready[d.assign]]) else (ready, running)
  }

  function After(d: Decision, ready: TaskMap, running: TaskMap): (TaskMap, TaskMap) {
    var (ready1, running1) := AfterResign(d, ready, running);
    AfterAssign(d, ready1, running1)
  }

  /** What the component asserts of a decision: the task to resign runs, and once it has been resigned the
      task to assign is ready and the resource is free. */
  predicate Executable(d: Decision, ready: TaskMap, running: TaskMap) {
    && (Resigns(d) ==> d.resign in running && d.resign !in ready)
    && (Assigns(d) ==>
          var (ready1, running1) := AfterResign(d, ready, running);
          d.assign in ready1 && d.assign !in running1 && running1.Keys == {})
  }

  /** Two disjoint maps of instances under their own ids, at most one of them running. */
  ghost predicate Tidy(ready: TaskMap, running: TaskMap) {
    && Keyed(ready) && Keyed(running)
    && ready.Keys !! running.Keys
    && (forall a, b :: a in running && b in running ==> a == b)
  }

  lemma MoveBack(ready: TaskMap, running: TaskMap, r: int)
    requires Tidy(ready, running) && r in running
    ensures Tidy(ready[r := running[r]], running - {r}) && (running - {r}).Keys == {}
    ensures ready[r := running[r]] + (running - {r}) == ready + running
  {
    assert forall x :: x in running - {r} ==> x in running && x != r;
  }

  /** An executable decision moves instances between the maps without losing or changing one. */
  lemma AfterTidy(d: Decision, ready: TaskMap, running: TaskMap)
    requires Tidy(ready, running) && Executable(d, ready, running)
    ensures var (ready1, running1) := After(d, ready, running);
            Tidy(ready1, running1) && ready1 + running1 == ready + running
  {
    if Resigns(d) {
      MoveBack(ready, running, d.resign);
    }
    var (ready1, running1) := AfterResign(d, ready, running);
    if Assigns(d) {
    }
  }

  /** Every policy decides something the component can execute, and its queues follow the move. */
  lemma DecideAgree(s: Policy, now: Time, ready: TaskMap, running: TaskMap)
    requires Configured(s) && Agree(s, ready, running) && Tidy(ready, running)
    ensures var (d, s1) := Decide(s, now, ready, running);
            var (ready1, running1) := After(d, ready, running);
            && Executable(d, ready, running) && Tidy(ready1, running1)
            && Configured(s1) && Agree(s1, ready1, running1)
  {
    hide Executable, After, P.Agree, R.Agree, T.Agree, A.Agree, K.Agree, T.Configured, A.Configured, K.Configured;
    hide P.Decide, R.Decide, T.Decide, A.Decide, H.Decide, K.Decide;
    if running.Keys != {} {
    }
    match s {
      case Priority(p) => PriorityAgree(p, ready, running);
      case RoundRobin(r) => RoundRobinAgree(r, now, ready, running);
      case Tdma(t) => TdmaAgree(t, now, ready, running);
      case Avb(a) => AvbAgree(a, now, ready, running);
      case Shaper(h) => ShaperAgree(h, now, ready, running);
      case Ttcc(k) => TtccAgree(k, now, ready, running);
    }
    AfterTidy(Decide(s, now, ready, running).0, ready, running);
  }

  lemma PriorityAgree(p: P.State, ready: TaskMap, running: TaskMap)
    requires P.Agree(p, ready) && Tidy(ready, running)
    requires running.Keys != {} ==> running.Keys == {Begin(running)}
    ensures var (d, p1) := P.Decide(p, ready, running);
            Executable(d, ready, running) && P.Agree(p1, After(d, ready, running).0)
  {
    hide P.Agree, Executable, Keyed;
    if |p.queue| > 0 {
      var i := P.Top(p.queue);
      if running.Keys == {} {
        PriorityFree(p, i, ready, running);
      } else if running[Begin(running)].prio > p.queue[i].prio {
        PrioritySwap(p, i, ready, running);
      } else {
        NothingToDo(ready, running);
      }
    } else {
      NothingToDo(ready, running);
    }
  }

  lemma NothingToDo(ready: TaskMap, running: TaskMap)
    ensures Executable(NoChange, ready, running) && After(NoChange, ready, running) == (ready, running)
  {
  }

  lemma PriorityFree(p: P.State, i: nat, ready: TaskMap, running: TaskMap)
    requires P.Agree(p, ready) && i < |p.queue| && running.Keys == {}
    ensures var d := OnlyAssign(p.queue[i].id);
            && Executable(d, ready, running)
            && P.Agree(p.(queue := DropAt(p.queue, i)), After(d, ready, running).0)
  {
    P.DropAgree(p, i, ready);
    assert p.queue[i].id in ready;
  }

  lemma PrioritySwap(p: P.State, i: nat, ready: TaskMap, running: TaskMap)
    requires P.Agree(p, ready) && Tidy(ready, running) && i < |p.queue|
    requires running.Keys != {} && running.Keys == {Begin(running)}
    ensures var r := running[Begin(running)];
            var d := Preempt(r.id, p.queue[i].id);
            && Executable(d, ready, running)
            && P.Agree(p.(queue := DropAt(p.queue, i) + [P.Entry(0, r.prio, r.id)]), After(d, ready, running).0)
  {
    var r := running[Begin(running)];
    P.SwapAgree(p, i, r, ready);
    MoveBack(ready, running, r.id);
    assert p.queue[i].id in ready;
    hide P.Agree, Keyed;
  }

  lemma RoundRobinAgree(s: R.State, now: Time, ready: TaskMap, running: TaskMap)
    requires R.Agree(s, ready) && Tidy(ready, running)
    requires running.Keys != {} ==> running.Keys == {Begin(running)}
    ensures var (d, s1) := R.Decide(s, now, ready, running);
            && Executable(d, ready, running) && R.Agree(s1, After(d, ready, running).0)
            && s1.slice == s.slice
  {
    if |s.fifo| > 0 {
      R.PopAgree(s, ready);
      var a := s.fifo[0];
      assert (ready - {a}).Keys == ready.Keys - {a};
      if running.Keys != {} {
        var r := Begin(running);
        PushLists(s.fifo[1..], ready.Keys - {a}, r);
        assert (ready[r := running[r]] - {a}).Keys == ready.Keys - {a} + {r};
      }
    }
  }

  lemma RoundRobinAgreeKeys(s: R.State, now: Time, ready: TaskMap, running: TaskMap)
    requires R.Agree(s, ready) && Tidy(ready, running)
    ensures var (d, s1) := R.Decide(s, now, ready, running);
            Executable(d, ready, running)
  {
    if running.Keys != {} {
    }
    RoundRobinAgree(s, now, ready, running);
  }

  lemma TdmaAgree(s: T.State, now: Time, ready: TaskMap, running: TaskMap)
    requires T.Configured(s) && T.Agree(s, ready + running) && Tidy(ready, running)
    requires running.Keys != {} ==> running.Keys == {Begin(running)}
    ensures var d := T.Decide(s, now, running);
            Executable(d, ready, running)
  {
    T.LookupIsScan(s, now);
    var i := T.CurrentSlot(s, now);
    var fifo := s.slots[i].fifo;
    if fifo != [] {
      assert Lists(fifo, T.Members(s.pidMap, ready + running, i));
      var first := fifo[0];
      assert first in fifo && first in ready + running;
    }
  }

  /** An instance of the current deque can be served: it is ready, or it is the one that makes way. */
  lemma TtccAgree(s: K.State, now: Time, ready: TaskMap, running: TaskMap)
    requires K.Configured(s) && K.Agree(s, ready + running) && Tidy(ready, running)
    requires running.Keys != {} ==> running.Keys == {Begin(running)}
    ensures var (d, s1) := K.Decide(s, now, running);
            && Executable(d, ready, running) && K.Configured(s1) && K.Agree(s1, ready + running)
  {
    hide K.Decide, K.Configured, K.Allowed, Executable;
    var (d, s1) := K.Decide(s, now, running);
    K.DecideConfigured(s, now, running);
    K.ServedHere(s, now, running);
    if Assigns(d) {
    }
    Servable(d, ready, running);
  }

  /** A decision that resigns the running instance, or finds none, and assigns any instance there is. */
  lemma Servable(d: Decision, ready: TaskMap, running: TaskMap)
    requires Tidy(ready, running)
    requires Resigns(d) ==> running.Keys != {} && d.resign == Begin(running) && running.Keys == {Begin(running)}
    requires d.OnlyAssign? ==> running.Keys == {}
    requires Assigns(d) ==> d.assign in ready + running
    ensures Executable(d, ready, running)
  {
    if Resigns(d) {
      MoveBack(ready, running, d.resign);
    }
  }

  lemma AvbAgree(s: A.State, now: Time, ready: TaskMap, running: TaskMap)
    requires A.Configured(s) && A.Agree(s, ready) && Tidy(ready, running)
    ensures var (d, s1) := A.Decide(s, now, running);
            && Executable(d, ready, running)
            && A.Configured(s1) && A.Agree(s1, After(d, ready, running).0)
  {
    var busy := running.Keys != {};
    var charged := A.ChargeAll(s.classes, busy, s.lastActive, A.Elapsed(s, now));
    var i := A.Pick(charged);
    if !busy && i < |charged| {
      AvbPick(s, charged, i, now, ready);
    } else {
      AvbKeep(s, A.Decide(s, now, running).1, ready);
    }
  }

  lemma AvbKeep(s: A.State, s1: A.State, ready: TaskMap)
    requires A.Configured(s) && A.Agree(s, ready) && A.SameShape(s.classes, s1.classes)
    requires forall k :: 0 <= k < |s1.classes| ==> s1.classes[k].queue == s.classes[k].queue
    requires s1.lastActive in {A.NOBODY, s.lastActive}
    ensures A.Configured(s1) && A.Agree(s1, ready)
  {
    A.ConfiguredFrame(s, s1, 0);
    A.ChargedAgree(s, s1, ready);
  }

  lemma AvbPick(s: A.State, charged: seq<A.Class>, i: nat, now: Time, ready: TaskMap)
    requires A.Configured(s) && A.Agree(s, ready) && A.SameShape(s.classes, charged)
    requires forall k :: 0 <= k < |charged| ==> charged[k].queue == s.classes[k].queue
    requires i < |charged| && |charged[i].queue| > 0
    ensures var c := charged[i];
            var s1 := A.State(charged[i := c.(queue := c.queue[1..])], c.level, now, false);
            c.queue[0] in ready && A.Configured(s1) && A.Agree(s1, ready - {c.queue[0]})
  {
    var c := charged[i];
    var mid := s.(classes := charged);
    A.ChargedAgree(s, mid, ready);
    A.PopAgree(mid, i, ready);
    A.ConfiguredFrame(s, A.State(charged[i := c.(queue := c.queue[1..])], c.level, now, false), i);
  }

  lemma ShaperAgree(s: H.State, now: Time, ready: TaskMap, running: TaskMap)
    requires Lists(s.fifo, ready.Keys) && Tidy(ready, running)
    ensures var (d, s1) := H.Decide(s, now, running);
            && Executable(d, ready, running) && Lists(s1.fifo, After(d, ready, running).0.Keys)
            && s1.period == s.period
  {
    if H.Decide(s, now, running).0.OnlyAssign? {
      FrontLeaves(s.fifo, ready);
    }
  }

  /** The front of a queue of the ready instances leaves both. */
  lemma FrontLeaves(q: seq<int>, ready: TaskMap)
    requires Lists(q, ready.Keys) && |q| > 0
    ensures q[0] in ready && Lists(q[1..], (ready - {q[0]}).Keys)
  {
    HeadIn(q);
    DropLists(q, ready.Keys, 0);
    assert DropAt(q, 0) == q[1..];
    assert (ready - {q[0]}).Keys == ready.Keys - {q[0]};
  }

  /** A new instance enters the queues exactly as it enters the ready map. */
  lemma AddedAgree(s: Policy, t: Task, ready: TaskMap, running: TaskMap)
    requires Configured(s) && Agree(s, ready, running)
    requires t.id !in ready && t.id !in running && t.prio <= A.INT_MAX
    ensures Configured(Added(s, t)) && Agree(Added(s, t), ready[t.id := t], running)
  {
    hide P.Agree, R.Agree, T.Agree, A.Agree, K.Agree, T.Configured, A.Configured, K.Configured;
    hide P.Added, T.Added, A.Added, K.Added;
    match s {
      case Priority(p) => P.AddedAgree(p, t, ready);
      case RoundRobin(r) => R.AddedAgree(r, t, ready);
      case Tdma(d) => TdmaAdded(d, t, ready, running);
      case Avb(a) => A.AddedAgree(a, t, ready);
      case Shaper(h) =>
      case Ttcc(k) =>
        assert ready[t.id := t] + running == (ready + running)[t.id := t];
        K.AddedAgree(k, t, ready + running);
    }
  }

  lemma TdmaAdded(d: T.State, t: Task, ready: TaskMap, running: TaskMap)
    requires T.Configured(d) && T.Agree(d, ready + running) && t.id !in ready && t.id !in running
    ensures T.Configured(T.Added(d, t)) && T.Agree(T.Added(d, t), ready[t.id := t] + running)
  {
    assert ready[t.id := t] + running == (ready + running)[t.id := t];
    T.AddedAgree(d, t, ready + running);
  }

  /** A finished instance leaves the queues exactly as it leaves the running map. */
  lemma RemovedAgree(s: Policy, t: Task, ready: TaskMap, running: TaskMap)
    requires Configured(s) && Agree(s, ready, running)
    requires t.id !in ready && running.Keys == {t.id} && running[t.id].pid == t.pid
    ensures Configured(Removed(s, t)) && Agree(Removed(s, t), ready, map[])
  {
    hide P.Agree, T.Agree, A.Agree, K.Agree, T.Configured, A.Configured, K.Configured, T.Removed, K.Removed;
    match s {
      case Priority(_) =>
      case RoundRobin(r) => R.RemovedAgree(r, t, ready);
      case Tdma(d) =>
        T.RemovedAgree(d, t, ready + running);
        assert ready + running - {t.id} == ready + map[];
      case Avb(_) =>
      case Shaper(h) => EraseAbsent(h.fifo, t.id);
      case Ttcc(k) =>
        K.RemovedAgree(k, t, ready + running);
        assert ready + running - {t.id} == ready + map[];
    }
  }

  /** Charging time to the running instance is invisible to the policies. */
  lemma ChargedAgree(s: Policy, t: Task, ready: TaskMap, running: TaskMap)
    requires Configured(s) && Agree(s, ready, running)
    requires t.id in running && running[t.id].pid == t.pid && t.id !in ready
    ensures Agree(s, ready, running[t.id := t])
  {
    hide P.Agree, R.Agree, A.Agree, T.Agree, K.Agree, Configured;
    assert ready + running[t.id := t] == (ready + running)[t.id := t];
    match s {
      case Tdma(d) => TdmaCharged(d, ready + running, t);
      case Ttcc(k) => TtccCharged(k, ready + running, t);
      case _ =>
    }
  }

  lemma TdmaCharged(s: T.State, all: TaskMap, t: Task)
    requires T.Agree(s, all) && t.id in all && all[t.id].pid == t.pid
    ensures T.Agree(s, all[t.id := t])
  {
    forall i | 0 <= i < |s.slots| ensures Lists(s.slots[i].fifo, T.Members(s.pidMap, all[t.id := t], i)) {
    }
  }

  lemma TtccCharged(s: K.State, all: TaskMap, t: Task)
    requires K.Agree(s, all) && t.id in all && all[t.id].pid == t.pid
    ensures K.Agree(s, all[t.id := t])
  {
    forall i | 0 <= i < |s.slots| ensures Lists(s.slots[i].fifo, T.Members(s.pidMap, all[t.id := t], i)) {
    }
  }
}
