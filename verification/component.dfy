/** The preemptive component as a transition system (PreemptiveComponent.cpp, AbstractComponent.cpp).
    A state holds the ready and running maps, the plugged-in policy, the simulated clock and the
    pending wake-up of the scheduler thread; a run is a sequence of events. */
module Component {
  import opened Basics
  import opened Lifecycle
  import S = Scheduling
  import A = AvbScheduling

  /** An instance whose data introduction interval is over and whose latency is still running. */
  datatype Expiry = Expiry(time: Time, task: Task)

  datatype Comp = Comp(ready: TaskMap, running: TaskMap,
                       holder: Option<int>, assignedAt: Time,
                       latencies: set<Expiry>, trace: seq<Op>)

  /** `deadline` is the time-out of the thread's wait; `notified` says that its event is pending
      for the current instant, so time cannot pass before the thread has run again. */
  datatype State = State(comp: Comp, policy: S.Policy, clock: Time, deadline: Option<Time>, notified: bool)

  datatype Event =
    | Arrive(at: Time, task: Task)
    | Wake(at: Time, released: seq<Task>)
    | Latency(at: Time, done: Task)

  // ---- AbstractComponent: operations on one instance ------------------------------------------

  function Log(c: Comp, kind: Kind, t: Task, now: Time): Comp {
    c.(trace := c.trace + [Op(kind, t, now)])
  }

  function ReleaseTask(c: Comp, t: Task, now: Time): Comp {
    Log(c.(ready := c.ready[t.id := t]), Release, t, now)
  }

  function RanTask(t: Task, assignedAt: Time, now: Time): Task {
    t.(remaining := t.remaining - now + assignedAt)
  }

  function ResignTask(c: Comp, t: Task, now: Time): Comp {
    Log(c.(ready := c.ready[t.id := t], running := c.running - {t.id}, holder := None), Resign, t, now)
  }

  function AssignTask(c: Comp, t: Task, now: Time): Comp {
    Log(c.(running := c.running[t.id := t], ready := c.ready - {t.id}, holder := Some(t.id), assignedAt := now),
        Assign, t, now)
  }

  /** The end of the interval; an instance of equal latency is finished altogether. */
  function FinishDiiTask(c: Comp, t: Task, now: Time): Comp {
    var c1 := Log(c.(running := c.running - {t.id}, holder := None), FinishDii, t, now);
    if t.latency == t.delay then Log(c1, FinishLat, t, now)
    else c1.(latencies := c1.latencies + {Expiry(now + (t.latency - t.delay), t)})
  }

  function FinishLatencyTask(c: Comp, t: Task, now: Time): Comp {
    Log(c.(latencies := c.latencies - {Expiry(now, t)}), FinishLat, t, now)
  }

  // ---- PreemptiveComponent: the scheduler thread -------------------------------------------------

  /** The first loop of a pass: the running instance is charged and, when exhausted, finished. */
  function ChargeRunning(c: Comp, policy: S.Policy, now: Time): (Comp, S.Policy) {
    if c.running.Keys == {} then (c, policy)
    else
      var id := Begin(c.running);
      var t := RanTask(c.running[id], c.assignedAt, now);
      var c1 := c.(running := c.running[id := t], assignedAt := now);
      if t.remaining == 0.0 then (FinishDiiTask(c1, t, now), S.Removed(policy, t)) else (c1, policy)
  }

  function AddTask(c: Comp, policy: S.Policy, t: Task, now: Time): (Comp, S.Policy) {
    (ReleaseTask(c, t, now), S.Added(policy, t))
  }

  function AddAll(c: Comp, policy: S.Policy, ts: seq<Task>, now: Time): (Comp, S.Policy)
    decreases ts
  {
    if ts == [] then (c, policy)
    else
      var (c1, p1) := AddTask(c, policy, ts[0], now);
      AddAll(c1, p1, ts[1..], now)
  }

  function ResignPart(c: Comp, d: Decision, now: Time): Comp {
    if S.Resigns(d) && d.resign in c.running then ResignTask(c, c.running[d.resign], now) else c
  }

  function AssignPart(c: Comp, d: Decision, now: Time): Comp {
    if S.Assigns(d) && d.assign in c.ready then AssignTask(c, c.ready[d.assign], now) else c
  }

  function Moved(c: Comp, d: Decision, now: Time): Comp {
    AssignPart(ResignPart(c, d, now), d, now)
  }

  /** The wait time: the least of the scheduler's slice and the remaining delay of the running task. */
  function WaitTime(slice: Option<Time>, running: TaskMap): Option<Time> {
    if running.Keys == {} then slice
    else
      var left := running[Begin(running)].remaining;
      if slice.None? || left < slice.value then Some(left) else slice
  }

  function DeadlineOf(wait: Option<Time>, now: Time): Option<Time> {
    match wait
    case None => None
    case Some(w) => Some(now + w)
  }

  /** Where the pass stands when it asks for a decision. */
  function BeforeDecision(s: State, released: seq<Task>, now: Time): (Comp, S.Policy) {
    var (c1, p1) := ChargeRunning(s.comp, s.policy, now);
    AddAll(c1, p1, released, now)
  }

  /** From the decision to the next wait. */
  function AfterDecision(c: Comp, policy: S.Policy, now: Time, notified: bool): State {
    var (d, p1) := S.Decide(policy, now, c.ready, c.running);
    var c1 := ResignPart(c, d, now);
    var slice := S.TimeSlice(p1, now, c1.ready, c1.running);
    var c2 := AssignPart(c1, d, now);
    State(c2, p1, now, DeadlineOf(WaitTime(slice, c2.running), now), notified)
  }

  /** One pass of the thread's loop.  `released` are tasks that call-backs of the finished instance
      release on this very component while the pass is running. */
  function Pass(s: State, now: Time, released: seq<Task>): State {
    var (c, p) := BeforeDecision(s, released, now);
    AfterDecision(c, p, now, released != [])
  }

  function Step(s: State, e: Event): State {
    match e
    case Arrive(now, t) =>
      var (c, p) := AddTask(s.comp, s.policy, t, now);
      State(c, p, now, s.deadline, true)
    case Wake(now, released) => Pass(s, now, released)
    case Latency(now, t) => s.(comp := FinishLatencyTask(s.comp, t, now), clock := now)
  }

  // ---- runs ------------------------------------------------------------------------------------------

  predicate Init(s: State) {
    s.comp == Comp(map[], map[], None, 0.0, {}, []) && s.clock == 0.0 && s.deadline == None && s.notified
  }

  /** Instance ids come from one global counter, so a new instance has an id never seen before. */
  predicate NewTask(c: Comp, t: Task) {
    Fresh(t) && t.prio <= A.INT_MAX && PhaseOf(c.trace, t.id) == Unborn
  }

  predicate NewTasks(c: Comp, ts: seq<Task>) {
    && (forall i :: 0 <= i < |ts| ==> NewTask(c, ts[i]))
    && (forall i, j :: 0 <= i < j < |ts| ==> ts[i].id != ts[j].id)
  }

  /** The kernel's part: the clock does not run backwards, does not pass the thread's time-out or
      the expiry of a latency, and stands still while the thread's event is pending. */
  predicate OnTime(s: State, now: Time) {
    && s.clock <= now
    && (s.notified ==> now == s.clock)
    && (s.deadline.Some? ==> now <= s.deadline.value)
    && (forall x :: x in s.comp.latencies ==> now <= x.time)
  }

  /** Events the environment may cause.  The thread may be woken at any time up to its time-out. */
  predicate Possible(s: State, e: Event) {
    && OnTime(s, e.at)
    && match e
       case Arrive(_, t) => NewTask(s.comp, t)
       case Wake(_, released) => NewTasks(s.comp, released)
       case Latency(now, t) => Expiry(now, t) in s.comp.latencies
  }

  /** The assertion that depends on the environment, that of a round-robin decision, holds in this pass. */
  predicate Allowed(s: State, e: Event) {
    e.Wake? ==>
      var (c, p) := BeforeDecision(s, e.released, e.at);
      S.DecisionAllowed(p, e.at, c.running)
  }

  function Run(s: State, es: seq<Event>): State
    decreases es
  {
    if es == [] then s else Run(Step(s, es[0]), es[1..])
  }

  predicate Legal(s: State, es: seq<Event>)
    decreases es
  {
    es == [] || (Possible(s, es[0]) && Legal(Step(s, es[0]), es[1..]))
  }

  /** Once the first of them is released, the others still are new. */
  lemma NewTasksRest(c: Comp, ts: seq<Task>, now: Time)
    requires NewTasks(c, ts) && ts != []
    ensures NewTask(c, ts[0]) && NewTasks(ReleaseTask(c, ts[0], now), ts[1..])
  {
    forall i | 0 < i < |ts| ensures NewTask(ReleaseTask(c, ts[0], now), ts[i]) {
      PhaseSnoc(c.trace, Op(Release, ts[0], now), ts[i].id);
    }
  }

  predicate AllAllowed(s: State, es: seq<Event>)
    decreases es
  {
    es == [] || (Allowed(s, es[0]) && AllAllowed(Step(s, es[0]), es[1..]))
  }

  // ---- traces only grow ------------------------------------------------------------------------------

  lemma {:induction false} AddAllTrace(c: Comp, policy: S.Policy, ts: seq<Task>, now: Time)
    ensures c.trace <= AddAll(c, policy, ts, now).0.trace
    decreases ts
  {
    if ts != [] {
      var (c1, p1) := AddTask(c, policy, ts[0], now);
      AddAllTrace(c1, p1, ts[1..], now);
    }
  }

  lemma StepTrace(s: State, e: Event)
    ensures s.comp.trace <= Step(s, e).comp.trace
  {
    if e.Wake? {
      BeforeTrace(s, e.released, e.at);
    }
  }

  lemma BeforeTrace(s: State, released: seq<Task>, now: Time)
    ensures s.comp.trace <= BeforeDecision(s, released, now).0.trace
  {
    var (c1, p1) := ChargeRunning(s.comp, s.policy, now);
    AddAllTrace(c1, p1, released, now);
  }

  lemma {:induction false} RunTrace(s: State, es: seq<Event>)
    ensures s.comp.trace <= Run(s, es).comp.trace
    decreases es
  {
    if es != [] {
      StepTrace(s, es[0]);
      RunTrace(Step(s, es[0]), es[1..]);
    }
  }

  lemma {:induction false} RunCons(s: State, e: Event, es: seq<Event>)
    ensures Run(s, [e] + es) == Run(Step(s, e), es)
    ensures Legal(s, [e] + es) <==> Possible(s, e) && Legal(Step(s, e), es)
    ensures AllAllowed(s, [e] + es) <==> Allowed(s, e) && AllAllowed(Step(s, e), es)
  {
    assert ([e] + es)[1..] == es;
  }
}
