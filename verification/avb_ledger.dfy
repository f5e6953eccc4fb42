/** The credit ledger of a class of the credit-based shaper: what one update and one pass of the thread
    enter into it, the invariant of the runs, and the floor of the credit.  An entry never gives a class
    more than its share of the elapsed time less the time for which it sends, and it takes no more than
    that unless credit is forfeited. */
module AvbLedger {
  import opened Basics
  import opened Lifecycle
  import opened Component
  import C = Conservation
  import A = AvbScheduling
  import S = Scheduling

  // ---- one credit update -----------------------------------------------------------------------------

  /** No branch, and no reset, gives a class more than its share of the elapsed time. */
  lemma ChargeAtMost(c: A.Class, busy: bool, lastActive: int, dt: Time)
    requires 0.0 <= dt && 0.0 < c.bw <= 1.0
    ensures A.Charge(c, busy, lastActive, dt).credit <=
            c.credit + dt * c.bw - (if c.level == lastActive then dt else 0.0)
  {
    A.Share(dt, c.bw);
    assert dt * (1.0 - c.bw) == dt - dt * c.bw;
  }

  /** No branch takes more from a class than the elapsed time costs it. */
  lemma ChargeAtLeast(c: A.Class, busy: bool, lastActive: int, dt: Time)
    requires 0.0 <= dt && 0.0 < c.bw <= 1.0
    ensures var r := A.Charge(c, busy, lastActive, dt).credit;
            || 0.0 <= r
            || c.credit - (if c.level == lastActive then dt * (1.0 - c.bw) else 0.0) <= r
  {
    A.Share(dt, c.bw);
  }

  /** A class with queued tasks that is not about to be reset gets exactly its share. */
  lemma ChargeExactly(c: A.Class, busy: bool, lastActive: int, dt: Time)
    requires |c.queue| != 0 && !c.wasEmpty
    ensures var r := A.Charge(c, busy, lastActive, dt);
            && !r.wasEmpty
            && r.credit == c.credit + dt * c.bw - (if c.level == lastActive then dt else 0.0)
  {
    assert dt * (1.0 - c.bw) == dt - dt * c.bw;
  }

  // ---- the invariant -----------------------------------------------------------------------------------

  /** Preemption never happens, so a ready instance has not run at all. */
  predicate Untouched(ready: TaskMap) {
    forall id :: id in ready ==> ready[id].remaining == ready[id].delay
  }

  /** The running instance came from the class that is marked as active. */
  predicate FromActive(a: A.State, running: TaskMap) {
    && (running.Keys == {} ==> a.lastActive == A.NOBODY)
    && (forall id :: id in running ==>
          var q := A.ClassFor(a.classes, running[id].prio);
          !a.firstRun && q < |a.classes| && a.classes[q].level == a.lastActive)
  }

  /** Only a class that is active or has something queued can hold positive credit. */
  predicate NoIdleCredit(a: A.State) {
    forall q :: 0 <= q < |a.classes| ==>
      (|a.classes[q].queue| == 0 || a.lastActive == A.NOBODY) && a.classes[q].level != a.lastActive
      ==> a.classes[q].credit <= 0.0
  }

  /** A waiting class of an idle link reaches credit zero no earlier than the thread's time-out,
      unless its credit is about to be reset. */
  predicate NotLate(a: A.State, deadline: Option<Time>) {
    a.lastActive == A.NOBODY ==>
      forall q :: 0 <= q < |a.classes| && |a.classes[q].queue| != 0 && !a.classes[q].wasEmpty ==>
        && !a.firstRun && deadline.Some?
        && (deadline.value - a.lastAssign) * a.classes[q].bw <= 0.0 - a.classes[q].credit
  }

  /** While an idle link sleeps with tasks queued, its time-out is the computed slice. */
  predicate SleepsExactly(s: State)
    requires s.policy.Avb?
  {
    var a := s.policy.a;
    !s.notified && s.comp.running.Keys == {} && s.comp.ready.Keys != {} ==>
      && !a.firstRun && A.SliceAssert(a)
      && (forall q :: 0 <= q < |a.classes| ==> a.classes[q].bw != 0.0)
      && s.deadline == Some(a.lastAssign + A.NeededTime(a.classes))
  }

  ghost predicate Inv(s: State) {
    && C.Inv(s) && s.policy.Avb?
    && Untouched(s.comp.ready)
    && FromActive(s.policy.a, s.comp.running)
    && (s.comp.running.Keys != {} ==> s.comp.assignedAt == s.policy.a.lastAssign)
    && (!s.policy.a.firstRun ==> s.policy.a.lastAssign <= s.clock)
    && NoIdleCredit(s.policy.a)
    && NotLate(s.policy.a, s.deadline)
    && SleepsExactly(s)
  }

  // ---- up to the decision ---------------------------------------------------------------------------------

  /** New tasks were queued and nothing else happened to the classes. */
  ghost predicate Grown(a: A.State, b: A.State) {
    && A.SameShape(a.classes, b.classes)
    && b.lastActive == a.lastActive && b.lastAssign == a.lastAssign && b.firstRun == a.firstRun
    && forall q :: 0 <= q < |a.classes| ==> GrownClass(a.classes[q], b.classes[q])
  }

  predicate GrownClass(c: A.Class, d: A.Class) {
    && d.credit == c.credit && c.queue <= d.queue
    && (d.wasEmpty <==> c.wasEmpty || (|c.queue| == 0 && |d.queue| != 0))
  }

  lemma AddedGrown(a: A.State, t: Task)
    ensures Grown(a, A.Added(a, t))
  {
  }

  lemma GrownTrans(a: A.State, b: A.State, c: A.State)
    requires Grown(a, b) && Grown(b, c)
    ensures Grown(a, c)
  {
    forall q | 0 <= q < |a.classes| ensures GrownClass(a.classes[q], c.classes[q]) {
      assert GrownClass(a.classes[q], b.classes[q]) && GrownClass(b.classes[q], c.classes[q]);
    }
  }

  lemma {:induction false} AddAllGrown(c: Comp, a: A.State, ts: seq<Task>, now: Time)
    requires Untouched(c.ready) && NewTasks(c, ts)
    ensures var (c1, p1) := AddAll(c, S.Avb(a), ts, now);
            && p1.Avb? && Grown(a, p1.a) && Untouched(c1.ready)
    decreases ts
  {
    if ts != [] {
      var c1 := ReleaseTask(c, ts[0], now);
      AddedGrown(a, ts[0]);
      forall i | 0 < i < |ts| ensures NewTask(c1, ts[i]) {
        PhaseSnoc(c.trace, Op(Release, ts[0], now), ts[i].id);
      }
      AddAllGrown(c1, A.Added(a, ts[0]), ts[1..], now);
      GrownTrans(a, A.Added(a, ts[0]), AddAll(c1, S.Avb(A.Added(a, ts[0])), ts[1..], now).1.a);
    }
  }

  /** The running instance after its charging: the same one with less to do, or none. */
  predicate Charged(c: Comp, running: TaskMap, now: Time) {
    || running.Keys == {}
    || (c.running.Keys != {} && running.Keys == c.running.Keys
        && running[Begin(running)] == RanTask(c.running[Begin(running)], c.assignedAt, now))
  }

  lemma ChargedRunning(c: Comp, a: A.State, clock: Time, now: Time)
    requires C.Sound(c, S.Avb(a), clock)
    ensures var (c1, p1) := ChargeRunning(c, S.Avb(a), now);
            p1 == S.Avb(a) && c1.ready == c.ready && Charged(c, c1.running, now)
  {
    if c.running.Keys != {} {
      C.Holder(c, S.Avb(a), clock);
    }
  }

  lemma BeforeGrown(s: State, now: Time, released: seq<Task>)
    requires Inv(s) && OnTime(s, now) && NewTasks(s.comp, released)
    ensures var (c, p) := BeforeDecision(s, released, now);
            && p.Avb? && Grown(s.policy.a, p.a) && Untouched(c.ready)
            && Charged(s.comp, c.running, now)
  {
    C.ChargeSound(s.comp, s.policy, s.clock, now);
    ChargedRunning(s.comp, s.policy.a, s.clock, now);
    var c1 := ChargeRunning(s.comp, s.policy, now).0;
    assert NewTasks(c1, released);
    C.AddAllSound(c1, s.policy, released, now);
    AddAllGrown(c1, s.policy.a, released, now);
  }

  // ---- the decision ---------------------------------------------------------------------------------------

  /** What the decision needs to know about the state before it. */
  ghost predicate Ready(c: Comp, a: A.State, now: Time) {
    && C.Sound(c, S.Avb(a), now) && C.UpToDate(c, now)
    && Untouched(c.ready)
    && (c.running.Keys != {} ==> FromActive(a, c.running))
    && (!a.firstRun ==> a.lastAssign <= now)
    && (c.running.Keys != {} ==> forall q :: 0 <= q < |a.classes| ==>
          |a.classes[q].queue| == 0 && a.classes[q].level != a.lastActive ==> a.classes[q].credit <= 0.0)
  }

  lemma FromActiveFrame(a: A.State, a1: A.State, running: TaskMap)
    requires FromActive(a, running) && A.SameLevels(a.classes, a1.classes)
    requires a1.lastActive == a.lastActive && (a1.firstRun ==> a.firstRun)
    ensures FromActive(a1, running)
  {
    forall id | id in running
      ensures A.ClassFor(a1.classes, running[id].prio) == A.ClassFor(a.classes, running[id].prio)
    {
      A.ClassForFrame(a.classes, a1.classes, running[id].prio);
    }
  }

  lemma BusyKeeps(c: Comp, a: A.State, now: Time)
    requires Ready(c, a, now) && c.running.Keys != {}
    ensures var a1 := A.Decide(a, now, c.running).1;
            && a1.lastActive != A.NOBODY && !a1.firstRun && a1.lastAssign == now
            && FromActive(a1, c.running) && NoIdleCredit(a1)
  {
    ActiveIsReal(a, c.running);
    FromActiveFrame(a, A.Decide(a, now, c.running).1, c.running);
  }

  lemma ActiveIsReal(a: A.State, running: TaskMap)
    requires A.Configured(a) && FromActive(a, running) && running.Keys != {}
    ensures a.lastActive != A.NOBODY
  {
    var id := Begin(running);
    var q := A.ClassFor(a.classes, running[id].prio);
    assert a.classes[q].level == a.lastActive;
  }

  lemma AssignKeeps(c: Comp, a: A.State, now: Time)
    requires Ready(c, a, now) && c.running.Keys == {}
    requires A.Decide(a, now, c.running).0.OnlyAssign?
    ensures var (d, a1) := A.Decide(a, now, c.running);
            && d.assign in c.ready && Untouched(c.ready - {d.assign})
            && a1.lastActive != A.NOBODY && !a1.firstRun && a1.lastAssign == now
            && FromActive(a1, map[d.assign := c.ready[d.assign]]) && NoIdleCredit(a1)
  {
    var charged := A.ChargeAll(a.classes, false, a.lastActive, A.Elapsed(a, now));
    var i := A.Pick(charged);
    var mid := a.(classes := charged);
    A.ChargedAgree(a, mid, c.ready);
    A.PopAgree(mid, i, c.ready);
    var (d, a1) := A.Decide(a, now, c.running);
    A.ClassForFrame(charged, a1.classes, c.ready[d.assign].prio);
  }

  /** An idle decision leaves every class without positive credit and every waiting one in debt. */
  lemma IdleKeeps(c: Comp, a: A.State, now: Time)
    requires Ready(c, a, now) && c.running.Keys == {}
    requires A.Decide(a, now, c.running).0.NoChange?
    ensures var a1 := A.Decide(a, now, c.running).1;
            && a1.lastActive == A.NOBODY && !a1.firstRun && a1.lastAssign == now
            && NoIdleCredit(a1) && A.SliceAssert(a1)
            && (forall q :: 0 <= q < |a1.classes| ==> 0.0 < a1.classes[q].bw && !A.Eligible(a1.classes[q]))
  {
  }

  lemma AvbAfter(c: Comp, a: A.State, now: Time, notified: bool)
    requires Ready(c, a, now)
    ensures var (d, a1) := A.Decide(a, now, c.running);
            var s1 := AfterDecision(c, S.Avb(a), now, notified);
            && s1.policy == S.Avb(a1) && s1.clock == now && s1.notified == notified
            && s1.comp == AssignPart(c, d, now)
            && s1.deadline == DeadlineOf(WaitTime(A.TimeSlice(a1, c.ready, c.running), s1.comp.running), now)
  {
  }

  /** With nothing ready nothing is queued. */
  lemma NothingQueued(a: A.State, ready: TaskMap, q: nat)
    requires A.Agree(a, ready) && ready.Keys == {} && q < |a.classes|
    ensures |a.classes[q].queue| == 0
  {
    var queue := a.classes[q].queue;
    assert Lists(queue, A.Members(a.classes, ready, q));
    HeadIn(queue);
  }

  lemma IdleSleeps(s1: State, c: Comp, a1: A.State, now: Time)
    requires A.Agree(a1, c.ready) && s1.policy == S.Avb(a1) && s1.comp.running.Keys == {} && s1.comp.ready == c.ready
    requires a1.lastActive == A.NOBODY && !a1.firstRun && a1.lastAssign == now
    requires A.SliceAssert(a1)
    requires forall q :: 0 <= q < |a1.classes| ==> 0.0 < a1.classes[q].bw && !A.Eligible(a1.classes[q])
    requires s1.deadline == DeadlineOf(A.TimeSlice(a1, c.ready, map[]), now)
    ensures NotLate(a1, s1.deadline) && SleepsExactly(s1)
  {
    if c.ready.Keys == {} {
      forall q | 0 <= q < |a1.classes| ensures |a1.classes[q].queue| == 0 {
        NothingQueued(a1, c.ready, q);
      }
    } else {
      hide A.Least;
      A.NeededLeast(a1.classes);
    }
  }

  lemma DecisionKeeps(c: Comp, a: A.State, now: Time, notified: bool)
    requires Ready(c, a, now)
    ensures Inv(AfterDecision(c, S.Avb(a), now, notified))
  {
    var s1 := AfterDecision(c, S.Avb(a), now, notified);
    var (d, a1) := A.Decide(a, now, c.running);
    C.AfterDecisionSound(c, S.Avb(a), now, notified);
    AvbAfter(c, a, now, notified);
    if c.running.Keys != {} {
      BusyKeeps(c, a, now);
    } else if d.OnlyAssign? {
      AssignKeeps(c, a, now);
      assert c.running == map[];
      assert s1.comp.running == map[d.assign := c.ready[d.assign]];
    } else {
      IdleKeeps(c, a, now);
      assert c.running == map[];
      IdleSleeps(s1, c, a1, now);
    }
  }

  // ---- runs -------------------------------------------------------------------------------------------------

  lemma GrownKeeps(a: A.State, a1: A.State, running: TaskMap, deadline: Option<Time>)
    requires Grown(a, a1) && FromActive(a, running) && NoIdleCredit(a) && NotLate(a, deadline)
    ensures FromActive(a1, running) && NoIdleCredit(a1) && NotLate(a1, deadline)
  {
    FromActiveFrame(a, a1, running);
    forall q | 0 <= q < |a.classes| ensures GrownClass(a.classes[q], a1.classes[q]) {
    }
  }

  lemma ArriveKeeps(s: State, now: Time, t: Task)
    requires Inv(s) && Possible(s, Arrive(now, t))
    ensures Inv(Step(s, Arrive(now, t)))
  {
    C.StepInv(s, Arrive(now, t));
    AddedGrown(s.policy.a, t);
    GrownKeeps(s.policy.a, A.Added(s.policy.a, t), s.comp.running, s.deadline);
  }

  /** The state before the decision of a pass. */
  lemma BeforeReady(s: State, now: Time, released: seq<Task>)
    requires Inv(s) && OnTime(s, now) && NewTasks(s.comp, released)
    ensures var (c, p) := BeforeDecision(s, released, now);
            p.Avb? && Ready(c, p.a, now) && Grown(s.policy.a, p.a) && Charged(s.comp, c.running, now)
  {
    C.BeforeDecisionSound(s, now, released);
    BeforeGrown(s, now, released);
    var (c, p) := BeforeDecision(s, released, now);
    if c.running.Keys != {} {
      C.Holder(c, p, now);
      C.Holder(s.comp, s.policy, s.clock);
      A.ClassForFrame(s.policy.a.classes, p.a.classes, c.running[Begin(c.running)].prio);
      forall q | 0 <= q < |p.a.classes| && |p.a.classes[q].queue| == 0 && p.a.classes[q].level != p.a.lastActive
        ensures p.a.classes[q].credit <= 0.0
      {
        assert GrownClass(s.policy.a.classes[q], p.a.classes[q]);
      }
    }
  }

  lemma StepInv(s: State, e: Event)
    requires Inv(s) && Possible(s, e)
    ensures Inv(Step(s, e))
  {
    match e {
      case Arrive(now, t) => ArriveKeeps(s, now, t);
      case Wake(now, released) =>
        BeforeReady(s, now, released);
        var (c, p) := BeforeDecision(s, released, now);
        DecisionKeeps(c, p.a, now, released != []);
      case Latency(_, _) => C.StepInv(s, e);
    }
  }

  lemma {:induction false} RunInv(s: State, es: seq<Event>)
    requires Inv(s) && Legal(s, es)
    ensures Inv(Run(s, es))
    decreases es
  {
    if es != [] {
      StepInv(s, es[0]);
      RunInv(Step(s, es[0]), es[1..]);
    }
  }

  /** A component that plugs in the scheduler as constructed and configured. */
  ghost predicate Start(s: State) {
    && C.Start(s) && s.policy.Avb?
    && s.policy.a.firstRun && s.policy.a.lastActive == A.NOBODY
    && forall q :: 0 <= q < |s.policy.a.classes| ==>
         s.policy.a.classes[q].queue == [] && s.policy.a.classes[q].credit == 0.0
  }

  lemma StartInv(s: State)
    requires Start(s)
    ensures Inv(s)
  {
    C.StartInv(s);
  }

  // ---- the bandwidth of a class ---------------------------------------------------------------------------

  /** A task of class q holds the link. */
  predicate Sends(s: State, q: nat) {
    s.policy.Avb? && exists id :: id in s.comp.running && A.ClassFor(s.policy.a.classes, s.comp.running[id].prio) == q
  }

  /** Time for which class q holds the link over a run. */
  function SendTime(s: State, es: seq<Event>, q: nat): Time
    decreases es
  {
    if es == [] then 0.0
    else
      var s1 := Step(s, es[0]);
      (if Sends(s, q) then s1.clock - s.clock else 0.0) + SendTime(s1, es[1..], q)
  }

  /** The credit of a class if the books were closed dt after its last update. */
  function Books(c: A.Class, lastActive: int, dt: Time): Time {
    c.credit + dt * c.bw - (if c.level == lastActive then dt else 0.0)
  }

  function CreditNow(s: State, q: nat): Time
    requires s.policy.Avb? && q < |s.policy.a.classes|
  {
    var a := s.policy.a;
    Books(a.classes[q], a.lastActive, A.Elapsed(a, s.clock))
  }

  /** After dt a class has gained no more than its share, less dt if it was sending. */
  predicate GainsAtMost(before: Time, after: Time, bw: real, dt: Time, sends: bool) {
    after <= before + dt * bw - (if sends then dt else 0.0)
  }

  /** The class that sends is the active one. */
  lemma SendsActive(s: State, q: nat)
    requires Inv(s) && q < |s.policy.a.classes|
    ensures Sends(s, q) <==> s.policy.a.classes[q].level == s.policy.a.lastActive
    ensures Sends(s, q) ==> !s.policy.a.firstRun
  {
    var a := s.policy.a;
    if s.comp.running.Keys != {} {
      C.Holder(s.comp, s.policy, s.clock);
      var id := Begin(s.comp.running);
      var i := A.ClassFor(a.classes, s.comp.running[id].prio);
      assert a.classes[i].level == a.lastActive;
      assert i < q ==> a.classes[i].level < a.classes[q].level;
      assert q < i ==> a.classes[q].level < a.classes[i].level;
    }
  }

  lemma ShareOf(x: Time, bw: real)
    requires 0.0 <= x && 0.0 < bw
    ensures 0.0 <= x * bw
  {
  }

  /** The passage of time alone. */
  lemma TimePasses(a: A.State, q: nat, t0: Time, t1: Time)
    requires q < |a.classes| && 0.0 < a.classes[q].bw && t0 <= t1
    requires a.firstRun ==> a.classes[q].level != a.lastActive
    ensures GainsAtMost(Books(a.classes[q], a.lastActive, A.Elapsed(a, t0)),
                        Books(a.classes[q], a.lastActive, A.Elapsed(a, t1)),
                        a.classes[q].bw, t1 - t0, a.classes[q].level == a.lastActive)
  {
    if a.firstRun {
      ShareOf(t1 - t0, a.classes[q].bw);
    } else {
    }
  }

  /** What a decision makes of the credit of class q. */
  lemma DecideCharges(a: A.State, now: Time, running: TaskMap, q: nat)
    requires q < |a.classes|
    ensures var a1 := A.Decide(a, now, running).1;
            var r := A.Charge(a.classes[q], running.Keys != {}, a.lastActive, A.Elapsed(a, now));
            && A.SameShape(a.classes, a1.classes) && !a1.firstRun && a1.lastAssign == now
            && a1.classes[q].credit == r.credit && a1.classes[q].wasEmpty == r.wasEmpty
  {
  }

  lemma DecisionCredit(a: A.State, now: Time, running: TaskMap, q: nat)
    requires q < |a.classes| && 0.0 < a.classes[q].bw <= 1.0 && (!a.firstRun ==> a.lastAssign <= now)
    ensures var a1 := A.Decide(a, now, running).1;
            && A.SameShape(a.classes, a1.classes)
            && Books(a1.classes[q], a1.lastActive, A.Elapsed(a1, now))
               <= Books(a.classes[q], a.lastActive, A.Elapsed(a, now))
  {
    DecideCharges(a, now, running, q);
    ChargeAtMost(a.classes[q], running.Keys != {}, a.lastActive, A.Elapsed(a, now));
  }

  lemma DecideBooks(a0: A.State, a: A.State, now: Time, running: TaskMap, q: nat)
    requires Grown(a0, a) && q < |a.classes| && 0.0 < a.classes[q].bw <= 1.0 && (!a.firstRun ==> a.lastAssign <= now)
    ensures var a1 := A.Decide(a, now, running).1;
            && A.SameShape(a0.classes, a1.classes)
            && Books(a1.classes[q], a1.lastActive, A.Elapsed(a1, now))
               <= Books(a0.classes[q], a0.lastActive, A.Elapsed(a0, now))
  {
    hide A.Decide;
    assert GrownClass(a0.classes[q], a.classes[q]);
    DecisionCredit(a, now, running, q);
  }

  /** Closing the books never gains a class anything. */
  lemma PassCredit(s: State, now: Time, released: seq<Task>, q: nat)
    requires Inv(s) && Possible(s, Wake(now, released)) && q < |s.policy.a.classes|
    ensures var a, s1 := s.policy.a, Pass(s, now, released);
            && s1.policy.Avb? && s1.clock == now && A.SameShape(a.classes, s1.policy.a.classes)
            && CreditNow(s1, q) <= Books(a.classes[q], a.lastActive, A.Elapsed(a, now))
  {
    hide Books;
    BeforeReady(s, now, released);
    var (c, p) := BeforeDecision(s, released, now);
    hide Inv, Possible, A.Decide, A.Charge, NewTasks;
    AvbAfter(c, p.a, now, released != []);
    DecideBooks(s.policy.a, p.a, now, c.running, q);
  }

  lemma Waits(s: State, q: nat, now: Time)
    requires Inv(s) && q < |s.policy.a.classes| && s.clock <= now
    ensures var a := s.policy.a;
            GainsAtMost(CreditNow(s, q), Books(a.classes[q], a.lastActive, A.Elapsed(a, now)),
                        a.classes[q].bw, now - s.clock, Sends(s, q))
  {
    SendsActive(s, q);
    TimePasses(s.policy.a, q, s.clock, now);
  }

  lemma WakeCredit(s: State, now: Time, released: seq<Task>, q: nat)
    requires Inv(s) && Possible(s, Wake(now, released)) && q < |s.policy.a.classes|
    ensures var a, s1 := s.policy.a, Pass(s, now, released);
            && s1.policy.Avb? && s.clock <= s1.clock == now && A.SameShape(a.classes, s1.policy.a.classes)
            && GainsAtMost(CreditNow(s, q), CreditNow(s1, q), a.classes[q].bw, now - s.clock, Sends(s, q))
  {
    hide Books;
    PassCredit(s, now, released, q);
    Waits(s, q, now);
  }

  lemma SameBooks(c: A.Class, d: A.Class, lastActive: int, dt: Time)
    requires c.level == d.level && c.bw == d.bw && c.credit == d.credit
    ensures Books(c, lastActive, dt) == Books(d, lastActive, dt)
  {
  }

  lemma QuietCredit(s: State, s1: State, q: nat)
    requires Inv(s) && s1.policy.Avb? && Grown(s.policy.a, s1.policy.a) && q < |s.policy.a.classes|
             && s.clock <= s1.clock
    ensures GainsAtMost(CreditNow(s, q), CreditNow(s1, q), s.policy.a.classes[q].bw, s1.clock - s.clock, Sends(s, q))
  {
    assert GrownClass(s.policy.a.classes[q], s1.policy.a.classes[q]);
    Waits(s, q, s1.clock);
    SameBooks(s.policy.a.classes[q], s1.policy.a.classes[q], s.policy.a.lastActive, A.Elapsed(s.policy.a, s1.clock));
    hide Books, GainsAtMost;
  }

  /** Over one step the credit of a class grows by at most its share of the time, less the time it sends. */
  predicate StepGains(s: State, s1: State, q: nat)
    requires s.policy.Avb? && q < |s.policy.a.classes|
  {
    && s1.policy.Avb? && s.clock <= s1.clock && A.SameShape(s.policy.a.classes, s1.policy.a.classes)
    && GainsAtMost(CreditNow(s, q), CreditNow(s1, q), s.policy.a.classes[q].bw, s1.clock - s.clock, Sends(s, q))
  }

  lemma QuietStep(s: State, e: Event, q: nat)
    requires s.policy.Avb? && Inv(s) && Possible(s, e) && q < |s.policy.a.classes| && !e.Wake?
    ensures StepGains(s, Step(s, e), q)
  {
    hide Books, GainsAtMost, Sends;
    if e.Arrive? {
      AddedGrown(s.policy.a, e.task);
    }
    QuietCredit(s, Step(s, e), q);
  }

  lemma WakeStep(s: State, e: Event, q: nat)
    requires s.policy.Avb? && Inv(s) && Possible(s, e) && q < |s.policy.a.classes| && e.Wake?
    ensures StepGains(s, Step(s, e), q)
  {
    hide Books, GainsAtMost, Sends, Inv, Possible, Pass, CreditNow;
    WakeCredit(s, e.at, e.released, q);
  }

  lemma StepCredit(s: State, e: Event, q: nat)
    requires s.policy.Avb? && Inv(s) && Possible(s, e) && q < |s.policy.a.classes|
    ensures StepGains(s, Step(s, e), q)
  {
    hide *;
    if e.Wake? {
      WakeStep(s, e, q);
    } else {
      QuietStep(s, e, q);
    }
  }

  lemma StepShape(s: State, e: Event)
    requires Inv(s) && Possible(s, e)
    ensures Step(s, e).policy.Avb? && A.SameShape(s.policy.a.classes, Step(s, e).policy.a.classes)
  {
    StepCredit(s, e, 0);
  }

  // ---- the floor of the credit ----------------------------------------------------------------------------

  /** Serving the task takes its class no more than `floor` of credit. */
  predicate Fits(t: Task, classes: seq<A.Class>, q: nat, floor: Time)
    requires q < |classes|
  {
    A.ClassFor(classes, t.prio) == q ==> t.delay * (1.0 - classes[q].bw) <= floor
  }

  predicate ReadyFit(ready: TaskMap, classes: seq<A.Class>, q: nat, floor: Time)
    requires q < |classes|
  {
    forall id :: id in ready ==> Fits(ready[id], classes, q, floor)
  }

  predicate AllFit(ts: seq<Task>, classes: seq<A.Class>, q: nat, floor: Time)
    requires q < |classes|
  {
    forall i :: 0 <= i < |ts| ==> Fits(ts[i], classes, q, floor)
  }

  predicate EventFits(e: Event, classes: seq<A.Class>, q: nat, floor: Time)
    requires q < |classes|
  {
    match e
    case Arrive(_, t) => Fits(t, classes, q, floor)
    case Wake(_, released) => AllFit(released, classes, q, floor)
    case Latency(_, _) => true
  }

  predicate EventsFit(es: seq<Event>, classes: seq<A.Class>, q: nat, floor: Time)
    requires q < |classes|
  {
    forall i :: 0 <= i < |es| ==> EventFits(es[i], classes, q, floor)
  }

  lemma FitsFrame(t: Task, a: seq<A.Class>, b: seq<A.Class>, q: nat, floor: Time)
    requires A.SameShape(a, b) && q < |a|
    ensures Fits(t, a, q, floor) <==> Fits(t, b, q, floor)
  {
    A.ClassForFrame(a, b, t.prio);
  }

  lemma ReadyFitFrame(ready: TaskMap, a: seq<A.Class>, b: seq<A.Class>, q: nat, floor: Time)
    requires A.SameShape(a, b) && q < |a| && ReadyFit(ready, a, q, floor)
    ensures ReadyFit(ready, b, q, floor)
  {
    forall id | id in ready ensures Fits(ready[id], b, q, floor) {
      FitsFrame(ready[id], a, b, q, floor);
    }
  }

  lemma EventsFitFrame(es: seq<Event>, a: seq<A.Class>, b: seq<A.Class>, q: nat, floor: Time)
    requires A.SameShape(a, b) && q < |a| && EventsFit(es, a, q, floor)
    ensures EventsFit(es, b, q, floor)
  {
    forall i | 0 <= i < |es| ensures EventFits(es[i], b, q, floor) {
      assert EventFits(es[i], a, q, floor);
      match es[i] {
        case Arrive(_, t) => FitsFrame(t, a, b, q, floor);
        case Wake(_, released) =>
        case Latency(_, _) =>
      }
    }
  }

  /** While a task of the class runs, the credit is down by no more than the time it has run costs;
      otherwise it is not below the floor. */
  predicate FloorAt(c: A.Class, lastActive: int, running: TaskMap, floor: Time) {
    if c.level == lastActive then
      forall id :: id in running ==>
        && (running[id].remaining - running[id].delay) * (1.0 - c.bw) <= c.credit
        && running[id].delay * (1.0 - c.bw) <= floor
    else 0.0 - floor <= c.credit
  }

  ghost predicate FloorInv(s: State, q: nat, floor: Time) {
    && s.policy.Avb? && q < |s.policy.a.classes| && 0.0 <= floor
    && ReadyFit(s.comp.ready, s.policy.a.classes, q, floor)
    && FloorAt(s.policy.a.classes[q], s.policy.a.lastActive, s.comp.running, floor)
  }

  lemma CostNotPositive(x: Time, bw: real)
    requires x <= 0.0 && 0.0 < bw <= 1.0
    ensures x * (1.0 - bw) <= 0.0
  {
  }

  /** A class that is charged while its task runs stays above what the task has cost. */
  lemma ChargeSender(c: A.Class, busy: bool, dt: Time, t: Task, floor: Time)
    requires 0.0 <= dt <= t.remaining <= t.delay && 0.0 < c.bw <= 1.0
    requires (t.remaining - t.delay) * (1.0 - c.bw) <= c.credit && t.delay * (1.0 - c.bw) <= floor
    ensures var r := A.Charge(c, busy, c.level, dt).credit;
            && (t.remaining - dt - t.delay) * (1.0 - c.bw) <= r
            && 0.0 - floor <= r
  {
    ChargeAtLeast(c, busy, c.level, dt);
    CostNotPositive(t.remaining - dt - t.delay, c.bw);
    CostNotPositive(dt - t.remaining, c.bw);
    assert (t.remaining - dt) * (1.0 - c.bw) == 0.0 - (dt - t.remaining) * (1.0 - c.bw);
  }

  /** The floor before the decision of a pass: the books are closed for everybody. */
  predicate FloorCharged(r: A.Class, lastActive: int, running: TaskMap, floor: Time) {
    && 0.0 - floor <= r.credit
    && (r.level == lastActive ==> FloorAt(r, lastActive, running, floor))
  }

  lemma {:induction false} AddAllFit(c: Comp, p: S.Policy, ts: seq<Task>, now: Time, classes: seq<A.Class>,
      q: nat, floor: Time)
    requires q < |classes| && ReadyFit(c.ready, classes, q, floor) && AllFit(ts, classes, q, floor)
    ensures ReadyFit(AddAll(c, p, ts, now).0.ready, classes, q, floor)
    decreases ts
  {
    if ts != [] {
      assert Fits(ts[0], classes, q, floor);
      AddAllFit(ReleaseTask(c, ts[0], now), S.Added(p, ts[0]), ts[1..], now, classes, q, floor);
    }
  }

  /** The running task of a sending class, and the time since the books were closed. */
  lemma SenderTask(s: State, now: Time, q: nat)
    requires Inv(s) && OnTime(s, now) && q < |s.policy.a.classes|
    requires s.policy.a.classes[q].level == s.policy.a.lastActive
    ensures s.comp.running.Keys != {}
    ensures var t := s.comp.running[Begin(s.comp.running)];
            && 0.0 <= A.Elapsed(s.policy.a, now) == now - s.comp.assignedAt <= t.remaining <= t.delay
            && RanTask(t, s.comp.assignedAt, now).remaining == t.remaining - A.Elapsed(s.policy.a, now)
  {
    SendsActive(s, q);
    C.Holder(s.comp, s.policy, s.clock);
  }

  lemma SenderBounds(s: State, q: nat, floor: Time)
    requires Inv(s) && FloorInv(s, q, floor) && s.policy.a.classes[q].level == s.policy.a.lastActive
             && s.comp.running.Keys != {}
    ensures var c, t := s.policy.a.classes[q], s.comp.running[Begin(s.comp.running)];
            (t.remaining - t.delay) * (1.0 - c.bw) <= c.credit && t.delay * (1.0 - c.bw) <= floor
  {
  }

  lemma SenderFloor(s: State, now: Time, running: TaskMap, busy: bool, c: A.Class, q: nat, floor: Time)
    requires Inv(s) && OnTime(s, now) && FloorInv(s, q, floor) && Charged(s.comp, running, now)
    requires s.policy.a.classes[q].level == s.policy.a.lastActive
    requires c.level == s.policy.a.classes[q].level && c.bw == s.policy.a.classes[q].bw
             && c.credit == s.policy.a.classes[q].credit
    ensures FloorCharged(A.Charge(c, busy, s.policy.a.lastActive, A.Elapsed(s.policy.a, now)),
            s.policy.a.lastActive, running, floor)
  {
    hide FloorCharged, FloorAt, Fits, A.Charge;
    SenderTask(s, now, q);
    C.Holder(s.comp, s.policy, s.clock);
    SenderBounds(s, q, floor);
    hide Inv, FloorInv, OnTime, A.Elapsed;
    var t := s.comp.running[Begin(s.comp.running)];
    ChargeSender(c, busy, A.Elapsed(s.policy.a, now), t, floor);
    SenderCharged(A.Charge(c, busy, c.level, A.Elapsed(s.policy.a, now)), t, A.Elapsed(s.policy.a, now),
      running, Begin(s.comp.running), floor);
  }

  lemma SenderCharged(r: A.Class, t: Task, dt: Time, running: TaskMap, id: int, floor: Time)
    requires (t.remaining - dt - t.delay) * (1.0 - r.bw) <= r.credit && 0.0 - floor <= r.credit
    requires t.delay * (1.0 - r.bw) <= floor
    requires running.Keys == {} || (running.Keys == {id} && running[id] == t.(remaining := t.remaining - dt))
    ensures FloorCharged(r, r.level, running, floor)
  {
    assert forall x :: x in running ==> x == id;
  }

  lemma WaiterFloor(c: A.Class, busy: bool, lastActive: int, dt: Time, floor: Time, running: TaskMap)
    requires 0.0 <= dt && 0.0 < c.bw <= 1.0 && c.level != lastActive && 0.0 - floor <= c.credit && 0.0 <= floor
    ensures FloorCharged(A.Charge(c, busy, lastActive, dt), lastActive, running, floor)
  {
    ChargeAtLeast(c, busy, lastActive, dt);
  }

  lemma ReadyFitBefore(s: State, now: Time, released: seq<Task>, q: nat, floor: Time)
    requires Inv(s) && FloorInv(s, q, floor)
    requires AllFit(released, s.policy.a.classes, q, floor)
    ensures ReadyFit(BeforeDecision(s, released, now).0.ready, s.policy.a.classes, q, floor)
  {
    hide Fits;
    ChargedRunning(s.comp, s.policy.a, s.clock, now);
    AddAllFit(ChargeRunning(s.comp, s.policy, now).0, s.policy, released, now, s.policy.a.classes, q, floor);
  }

  /** The floor holds for the class as the decision finds it charged. */
  lemma ChargeFloor(s: State, now: Time, running: TaskMap, busy: bool, c: A.Class, q: nat, floor: Time)
    requires Inv(s) && OnTime(s, now) && FloorInv(s, q, floor) && Charged(s.comp, running, now)
    requires c.level == s.policy.a.classes[q].level && c.bw == s.policy.a.classes[q].bw
             && c.credit == s.policy.a.classes[q].credit
    ensures FloorCharged(A.Charge(c, busy, s.policy.a.lastActive, A.Elapsed(s.policy.a, now)),
            s.policy.a.lastActive, running, floor)
  {
    hide FloorCharged, A.Charge;
    var a := s.policy.a;
    if a.classes[q].level == a.lastActive {
      SenderFloor(s, now, running, busy, c, q, floor);
    } else {
      assert FloorAt(a.classes[q], a.lastActive, s.comp.running, floor);
      WaiterFloor(c, busy, a.lastActive, A.Elapsed(a, now), floor, running);
    }
  }

  lemma FloorBefore(s: State, now: Time, released: seq<Task>, q: nat, floor: Time)
    requires Inv(s) && FloorInv(s, q, floor) && OnTime(s, now) && NewTasks(s.comp, released)
    requires AllFit(released, s.policy.a.classes, q, floor)
    ensures var (c, p) := BeforeDecision(s, released, now);
            && p.Avb? && Ready(c, p.a, now) && q < |p.a.classes| && ReadyFit(c.ready, p.a.classes, q, floor)
            && FloorCharged(A.Charge(p.a.classes[q], c.running.Keys != {}, p.a.lastActive, A.Elapsed(p.a, now)),
                            p.a.lastActive, c.running, floor)
  {
    hide FloorCharged, Fits, A.Charge, Ready, Inv, OnTime, AllFit, ReadyFit, Charged, NewTasks;
    BeforeReady(s, now, released);
    ReadyFitBefore(s, now, released, q, floor);
    var (c, p) := BeforeDecision(s, released, now);
    ReadyFitFrame(c.ready, s.policy.a.classes, p.a.classes, q, floor);
    assert GrownClass(s.policy.a.classes[q], p.a.classes[q]);
    ChargeFloor(s, now, c.running, c.running.Keys != {}, p.a.classes[q], q, floor);
  }

  /** The task that a decision assigns, and its class. */
  lemma Picked(c: Comp, a: A.State, now: Time)
    requires Ready(c, a, now) && c.running.Keys == {} && A.Decide(a, now, c.running).0.OnlyAssign?
    ensures var (d, a1) := A.Decide(a, now, c.running);
            && d.assign in c.ready
            && var i := A.ClassFor(a.classes, c.ready[d.assign].prio);
               && i == A.Pick(A.ChargeAll(a.classes, false, a.lastActive, A.Elapsed(a, now))) < |a.classes|
               && a1.lastActive == a.classes[i].level && 0.0 <= a1.classes[i].credit
  {
    var charged := A.ChargeAll(a.classes, false, a.lastActive, A.Elapsed(a, now));
    var i := A.Pick(charged);
    A.ChargedAgree(a, a.(classes := charged), c.ready);
    A.PopAgree(a.(classes := charged), i, c.ready);
    A.ClassForFrame(a.classes, charged, c.ready[A.Decide(a, now, c.running).0.assign].prio);
  }

  lemma FreshSender(c: A.Class, id: int, t: Task, floor: Time)
    requires 0.0 <= c.credit && t.remaining == t.delay && t.delay * (1.0 - c.bw) <= floor
    ensures FloorAt(c, c.level, map[id := t], floor)
  {
    assert (t.remaining - t.delay) * (1.0 - c.bw) == 0.0;
  }

  lemma NotSender(c: A.Class, lastActive: int, running: TaskMap, floor: Time)
    requires c.level != lastActive && 0.0 - floor <= c.credit
    ensures FloorAt(c, lastActive, running, floor)
  {
  }

  lemma FloorPicked(c: Comp, a: A.State, now: Time, q: nat, floor: Time)
    requires Ready(c, a, now) && c.running.Keys == {} && q < |a.classes| && ReadyFit(c.ready, a.classes, q, floor)
    requires A.Decide(a, now, c.running).0.OnlyAssign?
    requires 0.0 - floor <= A.Charge(a.classes[q], false, a.lastActive, A.Elapsed(a, now)).credit
    ensures var (d, a1) := A.Decide(a, now, c.running);
            && d.assign in c.ready
            && FloorAt(a1.classes[q], a1.lastActive, map[d.assign := c.ready[d.assign]], floor)
  {
    hide FloorAt, A.Charge;
    Picked(c, a, now);
    DecideCharges(a, now, c.running, q);
    var (d, a1) := A.Decide(a, now, c.running);
    var t := c.ready[d.assign];
    if A.ClassFor(a.classes, t.prio) == q {
      assert Fits(t, a.classes, q, floor);
      FreshSender(a1.classes[q], d.assign, t, floor);
    } else {
      NotSender(a1.classes[q], a1.lastActive, map[d.assign := t], floor);
    }
  }

  lemma FloorDecision(c: Comp, a: A.State, now: Time, notified: bool, q: nat, floor: Time)
    requires Ready(c, a, now) && q < |a.classes| && 0.0 <= floor && ReadyFit(c.ready, a.classes, q, floor)
    requires FloorCharged(A.Charge(a.classes[q], c.running.Keys != {}, a.lastActive, A.Elapsed(a, now)),
                          a.lastActive, c.running, floor)
    ensures FloorInv(AfterDecision(c, S.Avb(a), now, notified), q, floor)
  {
    var s1 := AfterDecision(c, S.Avb(a), now, notified);
    var (d, a1) := A.Decide(a, now, c.running);
    AvbAfter(c, a, now, notified);
    DecideCharges(a, now, c.running, q);
    if c.running.Keys == {} && d.OnlyAssign? {
      FloorPicked(c, a, now, q, floor);
      assert c.running == map[];
      assert s1.comp.running == map[d.assign := c.ready[d.assign]];
    } else if c.running.Keys == {} {
      IdleLevels(a1, q);
    }
    ReadyFitFrame(s1.comp.ready, a.classes, a1.classes, q, floor);
  }

  lemma IdleLevels(a: A.State, q: nat)
    requires q < |a.classes|
    ensures a.lastActive == A.NOBODY && A.Configured(a) ==> a.classes[q].level != a.lastActive
  {
  }

  lemma FloorArrive(s: State, now: Time, t: Task, q: nat, floor: Time)
    requires s.policy.Avb? && Inv(s) && Possible(s, Arrive(now, t)) && FloorInv(s, q, floor)
    requires Fits(t, s.policy.a.classes, q, floor)
    ensures FloorInv(Step(s, Arrive(now, t)), q, floor)
  {
    var a, a1 := s.policy.a, A.Added(s.policy.a, t);
    AddedGrown(a, t);
    assert GrownClass(a.classes[q], a1.classes[q]);
    hide Fits;
    ReadyFitFrame(s.comp.ready[t.id := t], a.classes, a1.classes, q, floor);
    FloorAtFrame(a.classes[q], a1.classes[q], a.lastActive, s.comp.running, floor);
    hide FloorAt;
  }

  lemma FloorAtFrame(c: A.Class, d: A.Class, lastActive: int, running: TaskMap, floor: Time)
    requires c.level == d.level && c.bw == d.bw && c.credit == d.credit && FloorAt(c, lastActive, running, floor)
    ensures FloorAt(d, lastActive, running, floor)
  {
  }

  lemma FloorStep(s: State, e: Event, q: nat, floor: Time)
    requires s.policy.Avb? && Inv(s) && Possible(s, e) && FloorInv(s, q, floor)
             && EventFits(e, s.policy.a.classes, q, floor)
    ensures FloorInv(Step(s, e), q, floor)
  {
    match e {
      case Arrive(now, t) => FloorArrive(s, now, t, q, floor);
      case Wake(now, released) =>
        hide A.Charge, FloorCharged, Fits, FloorAt;
        FloorBefore(s, now, released, q, floor);
        var (c, p) := BeforeDecision(s, released, now);
        FloorDecision(c, p.a, now, released != [], q, floor);
      case Latency(_, _) =>
    }
  }

  lemma {:induction false} FloorRun(s: State, es: seq<Event>, q: nat, floor: Time)
    requires s.policy.Avb? && Inv(s) && Legal(s, es) && FloorInv(s, q, floor)
             && EventsFit(es, s.policy.a.classes, q, floor)
    ensures FloorInv(Run(s, es), q, floor)
    decreases es
  {
    if es != [] {
      var s1 := Step(s, es[0]);
      StepInv(s, es[0]);
      StepShape(s, es[0]);
      FloorStep(s, es[0], q, floor);
      EventsFitFrame(es, s.policy.a.classes, s1.policy.a.classes, q, floor);
      FloorRun(s1, es[1..], q, floor);
    }
  }

  /** The books of a class that sends, closed before its task is done, stay above the floor. */
  lemma SenderNow(s: State, q: nat, floor: Time)
    requires Inv(s) && FloorInv(s, q, floor) && s.policy.a.classes[q].level == s.policy.a.lastActive
    ensures 0.0 - floor <= CreditNow(s, q)
  {
    SenderTask(s, s.clock, q);
    SenderBounds(s, q, floor);
    var c, dt := s.policy.a.classes[q], A.Elapsed(s.policy.a, s.clock);
    ChargeSender(c, true, dt, s.comp.running[Begin(s.comp.running)], floor);
    assert dt * (1.0 - c.bw) == dt - dt * c.bw;
  }

  lemma FloorNow(s: State, q: nat, floor: Time)
    requires Inv(s) && FloorInv(s, q, floor)
    ensures 0.0 - floor <= CreditNow(s, q)
  {
    if s.policy.a.classes[q].level == s.policy.a.lastActive {
      SenderNow(s, q, floor);
    } else {
      A.Share(A.Elapsed(s.policy.a, s.clock), s.policy.a.classes[q].bw);
    }
  }
}
