/** Service under credit-based shaping: wake-ups, a backlogged class, and the slice assertion. */
module AvbService {
  import opened Basics
  import opened Lifecycle
  import opened Component
  import opened AvbLedger
  import opened AvbBacklog
  import A = AvbScheduling
  import S = Scheduling
  import C = Conservation

  // ---- the idle phase -------------------------------------------------------------------------------

  lemma SomethingQueued(a: A.State, ready: TaskMap)
    requires A.Configured(a) && A.Agree(a, ready) && ready.Keys != {}
    ensures exists q :: 0 <= q < |a.classes| && |a.classes[q].queue| != 0
  {
    var id := Begin(ready);
    var q := A.ClassFor(a.classes, ready[id].prio);
    A.ClassExists(a, ready[id].prio);
    assert Lists(a.classes[q].queue, A.Members(a.classes, ready, q));
    assert id in A.Members(a.classes, ready, q);
    assert id in a.classes[q].queue;
  }

  /** After dt of an idle phase the decision assigns exactly when dt is the least waiting time. */
  lemma IdlePick(a: A.State, n: Time, now: Time)
    requires A.Configured(a) && a.lastActive == A.NOBODY && !a.firstRun
    requires A.Least(a.classes, n) && 0.0 < n && now <= a.lastAssign + n
    ensures A.Decide(a, now, map[]).0.OnlyAssign? <==> now == a.lastAssign + n
  {
    var dt := now - a.lastAssign;
    var charged := A.ChargeAll(a.classes, false, A.NOBODY, dt);
    forall q | 0 <= q < |charged|
      ensures A.Eligible(charged[q]) <==> |a.classes[q].queue| != 0 && 0.0 - a.classes[q].credit <= dt * a.classes[q].bw
    {
    }
    if dt == n {
      var i :| 0 <= i < |a.classes| && A.Needs(a.classes[i], n);
      assert A.Eligible(charged[i]);
    } else {
      forall q | 0 <= q < |charged| ensures !A.Eligible(charged[q]) {
        assert |a.classes[q].queue| != 0 ==> n * a.classes[q].bw <= 0.0 - a.classes[q].credit;
      }
    }
  }

  lemma IdlePass(r: State, now: Time)
    requires Inv(r) && r.comp.running.Keys == {} && OnTime(r, now)
    ensures Pass(r, now, []).comp.running.Keys != {} <==> A.Decide(r.policy.a, now, map[]).0.OnlyAssign?
  {
    assert r.comp.running == map[];
    assert BeforeDecision(r, [], now) == (r.comp, r.policy);
    if A.Decide(r.policy.a, now, map[]).0.OnlyAssign? {
      var p := S.Avb(r.policy.a);
      C.AfterDecisionSound(r.comp, p, now, false);
      var s1 := AfterDecision(r.comp, p, now, false);
      assert A.Decide(r.policy.a, now, map[]).0.assign in s1.comp.running;
    }
  }

  lemma IdleState(r: State)
    requires Inv(r) && !r.notified && r.comp.running.Keys == {} && r.comp.ready.Keys != {}
    ensures r.deadline.Some? && !r.policy.a.firstRun && r.policy.a.lastActive == A.NOBODY
    ensures var n := r.deadline.value - r.policy.a.lastAssign; 0.0 < n && A.Least(r.policy.a.classes, n)
    ensures forall q :: 0 <= q < |r.policy.a.classes| && |r.policy.a.classes[q].queue| != 0 ==>
            r.policy.a.classes[q].credit < 0.0
  {
    var a := r.policy.a;
    A.NeededLeast(a.classes);
    SomethingQueued(a, r.comp.ready);
  }

  /** An idle link with waiting tasks: every waiting class is in debt; with no new arrival the pass at
      the time-out assigns a task, and no pass before it would. */
  lemma {:induction false} IdleWakeExact(s: State, es: seq<Event>, now: Time)
    requires Start(s) && Legal(s, es)
    requires var r := Run(s, es);
             !r.notified && r.comp.running.Keys == {} && r.comp.ready.Keys != {} && OnTime(r, now)
    ensures var r := Run(s, es);
            && r.policy.Avb? && r.deadline.Some?
            && (forall q :: 0 <= q < |r.policy.a.classes| && |r.policy.a.classes[q].queue| != 0 ==>
                  r.policy.a.classes[q].credit < 0.0)
            && (Pass(r, now, []).comp.running.Keys != {} <==> now == r.deadline.value)
  {
    StartInv(s);
    RunInv(s, es);
    var r := Run(s, es);
    IdleState(r);
    IdlePick(r.policy.a, r.deadline.value - r.policy.a.lastAssign, now);
    IdlePass(r, now);
  }

  // ---- a backlogged class ---------------------------------------------------------------------------------

  /** Exact accounting: over a run in which the class stays backlogged, the bandwidth bound is met with
      equality: the class sends for exactly its share of the time plus the credit it uses up. */
  lemma {:induction false} BackloggedBandwidth(s: State, es: seq<Event>, q: nat)
    requires Inv(s) && Legal(s, es) && q < |s.policy.a.classes| && StaysBacklogged(s, es, q)
    ensures SendsExactly(s, Run(s, es), SendTime(s, es, q), q)
    decreases es
  {
    if es != [] {
      var s1 := Step(s, es[0]);
      StepInv(s, es[0]);
      StepShape(s, es[0]);
      BackloggedBandwidth(s1, es[1..], q);
      ExactStep(s, es[0], Run(s1, es[1..]), SendTime(s1, es[1..], q), q);
    }
  }

  /** The credit of the most important class never exceeds its share of the longest task: it is held up
      by at most one task of the other classes at a time. */
  lemma {:induction false} CreditCeiling(s: State, es: seq<Event>, longest: Time)
    requires Start(s) && Legal(s, es) && 0.0 <= longest && ArrivalsShort(es, longest)
    ensures var r := Run(s, es);
            && r.policy.Avb? && |r.policy.a.classes| > 0
            && r.policy.a.classes[0].credit <= longest * r.policy.a.classes[0].bw
  {
    hide *;
    StartCeil(s, longest);
    CeilRun(s, es, longest);
    StoredCeiling(Run(s, es), longest);
  }

  lemma StoredCeiling(r: State, longest: Time)
    requires Inv(r) && CeilInv(r, longest)
    ensures r.policy.a.classes[0].credit <= longest * r.policy.a.classes[0].bw
  {
    var c := r.policy.a.classes[0];
    ShareOf(longest, c.bw);
    if r.policy.a.lastActive != A.NOBODY {
      CeilFacts(r, longest);
      hide CeilAt;
      if c.level != r.policy.a.lastActive {
        C.Holder(r.comp, r.policy, r.clock);
        var t := r.comp.running[Begin(r.comp.running)];
      }
    }
  }

  lemma Guarantee(s: State, r: State, sent: Time, longest: Time)
    requires s.policy.Avb? && |s.policy.a.classes| > 0 && SendsExactly(s, r, sent, 0)
    requires r.policy.Avb? && |r.policy.a.classes| > 0 && CreditNow(r, 0) <= longest * r.policy.a.classes[0].bw
    ensures (r.clock - s.clock) * s.policy.a.classes[0].bw
            + CreditNow(s, 0) - longest * s.policy.a.classes[0].bw <= sent
  {
    hide CreditNow;
  }

  lemma {:induction false} StaysToTheEnd(s: State, es: seq<Event>, q: nat)
    requires StaysBacklogged(s, es, q)
    ensures Backlogged(Run(s, es), q)
    decreases es
  {
    if es != [] {
      StaysToTheEnd(Step(s, es[0]), es[1..], q);
    }
  }

  /** Guaranteed service: while it stays backlogged, the most important class sends for at least its share
      of the elapsed time, short of its share of one longest task. */
  lemma {:induction false} GuaranteedService(s: State, before: seq<Event>, es: seq<Event>, longest: Time)
    requires Start(s) && Legal(s, before) && Legal(Run(s, before), es)
    requires 0.0 <= longest && ArrivalsShort(before, longest) && ArrivalsShort(es, longest)
    requires StaysBacklogged(Run(s, before), es, 0)
    ensures var m := Run(s, before);
            && m.policy.Avb? && |m.policy.a.classes| > 0
            && var bw := m.policy.a.classes[0].bw;
               (Run(m, es).clock - m.clock) * bw + CreditNow(m, 0) - longest * bw <= SendTime(m, es, 0)
  {
    hide *;
    StartCeil(s, longest);
    CeilRun(s, before, longest);
    ServiceFrom(Run(s, before), es, longest);
  }

  lemma ServiceFrom(m: State, es: seq<Event>, longest: Time)
    requires m.policy.Avb? && |m.policy.a.classes| > 0 && Inv(m) && CeilInv(m, longest)
    requires Legal(m, es) && ArrivalsShort(es, longest) && StaysBacklogged(m, es, 0)
    ensures var bw := m.policy.a.classes[0].bw;
            (Run(m, es).clock - m.clock) * bw + CreditNow(m, 0) - longest * bw <= SendTime(m, es, 0)
  {
    hide *;
    CeilRun(m, es, longest);
    BackloggedBandwidth(m, es, 0);
    StaysToTheEnd(m, es, 0);
    CeilNow(Run(m, es), longest);
    Guarantee(m, Run(m, es), SendTime(m, es, 0), longest);
  }

  // ---- the assertion of the slice computation ------------------------------------------------------------------

  /** What the assertion meets in a pass: it is evaluated when something is ready and nothing has been
      assigned yet, after the decision has taken its task from the queue. */
  predicate SliceAssertFails(a: A.State, now: Time, ready: TaskMap, running: TaskMap) {
    ready.Keys != {} && running.Keys == {} && !A.SliceAssert(A.Decide(a, now, running).1)
  }

  /** The assertion fails exactly in decisions that assign a task and leave behind another class that could
      have been served, or another task in the class that is served. */
  lemma SliceAssertExactly(a: A.State, now: Time, ready: TaskMap, running: TaskMap)
    requires A.Configured(a) && A.Agree(a, ready)
    ensures SliceAssertFails(a, now, ready, running) <==>
            && running.Keys == {}
            && var charged := A.ChargeAll(a.classes, false, a.lastActive, A.Elapsed(a, now));
               var i := A.Pick(charged);
               && i < |charged|
               && (|charged[i].queue| > 1 || exists k :: i < k < |charged| && A.Eligible(charged[k]))
  {
    var charged := A.ChargeAll(a.classes, false, a.lastActive, A.Elapsed(a, now));
    var i := A.Pick(charged);
    var a1 := A.Decide(a, now, running).1;
    if running.Keys == {} && i < |charged| {
      A.ChargedAgree(a, a.(classes := charged), ready);
      A.PopAgree(a.(classes := charged), i, ready);
      assert a1.classes == charged[i := charged[i].(queue := charged[i].queue[1..])];
      var j := A.Pick(a1.classes);
      assert j < |charged| && j != i ==> A.Eligible(charged[j]);
      assert |charged[i].queue| > 1 ==> A.Eligible(a1.classes[i]);
      assert forall k :: i < k < |charged| ==> a1.classes[k] == charged[k];
    }
  }

  const FIRST: Task := Task(1, 1, 0, 5.0, 5.0, 5.0)
  const SECOND: Task := Task(2, 1, 0, 5.0, 5.0, 5.0)

  /** The default class alone, with this queue. */
  function OneClass(queue: seq<int>): A.State {
    A.State([A.DEFAULT_CLASS.(queue := queue)], A.NOBODY, 0.0, true)
  }

  /** A component in which these tasks have arrived, in this order, before the first decision. */
  function Arrived(ready: TaskMap, queue: seq<int>, trace: seq<Op>): State {
    State(Comp(ready, map[], None, 0.0, {}, trace), S.Avb(OneClass(queue)), 0.0, None, true)
  }

  lemma OneArrives(ready: TaskMap, queue: seq<int>, trace: seq<Op>, t: Task)
    requires Fresh(t) && t.prio == 0 && PhaseOf(trace, t.id) == Unborn
    ensures var s := Arrived(ready, queue, trace);
            && Possible(s, Arrive(0.0, t))
            && Step(s, Arrive(0.0, t)) == Arrived(ready[t.id := t], queue + [t.id], trace + [Op(Release, t, 0.0)])
  {
    assert A.ClassFor(OneClass(queue).classes, 0) == 0;
    assert A.Added(OneClass(queue), t).classes == OneClass(queue + [t.id]).classes;
  }

  /** The family is not empty: two tasks that arrive at the same time in the default class. */
  lemma TwoArrivalsFailSlice()
    ensures var s, es := Arrived(map[], [], []), [Arrive(0.0, FIRST), Arrive(0.0, SECOND)];
            && Start(s) && Legal(s, es)
            && var r := Run(s, es);
               r.policy.Avb? && SliceAssertFails(r.policy.a, 0.0, r.comp.ready, r.comp.running)
  {
    var s, op := Arrived(map[], [], []), Op(Release, FIRST, 0.0);
    EmptyStarts();
    OneArrives(map[], [], [], FIRST);
    PhaseSnoc([], op, 2);
    OneArrives(map[1 := FIRST], [1], [op], SECOND);
    TwoWaitingFail(OneClass([1, 2]), map[1 := FIRST][2 := SECOND], map[]);
    hide Step, Possible, SliceAssertFails, Start;
    var e0, e1 := Arrive(0.0, FIRST), Arrive(0.0, SECOND);
    assert [] + [op] == [op] && [] + [1] == [1] && [1] + [2] == [1, 2] && map[][1 := FIRST] == map[1 := FIRST];
    assert [e0, e1] == [e0] + ([e1] + []);
    RunCons(s, e0, [e1] + []);
    RunCons(Step(s, e0), e1, []);
  }

  lemma EmptyStarts()
    ensures Start(Arrived(map[], [], []))
  {
  }

  lemma TwoWaitingFail(a: A.State, ready: TaskMap, running: TaskMap)
    requires a == A.State([A.DEFAULT_CLASS.(queue := [1, 2])], A.NOBODY, 0.0, true)
    requires 1 in ready && running == map[]
    ensures SliceAssertFails(a, 0.0, ready, running)
  {
    var charged := A.ChargeAll(a.classes, false, a.lastActive, A.Elapsed(a, 0.0));
    assert A.Eligible(charged[0]);
    var a1 := A.Decide(a, 0.0, running).1;
    assert A.Eligible(a1.classes[0]);
  }
}
