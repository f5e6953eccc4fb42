/** The order of sending under credit-based shaping: within a class and between classes. */
module AvbOrder {
  import opened Basics
  import opened Lifecycle
  import opened Component
  import opened Turns
  import A = AvbScheduling
  import C = Conservation
  import S = Scheduling
  import L = AvbLedger

  /** A class takes the tasks above the level of the class before it, up to its own level. */
  function ClassLine(classes: seq<A.Class>, q: nat): Line
    requires q < |classes|
  {
    Priorities(if q == 0 then None else Some(classes[q - 1].level), classes[q].level)
  }

  lemma JoinsClass(classes: seq<A.Class>, q: nat, t: Task)
    requires A.Ascending(classes) && q < |classes|
    ensures Joins(ClassLine(classes, q), t) <==> A.ClassFor(classes, t.prio) == q
  {
    var i := A.ClassFor(classes, t.prio);
    if i < q {
      assert classes[i].level <= classes[q - 1].level;
    }
  }

  /** The queue of a class is its line, and its tasks are assigned in turn. */
  predicate ToldClass(trace: seq<Op>, classes: seq<A.Class>, q: nat)
    requires q < |classes|
  {
    && classes[q].queue == InLine(ClassLine(classes, q), UntilAssigned, trace)
    && InTurn(ClassLine(classes, q), UntilAssigned, trace)
  }

  predicate Told(trace: seq<Op>, classes: seq<A.Class>) {
    && NoResign(trace)
    && forall q :: 0 <= q < |classes| ==> ToldClass(trace, classes, q)
  }

  lemma ReleaseTold(trace: seq<Op>, a: A.State, t: Task, now: Time)
    requires A.Ascending(a.classes) && Told(trace, a.classes)
    ensures Told(trace + [Op(Release, t, now)], A.Added(a, t).classes)
    ensures A.Ascending(A.Added(a, t).classes)
  {
    var op := Op(Release, t, now);
    var a1 := A.Added(a, t);
    hide A.ClassFor, InLine, InTurn;
    forall q | 0 <= q < |a1.classes| ensures ToldClass(trace + [op], a1.classes, q) {
      assert ToldClass(trace, a.classes, q);
      JoinsClass(a.classes, q, t);
      Turns.Snoc(ClassLine(a.classes, q), UntilAssigned, trace, op);
    }
  }

  lemma QuietTold(trace: seq<Op>, op: Op, classes: seq<A.Class>)
    requires Told(trace, classes) && (op.kind == FinishDii || op.kind == FinishLat)
    ensures Told(trace + [op], classes)
  {
    hide InLine, InTurn;
    forall q | 0 <= q < |classes| ensures ToldClass(trace + [op], classes, q) {
      assert ToldClass(trace, classes, q);
      Turns.Snoc(ClassLine(classes, q), UntilAssigned, trace, op);
    }
  }

  lemma ChargedTold(trace: seq<Op>, a: seq<A.Class>, b: seq<A.Class>)
    requires Told(trace, a) && A.SameLevels(a, b) && forall i :: 0 <= i < |a| ==> a[i].queue == b[i].queue
    ensures Told(trace, b)
  {
    hide InLine, InTurn;
    forall q | 0 <= q < |b| ensures ToldClass(trace, b, q) {
      assert ToldClass(trace, a, q);
    }
  }

  lemma AssignTold(trace: seq<Op>, classes: seq<A.Class>, i: nat, t: Task, now: Time)
    requires A.Ascending(classes) && Told(trace, classes)
    requires A.ClassFor(classes, t.prio) == i < |classes| && classes[i].queue != [] && classes[i].queue[0] == t.id
    ensures Told(trace + [Op(Assign, t, now)], classes[i := classes[i].(queue := classes[i].queue[1..])])
  {
    var op := Op(Assign, t, now);
    var r := classes[i := classes[i].(queue := classes[i].queue[1..])];
    hide A.ClassFor, InLine, InTurn;
    forall q | 0 <= q < |r| ensures ToldClass(trace + [op], r, q) {
      assert ToldClass(trace, classes, q);
      JoinsClass(classes, q, t);
      Turns.Snoc(ClassLine(classes, q), UntilAssigned, trace, op);
    }
  }

  lemma ChargeTold(c: Comp, a: A.State, now: Time)
    requires Told(c.trace, a.classes)
    ensures var (c1, p1) := ChargeRunning(c, S.Avb(a), now); p1 == S.Avb(a) && Told(c1.trace, a.classes)
  {
    hide Told;
    if c.running.Keys != {} {
      var t := RanTask(c.running[Begin(c.running)], c.assignedAt, now);
      QuietTold(c.trace, Op(FinishDii, t, now), a.classes);
      QuietTold(c.trace + [Op(FinishDii, t, now)], Op(FinishLat, t, now), a.classes);
    }
  }

  lemma {:induction false} AddAllTold(c: Comp, a: A.State, ts: seq<Task>, now: Time)
    requires A.Ascending(a.classes) && Told(c.trace, a.classes)
    ensures var (c1, p1) := AddAll(c, S.Avb(a), ts, now); p1.Avb? && Told(c1.trace, p1.a.classes)
    decreases ts
  {
    hide Told, A.Ascending, A.Added;
    if ts != [] {
      ReleaseTold(c.trace, a, ts[0], now);
      AddAllTold(ReleaseTask(c, ts[0], now), A.Added(a, ts[0]), ts[1..], now);
    }
  }

  /** The class that serves: it has credit, and every class before it has nothing to send or is in debt. */
  predicate Serves(classes: seq<A.Class>, q: nat) {
    q < |classes| && 0.0 <= classes[q].credit && NobodyBefore(classes, q)
  }

  predicate NobodyBefore(classes: seq<A.Class>, q: nat)
    requires q <= |classes|
  {
    forall k :: 0 <= k < q ==> classes[k].queue == [] || classes[k].credit < 0.0
  }

  /** A started task is the front of its class. */
  lemma StartTold(c: Comp, a: A.State, now: Time)
    requires C.Sound(c, S.Avb(a), now) && Told(c.trace, a.classes) && c.running.Keys == {}
    requires S.Assigns(A.Decide(a, now, c.running).0)
    ensures var (d, a1) := A.Decide(a, now, c.running);
            && d.OnlyAssign? && d.assign in c.ready && c.ready[d.assign].id == d.assign
            && Told(c.trace + [Op(Assign, c.ready[d.assign], now)], a1.classes)
            && Serves(a1.classes, A.ClassFor(a1.classes, c.ready[d.assign].prio))
  {
    var charged := A.ChargeAll(a.classes, false, a.lastActive, A.Elapsed(a, now));
    var i := A.Pick(charged);
    var mid := a.(classes := charged);
    hide Told, InLine, InTurn, A.Charge;
    ChargedTold(c.trace, a.classes, charged);
    A.ChargedAgree(a, mid, c.ready);
    A.PopAgree(mid, i, c.ready);
    var (d, a1) := A.Decide(a, now, c.running);
    var t := c.ready[d.assign];
    AssignTold(c.trace, charged, i, t, now);
    A.ClassForFrame(charged, a1.classes, t.prio);
  }

  lemma DecisionTold(c: Comp, a: A.State, now: Time, notified: bool)
    requires C.Sound(c, S.Avb(a), now) && Told(c.trace, a.classes)
    ensures var s1 := AfterDecision(c, S.Avb(a), now, notified);
            s1.policy.Avb? && Told(s1.comp.trace, s1.policy.a.classes)
  {
    var (d, a1) := A.Decide(a, now, c.running);
    if S.Assigns(d) {
      StartTold(c, a, now);
      hide Told, C.Sound, A.Decide;
    } else {
      ChargedTold(c.trace, a.classes, a1.classes);
      hide Told, C.Sound;
    }
  }

  lemma StepTold(s: State, e: Event)
    requires C.Inv(s) && s.policy.Avb? && Possible(s, e) && Told(s.comp.trace, s.policy.a.classes)
    ensures var s1 := Step(s, e); s1.policy.Avb? && Told(s1.comp.trace, s1.policy.a.classes)
  {
    hide Told, PhaseOf;
    match e {
      case Arrive(now, t) => ReleaseTold(s.comp.trace, s.policy.a, t, now);
      case Wake(now, released) => WakeTold(s, now, released);
      case Latency(now, t) => QuietTold(s.comp.trace, Op(FinishLat, t, now), s.policy.a.classes);
    }
  }

  /** What the decision of a pass finds. */
  lemma BeforeTold(s: State, now: Time, released: seq<Task>)
    requires C.Inv(s) && s.policy.Avb? && Possible(s, Wake(now, released)) && Told(s.comp.trace, s.policy.a.classes)
    ensures var (c, p) := BeforeDecision(s, released, now);
            p.Avb? && C.Sound(c, p, now) && Told(c.trace, p.a.classes)
  {
    hide Told, PhaseOf;
    ChargeTold(s.comp, s.policy.a, now);
    var (c1, p1) := ChargeRunning(s.comp, s.policy, now);
    AddAllTold(c1, s.policy.a, released, now);
    C.BeforeDecisionSound(s, now, released);
  }

  lemma WakeTold(s: State, now: Time, released: seq<Task>)
    requires C.Inv(s) && s.policy.Avb? && Possible(s, Wake(now, released)) && Told(s.comp.trace, s.policy.a.classes)
    ensures var s1 := Pass(s, now, released); s1.policy.Avb? && Told(s1.comp.trace, s1.policy.a.classes)
  {
    hide Told, C.Inv, C.Sound, Possible;
    BeforeTold(s, now, released);
    var (c, p) := BeforeDecision(s, released, now);
    DecisionTold(c, p.a, now, released != []);
  }

  lemma {:induction false} RunTold(s: State, es: seq<Event>)
    requires C.Inv(s) && s.policy.Avb? && Legal(s, es) && Told(s.comp.trace, s.policy.a.classes)
    ensures var r := Run(s, es); C.Inv(r) && r.policy.Avb? && Told(r.comp.trace, r.policy.a.classes)
    decreases es
  {
    if es != [] {
      C.StepInv(s, es[0]);
      StepTold(s, es[0]);
      hide Told, C.Inv, Possible, Step;
      RunTold(Step(s, es[0]), es[1..]);
    }
  }

  lemma StartsTold(s: State)
    requires C.Start(s) && s.policy.Avb?
    ensures C.Inv(s) && Told(s.comp.trace, s.policy.a.classes)
  {
    C.StartInv(s);
    var a := s.policy.a;
    forall q | 0 <= q < |a.classes| ensures ToldClass([], a.classes, q) {
      L.NothingQueued(a, map[], q);
    }
  }

  // ---- results ------------------------------------------------------------------------------------------------

  /** Within a class: in every run the tasks of a class are started in the order of their arrival, none is
      interrupted, and those that have arrived and not started are its queue, in that order. */
  lemma {:induction false} ClassInOrder(s: State, es: seq<Event>, q: nat)
    requires C.Start(s) && s.policy.Avb? && Legal(s, es)
    ensures var r := Run(s, es);
            && r.policy.Avb? && NoResign(r.comp.trace)
            && (q < |r.policy.a.classes| ==>
                  var l := ClassLine(r.policy.a.classes, q);
                  Came(l, r.comp.trace) == Went(l, r.comp.trace) + r.policy.a.classes[q].queue)
  {
    StartsTold(s);
    RunTold(s, es);
    var r := Run(s, es);
    if q < |r.policy.a.classes| {
      assert ToldClass(r.comp.trace, r.policy.a.classes, q);
      InOrder(ClassLine(r.policy.a.classes, q), r.comp.trace);
    }
  }

  /** Between classes: a pass of any run that finds or makes the link free starts a task exactly when some class has
      credit and something to send, and then one of the first such class; who is sending goes on. */
  lemma {:induction false} FirstClassServes(s: State, es: seq<Event>, now: Time, released: seq<Task>)
    requires C.Start(s) && s.policy.Avb? && Legal(s, es) && Possible(Run(s, es), Wake(now, released))
    ensures var r := Run(s, es);
            var c := BeforeDecision(r, released, now).0;
            var s1 := Pass(r, now, released);
            && s1.policy.Avb?
            && (c.running.Keys != {} ==> s1.comp.running == c.running)
            && (c.running.Keys == {} ==>
                  if s1.comp.running.Keys == {} then NobodyBefore(s1.policy.a.classes, |s1.policy.a.classes|)
                  else Serves(s1.policy.a.classes,
                              A.ClassFor(s1.policy.a.classes, s1.comp.running[Begin(s1.comp.running)].prio)))
  {
    StartsTold(s);
    RunTold(s, es);
    var r := Run(s, es);
    hide Told, C.Inv, C.Sound, Possible, BeforeDecision;
    BeforeTold(r, now, released);
    var (c, p) := BeforeDecision(r, released, now);
    PassServes(c, p.a, now, released != []);
  }

  lemma PassServes(c: Comp, a: A.State, now: Time, notified: bool)
    requires C.Sound(c, S.Avb(a), now) && Told(c.trace, a.classes)
    ensures var s1 := AfterDecision(c, S.Avb(a), now, notified);
            && s1.policy.Avb?
            && (c.running.Keys != {} ==> s1.comp.running == c.running)
            && (c.running.Keys == {} ==>
                  if s1.comp.running.Keys == {} then NobodyBefore(s1.policy.a.classes, |s1.policy.a.classes|)
                  else Serves(s1.policy.a.classes,
                              A.ClassFor(s1.policy.a.classes, s1.comp.running[Begin(s1.comp.running)].prio)))
  {
    hide Told, C.Sound, A.Charge;
    var (d, a1) := A.Decide(a, now, c.running);
    var s1 := AfterDecision(c, S.Avb(a), now, notified);
    if c.running.Keys == {} {
      assert c.running == map[];
      if S.Assigns(d) {
        StartTold(c, a, now);
        hide A.Decide;
        assert s1.comp.running == map[d.assign := c.ready[d.assign]];
        assert d.assign in s1.comp.running.Keys && Begin(s1.comp.running) == d.assign;
      } else {
        NobodyServes(a, now, c.running);
      }
    }
  }

  lemma NobodyServes(a: A.State, now: Time, running: TaskMap)
    requires running.Keys == {} && !S.Assigns(A.Decide(a, now, running).0)
    ensures var a1 := A.Decide(a, now, running).1; NobodyBefore(a1.classes, |a1.classes|)
  {
    hide A.Charge;
    var charged := A.ChargeAll(a.classes, false, a.lastActive, A.Elapsed(a, now));
    assert forall k :: 0 <= k < A.Pick(charged) ==> !A.Eligible(charged[k]);
  }

  // ---- idle classes ---------------------------------------------------------------------------------------------

  predicate NoWake(es: seq<Event>) {
    forall i :: 0 <= i < |es| ==> !es[i].Wake?
  }

  lemma QuietStep(s: State, e: Event)
    requires L.Inv(s) && Possible(s, e) && !e.Wake?
    ensures L.Inv(Step(s, e)) && L.Grown(s.policy.a, Step(s, e).policy.a)
  {
    hide L.Inv, Possible, A.Added;
    L.StepInv(s, e);
    if e.Arrive? {
      L.AddedGrown(s.policy.a, e.task);
    }
  }

  /** Between passes tasks are queued and credits stay. */
  lemma {:induction false} QuietGrown(s: State, es: seq<Event>)
    requires L.Inv(s) && Legal(s, es) && NoWake(es)
    ensures var r := Run(s, es); L.Inv(r) && L.Grown(s.policy.a, r.policy.a)
    decreases es
  {
    hide C.Inv, L.NoIdleCredit, L.NotLate, L.SleepsExactly, L.FromActive, L.Untouched, Possible, Step;
    if es != [] {
      assert !es[0].Wake?;
      QuietStep(s, es[0]);
      QuietGrown(Step(s, es[0]), es[1..]);
      L.GrownTrans(s.policy.a, Step(s, es[0]).policy.a, Run(s, es).policy.a);
    }
  }

  /** Credit is not saved up: in every run, a class that has nothing to send and is not sending starts its next
      interval with no positive credit, whatever arrives before the next pass. */
  lemma {:induction false} IdleEarnsNothing(s: State, es: seq<Event>, more: seq<Event>, now: Time, released: seq<Task>,
                                           q: nat)
    requires L.Start(s) && Legal(s, es) && Run(s, es).policy.Avb? && q < |Run(s, es).policy.a.classes|
    requires Run(s, es).policy.a.classes[q].queue == [] && !L.Sends(Run(s, es), q)
    requires NoWake(more) && Legal(Run(s, es), more) && Possible(Run(Run(s, es), more), Wake(now, released))
    ensures var s1 := Pass(Run(Run(s, es), more), now, released);
            s1.policy.Avb? && q < |s1.policy.a.classes| && s1.policy.a.classes[q].credit <= 0.0
  {
    L.StartInv(s);
    L.RunInv(s, es);
    var r := Run(s, es);
    L.SendsActive(r, q);
    IdleBefore(r, q);
    QuietGrown(r, more);
    var m := Run(r, more);
    L.BeforeReady(m, now, released);
    var (c, p) := BeforeDecision(m, released, now);
    L.GrownTrans(r.policy.a, m.policy.a, p.a);
    hide L.Inv, Possible, L.Sends, BeforeDecision;
    L.AvbAfter(c, p.a, now, released != []);
    IdleCharged(r.policy.a, p.a, now, c.running, q);
  }

  lemma IdleBefore(r: State, q: nat)
    requires L.Inv(r) && q < |r.policy.a.classes|
    requires r.policy.a.classes[q].queue == [] && r.policy.a.classes[q].level != r.policy.a.lastActive
    ensures r.policy.a.classes[q].credit <= 0.0
  {
  }

  lemma IdleCharged(a: A.State, b: A.State, now: Time, running: TaskMap, q: nat)
    requires L.Grown(a, b) && q < |a.classes|
    requires a.classes[q].queue == [] && a.classes[q].level != a.lastActive && a.classes[q].credit <= 0.0
    ensures var b1 := A.Decide(b, now, running).1; q < |b1.classes| && b1.classes[q].credit <= 0.0
  {
    hide A.Decide;
    assert L.GrownClass(a.classes[q], b.classes[q]);
    L.DecideCharges(b, now, running, q);
  }
}
