/** Whole runs under static priority: urgency, arrival order within a level, and preemptions. */
module PriorityRuns {
  import opened Basics
  import opened Lifecycle
  import opened Component
  import opened History
  import opened PriorityOrder
  import P = PriorityScheduling
  import C = Conservation
  import S = Scheduling

  ghost predicate OrderedComp(c: Comp, p: P.State) {
    Ordered(c.ready, c.running, p, PastOf(c.trace))
  }

  ghost predicate Inv(s: State) {
    && C.Inv(s) && s.policy.Priority?
    && OrderedComp(s.comp, s.policy.p) && Resigns(s.comp.trace) <= |Starts(s.comp.trace)|
    && (!s.notified ==> MostUrgentRuns(s.comp.ready, s.comp.running))
  }

  // ---- one pass ------------------------------------------------------------------------------------------

  lemma AddComp(c: Comp, p: P.State, t: Task, now: Time)
    requires C.Story(c) && OrderedComp(c, p) && NewTask(c, t)
    ensures OrderedComp(ReleaseTask(c, t, now), P.Added(p, t))
    ensures Starts(ReleaseTask(c, t, now).trace) == Starts(c.trace)
    ensures Resigns(ReleaseTask(c, t, now).trace) == Resigns(c.trace)
  {
    hide Ordered;
    Snoc(c.trace, Op(Release, t, now));
    UnbornAbsent(c.trace, t.id);
    assert C.Tells(c, t.id);
    ArrivalOrdered(c.ready, c.running, p, PastOf(c.trace), t);
    assert PastOf(ReleaseTask(c, t, now).trace) == PastOf(c.trace).(arr := Arrivals(c.trace) + [t]);
  }

  lemma {:induction false} AddAllComp(c: Comp, p: P.State, ts: seq<Task>, now: Time)
    requires C.Sound(c, S.Priority(p), now) && OrderedComp(c, p) && NewTasks(c, ts)
    ensures var (c1, p1) := AddAll(c, S.Priority(p), ts, now);
            && p1.Priority? && OrderedComp(c1, p1.p)
            && Starts(c1.trace) == Starts(c.trace) && Resigns(c1.trace) == Resigns(c.trace)
    decreases ts
  {
    hide OrderedComp, Starts, Resigns, NewTask, NewTasks, ReleaseTask, P.Added;
    if ts != [] {
      NewTasksRest(c, ts, now);
      C.AddSound(c, S.Priority(p), ts[0], now);
      AddComp(c, p, ts[0], now) by {
        assert C.Story(c);
      }
      hide C.Sound;
      AddAllComp(ReleaseTask(c, ts[0], now), P.Added(p, ts[0]), ts[1..], now);
    }
  }

  lemma FinishComp(c: Comp, p: P.State, t: Task, now: Time)
    requires OrderedComp(c, p) && c.running.Keys == {t.id} && t.id !in c.ready
    ensures var c1 := FinishDiiTask(c, t, now);
            && OrderedComp(c1, p)
            && Starts(c1.trace) == Starts(c.trace) && Resigns(c1.trace) == Resigns(c.trace)
  {
    hide Ordered;
    var c1 := Log(c.(running := c.running - {t.id}, holder := None), FinishDii, t, now);
    Snoc(c.trace, Op(FinishDii, t, now));
    Snoc(c1.trace, Op(FinishLat, t, now));
    hide Starts, Resigns, Arrivals, Finished;
    FinishOrdered(c.ready, c.running, p, PastOf(c.trace), t.id);
    assert PastOf(FinishDiiTask(c, t, now).trace) == PastOf(c.trace).(fin := Finished(c.trace) + {t.id});
  }

  lemma ChargeComp(c: Comp, p: P.State, clock: Time, now: Time)
    requires C.Sound(c, S.Priority(p), clock) && OrderedComp(c, p)
    ensures var (c1, p1) := ChargeRunning(c, S.Priority(p), now);
            && p1 == S.Priority(p) && OrderedComp(c1, p)
            && Starts(c1.trace) == Starts(c.trace) && Resigns(c1.trace) == Resigns(c.trace)
  {
    hide Ordered;
    if c.running.Keys != {} {
      C.Holder(c, S.Priority(p), clock);
      var id := Begin(c.running);
      var t := RanTask(c.running[id], c.assignedAt, now);
      ChargeOrdered(c.ready, c.running, p, PastOf(c.trace), t);
      var mid := c.(running := c.running[id := t], assignedAt := now);
      if t.remaining == 0.0 {
        FinishComp(mid, p, t, now);
      }
    }
  }

  lemma AssignComp(c: Comp, p: P.State, now: Time)
    requires OrderedComp(c, p) && P.Agree(p, c.ready) && Keyed(c.ready) && c.running == map[] && |p.queue| > 0
    ensures var i := P.Top(p.queue);
            var a := p.queue[i].id;
            var c1 := AssignTask(c, c.ready[a], now);
            && OrderedComp(c1, p.(queue := DropAt(p.queue, i)))
            && Resigns(c1.trace) == Resigns(c.trace)
            && |Starts(c1.trace)| == |Starts(c.trace)| + (if a in Starts(c.trace) then 0 else 1)
            && MostUrgentRuns(c1.ready, c1.running)
  {
    var i := P.Top(p.queue);
    var a := p.queue[i].id;
    var c1 := AssignTask(c, c.ready[a], now);
    var h := PastOf(c.trace);
    TopMostUrgent(c.ready, p);
    assert a in c.ready && c.ready[a].id == a;
    AssignPast(c, c.ready[a], now);
    hide Ordered, Starts, Resigns, PastOf, P.Top, DropAt;
    AssignOrdered(c.ready, p, h);
    hide P.Agree;
    assert c1.running == map[a := c.ready[a]];
  }

  lemma AssignPast(c: Comp, t: Task, now: Time)
    ensures var c1, h := AssignTask(c, t, now), PastOf(c.trace);
            && PastOf(c1.trace) == h.(starts := if t.id in h.starts then h.starts else h.starts + [t.id])
            && h.starts == Starts(c.trace) && Resigns(c1.trace) == Resigns(c.trace)
            && Starts(c1.trace) == (if t.id in h.starts then h.starts else h.starts + [t.id])
  {
    Snoc(c.trace, Op(Assign, t, now));
    hide Starts, Resigns, Arrivals, Finished;
  }

  lemma TopMostUrgent(ready: TaskMap, p: P.State)
    requires P.Agree(p, ready) && |p.queue| > 0
    ensures forall z :: z in ready ==> p.queue[P.Top(p.queue)].prio <= ready[z].prio
  {
    forall z | z in ready ensures p.queue[P.Top(p.queue)].prio <= ready[z].prio {
      assert !P.Below(p.queue[P.Top(p.queue)], p.queue[EntryOf(p, ready, z)]);
    }
  }

  /** A less urgent entry at the end does not change the top. */
  lemma TopPush(q: seq<P.Entry>, e: P.Entry)
    requires |q| > 0 && q[P.Top(q)].prio < e.prio
    ensures P.Top(q + [e]) == P.Top(q) && DropAt(q + [e], P.Top(q)) == DropAt(q, P.Top(q)) + [e]
  {
    var i, r := P.Top(q), q + [e];
    assert r[..|q|] == q && r[|q|] == e && r[i] == q[i];
    assert |r| > 1 && P.Top(r) == if P.Below(r[P.Top(r[..|q|])], e) then |q| else P.Top(r[..|q|]);
    DropPush(q, e, i);
  }

  lemma DropPush<X>(q: seq<X>, e: X, i: nat)
    requires i < |q|
    ensures DropAt(q + [e], i) == DropAt(q, i) + [e]
  {
  }

  /** An instance that preempts has never been started: the running one is ahead of all that have. */
  lemma PreemptNew(ready: TaskMap, running: TaskMap, p: P.State, h: Past, r: Task)
    requires Ordered(ready, running, p, h) && P.Agree(p, ready) && |p.queue| > 0 && running == map[r.id := r]
    requires p.queue[P.Top(p.queue)].prio < r.prio
    ensures var a := p.queue[P.Top(p.queue)].id; a in ready && a !in h.starts
  {
    assert r.id in running;
  }

  lemma PreemptComp(c: Comp, p: P.State, r: Task, now: Time)
    requires OrderedComp(c, p) && P.Agree(p, c.ready) && Keyed(c.ready) && |p.queue| > 0
    requires c.running == map[r.id := r] && r.id !in c.ready && 0.0 < r.remaining <= r.delay <= r.latency
    requires p.queue[P.Top(p.queue)].prio < r.prio
    ensures var i := P.Top(p.queue);
            var a := p.queue[i].id;
            var c1 := ResignTask(c, r, now);
            a in c1.ready &&
            var c2 := AssignTask(c1, c1.ready[a], now);
            && OrderedComp(c2, p.(queue := DropAt(p.queue, i) + [P.Entry(0, r.prio, r.id)]))
            && Resigns(c2.trace) == Resigns(c.trace) + 1 && |Starts(c2.trace)| == |Starts(c.trace)| + 1
            && MostUrgentRuns(c2.ready, c2.running)
  {
    var i, p1 := P.Top(p.queue), p.(queue := p.queue + [P.Entry(0, r.prio, r.id)]);
    ResignComp(c, p, r, now);
    RequeuedTop(c.ready, p, r);
    PreemptNew(c.ready, c.running, p, PastOf(c.trace), r);
    AssignComp(ResignTask(c, r, now), p1, now);
    hide OrderedComp, MostUrgentRuns, P.Agree, Starts, Resigns;
    assert p1.(queue := DropAt(p1.queue, i)) == p.(queue := DropAt(p.queue, i) + [P.Entry(0, r.prio, r.id)]);
  }

  /** The first half: the preempted instance is queued again, and the same entry stays on top. */
  lemma ResignComp(c: Comp, p: P.State, r: Task, now: Time)
    requires OrderedComp(c, p) && c.running == map[r.id := r] && r.id !in c.ready
    ensures var c1 := ResignTask(c, r, now);
            && OrderedComp(c1, p.(queue := p.queue + [P.Entry(0, r.prio, r.id)])) && c1.running == map[]
            && Starts(c1.trace) == Starts(c.trace) && Resigns(c1.trace) == Resigns(c.trace) + 1
  {
    hide Ordered, Starts, Resigns, Arrivals, Finished;
    var c1 := ResignTask(c, r, now);
    Snoc(c.trace, Op(Resign, r, now));
    ResignOrdered(c.ready, c.running, p, PastOf(c.trace), r);
    assert r.id in c.running;
    assert c1.running == map[] && PastOf(c1.trace) == PastOf(c.trace);
  }

  lemma RequeuedTop(ready: TaskMap, p: P.State, r: Task)
    requires P.Agree(p, ready) && Keyed(ready) && |p.queue| > 0 && p.queue[P.Top(p.queue)].prio < r.prio
    requires r.id !in ready && 0.0 < r.remaining <= r.delay <= r.latency
    ensures var i, q1 := P.Top(p.queue), p.queue + [P.Entry(0, r.prio, r.id)];
            && P.Agree(p.(queue := q1), ready[r.id := r]) && Keyed(ready[r.id := r])
            && P.Top(q1) == i && DropAt(q1, i) == DropAt(p.queue, i) + [P.Entry(0, r.prio, r.id)]
  {
    hide P.Agree, P.Top, DropAt;
    P.PushAgree(p, P.Entry(0, r.prio, r.id), ready, r);
    TopPush(p.queue, P.Entry(0, r.prio, r.id));
  }

  /** What the decision makes of the component. */
  lemma MovedComp(c: Comp, p: P.State, now: Time)
    requires C.Sound(c, S.Priority(p), now) && OrderedComp(c, p) && Resigns(c.trace) <= |Starts(c.trace)|
    ensures var (d, p1) := P.Decide(p, c.ready, c.running);
            var c1 := Moved(c, d, now);
            && OrderedComp(c1, p1) && Resigns(c1.trace) <= |Starts(c1.trace)|
            && MostUrgentRuns(c1.ready, c1.running)
  {
    hide Ordered;
    if |p.queue| == 0 {
      assert forall z :: z in c.ready ==> z in P.Ids(p.queue);
      assert c.ready.Keys == {};
    } else if c.running.Keys == {} {
      assert c.running == map[];
      AssignComp(c, p, now);
    } else {
      C.Holder(c, S.Priority(p), now);
      var id := Begin(c.running);
      var r := c.running[id];
      assert c.running == map[id := r];
      if r.prio <= p.queue[P.Top(p.queue)].prio {
        TopMostUrgent(c.ready, p);
      } else {
        PreemptComp(c, p, r, now);
      }
    }
  }

  /** From the decision to the wait. */
  lemma DecisionComp(c: Comp, p: P.State, now: Time, notified: bool)
    requires C.Sound(c, S.Priority(p), now) && OrderedComp(c, p) && Resigns(c.trace) <= |Starts(c.trace)|
    ensures var s1 := AfterDecision(c, S.Priority(p), now, notified);
            && s1.policy.Priority? && OrderedComp(s1.comp, s1.policy.p)
            && Resigns(s1.comp.trace) <= |Starts(s1.comp.trace)|
            && MostUrgentRuns(s1.comp.ready, s1.comp.running)
  {
    hide Ordered;
    MovedComp(c, p, now);
  }

  // ---- runs ----------------------------------------------------------------------------------------------

  lemma WakeComp(s: State, now: Time, released: seq<Task>)
    requires Inv(s) && Possible(s, Wake(now, released))
    ensures var s1 := Pass(s, now, released);
            && s1.policy.Priority? && OrderedComp(s1.comp, s1.policy.p)
            && Resigns(s1.comp.trace) <= |Starts(s1.comp.trace)|
            && MostUrgentRuns(s1.comp.ready, s1.comp.running)
  {
    hide Ordered, MostUrgentRuns;
    var p := s.policy.p;
    C.ChargeSound(s.comp, s.policy, s.clock, now);
    ChargeComp(s.comp, p, s.clock, now);
    var (c1, p1) := ChargeRunning(s.comp, s.policy, now);
    C.AddAllSound(c1, p1, released, now);
    AddAllComp(c1, p, released, now);
    var (c2, p2) := AddAll(c1, p1, released, now);
    DecisionComp(c2, p2.p, now, released != []);
  }

  lemma StepInv(s: State, e: Event)
    requires Inv(s) && Possible(s, e)
    ensures Inv(Step(s, e))
  {
    hide Ordered, MostUrgentRuns, C.Inv, Pass;
    C.StepInv(s, e);
    match e {
      case Arrive(now, t) => ArriveComp(s, now, t);
      case Wake(now, released) => WakeComp(s, now, released);
      case Latency(now, t) =>
        Snoc(s.comp.trace, Op(FinishLat, t, now));
        assert PastOf(Step(s, e).comp.trace) == PastOf(s.comp.trace);
    }
  }

  lemma ArriveComp(s: State, now: Time, t: Task)
    requires Inv(s) && Possible(s, Arrive(now, t))
    ensures var c1 := ReleaseTask(s.comp, t, now);
            && OrderedComp(c1, P.Added(s.policy.p, t))
            && Resigns(c1.trace) <= |Starts(c1.trace)|
  {
    hide Ordered;
    AddComp(s.comp, s.policy.p, t, now);
  }

  lemma {:induction false} RunInv(s: State, es: seq<Event>)
    requires Inv(s) && Legal(s, es)
    ensures Inv(Run(s, es))
    decreases es
  {
    if es != [] {
      StepInv(s, es[0]);
      RunInv(Step(s, es[0]), es[1..]);
    }
  }

  lemma StartInv(s: State)
    requires C.Start(s) && s.policy == S.Priority(P.State(0, []))
    ensures Inv(s)
  {
    C.StartInv(s);
  }

  /** Urgency: whenever time can pass, the resource is busy if anything is ready, and with an
      instance no ready one is more urgent than. */
  lemma {:induction false} Urgency(s: State, es: seq<Event>)
    requires C.Start(s) && s.policy == S.Priority(P.State(0, [])) && Legal(s, es)
    ensures var r := Run(s, es);
            !r.notified ==>
              && (r.comp.ready.Keys != {} ==> r.comp.running.Keys != {})
              && forall x, z :: x in r.comp.running && z in r.comp.ready ==>
                r.comp.running[x].prio <= r.comp.ready[z].prio
  {
    StartInv(s);
    RunInv(s, es);
  }

  /** First come, first served inside a level: although preempted instances are queued again with
      order number 0, an instance is never started before every earlier arrival of its priority has
      finished.  Hence a level has at most one started, unfinished instance. */
  lemma {:induction false} FirstComeFirstServed(s: State, es: seq<Event>, i: nat, j: nat)
    requires C.Start(s) && s.policy == S.Priority(P.State(0, [])) && Legal(s, es)
    requires var arr := Arrivals(Run(s, es).comp.trace);
             i < j < |arr| && arr[i].prio == arr[j].prio
    ensures var trace := Run(s, es).comp.trace;
            Arrivals(trace)[j].id in Starts(trace) ==> Arrivals(trace)[i].id in Finished(trace)
  {
    StartInv(s);
    RunInv(s, es);
  }

  /** Preemption nests: of two started instances still alive, the one started later is strictly more
      urgent, and the running one is strictly more urgent than all that were preempted. */
  lemma {:induction false} PreemptionStack(s: State, es: seq<Event>)
    requires C.Start(s) && s.policy == S.Priority(P.State(0, [])) && Legal(s, es)
    ensures var c := Run(s, es).comp;
            && Stacked(c.ready + c.running, Starts(c.trace))
            && RunningAhead(c.ready, c.running, Starts(c.trace))
  {
    StartInv(s);
    RunInv(s, es);
  }

  /** No thrashing: every preemption starts an instance for the first time, so there are never more
      preemptions than arrivals. */
  lemma {:induction false} PreemptionsBounded(s: State, es: seq<Event>)
    requires C.Start(s) && s.policy == S.Priority(P.State(0, [])) && Legal(s, es)
    ensures var trace := Run(s, es).comp.trace;
            Resigns(trace) <= |Starts(trace)| <= |Arrivals(trace)|
  {
    StartInv(s);
    RunInv(s, es);
    var h := PastOf(Run(s, es).comp.trace);
    var ids := seq(|h.arr|, i requires 0 <= i < |h.arr| => h.arr[i].id);
    forall k | 0 <= k < |h.starts| ensures h.starts[k] in ids {
      var x := h.starts[k];
      assert x in h.starts && Arrived(x, h.arr);
      var i :| 0 <= i < |h.arr| && h.arr[i].id == x;
      assert ids[i] == x;
    }
    Pigeonhole(h.starts, ids);
  }
}
