/** What every run of the component keeps, whatever scheduler is plugged in. */
module Conservation {
  import opened Basics
  import opened Lifecycle
  import opened Component
  import opened History
  import S = Scheduling
  import A = AvbScheduling

  /** The trace of an instance and the place where the component keeps it tell the same story. */
  ghost predicate Tells(c: Comp, id: int) {
    match PhaseOf(c.trace, id)
    case Unborn => id !in c.ready && id !in c.running && forall x :: x in c.latencies ==> x.task.id != id
    case Waiting(t, ran) =>
      && id in c.ready && id !in c.running && (forall x :: x in c.latencies ==> x.task.id != id)
      && c.ready[id] == t.(remaining := t.delay - ran)
    case Executing(t, ran, since) =>
      && id !in c.ready && id in c.running && (forall x :: x in c.latencies ==> x.task.id != id)
      && since <= c.assignedAt
      && c.running[id] == t.(remaining := t.delay - ran - (c.assignedAt - since))
    case DiiOver(t, ran, dii) =>
      && id !in c.ready && id !in c.running && ran == t.delay
      && (exists x :: x in c.latencies && x.task.id == id && x.time == dii + (t.latency - t.delay))
      && (forall x, y :: x in c.latencies && y in c.latencies && x.task.id == id && y.task.id == id ==> x == y)
    case LatencyOver(t, ran, dii, lat) =>
      && id !in c.ready && id !in c.running && (forall x :: x in c.latencies ==> x.task.id != id)
      && ran == t.delay && lat == dii + (t.latency - t.delay)
    case Broken => false
  }

  ghost predicate Story(c: Comp) {
    forall id :: Tells(c, id)
  }

  /** The invariant of the component between operations at time `now`. */
  ghost predicate Sound(c: Comp, policy: S.Policy, now: Time) {
    && S.Tidy(c.ready, c.running)
    && c.running.Keys == (if c.holder.Some? then {c.holder.value} else {})
    && S.Configured(policy) && S.Agree(policy, c.ready, c.running)
    && Story(c)
    && (forall x :: x in c.latencies ==> now <= x.time)
  }

  /** The running instance has been charged up to `now`. */
  predicate UpToDate(c: Comp, now: Time) {
    c.holder.Some? ==> c.assignedAt == now
  }

  /** The invariant of the states of a run: the running instance never outlives the time-out. */
  ghost predicate Inv(s: State) {
    && Sound(s.comp, s.policy, s.clock)
    && (s.deadline.Some? ==> s.clock <= s.deadline.value)
    && (s.comp.holder.Some? ==>
          && s.comp.assignedAt <= s.clock
          && s.deadline.Some?
          && s.deadline.value <= s.comp.assignedAt + s.comp.running[s.comp.holder.value].remaining)
  }

  lemma StoryDistinct(c: Comp)
    requires Story(c)
    ensures NoDup(TaskIds(Arrivals(c.trace)))
  {
    forall id ensures PhaseOf(c.trace, id) != Broken {
      assert Tells(c, id);
    }
    ArrivalsDistinct(c.trace);
  }

  // ---- one operation at a time ----------------------------------------------------------------------

  lemma ReleaseStory(c: Comp, t: Task, now: Time)
    requires Story(c) && Fresh(t) && PhaseOf(c.trace, t.id) == Unborn
    ensures Story(ReleaseTask(c, t, now))
    ensures forall id :: id != t.id ==> PhaseOf(ReleaseTask(c, t, now).trace, id) == PhaseOf(c.trace, id)
  {
    var c1 := ReleaseTask(c, t, now);
    forall id ensures Tells(c1, id) && (id != t.id ==> PhaseOf(c1.trace, id) == PhaseOf(c.trace, id)) {
      assert Tells(c, id);
      PhaseSnoc(c.trace, Op(Release, t, now), id);
    }
  }

  lemma ResignStory(c: Comp, t: Task, now: Time)
    requires Story(c) && t.id in c.running && c.running[t.id] == t && c.assignedAt == now
    ensures Story(ResignTask(c, t, now))
  {
    var c1 := ResignTask(c, t, now);
    forall id ensures Tells(c1, id) {
      assert Tells(c, id);
      PhaseSnoc(c.trace, Op(Resign, t, now), id);
    }
  }

  lemma AssignStory(c: Comp, t: Task, now: Time)
    requires Story(c) && t.id in c.ready && c.ready[t.id] == t && c.running.Keys == {}
    ensures Story(AssignTask(c, t, now))
  {
    var c1 := AssignTask(c, t, now);
    forall id ensures Tells(c1, id) {
      assert Tells(c, id);
      PhaseSnoc(c.trace, Op(Assign, t, now), id);
    }
  }

  lemma ChargeStory(c: Comp, id: int, now: Time)
    requires Story(c) && c.running.Keys == {id} && c.assignedAt <= now
    ensures Story(c.(running := c.running[id := RanTask(c.running[id], c.assignedAt, now)], assignedAt := now))
  {
    var c1 := c.(running := c.running[id := RanTask(c.running[id], c.assignedAt, now)], assignedAt := now);
    forall k ensures Tells(c1, k) {
      assert Tells(c, k);
    }
  }

  /** An instance is finished when its charged time has reached its delay. */
  lemma FinishStory(c: Comp, t: Task, now: Time)
    requires Story(c) && c.running.Keys == {t.id} && c.running[t.id] == t
    requires t.remaining == 0.0 && c.assignedAt == now
    ensures Story(FinishDiiTask(c, t, now))
    ensures forall id :: id != t.id ==> PhaseOf(FinishDiiTask(c, t, now).trace, id) == PhaseOf(c.trace, id)
  {
    var c1 := Log(c.(running := c.running - {t.id}, holder := None), FinishDii, t, now);
    var c2 := FinishDiiTask(c, t, now);
    forall id ensures Tells(c2, id) && (id != t.id ==> PhaseOf(c2.trace, id) == PhaseOf(c.trace, id)) {
      assert Tells(c, id);
      PhaseSnoc(c.trace, Op(FinishDii, t, now), id);
      if t.latency == t.delay {
        PhaseSnoc(c1.trace, Op(FinishLat, t, now), id);
      } else if id == t.id {
        assert Expiry(now + (t.latency - t.delay), t) in c2.latencies;
      } else if exists x :: x in c.latencies && x.task.id == id {
        var x :| x in c.latencies && x.task.id == id;
        assert x in c2.latencies;
        assert PhaseOf(c.trace, id).DiiOver? ==>
            exists y :: y in c2.latencies && y.task.id == id && y.time == x.time;
      }
    }
  }

  lemma LatencyStory(c: Comp, t: Task, now: Time)
    requires Story(c) && Expiry(now, t) in c.latencies
    ensures Story(FinishLatencyTask(c, t, now))
  {
    var c1 := FinishLatencyTask(c, t, now);
    assert Tells(c, t.id);
    forall id ensures Tells(c1, id) {
      assert Tells(c, id);
      PhaseSnoc(c.trace, Op(FinishLat, t, now), id);
      if id != t.id && PhaseOf(c.trace, id).DiiOver? {
        var p := PhaseOf(c.trace, id);
        var x :| x in c.latencies && x.task.id == id && x.time == p.dii + (p.t.latency - p.t.delay);
        assert x in c1.latencies;
      }
    }
  }

  // ---- one pass of the scheduler thread ---------------------------------------------------------------

  lemma Holder(c: Comp, policy: S.Policy, now: Time)
    requires Sound(c, policy, now) && c.running.Keys != {}
    ensures c.holder == Some(Begin(c.running)) && c.running.Keys == {Begin(c.running)}
  {
    assert c.holder.Some?;
    var k := c.holder.value;
    assert k in c.running;
  }

  /** The first loop: no overshoot, and the exhausted instance leaves everywhere at once. */
  lemma ChargeSound(c: Comp, policy: S.Policy, clock: Time, now: Time)
    requires Sound(c, policy, clock) && clock <= now
    requires forall x :: x in c.latencies ==> now <= x.time
    requires c.holder.Some? ==> c.assignedAt <= clock && now <= c.assignedAt + c.running[c.holder.value].remaining
    ensures var (c1, p1) := ChargeRunning(c, policy, now);
            && Sound(c1, p1, now) && UpToDate(c1, now)
            && (forall id :: PhaseOf(c.trace, id) == Unborn ==> PhaseOf(c1.trace, id) == Unborn)
  {
    hide S.Agree, S.Configured, S.Removed, PhaseOf;
    if c.running.Keys != {} {
      Holder(c, policy, clock);
      var id := Begin(c.running);
      var t := RanTask(c.running[id], c.assignedAt, now);
      var mid := c.(running := c.running[id := t], assignedAt := now);
      ChargeStory(c, id, now);
      S.ChargedAgree(policy, t, c.ready, c.running);
      assert mid.running.Keys == {id};
      if t.remaining == 0.0 {
        FinishStory(mid, t, now);
        S.RemovedAgree(policy, t, c.ready, c.running);
        assert c.running - {id} == map[];
        assert Tells(c, id);
      }
    }
  }

  lemma AddSound(c: Comp, policy: S.Policy, t: Task, now: Time)
    requires Sound(c, policy, now) && NewTask(c, t)
    ensures var (c1, p1) := AddTask(c, policy, t, now);
            && Sound(c1, p1, now) && c1.running == c.running && c1.holder == c.holder && c1.assignedAt == c.assignedAt
            && (forall id :: id != t.id && PhaseOf(c.trace, id) == Unborn ==> PhaseOf(c1.trace, id) == Unborn)
  {
    hide S.Agree, S.Configured, S.Added, PhaseOf;
    assert Tells(c, t.id);
    ReleaseStory(c, t, now);
    S.AddedAgree(policy, t, c.ready, c.running);
  }

  lemma {:induction false} AddAllSound(c: Comp, policy: S.Policy, ts: seq<Task>, now: Time)
    requires Sound(c, policy, now) && NewTasks(c, ts)
    ensures var (c1, p1) := AddAll(c, policy, ts, now);
            Sound(c1, p1, now) && c1.running == c.running && c1.holder == c.holder && c1.assignedAt == c.assignedAt
    decreases ts
  {
    if ts != [] {
      NewTasksRest(c, ts, now);
      AddSound(c, policy, ts[0], now);
      var (c1, p1) := AddTask(c, policy, ts[0], now);
      AddAllSound(c1, p1, ts[1..], now);
    }
  }

  /** The state in which the pass asks the scheduler for a decision. */
  lemma BeforeDecisionSound(s: State, now: Time, released: seq<Task>)
    requires Inv(s) && OnTime(s, now) && NewTasks(s.comp, released)
    ensures var (c, p) := BeforeDecision(s, released, now);
            Sound(c, p, now) && UpToDate(c, now)
  {
    ChargeSound(s.comp, s.policy, s.clock, now);
    var (c1, p1) := ChargeRunning(s.comp, s.policy, now);
    AddAllSound(c1, p1, released, now);
  }

  lemma ResignSound(c: Comp, d: Decision, now: Time)
    requires S.Tidy(c.ready, c.running) && Story(c) && UpToDate(c, now)
    requires c.running.Keys == (if c.holder.Some? then {c.holder.value} else {})
    requires S.Executable(d, c.ready, c.running)
    ensures var c1 := ResignPart(c, d, now);
            && (c1.ready, c1.running) == S.AfterResign(d, c.ready, c.running)
            && Story(c1) && c1.latencies == c.latencies && UpToDate(c1, now)
            && c1.running.Keys == (if c1.holder.Some? then {c1.holder.value} else {})
  {
    if S.Resigns(d) {
      var t := c.running[d.resign];
      ResignStory(c, t, now);
      S.MoveBack(c.ready, c.running, d.resign);
    }
  }

  lemma AssignSound(c: Comp, d: Decision, now: Time)
    requires Keyed(c.ready) && Story(c) && UpToDate(c, now)
    requires c.running.Keys == (if c.holder.Some? then {c.holder.value} else {})
    requires S.Assigns(d) ==> d.assign in c.ready && c.running.Keys == {}
    ensures var c1 := AssignPart(c, d, now);
            && (c1.ready, c1.running) == S.AfterAssign(d, c.ready, c.running)
            && Story(c1) && c1.latencies == c.latencies && UpToDate(c1, now)
            && c1.running.Keys == (if c1.holder.Some? then {c1.holder.value} else {})
  {
    if S.Assigns(d) {
      AssignStory(c, c.ready[d.assign], now);
    }
  }

  /** The component after both parts of a decision. */
  lemma MovedSound(c: Comp, policy: S.Policy, now: Time)
    requires Sound(c, policy, now) && UpToDate(c, now)
    ensures var (d, p1) := S.Decide(policy, now, c.ready, c.running);
            var c2 := Moved(c, d, now);
            && S.Executable(d, c.ready, c.running)
            && Sound(c2, p1, now) && UpToDate(c2, now)
            && (c2.ready, c2.running) == S.After(d, c.ready, c.running)
  {
    S.DecideAgree(policy, now, c.ready, c.running);
    var d := S.Decide(policy, now, c.ready, c.running).0;
    ResignSound(c, d, now);
    if S.Resigns(d) {
      S.MoveBack(c.ready, c.running, d.resign);
    }
    AssignSound(ResignPart(c, d, now), d, now);
  }

  /** The wait never outlasts the running instance. */
  lemma WaitBounded(slice: Option<Time>, c: Comp)
    requires c.running.Keys == (if c.holder.Some? then {c.holder.value} else {})
    requires Keyed(c.running) && (slice.Some? ==> 0.0 <= slice.value)
    ensures var w := WaitTime(slice, c.running);
            && (w.Some? ==> 0.0 <= w.value)
            && (slice.Some? ==> w.Some? && w.value <= slice.value)
            && (c.holder.Some? ==> w.Some? && w.value <= c.running[c.holder.value].remaining)
  {
    if c.holder.Some? {
      assert c.holder.value in c.running.Keys;
      assert Begin(c.running) in c.running.Keys;
    }
  }

  /** The decision and what follows it, up to the wait. */
  lemma AfterDecisionSound(c: Comp, policy: S.Policy, now: Time, notified: bool)
    requires Sound(c, policy, now) && UpToDate(c, now)
    ensures Inv(AfterDecision(c, policy, now, notified))
    ensures UpToDate(AfterDecision(c, policy, now, notified).comp, now)
    ensures S.Executable(S.Decide(policy, now, c.ready, c.running).0, c.ready, c.running)
    ensures var d := S.Decide(policy, now, c.ready, c.running).0;
            var s1 := AfterDecision(c, policy, now, notified).comp;
            (s1.ready, s1.running) == S.After(d, c.ready, c.running)
  {
    hide S.Agree, PhaseOf, S.Decide, S.TimeSlice;
    MovedSound(c, policy, now);
    var (d, p1) := S.Decide(policy, now, c.ready, c.running);
    var c1 := ResignPart(c, d, now);
    SliceNotPast(p1, now, c1.ready, c1.running);
    WaitBounded(S.TimeSlice(p1, now, c1.ready, c1.running), Moved(c, d, now));
  }

  /** The slice the policy names, asked for between the two parts of the decision. */
  function SliceOf(c: Comp, policy: S.Policy, now: Time): Option<Time> {
    var (d, p1) := S.Decide(policy, now, c.ready, c.running);
    var c1 := ResignPart(c, d, now);
    S.TimeSlice(p1, now, c1.ready, c1.running)
  }

  /** The thread wakes no later than the end of that slice. */
  lemma SliceHonoured(c: Comp, policy: S.Policy, now: Time, notified: bool)
    requires Sound(c, policy, now) && UpToDate(c, now)
    ensures var s1 := AfterDecision(c, policy, now, notified);
            SliceOf(c, policy, now).Some? ==>
              s1.deadline.Some? && s1.deadline.value <= now + SliceOf(c, policy, now).value
  {
    hide S.Agree, PhaseOf, S.Decide, S.TimeSlice;
    MovedSound(c, policy, now);
    var (d, p1) := S.Decide(policy, now, c.ready, c.running);
    var c1 := ResignPart(c, d, now);
    SliceNotPast(p1, now, c1.ready, c1.running);
    WaitBounded(S.TimeSlice(p1, now, c1.ready, c1.running), Moved(c, d, now));
  }

  /** No policy asks for a time-out in the past. */
  lemma SliceNotPast(policy: S.Policy, now: Time, ready: TaskMap, running: TaskMap)
    requires S.Configured(policy)
    ensures var slice := S.TimeSlice(policy, now, ready, running);
            slice.Some? ==> 0.0 <= slice.value
  {
    match policy {
      case Tdma(t) => S.T.LookupIsScan(t, now);
      case Avb(a) =>
        if A.SliceAssert(a) {
          NeededNotNegative(a.classes);
        }
      case _ =>
    }
  }

  lemma {:induction false} NeededNotNegative(classes: seq<A.Class>)
    requires forall i :: 0 <= i < |classes| ==> 0.0 < classes[i].bw
    requires forall i :: 0 <= i < |classes| ==> !A.Eligible(classes[i])
    ensures 0.0 <= A.NeededTime(classes)
  {
    if classes != [] {
      NeededNotNegative(classes[..|classes| - 1]);
      var c := classes[|classes| - 1];
      if |c.queue| != 0 {
        assert 0.0 <= (0.0 - c.credit) / c.bw;
      }
    }
  }

  // ---- runs --------------------------------------------------------------------------------------------

  lemma StepInv(s: State, e: Event)
    requires Inv(s) && Possible(s, e)
    ensures Inv(Step(s, e))
  {
    match e {
      case Arrive(now, t) => AddSound(s.comp, s.policy, t, now);
      case Wake(now, released) =>
        BeforeDecisionSound(s, now, released);
        var (c, p) := BeforeDecision(s, released, now);
        AfterDecisionSound(c, p, now, released != []);
      case Latency(now, t) => LatencyStory(s.comp, t, now);
    }
  }

  /** An empty component with an empty, sensibly configured scheduler. */
  ghost predicate Start(s: State) {
    Init(s) && S.Configured(s.policy) && S.Agree(s.policy, map[], map[])
  }

  lemma StartInv(s: State)
    requires Start(s)
    ensures Inv(s)
  {
    forall id ensures Tells(s.comp, id) {
    }
  }

  lemma {:induction false} RunInv(s: State, es: seq<Event>)
    requires Inv(s) && Legal(s, es)
    ensures Inv(Run(s, es))
    decreases es
  {
    if es != [] {
      StepInv(s, es[0]);
      RunInv(Step(s, es[0]), es[1..]);
    }
  }

  /** Agreement: in every reachable state the private queues of the plugged-in scheduler name exactly
      the instances of the component's maps, and at most one instance runs. */
  lemma {:induction false} Agreement(s: State, es: seq<Event>)
    requires Start(s) && Legal(s, es)
    ensures var r := Run(s, es);
            && S.Agree(r.policy, r.comp.ready, r.comp.running)
            && r.comp.ready.Keys !! r.comp.running.Keys
            && (forall a, b :: a in r.comp.running && b in r.comp.running ==> a == b)
  {
    StartInv(s);
    RunInv(s, es);
  }

  /** Conservation: in every reachable state the trace of every instance is a prefix of
      RELEASE (ASSIGN RESIGN)* ASSIGN FINISHDII FINISHLAT.  While it is alive, the time for which it
      has held the resource and its remaining delay add up to its delay; when its interval ends, the
      time it held the resource is exactly its delay; its latency ends exactly latency - delay later. */
  lemma {:induction false} Conserved(s: State, es: seq<Event>, id: int)
    requires Start(s) && Legal(s, es)
    ensures var c := Run(s, es).comp;
            match PhaseOf(c.trace, id)
            case Unborn => id !in c.ready && id !in c.running
            case Waiting(t, ran) =>
              id in c.ready && ran + c.ready[id].remaining == t.delay && 0.0 < c.ready[id].remaining
            case Executing(t, ran, since) =>
              && id in c.running && 0.0 < c.running[id].remaining
              && ran + (c.assignedAt - since) + c.running[id].remaining == t.delay
            case DiiOver(t, ran, dii) =>
              ran == t.delay && exists x :: x in c.latencies && x.task.id == id && x.time == dii + (t.latency - t.delay)
            case LatencyOver(t, ran, dii, lat) => ran == t.delay && lat == dii + (t.latency - t.delay)
            case Broken => false
  {
    StartInv(s);
    RunInv(s, es);
    assert Tells(Run(s, es).comp, id);
  }

  /** The run-time checks of the component's bookkeeping in one pass, and that of the scheduler's decision, in
      source order. */
  predicate PassAsserts(s: State, now: Time, released: seq<Task>) {
    && s.clock <= now
    && (forall id :: id in s.comp.running ==>
          s.comp.holder == Some(id) && 0.0 <= RanTask(s.comp.running[id], s.comp.assignedAt, now).remaining)
    && (forall i :: 0 <= i < |released| ==> released[i].id !in s.comp.ready && released[i].id !in s.comp.running)
    && var (c, p) := BeforeDecision(s, released, now);
       && S.DecisionAssert(p, now, c.running)
       && S.Executable(S.Decide(p, now, c.ready, c.running).0, c.ready, c.running)
       && (forall id :: id in Pass(s, now, released).comp.running ==>
             0.0 < Pass(s, now, released).comp.running[id].remaining)
  }

  lemma PassAssertsAt(r: State, now: Time, released: seq<Task>)
    requires Inv(r) && Possible(r, Wake(now, released)) && Allowed(r, Wake(now, released))
    ensures PassAsserts(r, now, released)
  {
    hide PhaseOf, S.Configured, S.Agree;
    BeforeDecisionSound(r, now, released);
    var (c, p) := BeforeDecision(r, released, now);
    S.AllowedAsserts(p, now, c.running);
    AfterDecisionSound(c, p, now, released != []);
    forall i | 0 <= i < |released| ensures released[i].id !in r.comp.ready && released[i].id !in r.comp.running {
      assert Tells(r.comp, released[i].id);
    }
  }

  /** No assertion about the component's maps, times and resource, and none of a scheduler's decision except
      possibly that of round robin, fails in any pass of any run. */
  lemma {:induction false} PassAssertsHold(s: State, es: seq<Event>, now: Time, released: seq<Task>)
    requires Start(s) && Legal(s, es)
    requires Possible(Run(s, es), Wake(now, released)) && Allowed(Run(s, es), Wake(now, released))
    ensures PassAsserts(Run(s, es), now, released)
  {
    hide *;
    StartInv(s);
    RunInv(s, es);
    PassAssertsAt(Run(s, es), now, released);
  }
}
