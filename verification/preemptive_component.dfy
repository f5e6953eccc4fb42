/** The preemptive component as an object that updates its maps in place and drives a scheduler object
    (AbstractComponent.cpp, PreemptiveComponent.cpp).  Every method is proved to perform exactly one
    step of the transition system, and the run-time checks of the source are assertions here. */
module PreemptiveComponents {
  import opened Basics
  import opened Lifecycle
  import opened Component
  import opened SchedulerObjects
  import C = Conservation
  import S = Scheduling

  /** What the checks of the first loop and of the call-backs rely on: the running instance has not
      overrun, and a task that is new to the trace is in neither map. */
  lemma PrepareFacts(s: State, now: Time, released: seq<Task>)
    requires C.Inv(s) && OnTime(s, now) && NewTasks(s.comp, released)
    ensures s.clock <= now
    ensures s.comp.running.Keys == (if s.comp.holder.Some? then {s.comp.holder.value} else {})
    ensures forall id :: id in s.comp.running ==>
      s.comp.running[id].id == id && 0.0 <= RanTask(s.comp.running[id], s.comp.assignedAt, now).remaining
    ensures var c := ChargeRunning(s.comp, s.policy, now).0;
            forall i :: 0 <= i < |released| ==> released[i].id !in c.ready && released[i].id !in c.running
    ensures forall i, j :: 0 <= i < j < |released| ==> released[i].id != released[j].id
  {
    forall i | 0 <= i < |released| ensures released[i].id !in s.comp.ready && released[i].id !in s.comp.running {
      assert C.Tells(s.comp, released[i].id);
    }
  }

  lemma ArrivalFacts(s: State, now: Time, t: Task)
    requires C.Inv(s) && Possible(s, Arrive(now, t))
    ensures t.id !in s.comp.ready && t.id !in s.comp.running
  {
    assert C.Tells(s.comp, t.id);
  }

  /** What the resign part of a decision asserts. */
  ghost predicate CanResign(c: Comp, d: Decision) {
    S.Resigns(d) ==>
      && d.resign in c.running && c.running[d.resign].id == d.resign && d.resign !in c.ready
      && c.holder == Some(d.resign)
  }

  /** What the assign part asserts. */
  ghost predicate CanAssign(c: Comp, d: Decision) {
    S.Assigns(d) ==>
      d.assign in c.ready && c.ready[d.assign].id == d.assign && d.assign !in c.running && c.holder == None
  }

  /** What the last loop asserts: at most one task runs, and it has something left to do. */
  ghost predicate OneRuns(running: TaskMap) {
    && (forall a, b :: a in running && b in running ==> a == b)
    && (forall id :: id in running ==> 0.0 < running[id].remaining)
  }

  /** What the checks between the decision and the wait rely on. */
  lemma DispatchFacts(c: Comp, p: S.Policy, now: Time)
    requires C.Sound(c, p, now) && C.UpToDate(c, now) && S.DecisionAllowed(p, now, c.running)
    ensures S.DecisionAssert(p, now, c.running)
    ensures var (d, p1) := S.Decide(p, now, c.ready, c.running);
            var c1 := Component.ResignPart(c, d, now);
            var c2 := Component.AssignPart(c1, d, now);
            && CanResign(c, d) && CanAssign(c1, d) && OneRuns(c2.running)
            && (p1.Tdma? ==> p1.t.cycle != 0.0)
            && (p.Ttcc? ==> |p.k.slots| > 0)
  {
    hide S.Agree, PhaseOf;
    S.AllowedAsserts(p, now, c.running);
    C.MovedSound(c, p, now);
    var d := S.Decide(p, now, c.ready, c.running).0;
    C.ResignSound(c, d, now);
    if S.Resigns(d) {
      S.MoveBack(c.ready, c.running, d.resign);
    }
    CycleKept(c, p, now);
  }

  /** A time-division cycle does not vanish. */
  lemma CycleKept(c: Comp, p: S.Policy, now: Time)
    requires C.Sound(c, p, now)
    ensures var p1 := S.Decide(p, now, c.ready, c.running).1; p1.Tdma? ==> p1.t.cycle != 0.0
  {
    if p.Tdma? {
      S.T.LookupIsScan(p.t, now);
    }
  }

  class PreemptiveComponent {
    var readyTasks: TaskMap
    var runningTasks: TaskMap
    var assignedTaskInstance: Option<int>
    var assignedTaskInstanceTime: Time
    var latencyQueue: set<Expiry>
    const scheduler: SchedulerPtr
    /** What the observers have been told. */
    ghost var observed: seq<Op>
    /** The kernel's view of the thread: the time, the time-out of its wait, its pending event. */
    var clock: Time
    var timeOut: Option<Time>
    var scheduleEvent: bool

    ghost function Tasks(): Comp
      reads this
    {
      Comp(readyTasks, runningTasks, assignedTaskInstance, assignedTaskInstanceTime, latencyQueue, observed)
    }

    ghost function Abs(): State
      reads this, scheduler.Owner()
    {
      State(Tasks(), scheduler.Policy(), clock, timeOut, scheduleEvent)
    }

    ghost predicate Intact()
      reads this, scheduler.Footprint()
    {
      scheduler.Intact() && this !in scheduler.Footprint() && NotAhead(scheduler.Policy(), clock)
    }

    constructor (scheduler: SchedulerPtr)
      requires scheduler.Intact() && NotAhead(scheduler.Policy(), 0.0)
      ensures Intact() && this.scheduler == scheduler && Init(Abs()) && Abs().policy == old(scheduler.Policy())
    {
      readyTasks, runningTasks := map[], map[];
      assignedTaskInstance, assignedTaskInstanceTime := None, 0.0;
      latencyQueue, observed := {}, [];
      this.scheduler := scheduler;
      clock, timeOut, scheduleEvent := 0.0, None, true;
    }

    // ---- one instance ----------------------------------------------------------------------------

    ghost method Observe(kind: Kind, t: Task)
      modifies this`observed
      ensures Tasks() == Log(old(Tasks()), kind, t, clock)
    {
      observed := observed + [Op(kind, t, clock)];
    }

    method AssignTaskInstance(t: Task)
      requires assignedTaskInstance == None
      modifies this`assignedTaskInstance, this`assignedTaskInstanceTime, this`observed
      ensures Tasks() == Log(old(Tasks()).(holder := Some(t.id), assignedAt := clock), Assign, t, clock)
    {
      assignedTaskInstance := Some(t.id);
      assignedTaskInstanceTime := clock;
      Observe(Assign, t);
    }

    method RanTaskInstance(id: int) returns (t: Task)
      requires id in runningTasks && assignedTaskInstance == Some(id)
      modifies this`runningTasks, this`assignedTaskInstanceTime
      ensures t == RanTask(old(runningTasks[id]), old(assignedTaskInstanceTime), clock)
      ensures Tasks() == old(Tasks()).(running := old(runningTasks)[id := t], assignedAt := clock)
    {
      t := runningTasks[id];
      t := t.(remaining := t.remaining - clock + assignedTaskInstanceTime);
      runningTasks := runningTasks[id := t];
      assignedTaskInstanceTime := clock;
    }

    method ResignTaskInstance(t: Task)
      requires assignedTaskInstance == Some(t.id)
      modifies this`assignedTaskInstance, this`observed
      ensures Tasks() == Log(old(Tasks()), Resign, t, clock).(holder := None)
    {
      Observe(Resign, t);
      assignedTaskInstance := None;
    }

    method FinishLatencyTaskInstance(t: Task)
      modifies this`observed
      ensures Tasks() == Log(old(Tasks()), FinishLat, t, clock)
    {
      Observe(FinishLat, t);
    }

    method FinishDiiTaskInstance(t: Task)
      requires assignedTaskInstance == Some(t.id)
      modifies this`assignedTaskInstance, this`latencyQueue, this`observed
      ensures Tasks().(running := old(runningTasks) - {t.id}) == FinishDiiTask(old(Tasks()), t, clock)
      ensures runningTasks == old(runningTasks)
    {
      Observe(FinishDii, t);
      assignedTaskInstance := None;
      if t.latency == t.delay {
        FinishLatencyTaskInstance(t);
      } else {
        latencyQueue := latencyQueue + {Expiry(clock + (t.latency - t.delay), t)};
      }
    }

    // ---- the component ------------------------------------------------------------------------------

    /** A new task instance enters the ready map and the scheduler, and the thread is notified. */
    method AddTask(t: Task)
      requires Intact() && t.id !in readyTasks && t.id !in runningTasks
      modifies this`readyTasks, this`observed, this`scheduleEvent, scheduler.Footprint()
      ensures Intact() && scheduler.Footprint() == old(scheduler.Footprint()) && scheduleEvent
      ensures (Tasks(), scheduler.Policy()) == Component.AddTask(old(Tasks()), old(scheduler.Policy()), t, clock)
    {
      Observe(Release, t);
      readyTasks := readyTasks[t.id := t];
      scheduler.AddedNewTask(t);
      scheduleEvent := true;
    }

    method RemoveTask(t: Task)
      requires Intact() && assignedTaskInstance == Some(t.id)
      modifies this`assignedTaskInstance, this`latencyQueue, this`observed, scheduler.Footprint()
      ensures Intact() && scheduler.Footprint() == old(scheduler.Footprint()) && runningTasks == old(runningTasks)
      ensures Tasks().(running := old(runningTasks) - {t.id}) == FinishDiiTask(old(Tasks()), t, clock)
      ensures scheduler.Policy() == S.Removed(old(scheduler.Policy()), t)
    {
      scheduler.RemovedTask(t);
      FinishDiiTaskInstance(t);
    }

    /** Nobody runs but the instance that is assigned to the resource. */
    ghost predicate OneTask()
      reads this
    {
      runningTasks.Keys == (if assignedTaskInstance.Some? then {assignedTaskInstance.value} else {})
    }

    /** One iteration of the first loop of a pass. */
    method ChargeTask(id: int)
      requires Intact() && runningTasks.Keys == {id} && assignedTaskInstance == Some(id) && runningTasks[id].id == id
      requires 0.0 <= RanTask(runningTasks[id], assignedTaskInstanceTime, clock).remaining
      modifies this`runningTasks, this`assignedTaskInstance, this`assignedTaskInstanceTime, this`latencyQueue,
          this`observed, scheduler.Footprint()
      ensures Intact() && scheduler.Footprint() == old(scheduler.Footprint())
      ensures (Tasks(), scheduler.Policy()) == ChargeRunning(old(Tasks()), old(scheduler.Policy()), clock)
    {
      hide S.Removed;
      var t := RanTaskInstance(id);
      assert 0.0 <= t.remaining;
      if t.remaining == 0.0 {
        RemoveTask(t);
        runningTasks := runningTasks - {t.id};
      }
    }

    /** The first loop of a pass: charge what runs and finish what is exhausted. */
    method ChargeRunningTasks()
      requires Intact() && OneTask()
      requires forall id :: id in runningTasks ==>
        && runningTasks[id].id == id
        && 0.0 <= RanTask(runningTasks[id], assignedTaskInstanceTime, clock).remaining
      modifies this`runningTasks, this`assignedTaskInstance, this`assignedTaskInstanceTime, this`latencyQueue,
          this`observed, scheduler.Footprint()
      ensures Intact() && scheduler.Footprint() == old(scheduler.Footprint())
      ensures (Tasks(), scheduler.Policy()) == ChargeRunning(old(Tasks()), old(scheduler.Policy()), clock)
    {
      hide S.Removed, Intact, FinishDiiTask;
      var todo := runningTasks.Keys;
      while todo != {}
        invariant Intact() && scheduler.Footprint() == old(scheduler.Footprint())
        invariant || (todo == old(runningTasks).Keys
                      && Tasks() == old(Tasks()) && scheduler.Policy() == old(scheduler.Policy()))
                  || (todo == {}
                      && (Tasks(), scheduler.Policy()) == ChargeRunning(old(Tasks()), old(scheduler.Policy()), clock))
        decreases |todo|
      {
        var id := Begin(runningTasks);
        assert todo == {id};
        ChargeTask(id);
        todo := todo - {id};
      }
    }

    /** Call-backs of the finished instance release more tasks on this component. */
    method AddReleased(released: seq<Task>)
      requires Intact()
      requires forall i :: 0 <= i < |released| ==> released[i].id !in readyTasks && released[i].id !in runningTasks
      requires forall i, j :: 0 <= i < j < |released| ==> released[i].id != released[j].id
      modifies this`readyTasks, this`observed, this`scheduleEvent, scheduler.Footprint()
      ensures Intact() && scheduler.Footprint() == old(scheduler.Footprint())
      ensures (Tasks(), scheduler.Policy()) == AddAll(old(Tasks()), old(scheduler.Policy()), released, clock)
      ensures scheduleEvent == (old(scheduleEvent) || released != [])
      decreases released
    {
      if released != [] {
        AddTask(released[0]);
        AddReleased(released[1..]);
      }
    }

    /** The resign part of a decision: from the running to the ready map. */
    method ResignPart(d: Decision)
      requires CanResign(Tasks(), d)
      modifies this`readyTasks, this`runningTasks, this`assignedTaskInstance, this`observed
      ensures Tasks() == Component.ResignPart(old(Tasks()), d, clock)
    {
      if d.Resigned? || d.Preempt? {
        var t := runningTasks[d.resign];
        ResignTaskInstance(t);
        readyTasks := readyTasks[d.resign := t];
        runningTasks := runningTasks - {d.resign};
      }
    }

    /** The assign part: from the ready to the running map. */
    method AssignPart(d: Decision)
      requires CanAssign(Tasks(), d)
      modifies this`readyTasks, this`runningTasks, this`assignedTaskInstance, this`assignedTaskInstanceTime,
          this`observed
      ensures Tasks() == Component.AssignPart(old(Tasks()), d, clock)
    {
      if d.OnlyAssign? || d.Preempt? {
        var t := readyTasks[d.assign];
        AssignTaskInstance(t);
        runningTasks := runningTasks[d.assign := t];
        readyTasks := readyTasks - {d.assign};
      }
    }

    /** The loop that bounds the wait by the remaining delay of what runs. */
    method BoundWait(slice: Option<Time>) returns (wait: Option<Time>)
      requires OneRuns(runningTasks)
      ensures wait == WaitTime(slice, runningTasks)
    {
      wait := slice;
      var todo := runningTasks.Keys;
      while todo != {}
        invariant (todo == runningTasks.Keys && wait == slice) || (todo == {} && wait == WaitTime(slice, runningTasks))
        decreases |todo|
      {
        var id := Begin(runningTasks);
        assert todo == {id};
        assert runningTasks[id].remaining > 0.0;
        if wait == None || runningTasks[id].remaining < wait.value {
          wait := Some(runningTasks[id].remaining);
        }
        todo := todo - {id};
      }
    }

    /** The pass up to the decision. */
    method Prepare(now: Time, released: seq<Task>)
      requires Intact() && C.Inv(Abs()) && OnTime(Abs(), now) && NewTasks(Tasks(), released)
      modifies this, scheduler.Footprint()
      ensures Intact() && scheduler.Footprint() == old(scheduler.Footprint())
      ensures clock == now && scheduleEvent == (released != [])
      ensures (Tasks(), scheduler.Policy()) == BeforeDecision(old(Abs()), released, now)
    {
      hide S.Removed, S.Added, C.Inv, OnTime, NewTasks, ChargeRunning, AddAll, SchedulerPtr.Intact, SchedulerPtr.Policy;
      PrepareFacts(Abs(), now, released);
      clock, scheduleEvent := now, false;
      ChargeRunningTasks();
      AddReleased(released);
    }

    /** The decision, its resign part, and the slice. */
    method DecideAndResign() returns (d: Decision, slice: Option<Time>)
      requires Intact() && C.Sound(Tasks(), scheduler.Policy(), clock) && C.UpToDate(Tasks(), clock)
      requires S.DecisionAllowed(scheduler.Policy(), clock, runningTasks)
      modifies this`readyTasks, this`runningTasks, this`assignedTaskInstance, this`observed, scheduler.Footprint()
      ensures Intact() && scheduler.Footprint() == old(scheduler.Footprint())
      ensures (d, scheduler.Policy()) == S.Decide(old(scheduler.Policy()), clock, old(readyTasks), old(runningTasks))
      ensures Tasks() == Component.ResignPart(old(Tasks()), d, clock)
      ensures slice == S.TimeSlice(scheduler.Policy(), clock, readyTasks, runningTasks)
      ensures CanAssign(Tasks(), d) && OneRuns(Component.AssignPart(Tasks(), d, clock).running)
    {
      hide SchedulerPtr.Intact, SchedulerPtr.Policy, S.Decide, S.TimeSlice, S.DecisionAssert, S.DecisionAllowed;
      hide C.Sound, C.UpToDate, Component.AssignPart, Component.ResignPart, CanResign, CanAssign, OneRuns;
      DispatchFacts(Tasks(), scheduler.Policy(), clock);
      d := scheduler.SchedulingDecision(clock, readyTasks, runningTasks);
      ResignPart(d);
      slice := scheduler.GetSchedulerTimeSlice(clock, readyTasks, runningTasks);
    }

    /** The pass from the decision to the wait. */
    method Dispatch()
      requires Intact() && C.Sound(Tasks(), scheduler.Policy(), clock) && C.UpToDate(Tasks(), clock)
      requires S.DecisionAllowed(scheduler.Policy(), clock, runningTasks)
      modifies this, scheduler.Footprint()
      ensures Intact() && scheduler.Footprint() == old(scheduler.Footprint())
      ensures Abs() == AfterDecision(old(Tasks()), old(scheduler.Policy()), clock, scheduleEvent)
      ensures clock == old(clock) && scheduleEvent == old(scheduleEvent)
    {
      hide SchedulerPtr.Intact, SchedulerPtr.Policy, S.Decide, S.TimeSlice, S.DecisionAllowed;
      hide C.Sound, C.UpToDate, WaitTime, Component.AssignPart, Component.ResignPart, CanAssign, OneRuns;
      var d, slice := DecideAndResign();
      AssignPart(d);
      var wait := BoundWait(slice);
      timeOut := if wait == None then None else Some(clock + wait.value);
    }

    /** One pass of the scheduler thread.  All checks of the source hold because the state is reachable. */
    method ScheduleThread(now: Time, released: seq<Task>)
      requires Intact() && C.Inv(Abs()) && Possible(Abs(), Wake(now, released)) && Allowed(Abs(), Wake(now, released))
      modifies this, scheduler.Footprint()
      ensures Intact() && C.Inv(Abs()) && scheduler.Footprint() == old(scheduler.Footprint())
      ensures Abs() == Step(old(Abs()), Wake(now, released))
    {
      ghost var s := Abs();
      C.StepInv(s, Wake(now, released));
      C.BeforeDecisionSound(s, now, released);
      Prepare(now, released);
      Dispatch();
    }

    /** A task instance that becomes executable is handed to the component. */
    method Compute(now: Time, t: Task)
      requires Intact() && C.Inv(Abs()) && Possible(Abs(), Arrive(now, t))
      modifies this, scheduler.Footprint()
      ensures Intact() && C.Inv(Abs()) && scheduler.Footprint() == old(scheduler.Footprint())
      ensures Abs() == Step(old(Abs()), Arrive(now, t))
    {
      hide C.Inv, SchedulerPtr.Intact, SchedulerPtr.Policy, S.Added;
      C.StepInv(Abs(), Arrive(now, t));
      ArrivalFacts(Abs(), now, t);
      clock := now;
      AddTask(t);
    }

    /** The latency queue delivers an instance whose latency is over. */
    method LatencyExpired(now: Time, t: Task)
      requires Intact() && C.Inv(Abs()) && Possible(Abs(), Latency(now, t))
      modifies this
      ensures Intact() && C.Inv(Abs())
      ensures Abs() == Step(old(Abs()), Latency(now, t))
    {
      hide C.Inv, SchedulerPtr.Intact, SchedulerPtr.Policy;
      C.StepInv(Abs(), Latency(now, t));
      clock := now;
      latencyQueue := latencyQueue - {Expiry(now, t)};
      FinishLatencyTaskInstance(t);
    }
  }
}
