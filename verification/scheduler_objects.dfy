/** The scheduler objects behind one interface (Scheduler.hpp): a virtual call is a match on the pointer. */
module SchedulerObjects {
  import opened Basics
  import P = PriorityScheduling
  import R = RoundRobinScheduling
  import T = TdmaScheduling
  import A = AvbScheduling
  import H = StreamShaping
  import K = TtccScheduling
  import S = Scheduling

  /** The last credit update does not lie in the future. */
  predicate NotAhead(p: S.Policy, now: Time) {
    p.Avb? ==> p.a.firstRun || p.a.lastAssign <= now
  }

  datatype SchedulerPtr =
    | PriorityPtr(p: P.PriorityScheduler)
    | RoundRobinPtr(r: R.RoundRobinScheduler)
    | TdmaPtr(t: T.TdmaScheduler)
    | AvbPtr(a: A.AvbScheduler)
    | ShaperPtr(h: H.StreamShaperScheduler)
    | TtccPtr(k: K.TimeTriggeredCcScheduler)
  {
    ghost function Owner(): object {
      match this
      case PriorityPtr(p) => p
      case RoundRobinPtr(r) => r
      case TdmaPtr(t) => t
      case AvbPtr(a) => a
      case ShaperPtr(h) => h
      case TtccPtr(k) => k
    }

    /** The scheduler object itself and, for AVB, the entries of its class list. */
    ghost function Footprint(): set<object>
      reads Owner()
    {
      {Owner()} + (if AvbPtr? then set e | e in a.pList else {})
    }

    ghost predicate Intact()
      reads Footprint()
    {
      AvbPtr? ==> a.Valid()
    }

    ghost function Policy(): S.Policy
      reads Owner()
    {
      match this
      case PriorityPtr(p) => S.Priority(p.Abs())
      case RoundRobinPtr(r) => S.RoundRobin(r.Abs())
      case TdmaPtr(t) => S.Tdma(t.Abs())
      case AvbPtr(a) => S.Avb(a.Abs())
      case ShaperPtr(h) => S.Shaper(h.Abs())
      case TtccPtr(k) => S.Ttcc(k.Abs())
    }

    method AddedNewTask(task: Task)
      requires Intact()
      modifies Footprint()
      ensures Intact() && Footprint() == old(Footprint()) && Policy() == S.Added(old(Policy()), task)
    {
      match this
      case PriorityPtr(p) => p.AddedNewTask(task);
      case RoundRobinPtr(r) => r.AddedNewTask(task);
      case TdmaPtr(t) => t.AddedNewTask(task);
      case AvbPtr(a) => a.AddedNewTask(task);
      case ShaperPtr(h) => h.AddedNewTask(task);
      case TtccPtr(k) => k.AddedNewTask(task);
    }

    method RemovedTask(task: Task)
      requires Intact()
      modifies Footprint()
      ensures Intact() && Footprint() == old(Footprint()) && Policy() == S.Removed(old(Policy()), task)
    {
      match this
      case PriorityPtr(_) =>
      case RoundRobinPtr(r) => r.RemovedTask(task);
      case TdmaPtr(t) => t.RemovedTask(task);
      case AvbPtr(_) =>
      case ShaperPtr(h) => h.RemovedTask(task);
      case TtccPtr(k) => k.RemovedTask(task);
    }

    method SchedulingDecision(now: Time, ready: TaskMap, running: TaskMap) returns (d: Decision)
      requires Intact() && NotAhead(Policy(), now) && S.DecisionAssert(Policy(), now, running)
      requires Policy().Ttcc? ==> |Policy().k.slots| > 0
      modifies Footprint()
      ensures Intact() && Footprint() == old(Footprint()) && NotAhead(Policy(), now)
      ensures (d, Policy()) == S.Decide(old(Policy()), now, ready, running)
    {
      match this
      case PriorityPtr(p) => d := p.SchedulingDecision(ready, running);
      case RoundRobinPtr(r) => d := r.SchedulingDecision(now, ready, running);
      case TdmaPtr(t) => d := t.SchedulingDecision(now, running);
      case AvbPtr(a) => d := a.SchedulingDecision(now, running);
      case ShaperPtr(h) => d := h.SchedulingDecision(now, running);
      case TtccPtr(k) => d := k.SchedulingDecision(now, running);
    }

    method GetSchedulerTimeSlice(now: Time, ready: TaskMap, running: TaskMap) returns (time: Option<Time>)
      requires Intact() && (Policy().Tdma? ==> Policy().t.cycle != 0.0)
      ensures time == S.TimeSlice(Policy(), now, ready, running)
    {
      match this
      case PriorityPtr(_) => time := None;
      case RoundRobinPtr(r) => time := r.GetSchedulerTimeSlice(now, running);
      case TdmaPtr(t) => time := t.GetSchedulerTimeSlice(now, running);
      case AvbPtr(a) => time := a.GetSchedulerTimeSlice(ready, running);
      case ShaperPtr(h) => time := h.GetSchedulerTimeSlice(now);
      case TtccPtr(k) => time := k.GetSchedulerTimeSlice(running);
    }
  }
}
