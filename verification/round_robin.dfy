/** Round robin over a deque of instance ids (RoundRobinScheduler.cpp). */
module RoundRobinScheduling {
  import opened Basics

  datatype State = State(fifo: seq<int>, slice: Time, expires: Time)

  function Added(s: State, t: Task): State {
    s.(fifo := s.fifo + [t.id])
  }

  function Removed(s: State, t: Task): State {
    s.(fifo := Erase(s.fifo, t.id))
  }

  /** The assertion inside the decision: time may pass the slice end only on an idle resource. */
  predicate DecisionAssert(s: State, now: Time, running: TaskMap) {
    now == s.expires || now < s.expires || running.Keys == {}
  }

  function Decide(s: State, now: Time, ready: TaskMap, running: TaskMap): (Decision, State) {
    if |s.fifo| == 0 then (NoChange, s)
    else
      var next := State(s.fifo[1..], s.slice, now + s.slice);
      if now == s.expires then
        if running.Keys == {} then (OnlyAssign(s.fifo[0]), next)
        else
          var r := running[Begin(running)];
          (Preempt(r.id, s.fifo[0]), next.(fifo := next.fifo + [r.id]))
      else if running.Keys == {} then (OnlyAssign(s.fifo[0]), next)
      else (NoChange, s)
  }

  function TimeSlice(s: State, now: Time, running: TaskMap): Option<Time> {
    if (|s.fifo| == 0 && running.Keys == {}) || s.expires - now <= 0.0 then None
    else Some(s.expires - now)
  }

  ghost predicate Agree(s: State, ready: TaskMap) {
    Lists(s.fifo, ready.Keys)
  }

  lemma AddedAgree(s: State, t: Task, ready: TaskMap)
    requires Agree(s, ready) && t.id !in ready
    ensures Agree(Added(s, t), ready[t.id := t])
  {
    PushLists(s.fifo, ready.Keys, t.id);
    assert ready[t.id := t].Keys == ready.Keys + {t.id};
  }

  /** An instance that finishes runs, so it is not in the deque and the removal loop finds nothing. */
  lemma RemovedAgree(s: State, t: Task, ready: TaskMap)
    requires Agree(s, ready) && t.id !in ready
    ensures Removed(s, t) == s
  {
    EraseAbsent(s.fifo, t.id);
  }

  lemma PopAgree(s: State, ready: TaskMap)
    requires Agree(s, ready) && |s.fifo| > 0
    ensures s.fifo[0] in ready && Lists(s.fifo[1..], ready.Keys - {s.fifo[0]})
  {
    DropLists(s.fifo, ready.Keys, 0);
    assert DropAt(s.fifo, 0) == s.fifo[1..];
  }

  class RoundRobinScheduler {
    var rrFifo: seq<int>
    var timeSlice: Time
    var timeSliceExpires: Time

    function Abs(): State
      reads this
    {
      State(rrFifo, timeSlice, timeSliceExpires)
    }

    constructor (slice: Time)
      ensures Abs() == State([], slice, 0.0)
    {
      rrFifo, timeSlice, timeSliceExpires := [], slice, 0.0;
    }

    method AddedNewTask(t: Task)
      modifies this
      ensures Abs() == Added(old(Abs()), t)
    {
      rrFifo := rrFifo + [t.id];
    }

    method RemovedTask(t: Task)
      modifies this
      ensures Abs() == Removed(old(Abs()), t)
    {
      rrFifo := EraseFirst(rrFifo, t.id);
    }

    method AssignFromFront(now: Time) returns (task: int)
      requires |rrFifo| > 0
      modifies this
      ensures task == old(rrFifo)[0]
      ensures Abs() == State(old(rrFifo)[1..], old(timeSlice), now + old(timeSlice))
    {
      task := rrFifo[0];
      rrFifo := rrFifo[1..];
      timeSliceExpires := now + timeSlice;
    }

    method SchedulingDecision(now: Time, ready: TaskMap, running: TaskMap) returns (d: Decision)
      requires DecisionAssert(Abs(), now, running)
      modifies this
      ensures (d, Abs()) == Decide(old(Abs()), now, ready, running)
    {
      d := NoChange;
      if now == timeSliceExpires {
        if |rrFifo| > 0 {
          var task := AssignFromFront(now);
          d := OnlyAssign(task);
          if running.Keys != {} {
            var old_ := running[Begin(running)].id;
            rrFifo := rrFifo + [old_];
            d := Preempt(old_, task);
          }
        }
      } else {
        assert now < timeSliceExpires || running.Keys == {};
        if running.Keys == {} {
          if |rrFifo| > 0 {
            var task := AssignFromFront(now);
            d := OnlyAssign(task);
          }
        }
      }
    }

    method GetSchedulerTimeSlice(now: Time, running: TaskMap) returns (time: Option<Time>)
      ensures time == TimeSlice(Abs(), now, running)
    {
      if |rrFifo| == 0 && running.Keys == {} {
        return None;
      }
      var left := timeSliceExpires - now;
      return if left > 0.0 then Some(left) else None;
    }
  }
}
