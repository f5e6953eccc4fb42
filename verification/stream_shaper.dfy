/** Shaping of one stream: starts are at least a shaping period apart (StreamShaperScheduler.cpp). */
module StreamShaping {
  import opened Basics

  datatype State = State(fifo: seq<int>, period: Time, lastAssign: Time, firstRun: bool)

  function Added(s: State, t: Task): State {
    s.(fifo := s.fifo + [t.id])
  }

  function Removed(s: State, t: Task): State {
    s.(fifo := Erase(s.fifo, t.id))
  }

  function Decide(s: State, now: Time, running: TaskMap): (Decision, State) {
    if s.firstRun || now >= s.lastAssign + s.period then
      if running.Keys == {} && |s.fifo| > 0
        then (OnlyAssign(s.fifo[0]), State(s.fifo[1..], s.period, now, false))
      else (NoChange, s.(firstRun := false))
    else (NoChange, s)
  }

  function TimeSlice(s: State, now: Time): Option<Time> {
    if s.firstRun || s.lastAssign + s.period <= now then None
    else Some(s.lastAssign + s.period - now)
  }

  class StreamShaperScheduler {
    var streamFifo: seq<int>
    var shapeCycle: Time
    var lastAssign: Time
    var firstRun: bool

    function Abs(): State
      reads this
    {
      State(streamFifo, shapeCycle, lastAssign, firstRun)
    }

    constructor (period: Time)
      ensures Abs() == State([], period, 0.0, true)
    {
      streamFifo, shapeCycle, lastAssign, firstRun := [], period, 0.0, true;
    }

    method AddedNewTask(t: Task)
      modifies this
      ensures Abs() == Added(old(Abs()), t)
    {
      streamFifo := streamFifo + [t.id];
    }

    method RemovedTask(t: Task)
      modifies this
      ensures Abs() == Removed(old(Abs()), t)
    {
      streamFifo := EraseFirst(streamFifo, t.id);
    }

    method SchedulingDecision(now: Time, running: TaskMap) returns (d: Decision)
      modifies this
      ensures (d, Abs()) == Decide(old(Abs()), now, running)
    {
      d := NoChange;
      if firstRun || now >= lastAssign + shapeCycle {
        firstRun := false;
        if running.Keys == {} {
          if |streamFifo| > 0 {
            d := OnlyAssign(streamFifo[0]);
            streamFifo := streamFifo[1..];
            lastAssign := now;
          }
        }
      }
    }

    method GetSchedulerTimeSlice(now: Time) returns (time: Option<Time>)
      ensures time == TimeSlice(Abs(), now)
    {
      if firstRun {
        return None;
      }
      var nextRelTime := lastAssign + shapeCycle;
      if nextRelTime <= now {
        return None;
      }
      return Some(nextRelTime - now);
    }
  }
}
