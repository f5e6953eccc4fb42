/** What can be read off the trace of a component, oldest entry first: which tasks arrived, which instances were
    started, in the order of their first assignment, which finished, and how often a running one was preempted.
    Each reading is a function of the whole trace, and a lemma says what one more entry adds to all of them. */
module History {
  import opened Basics
  import opened Lifecycle

  /** The instances in the order of their release. */
  function Arrivals(trace: seq<Op>): seq<Task> {
    if trace == [] then []
    else
      var last := trace[|trace| - 1];
      Arrivals(trace[..|trace| - 1]) + (if last.kind == Release then [last.task] else [])
  }

  /** The ids in the order of their first assignment. */
  function Starts(trace: seq<Op>): seq<int> {
    if trace == [] then []
    else
      var last := trace[|trace| - 1];
      var before := Starts(trace[..|trace| - 1]);
      if last.kind == Assign && last.task.id !in before then before + [last.task.id] else before
  }

  function Finished(trace: seq<Op>): set<int> {
    if trace == [] then {}
    else
      var last := trace[|trace| - 1];
      Finished(trace[..|trace| - 1]) + (if last.kind == FinishDii then {last.task.id} else {})
  }

  /** The number of preemptions. */
  function Resigns(trace: seq<Op>): nat {
    if trace == [] then 0
    else Resigns(trace[..|trace| - 1]) + (if trace[|trace| - 1].kind == Resign then 1 else 0)
  }

  lemma Snoc(trace: seq<Op>, op: Op)
    ensures Arrivals(trace + [op]) == Arrivals(trace) + (if op.kind == Release then [op.task] else [])
    ensures Starts(trace + [op]) ==
            if op.kind == Assign && op.task.id !in Starts(trace) then Starts(trace) + [op.task.id] else Starts(trace)
    ensures Finished(trace + [op]) == Finished(trace) + (if op.kind == FinishDii then {op.task.id} else {})
    ensures Resigns(trace + [op]) == Resigns(trace) + (if op.kind == Resign then 1 else 0)
  {
    assert (trace + [op])[..|trace|] == trace;
  }

  /** An instance that was never released appears nowhere in the history. */
  lemma {:induction false} UnbornAbsent(trace: seq<Op>, id: int)
    requires PhaseOf(trace, id) == Unborn
    ensures id !in Starts(trace) && id !in Finished(trace)
    ensures forall k :: 0 <= k < |Arrivals(trace)| ==> Arrivals(trace)[k].id != id
  {
    if trace != [] {
      UnbornAbsent(trace[..|trace| - 1], id);
    }
  }

  /** An instance is released once, because a second release would break its story. */
  lemma {:induction false} ArrivalsDistinct(trace: seq<Op>)
    requires forall id :: PhaseOf(trace, id) != Broken
    ensures NoDup(TaskIds(Arrivals(trace)))
  {
    if trace != [] {
      var before, last := trace[..|trace| - 1], trace[|trace| - 1];
      assert trace == before + [last];
      forall id ensures PhaseOf(before, id) != Broken {
        PhaseSnoc(before, last, id);
      }
      ArrivalsDistinct(before);
      assert Arrivals(trace) == Arrivals(before) + (if last.kind == Release then [last.task] else []);
      if last.kind != Release {
        assert Arrivals(trace) == Arrivals(before);
      } else {
        PhaseSnoc(before, last, last.task.id);
        assert PhaseOf(before, last.task.id) == Unborn;
        UnbornAbsent(before, last.task.id);
        assert forall i :: 0 <= i < |Arrivals(before)| ==> TaskIds(Arrivals(before))[i] != last.task.id;
        assert TaskIds(Arrivals(before) + [last.task]) == TaskIds(Arrivals(before)) + [last.task.id];
      }
    }
  }

  /** An instance that is waiting or executing has arrived, as the task its phase remembers. */
  lemma {:induction false} AliveArrived(trace: seq<Op>, id: int) returns (i: nat)
    requires PhaseOf(trace, id).Waiting? || PhaseOf(trace, id).Executing?
    ensures i < |Arrivals(trace)| && Arrivals(trace)[i] == PhaseOf(trace, id).t && Arrivals(trace)[i].id == id
  {
    var before, last := trace[..|trace| - 1], trace[|trace| - 1];
    if PhaseOf(before, id) == Unborn {
      i := |Arrivals(before)|;
    } else {
      i := AliveArrived(before, id);
    }
  }

  /** An instance that waits or executes has not finished, and one that executes has started. */
  lemma {:induction false} AliveUnfinished(trace: seq<Op>, id: int)
    requires PhaseOf(trace, id).Waiting? || PhaseOf(trace, id).Executing?
    ensures id !in Finished(trace)
    ensures PhaseOf(trace, id).Executing? ==> id in Starts(trace)
  {
    var last := trace[|trace| - 1];
    var before := trace[..|trace| - 1];
    if PhaseOf(before, id) == Unborn {
      UnbornAbsent(before, id);
    } else {
      AliveUnfinished(before, id);
    }
  }

  /** Distinct entries taken from another list of distinct entries are no more than its length. */
  lemma {:induction false} Pigeonhole(a: seq<int>, b: seq<int>)
    requires NoDup(a) && forall i :: 0 <= i < |a| ==> a[i] in b
    ensures |a| <= |b|
  {
    if a != [] {
      var x := a[|a| - 1];
      var i :| 0 <= i < |b| && b[i] == x;
      var a1, b1 := a[..|a| - 1], DropAt(b, i);
      forall k | 0 <= k < |a1| ensures a1[k] in b1 {
        var y := a[k];
        assert y in b && y != x;
        var j :| 0 <= j < |b| && b[j] == y;
        assert b1[if j < i then j else j - 1] == y;
      }
      Pigeonhole(a1, b1);
    }
  }
}
