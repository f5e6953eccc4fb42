/** The life of one task instance as an observer of the component sees it: a state machine
    read off the trace of operations, with no reference to the component's own bookkeeping. */
module Lifecycle {
  import opened Basics

  datatype Kind = Release | Assign | Resign | FinishDii | FinishLat

  /** An operation as the observers of the component are told of it. */
  datatype Op = Op(kind: Kind, task: Task, at: Time)

  /** `t` is the instance as it was released, `ran` the time for which it has held the resource in
      closed intervals. */
  datatype Phase =
    | Unborn
    | Waiting(t: Task, ran: Time)
    | Executing(t: Task, ran: Time, since: Time)
    | DiiOver(t: Task, ran: Time, dii: Time)
    | LatencyOver(t: Task, ran: Time, dii: Time, lat: Time)
    | Broken

  /** RELEASE (ASSIGN RESIGN)* ASSIGN FINISHDII FINISHLAT; any other order is Broken. */
  function Advance(p: Phase, op: Op): Phase {
    match (p, op.kind)
    case (Unborn, Release) => Waiting(op.task, 0.0)
    case (Waiting(t, ran), Assign) => Executing(t, ran, op.at)
    case (Executing(t, ran, since), Resign) => Waiting(t, ran + (op.at - since))
    case (Executing(t, ran, since), FinishDii) => DiiOver(t, ran + (op.at - since), op.at)
    case (DiiOver(t, ran, dii), FinishLat) => LatencyOver(t, ran, dii, op.at)
    case _ => Broken
  }

  function PhaseOf(trace: seq<Op>, id: int): Phase {
    if trace == [] then Unborn
    else
      var last := trace[|trace| - 1];
      var p := PhaseOf(trace[..|trace| - 1], id);
      if last.task.id == id then Advance(p, last) else p
  }

  lemma PhaseSnoc(trace: seq<Op>, op: Op, id: int)
    ensures PhaseOf(trace + [op], id) ==
            if op.task.id == id then Advance(PhaseOf(trace, id), op) else PhaseOf(trace, id)
  {
    assert (trace + [op])[..|trace|] == trace;
  }
}
