/** Whose turn it is, by the trace alone: the line in which instances stand from their release on. */
module Turns {
  import opened Basics
  import opened Lifecycle

  /** Who stands in a line: everyone, the tasks of a range of priorities, or those of the processes of a slot. */
  datatype Line =
    | Everyone
    | Priorities(above: Option<int>, upTo: int)
    | Slot(pids: map<int, nat>, index: nat)

  predicate Joins(l: Line, t: Task) {
    match l
    case Everyone => true
    case Priorities(above, upTo) => (above.Some? ==> above.value < t.prio) && t.prio <= upTo
    case Slot(pids, index) => t.pid in pids && pids[t.pid] == index
  }

  /** How long: until an instance is assigned, and from the end of the line again when it is resigned; or until it
      finishes. */
  datatype Stay = UntilAssigned | UntilDone

  function Stood(before: seq<int>, stay: Stay, op: Op): seq<int> {
    match op.kind
    case Release => before + [op.task.id]
    case Assign => if stay.UntilAssigned? then Erase(before, op.task.id) else before
    case Resign => if stay.UntilAssigned? then before + [op.task.id] else before
    case FinishDii => if stay.UntilDone? then Erase(before, op.task.id) else before
    case FinishLat => before
  }

  function InLine(l: Line, stay: Stay, trace: seq<Op>): seq<int> {
    if trace == [] then []
    else
      var before, last := InLine(l, stay, trace[..|trace| - 1]), trace[|trace| - 1];
      if Joins(l, last.task) then Stood(before, stay, last) else before
  }

  /** Whoever is assigned stands first in the line. */
  predicate InTurn(l: Line, stay: Stay, trace: seq<Op>) {
    if trace == [] then true
    else
      var before, last := trace[..|trace| - 1], trace[|trace| - 1];
      && InTurn(l, stay, before)
      && (last.kind == Assign && Joins(l, last.task) ==>
            InLine(l, stay, before) != [] && InLine(l, stay, before)[0] == last.task.id)
  }

  lemma Snoc(l: Line, stay: Stay, trace: seq<Op>, op: Op)
    ensures InLine(l, stay, trace + [op])
            == if Joins(l, op.task) then Stood(InLine(l, stay, trace), stay, op) else InLine(l, stay, trace)
    ensures InTurn(l, stay, trace + [op])
            <==> InTurn(l, stay, trace)
                 && (op.kind == Assign && Joins(l, op.task) ==>
                       InLine(l, stay, trace) != [] && InLine(l, stay, trace)[0] == op.task.id)
  {
    assert (trace + [op])[..|trace|] == trace;
  }

  /** The end of a latency concerns no line. */
  lemma LatencySnoc(l: Line, stay: Stay, trace: seq<Op>, op: Op)
    requires op.kind == FinishLat
    ensures InLine(l, stay, trace + [op]) == InLine(l, stay, trace)
    ensures InTurn(l, stay, trace + [op]) <==> InTurn(l, stay, trace)
  {
    Snoc(l, stay, trace, op);
  }

  /** All processes that have released or finished a task have a slot. */
  predicate AllMapped(pids: map<int, nat>, trace: seq<Op>) {
    forall i :: 0 <= i < |trace| && (trace[i].kind == Release || trace[i].kind == FinishDii) ==>
      trace[i].task.pid in pids
  }

  /** A longer map changes nothing for those who are already mapped. */
  lemma {:induction false} MoreMapped(pids: map<int, nat>, more: map<int, nat>, i: nat, trace: seq<Op>)
    requires AllMapped(pids, trace) && forall p :: p in pids ==> p in more && more[p] == pids[p]
    ensures InLine(Slot(more, i), UntilDone, trace) == InLine(Slot(pids, i), UntilDone, trace)
  {
    if trace != [] {
      var last := trace[|trace| - 1];
      MoreMapped(pids, more, i, trace[..|trace| - 1]);
      assert last.kind == Release || last.kind == FinishDii ==> last.task.pid in pids;
    }
  }

  /** Who has joined the line, in the order of release, and who has left it, in the order of assignment. */
  function Came(l: Line, trace: seq<Op>): seq<int> {
    if trace == [] then []
    else
      var before, last := Came(l, trace[..|trace| - 1]), trace[|trace| - 1];
      if last.kind == Release && Joins(l, last.task) then before + [last.task.id] else before
  }

  function Went(l: Line, trace: seq<Op>): seq<int> {
    if trace == [] then []
    else
      var before, last := Went(l, trace[..|trace| - 1]), trace[|trace| - 1];
      if last.kind == Assign && Joins(l, last.task) then before + [last.task.id] else before
  }

  /** Nobody is ever interrupted. */
  predicate NoResign(trace: seq<Op>) {
    forall i :: 0 <= i < |trace| ==> trace[i].kind != Resign
  }

  /** Where turns are kept and nobody is interrupted, those who came are those who went, in the same order, followed by
      the line. */
  lemma {:induction false} InOrder(l: Line, trace: seq<Op>)
    requires NoResign(trace) && InTurn(l, UntilAssigned, trace)
    ensures Came(l, trace) == Went(l, trace) + InLine(l, UntilAssigned, trace)
  {
    if trace != [] {
      var before, last := trace[..|trace| - 1], trace[|trace| - 1];
      InOrder(l, before);
      assert trace[|trace| - 1].kind != Resign;
    }
  }

  // ---- time slices ------------------------------------------------------------------------------------------

  /** The time of the last assignment of the instance. */
  function LastAssign(trace: seq<Op>, id: int): Option<Time> {
    if trace == [] then None
    else
      var last := trace[|trace| - 1];
      if last.kind == Assign && last.task.id == id then Some(last.at) else LastAssign(trace[..|trace| - 1], id)
  }

  /** Every instance that is resigned has held the resource for exactly one slice. */
  predicate FullSlices(trace: seq<Op>, slice: Time) {
    if trace == [] then true
    else
      var before, last := trace[..|trace| - 1], trace[|trace| - 1];
      && FullSlices(before, slice)
      && (last.kind == Resign ==> LastAssign(before, last.task.id) == Some(last.at - slice))
  }

  lemma SliceSnoc(trace: seq<Op>, op: Op, slice: Time)
    ensures FullSlices(trace + [op], slice)
            <==> FullSlices(trace, slice)
                 && (op.kind == Resign ==> LastAssign(trace, op.task.id) == Some(op.at - slice))
    ensures forall id :: LastAssign(trace + [op], id)
                         == if op.kind == Assign && op.task.id == id then Some(op.at) else LastAssign(trace, id)
  {
    assert (trace + [op])[..|trace|] == trace;
  }
}
