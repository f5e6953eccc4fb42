/** Static priority with first-come-first-served order inside a level
    (PriorityScheduler.cpp, and the ordering of its queue entries). */
module PriorityScheduling {
  import opened Basics

  /** An entry of the priority queue.  A lesser `prio` value is more urgent. */
  datatype Entry = Entry(order: int, prio: int, id: int)

  /** operator< of the queue entries: `a` is less urgent than `b`. */
  predicate Below(a: Entry, b: Entry) {
    a.prio > b.prio || (a.prio == b.prio && a.order > b.order)
  }

  datatype State = State(counter: int, queue: seq<Entry>)

  /** Position of the entry `priority_queue::top` returns: no entry is more urgent. */
  function Top(q: seq<Entry>): (i: nat)
    requires |q| > 0
    ensures i < |q| && forall j :: 0 <= j < |q| ==> !Below(q[i], q[j])
  {
    if |q| == 1 then 0
    else
      var i := Top(q[..|q| - 1]);
      if Below(q[i], q[|q| - 1]) then |q| - 1 else i
  }

  function Added(s: State, t: Task): State {
    State(s.counter + 1, s.queue + [Entry(s.counter, t.prio, t.id)])
  }

  function Decide(s: State, ready: TaskMap, running: TaskMap): (Decision, State) {
    if |s.queue| == 0 then (NoChange, s)
    else
      var i := Top(s.queue);
      var top := s.queue[i];
      if running.Keys == {} then (OnlyAssign(top.id), s.(queue := DropAt(s.queue, i)))
      else
        var r := running[Begin(running)];
        if r.prio <= top.prio then (NoChange, s)
        else (Preempt(r.id, top.id), s.(queue := DropAt(s.queue, i) + [Entry(0, r.prio, r.id)]))
  }

  function Ids(q: seq<Entry>): (r: seq<int>)
    ensures |r| == |q|
  {
    seq(|q|, i requires 0 <= i < |q| => q[i].id)
  }

  /** The queue holds exactly the ready instances, once each, at their own priority. */
  ghost predicate Agree(s: State, ready: TaskMap) {
    && Lists(Ids(s.queue), ready.Keys)
    && forall i :: 0 <= i < |s.queue| ==> s.queue[i].id in ready && s.queue[i].prio == ready[s.queue[i].id].prio
  }

  lemma AddedAgree(s: State, t: Task, ready: TaskMap)
    requires Agree(s, ready) && t.id !in ready
    ensures Agree(Added(s, t), ready[t.id := t])
  {
    PushLists(Ids(s.queue), ready.Keys, t.id);
    assert Ids(Added(s, t).queue) == Ids(s.queue) + [t.id];
    assert ready[t.id := t].Keys == ready.Keys + {t.id};
  }

  lemma DropAgree(s: State, i: nat, ready: TaskMap)
    requires Agree(s, ready) && i < |s.queue|
    ensures Agree(s.(queue := DropAt(s.queue, i)), ready - {s.queue[i].id})
  {
    var q := Ids(s.queue);
    DropLists(q, ready.Keys, i);
    var r := DropAt(s.queue, i);
    assert Ids(r) == DropAt(q, i);
    assert (ready - {q[i]}).Keys == ready.Keys - {q[i]};
    forall k | 0 <= k < |r| ensures r[k].id in ready - {q[i]} {
      assert r[k].id == Ids(r)[k];
    }
  }

  /** A pushed-back instance keeps its priority, whatever order number it gets. */
  lemma PushAgree(s: State, e: Entry, ready: TaskMap, t: Task)
    requires Agree(s, ready) && e.id !in ready && e.id == t.id && e.prio == t.prio
    ensures Agree(s.(queue := s.queue + [e]), ready[e.id := t])
  {
    PushLists(Ids(s.queue), ready.Keys, e.id);
    assert Ids(s.queue + [e]) == Ids(s.queue) + [e.id];
    assert ready[e.id := t].Keys == ready.Keys + {e.id};
  }

  /** Taking the top and pushing the preempted instance back. */
  lemma SwapAgree(s: State, i: nat, r: Task, ready: TaskMap)
    requires Agree(s, ready) && i < |s.queue| && r.id !in ready
    ensures Agree(s.(queue := DropAt(s.queue, i) + [Entry(0, r.prio, r.id)]), ready[r.id := r] - {s.queue[i].id})
  {
    var top := s.queue[i].id;
    DropAgree(s, i, ready);
    var dropped := s.(queue := DropAt(s.queue, i));
    PushAgree(dropped, Entry(0, r.prio, r.id), ready - {top}, r);
    assert ready[r.id := r] - {top} == (ready - {top})[r.id := r];
  }

  class PriorityScheduler {
    var orderCounter: int
    var pqueue: seq<Entry>

    function Abs(): State
      reads this
    {
      State(orderCounter, pqueue)
    }

    constructor ()
      ensures Abs() == State(0, [])
    {
      orderCounter := 0;
      pqueue := [];
    }

    method AddedNewTask(t: Task)
      modifies this
      ensures Abs() == Added(old(Abs()), t)
    {
      pqueue := pqueue + [Entry(orderCounter, t.prio, t.id)];
      orderCounter := orderCounter + 1;
    }

    method SchedulingDecision(ready: TaskMap, running: TaskMap) returns (d: Decision)
      modifies this
      ensures (d, Abs()) == Decide(old(Abs()), ready, running)
    {
      if |pqueue| == 0 {
        return NoChange;
      }
      var i := Top(pqueue);
      var priorReady := pqueue[i];
      if running.Keys != {} {
        var task := running[Begin(running)];
        if task.prio <= priorReady.prio {
          d := NoChange;
        } else {
          d := Preempt(task.id, priorReady.id);
          pqueue := DropAt(pqueue, i);
          pqueue := pqueue + [Entry(0, task.prio, task.id)];
        }
      } else {
        pqueue := DropAt(pqueue, i);
        d := OnlyAssign(priorReady.id);
      }
    }
  }
}
