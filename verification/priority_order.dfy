/** The order in which static priority serves its instances, as a relation between the ready and running maps, the
    scheduler's queue, and the past: arrivals are started in turn within a level, a started instance is queued
    again with order number 0, and started instances are stacked by urgency.  Each operation of the component
    (arrival, charging, finishing, resigning, assigning the top of the queue) keeps that relation. */
module PriorityOrder {
  import opened Basics
  import opened Lifecycle
  import opened History
  import P = PriorityScheduling

  /** Arrivals in order, ids in the order of their first start, and the finished ids. */
  datatype Past = Past(arr: seq<Task>, starts: seq<int>, fin: set<int>)

  function PastOf(trace: seq<Op>): Past {
    Past(Arrivals(trace), Starts(trace), Finished(trace))
  }

  /** The entry's order number is the arrival index until the instance is first started, then 0. */
  predicate EntryOk(e: P.Entry, h: Past) {
    if e.id in h.starts then e.order == 0
    else 0 <= e.order < |h.arr| && h.arr[e.order].id == e.id && h.arr[e.order].prio == e.prio
  }

  ghost predicate Known(id: int, prio: int, arr: seq<Task>) {
    exists k :: 0 <= k < |arr| && arr[k].id == id && arr[k].prio == prio
  }

  ghost predicate Arrived(id: int, arr: seq<Task>) {
    exists k :: 0 <= k < |arr| && arr[k].id == id
  }

  /** Equal priorities: nobody is started before every earlier arrival of the level has finished. */
  ghost predicate FifoPerLevel(h: Past) {
    forall i, j :: 0 <= i < j < |h.arr| && h.arr[i].prio == h.arr[j].prio && h.arr[j].id in h.starts
             ==> h.arr[i].id in h.fin
  }

  /** Everyone who arrived is finished or still there. */
  ghost predicate Accounted(ready: TaskMap, running: TaskMap, h: Past) {
    forall k :: 0 <= k < |h.arr| ==>
      || h.arr[k].id in h.fin
      || (h.arr[k].id in ready && ready[h.arr[k].id].prio == h.arr[k].prio)
      || (h.arr[k].id in running && running[h.arr[k].id].prio == h.arr[k].prio)
  }

  /** Of two started instances that are both still alive, the later started is strictly more urgent. */
  ghost predicate Stacked(all: TaskMap, starts: seq<int>) {
    forall i, j :: 0 <= i < j < |starts| && starts[i] in all && starts[j] in all
             ==> all[starts[j]].prio < all[starts[i]].prio
  }

  /** The running instance is strictly more urgent than every other started one. */
  ghost predicate RunningAhead(ready: TaskMap, running: TaskMap, starts: seq<int>) {
    forall r, z :: r in running && z in ready && z in starts ==> running[r].prio < ready[z].prio
  }

  /** Some task runs if any is ready, and none that is ready is more urgent. */
  ghost predicate MostUrgentRuns(ready: TaskMap, running: TaskMap) {
    && (running.Keys == {} ==> ready.Keys == {})
    && forall r, z :: r in running && z in ready ==> running[r].prio <= ready[z].prio
  }

  ghost predicate Lived(ready: TaskMap, running: TaskMap, h: Past) {
    && (forall id :: id in ready ==> Known(id, ready[id].prio, h.arr) && id !in h.fin)
    && (forall id :: id in running ==> Known(id, running[id].prio, h.arr) && id !in h.fin && id in h.starts)
    && (forall i, j :: 0 <= i < j < |h.arr| ==> h.arr[i].id != h.arr[j].id)
    && Accounted(ready, running, h)
    && NoDup(h.starts) && (forall x :: x in h.starts ==> Arrived(x, h.arr))
  }

  ghost predicate Ordered(ready: TaskMap, running: TaskMap, p: P.State, h: Past) {
    && p.counter == |h.arr|
    && (forall i :: 0 <= i < |p.queue| ==> EntryOk(p.queue[i], h))
    && Lived(ready, running, h)
    && FifoPerLevel(h)
    && Stacked(ready + running, h.starts)
    && RunningAhead(ready, running, h.starts)
  }

  // ---- two instances of one level ---------------------------------------------------------------------

  /** At most one started, unfinished instance per level. */
  lemma OnePerLevel(x: int, y: int, prioX: int, prioY: int, h: Past)
    requires FifoPerLevel(h) && Known(x, prioX, h.arr) && Known(y, prioY, h.arr) && x != y
    requires x in h.starts && y in h.starts && x !in h.fin && y !in h.fin
    ensures prioX != prioY
  {
    var i :| 0 <= i < |h.arr| && h.arr[i].id == x && h.arr[i].prio == prioX;
    var j :| 0 <= j < |h.arr| && h.arr[j].id == y && h.arr[j].prio == prioY;
  }

  function IndexOf(q: seq<int>, x: int): (k: nat)
    requires x in q
    ensures k < |q| && q[k] == x
  {
    if q[0] == x then 0 else 1 + IndexOf(q[1..], x)
  }

  function EntryOf(p: P.State, ready: TaskMap, id: int): (k: nat)
    requires P.Agree(p, ready) && id in ready
    ensures k < |p.queue| && p.queue[k].id == id && p.queue[k].prio == ready[id].prio
  {
    IndexOf(P.Ids(p.queue), id)
  }

  /** The top of the queue is strictly more urgent than every other started instance that waits. */
  lemma TopAhead(ready: TaskMap, running: TaskMap, p: P.State, h: Past, z: int)
    requires P.Agree(p, ready) && Ordered(ready, running, p, h) && |p.queue| > 0
    requires z in ready && z in h.starts && z != p.queue[P.Top(p.queue)].id
    ensures p.queue[P.Top(p.queue)].prio < ready[z].prio
  {
    var top := p.queue[P.Top(p.queue)];
    var ez := p.queue[EntryOf(p, ready, z)];
    assert !P.Below(top, ez) && EntryOk(ez, h) && EntryOk(top, h) && ez.order == 0;
    assert top.id in ready && Known(top.id, top.prio, h.arr) && Known(z, ez.prio, h.arr);
    if top.id in h.starts {
      OnePerLevel(z, top.id, ez.prio, top.prio, h);
    } else {
      var m :| 0 <= m < |h.arr| && h.arr[m].id == z && h.arr[m].prio == ez.prio;
      assert h.arr[top.order].id == top.id && m != top.order;
      assert top.order < m ==> top.prio != h.arr[m].prio;
    }
  }

  // ---- one operation at a time -------------------------------------------------------------------------

  lemma KnownMore(id: int, prio: int, arr: seq<Task>, t: Task)
    requires Known(id, prio, arr)
    ensures Known(id, prio, arr + [t])
  {
    var k :| 0 <= k < |arr| && arr[k].id == id && arr[k].prio == prio;
    assert (arr + [t])[k] == arr[k];
  }

  lemma ArrivedMore(id: int, arr: seq<Task>, t: Task)
    requires Arrived(id, arr)
    ensures Arrived(id, arr + [t])
  {
    var k :| 0 <= k < |arr| && arr[k].id == id;
    assert (arr + [t])[k] == arr[k];
  }

  /** A new arrival joins at the end of its level. */
  lemma ArrivalLived(ready: TaskMap, running: TaskMap, h: Past, t: Task)
    requires Lived(ready, running, h) && t.id !in ready && t.id !in running
    requires t.id !in h.starts && t.id !in h.fin && forall k :: 0 <= k < |h.arr| ==> h.arr[k].id != t.id
    ensures Lived(ready[t.id := t], running, h.(arr := h.arr + [t]))
  {
    var arr1 := h.arr + [t];
    forall id | id in ready ensures Known(id, ready[id].prio, arr1) {
      KnownMore(id, ready[id].prio, h.arr, t);
    }
    forall id | id in running ensures Known(id, running[id].prio, arr1) {
      KnownMore(id, running[id].prio, h.arr, t);
    }
    forall x | x in h.starts ensures Arrived(x, arr1) {
      ArrivedMore(x, h.arr, t);
    }
    assert arr1[|h.arr|] == t;
    assert Known(t.id, t.prio, arr1);
  }

  lemma ArrivalOrdered(ready: TaskMap, running: TaskMap, p: P.State, h: Past, t: Task)
    requires Ordered(ready, running, p, h) && t.id !in ready && t.id !in running
    requires t.id !in h.starts && t.id !in h.fin && forall k :: 0 <= k < |h.arr| ==> h.arr[k].id != t.id
    ensures Ordered(ready[t.id := t], running, P.Added(p, t), h.(arr := h.arr + [t]))
  {
    ArrivalLived(ready, running, h, t);
    var h1, p1 := h.(arr := h.arr + [t]), P.Added(p, t);
    forall k | 0 <= k < |p1.queue| ensures EntryOk(p1.queue[k], h1) {
      if k < |p.queue| {
        assert EntryOk(p.queue[k], h);
      }
    }
  }

  /** An exhausted instance leaves. */
  lemma FinishOrdered(ready: TaskMap, running: TaskMap, p: P.State, h: Past, id: int)
    requires Ordered(ready, running, p, h) && running.Keys == {id} && id !in ready
    ensures Ordered(ready, running - {id}, p, h.(fin := h.fin + {id}))
  {
    var h1 := h.(fin := h.fin + {id});
    forall k | 0 <= k < |p.queue| ensures EntryOk(p.queue[k], h1) {
      assert EntryOk(p.queue[k], h);
    }
    assert (running - {id}).Keys == {};
  }

  lemma ChargeOrdered(ready: TaskMap, running: TaskMap, p: P.State, h: Past, t: Task)
    requires Ordered(ready, running, p, h) && t.id in running && running[t.id].prio == t.prio && t.id !in ready
    ensures Ordered(ready, running[t.id := t], p, h)
  {
  }

  /** A preempted instance keeps its place among the started ones. */
  lemma ResignOrdered(ready: TaskMap, running: TaskMap, p: P.State, h: Past, t: Task)
    requires Ordered(ready, running, p, h) && running == map[t.id := t] && t.id !in ready
    ensures Ordered(ready[t.id := t], map[], p.(queue := p.queue + [P.Entry(0, t.prio, t.id)]), h)
  {
    var p1 := p.(queue := p.queue + [P.Entry(0, t.prio, t.id)]);
    assert t.id in running;
    assert ready[t.id := t] + map[] == ready + running;
    forall k | 0 <= k < |p1.queue| ensures EntryOk(p1.queue[k], h) {
      if k < |p.queue| {
        assert EntryOk(p.queue[k], h);
      }
    }
  }

  /** Assigning the top of the queue keeps every order. */
  lemma AssignOrdered(ready: TaskMap, p: P.State, h: Past)
    requires P.Agree(p, ready) && Ordered(ready, map[], p, h) && |p.queue| > 0
    ensures var i := P.Top(p.queue);
            var a := p.queue[i].id;
            a in ready &&
            Ordered(ready - {a}, map[a := ready[a]], p.(queue := DropAt(p.queue, i)),
                    h.(starts := if a in h.starts then h.starts else h.starts + [a]))
  {
    hide P.Top, FifoPerLevel, EntryOk;
    var i := P.Top(p.queue);
    var a := p.queue[i].id;
    var h1 := h.(starts := if a in h.starts then h.starts else h.starts + [a]);
    var ready1, running1 := ready - {a}, map[a := ready[a]];
    assert ready1 + running1 == ready + map[];
    AssignFifo(ready, p, h);
    AssignEntries(ready, p, h);
    forall z | z in ready1 && z in h1.starts ensures ready[a].prio < ready1[z].prio {
      assert z in h.starts;
      TopAhead(ready, map[], p, h, z);
    }
    AssignLived(ready, h, a);
    hide Lived;
    StackedSnoc(ready, h.starts, a);
  }

  lemma AssignLived(ready: TaskMap, h: Past, a: int)
    requires Lived(ready, map[], h) && a in ready
    ensures Lived(ready - {a}, map[a := ready[a]], h.(starts := if a in h.starts then h.starts else h.starts + [a]))
  {
    assert Known(a, ready[a].prio, h.arr);
    assert Arrived(a, h.arr);
  }

  lemma StackedSnoc(ready: TaskMap, starts: seq<int>, a: int)
    requires Stacked(ready + map[], starts) && a in ready
    requires forall z :: z in ready - {a} && z in starts ==> ready[a].prio < ready[z].prio
    ensures Stacked((ready - {a}) + map[a := ready[a]], if a in starts then starts else starts + [a])
  {
    var all := ready + map[];
    assert (ready - {a}) + map[a := ready[a]] == all;
    var starts1 := if a in starts then starts else starts + [a];
    forall k, l | 0 <= k < l < |starts1| && starts1[k] in all && starts1[l] in all
      ensures all[starts1[l]].prio < all[starts1[k]].prio
    {
      if l == |starts| {
        assert starts1[k] == starts[k];
      }
    }
  }

  lemma AssignFifo(ready: TaskMap, p: P.State, h: Past)
    requires P.Agree(p, ready) && Ordered(ready, map[], p, h) && |p.queue| > 0
    ensures var a := p.queue[P.Top(p.queue)].id;
            FifoPerLevel(h.(starts := if a in h.starts then h.starts else h.starts + [a]))
  {
    var top := p.queue[P.Top(p.queue)];
    assert EntryOk(top, h);
    if top.id !in h.starts {
      forall i, j | 0 <= i < j < |h.arr| && h.arr[i].prio == h.arr[j].prio && h.arr[j].id in h.starts + [top.id]
        ensures h.arr[i].id in h.fin
      {
        if h.arr[j].id !in h.starts {
          assert j == top.order;
        }
      }
    }
  }

  lemma AssignEntries(ready: TaskMap, p: P.State, h: Past)
    requires P.Agree(p, ready) && |p.queue| > 0 && forall k :: 0 <= k < |p.queue| ==> EntryOk(p.queue[k], h)
    ensures var i := P.Top(p.queue);
            var a := p.queue[i].id;
            forall k :: 0 <= k < |p.queue| - 1 ==>
              EntryOk(DropAt(p.queue, i)[k], h.(starts := if a in h.starts then h.starts else h.starts + [a]))
  {
    var i := P.Top(p.queue);
    var a := p.queue[i].id;
    var h1 := h.(starts := if a in h.starts then h.starts else h.starts + [a]);
    forall k | 0 <= k < |p.queue| - 1 ensures EntryOk(DropAt(p.queue, i)[k], h1) {
      var m := if k < i then k else k + 1;
      assert DropAt(p.queue, i)[k] == p.queue[m] && EntryOk(p.queue[m], h);
      assert P.Ids(p.queue)[m] != P.Ids(p.queue)[i];
    }
  }
}
