/** Time-triggered communication controller (TimeTriggeredCCScheduler.cpp): a walk through static slots in
    which an instance is served only in the cycles that its process selects. */
module TtccScheduling {
  import opened Basics
  import T = TdmaScheduling

  /** A process is served in cycles congruent to `offset` modulo 2^multiplex, from cycle `offset` on. */
  datatype Filter = Filter(offset: int, multiplex: nat)

  /** `filters` is one map for processes and, under their instance ids, for instances. */
  datatype State = State(slots: seq<T.Slot>, pidMap: map<int, nat>, filters: map<int, Filter>,
                         current: int, cycle: int, remaining: Time, lastAssign: Time, processCount: int)

  /** The filter of a key; an absent key has no filter. */
  function FilterOf(filters: map<int, Filter>, key: int): Filter {
    if key in filters then filters[key] else Filter(0, 0)
  }

  /** At the start of a slot a process may be served from its offset on, within a slot only after it. */
  predicate Allowed(f: Filter, cycle: int, within: bool) {
    && (if within then f.offset < cycle else f.offset <= cycle)
    && (f.multiplex == 0 || cycle % Pow2(f.multiplex) == f.offset)
  }

  /** The search for the first instance of the deque that may be served. */
  function FirstAllowed(fifo: seq<int>, filters: map<int, Filter>, cycle: int, within: bool): (r: Option<int>)
    ensures r.Some? ==> r.value in fifo && Allowed(FilterOf(filters, r.value), cycle, within)
    ensures r.None? ==> forall id :: id in fifo ==> !Allowed(FilterOf(filters, id), cycle, within)
  {
    if fifo == [] then None
    else if Allowed(FilterOf(filters, fifo[0]), cycle, within) then Some(fifo[0])
    else FirstAllowed(fifo[1..], filters, cycle, within)
  }

  function FifoOf(slots: seq<T.Slot>, i: int): seq<int> {
    if 0 <= i < |slots| then slots[i].fifo else []
  }

  function LengthOf(slots: seq<T.Slot>, i: int): Time {
    if 0 <= i < |slots| then slots[i].length else 0.0
  }

  /** Slot of a process; one that was never mapped goes to the first slot. */
  function SlotOf(pidMap: map<int, nat>, pid: int): nat {
    if pid in pidMap then pidMap[pid] else 0
  }

  function SetFifo(slots: seq<T.Slot>, i: nat, fifo: seq<int>): (r: seq<T.Slot>)
    ensures |r| == |slots|
  {
    if i < |slots| then slots[i := slots[i].(fifo := fifo)] else slots
  }

  function Added(s: State, t: Task): State {
    var i := SlotOf(s.pidMap, t.pid);
    s.(slots := SetFifo(s.slots, i, FifoOf(s.slots, i) + [t.id]),
       pidMap := s.pidMap[t.pid := i],
       filters := if i < |s.slots| then s.filters[t.id := FilterOf(s.filters, t.pid)] else s.filters,
       processCount := s.processCount + 1)
  }

  function Removed(s: State, t: Task): State {
    var i := SlotOf(s.pidMap, t.pid);
    s.(slots := SetFifo(s.slots, i, Erase(FifoOf(s.slots, i), t.id)),
       pidMap := s.pidMap[t.pid := i],
       processCount := s.processCount - 1)
  }

  /** The time since the last decision is taken off the slot. */
  function Elapse(s: State, now: Time): State {
    s.(remaining := if s.remaining < now - s.lastAssign then 0.0 else s.remaining - (now - s.lastAssign),
       lastAssign := now)
  }

  /** Makes way for the chosen instance, or for nobody. */
  function Serve(choice: Option<int>, running: TaskMap): Decision {
    if running.Keys != {} then
      if choice.Some? then Preempt(Begin(running), choice.value) else Resigned(Begin(running))
    else
      if choice.Some? then OnlyAssign(choice.value) else NoChange
  }

  /** The static part of a decision, with the slot charged: at its end the next slot begins. */
  function StaticStep(s: State, running: TaskMap): (Decision, State) {
    if s.remaining <= 0.0 then
      var i := s.current + 1;
      var choice := FirstAllowed(FifoOf(s.slots, i), s.filters, s.cycle, false);
      (Serve(choice, running), s.(current := i, remaining := LengthOf(s.slots, i)))
    else if running.Keys == {} then
      (Serve(FirstAllowed(FifoOf(s.slots, s.current), s.filters, s.cycle, true), running), s)
    else (NoChange, s)
  }

  /** Within the last slot nothing is decided; at its end the next cycle begins. */
  function Decide(s: State, now: Time, running: TaskMap): (Decision, State) {
    if s.current + 1 < |s.slots| then StaticStep(Elapse(s, now), running)
    else if s.remaining > 0.0 then (NoChange, Elapse(s, now))
    else StaticStep(Elapse(s.(current := -1, cycle := s.cycle + 1), now), running)
  }

  function TimeSlice(s: State, running: TaskMap): Option<Time> {
    if s.processCount == 0 && running.Keys == {} then None
    else if s.current == -1 then Some(0.0) else Some(s.remaining)
  }

  // ---- agreement with the component -------------------------------------------------------------------

  ghost predicate Configured(s: State) {
    && |s.slots| > 0 && (forall i :: 0 <= i < |s.slots| ==> 0.0 < s.slots[i].length)
    && -1 <= s.current < |s.slots| && 0.0 <= s.remaining
    && (forall p :: p in s.pidMap ==> s.pidMap[p] < |s.slots|)
  }

  /** Every instance of the component is in the deque of its slot, once, and nowhere else. */
  ghost predicate Agree(s: State, all: TaskMap) {
    && (forall id :: id in all ==> all[id].pid in s.pidMap)
    && (forall i :: 0 <= i < |s.slots| ==> Lists(s.slots[i].fifo, T.Members(s.pidMap, all, i)))
    && s.processCount == |all|
  }

  /** The index stays in range in every decision, the recursion of the source is one level deep, and the
      deques are untouched. */
  lemma DecideConfigured(s: State, now: Time, running: TaskMap)
    requires Configured(s)
    ensures var s1 := Decide(s, now, running).1;
            && Configured(s1)
            && (s.lastAssign <= now && (s.current == -1 ==> s.remaining == 0.0) ==> 0 <= s1.current)
            && s1.slots == s.slots && s1.pidMap == s.pidMap && s1.filters == s.filters
              && s1.processCount == s.processCount
  {
  }

  /** Who is assigned stands in the deque of the slot that is then current and passes the cycle filter. */
  lemma ServedHere(s: State, now: Time, running: TaskMap)
    requires Configured(s)
    ensures var (d, s1) := Decide(s, now, running);
            && (d.OnlyAssign? || d.Preempt? ==>
                  d.assign in FifoOf(s.slots, s1.current) && Allowed(FilterOf(s.filters, d.assign), s1.cycle, false))
            && (d.Resigned? || d.Preempt? ==> running.Keys != {} && d.resign == Begin(running))
            && (d.OnlyAssign? ==> running.Keys == {})
  {
  }

  /** A mapping that nobody uses moves no instance. */
  lemma MapAgree(s: State, pid: int, i: nat, all: TaskMap)
    requires Agree(s, all) && i == SlotOf(s.pidMap, pid)
    ensures Agree(s.(pidMap := s.pidMap[pid := i]), all)
  {
    var pidMap1 := s.pidMap[pid := i];
    forall k | 0 <= k < |s.slots| ensures T.Members(pidMap1, all, k) == T.Members(s.pidMap, all, k) {
      assert forall id :: id in T.Members(pidMap1, all, k) <==> id in T.Members(s.pidMap, all, k);
    }
  }

  lemma AddedAgree(s: State, t: Task, all: TaskMap)
    requires Configured(s) && Agree(s, all) && t.id !in all
    ensures Configured(Added(s, t)) && Agree(Added(s, t), all[t.id := t])
  {
    var i := SlotOf(s.pidMap, t.pid);
    var s1 := s.(pidMap := s.pidMap[t.pid := i]);
    MapAgree(s, t.pid, i, all);
    var r := Added(s, t);
    var all1 := all[t.id := t];
    forall k | 0 <= k < |r.slots| ensures Lists(r.slots[k].fifo, T.Members(r.pidMap, all1, k)) {
      var m := T.Members(s1.pidMap, all, k);
      assert Lists(s.slots[k].fifo, m);
      if k == i {
        PushLists(s.slots[i].fifo, m, t.id);
        assert T.Members(s1.pidMap, all1, k) == m + {t.id};
      } else {
        assert T.Members(s1.pidMap, all1, k) == m;
      }
    }
  }

  lemma RemovedAgree(s: State, t: Task, all: TaskMap)
    requires Configured(s) && Agree(s, all) && t.id in all && all[t.id].pid == t.pid
    ensures Configured(Removed(s, t)) && Agree(Removed(s, t), all - {t.id})
  {
    var i := SlotOf(s.pidMap, t.pid);
    assert s.pidMap[t.pid := i] == s.pidMap;
    var r := Removed(s, t);
    var all1 := all - {t.id};
    forall k | 0 <= k < |r.slots| ensures Lists(r.slots[k].fifo, T.Members(s.pidMap, all1, k)) {
      var m := T.Members(s.pidMap, all, k);
      assert Lists(s.slots[k].fifo, m);
      if k == i {
        EraseLists(s.slots[i].fifo, m, t.id);
        assert T.Members(s.pidMap, all1, k) == m - {t.id};
      } else {
        assert T.Members(s.pidMap, all1, k) == m;
      }
    }
    assert all == all1[t.id := all[t.id]];
  }

  /** The one map for processes and instances: queueing a task changes the filter of a key exactly when that key
      is its instance id and its process has another filter; so an instance id that is a process id spoils
      the filter of that process. */
  lemma FilterSpoiled(s: State, t: Task, key: int)
    requires Configured(s)
    ensures FilterOf(Added(s, t).filters, key) != FilterOf(s.filters, key) <==>
            key == t.id && FilterOf(s.filters, t.pid) != FilterOf(s.filters, t.id)
  {
    assert SlotOf(s.pidMap, t.pid) < |s.slots|;
  }

  // ---- what becomes of the filters ------------------------------------------------------------------

  /** The one map after these tasks have been queued in this order. */
  function Registered(filters: map<int, Filter>, ts: seq<Task>): map<int, Filter> {
    if ts == [] then filters
    else
      var before, last := Registered(filters, ts[..|ts| - 1]), ts[|ts| - 1];
      before[last.id := FilterOf(before, last.pid)]
  }

  /** Queueing the task overwrites no filter of a process, or overwrites it with an equal one. */
  predicate Harmless(t: Task, processes: map<int, Filter>) {
    t.id in processes ==> processes[t.id] == FilterOf(processes, t.pid)
  }

  predicate AllHarmless(ts: seq<Task>, processes: map<int, Filter>) {
    forall i :: 0 <= i < |ts| ==> Harmless(ts[i], processes)
  }

  /** Every task belongs to a process that has a filter. */
  predicate AllKnown(ts: seq<Task>, processes: map<int, Filter>) {
    forall i :: 0 <= i < |ts| ==> ts[i].pid in processes
  }

  /** Every process still has its filter. */
  predicate Keeps(filters: map<int, Filter>, processes: map<int, Filter>) {
    forall p :: p in processes ==> p in filters && filters[p] == processes[p]
  }

  lemma RegisteredSnoc(filters: map<int, Filter>, ts: seq<Task>, t: Task)
    ensures Registered(filters, ts + [t])
            == Registered(filters, ts)[t.id := FilterOf(Registered(filters, ts), t.pid)]
  {
    assert (ts + [t])[..|ts|] == ts;
  }

  lemma IdsFront(ts: seq<Task>)
    requires ts != [] && NoDup(TaskIds(ts))
    ensures var front := ts[..|ts| - 1]; NoDup(TaskIds(front)) && ts[|ts| - 1].id !in TaskIds(front)
  {
    var ids, front := TaskIds(ts), ts[..|ts| - 1];
    assert forall i :: 0 <= i < |front| ==> TaskIds(front)[i] == ids[i];
    assert ids[|ts| - 1] == ts[|ts| - 1].id;
  }

  /** Only the keys of queued instances change. */
  lemma {:induction false} OthersUntouched(filters: map<int, Filter>, ts: seq<Task>, key: int)
    requires key !in TaskIds(ts)
    ensures var r := Registered(filters, ts);
            (key in r <==> key in filters) && FilterOf(r, key) == FilterOf(filters, key)
  {
    if ts != [] {
      var front := ts[..|ts| - 1];
      assert TaskIds(ts)[|ts| - 1] == ts[|ts| - 1].id;
      assert forall i :: 0 <= i < |front| ==> TaskIds(front)[i] == TaskIds(ts)[i];
      OthersUntouched(filters, front, key);
    }
  }

  /** The exact condition: when only tasks of known processes are queued, all processes keep their filters if
      and only if every one of those tasks is harmless. */
  lemma {:induction false} KeepsExactly(processes: map<int, Filter>, ts: seq<Task>)
    requires NoDup(TaskIds(ts)) && AllKnown(ts, processes)
    ensures Keeps(Registered(processes, ts), processes) <==> AllHarmless(ts, processes)
  {
    if ts != [] {
      var front, last := ts[..|ts| - 1], ts[|ts| - 1];
      IdsFront(ts);
      KeepsExactly(processes, front);
      assert AllHarmless(ts, processes) <==> AllHarmless(front, processes) && Harmless(last, processes);
      OthersUntouched(processes, front, last.id);
      var before := Registered(processes, front);
      assert forall p :: p in processes && p != last.id ==>
               && (p in Registered(processes, ts) <==> p in before)
               && FilterOf(Registered(processes, ts), p) == FilterOf(before, p);
      if Keeps(before, processes) {
        assert FilterOf(before, last.pid) == processes[last.pid];
      }
    }
  }

  /** An instance keeps the filter that its process had when it was queued. */
  lemma {:induction false} OwnFilter(filters: map<int, Filter>, ts: seq<Task>, i: nat)
    requires NoDup(TaskIds(ts)) && i < |ts|
    ensures FilterOf(Registered(filters, ts), ts[i].id) == FilterOf(Registered(filters, ts[..i]), ts[i].pid)
  {
    var front := ts[..|ts| - 1];
    if i < |front| {
      IdsFront(ts);
      OwnFilter(filters, front, i);
      assert front[..i] == ts[..i] && TaskIds(front)[i] == ts[i].id;
    }
  }

  /** If all tasks are harmless, that is the filter configured for its process. */
  lemma ConfiguredFilter(processes: map<int, Filter>, ts: seq<Task>, i: nat)
    requires NoDup(TaskIds(ts)) && i < |ts| && AllKnown(ts, processes) && AllHarmless(ts, processes)
    ensures FilterOf(Registered(processes, ts), ts[i].id) == processes[ts[i].pid]
  {
    OwnFilter(processes, ts, i);
    var before := ts[..i];
    assert forall k :: 0 <= k < i ==> TaskIds(before)[k] == TaskIds(ts)[k];
    KeepsExactly(processes, before);
  }

  class TimeTriggeredCcScheduler {
    var slots: seq<T.Slot>
    var pidMap: map<int, nat>
    var filters: map<int, Filter>
    var currSliceCount: int
    var cycleCount: int
    var remainingSlice: Time
    var lastAssign: Time
    var processCount: int

    function Abs(): State
      reads this
    {
      State(slots, pidMap, filters, currSliceCount, cycleCount, remainingSlice, lastAssign, processCount)
    }

    /** The configuration names the slots, and for every mapped process its slot and filter. */
    constructor (slots: seq<T.Slot>, pidMap: map<int, nat>, filters: map<int, Filter>)
      ensures Abs() == State(slots, pidMap, filters, -1, 0, 0.0, 0.0, 0)
    {
      this.slots, this.pidMap, this.filters := slots, pidMap, filters;
      currSliceCount, cycleCount, remainingSlice, lastAssign, processCount := -1, 0, 0.0, 0.0, 0;
    }

    method AddedNewTask(t: Task)
      modifies this
      ensures Abs() == Added(old(Abs()), t)
    {
      var index := SlotOf(pidMap, t.pid);
      pidMap := pidMap[t.pid := index];
      if index < |slots| {
        slots := slots[index := slots[index].(fifo := slots[index].fifo + [t.id])];
        filters := filters[t.id := FilterOf(filters, t.pid)];
      }
      processCount := processCount + 1;
    }

    method RemovedTask(t: Task)
      modifies this
      ensures Abs() == Removed(old(Abs()), t)
    {
      var index := SlotOf(pidMap, t.pid);
      pidMap := pidMap[t.pid := index];
      if index < |slots| {
        var fifo := EraseFirst(slots[index].fifo, t.id);
        slots := slots[index := slots[index].(fifo := fifo)];
      }
      processCount := processCount - 1;
    }

    /** The search loop over the deque of a slot. */
    method FindAllowed(slot: int, within: bool) returns (found: Option<int>)
      ensures found == FirstAllowed(FifoOf(slots, slot), filters, cycleCount, within)
    {
      var fifo := FifoOf(slots, slot);
      var tempCount := 0;
      while tempCount < |fifo|
        invariant 0 <= tempCount <= |fifo|
        invariant FirstAllowed(fifo, filters, cycleCount, within)
                  == FirstAllowed(fifo[tempCount..], filters, cycleCount, within)
      {
        assert fifo[tempCount..][1..] == fifo[tempCount + 1..];
        if Allowed(FilterOf(filters, fifo[tempCount]), cycleCount, within) {
          return Some(fifo[tempCount]);
        }
        tempCount := tempCount + 1;
      }
      return None;
    }

    method UseUp(now: Time)
      modifies this`remainingSlice, this`lastAssign
      ensures Abs() == Elapse(old(Abs()), now)
    {
      if remainingSlice < now - lastAssign {
        remainingSlice := 0.0;
      } else {
        remainingSlice := remainingSlice - (now - lastAssign);
      }
      lastAssign := now;
    }

    method SchedulingDecision(now: Time, running: TaskMap) returns (d: Decision)
      requires |slots| > 0
      modifies this
      ensures (d, Abs()) == Decide(old(Abs()), now, running)
    {
      if currSliceCount + 1 < |slots| {
        d := StaticDecision(now, running);
      } else if remainingSlice > 0.0 {
        UseUp(now);
        d := NoChange;
      } else {
        currSliceCount := -1;
        cycleCount := cycleCount + 1;
        d := StaticDecision(now, running);
      }
    }

    method StaticDecision(now: Time, running: TaskMap) returns (d: Decision)
      modifies this
      ensures (d, Abs()) == StaticStep(Elapse(old(Abs()), now), running)
    {
      UseUp(now);
      if remainingSlice <= 0.0 {
        currSliceCount := currSliceCount + 1;
        remainingSlice := LengthOf(slots, currSliceCount);
        var found := FindAllowed(currSliceCount, false);
        if found == None {
          d := if running.Keys != {} then Resigned(Begin(running)) else NoChange;
        } else {
          d := if running.Keys != {} then Preempt(Begin(running), found.value) else OnlyAssign(found.value);
        }
      } else {
        d := NoChange;
        if running.Keys == {} {
          var found := FindAllowed(currSliceCount, true);
          if found != None {
            d := OnlyAssign(found.value);
          }
        }
      }
    }

    method GetSchedulerTimeSlice(running: TaskMap) returns (time: Option<Time>)
      ensures time == TimeSlice(Abs(), running)
    {
      if processCount == 0 && running.Keys == {} {
        return None;
      }
      return Some(if currSliceCount == -1 then 0.0 else remainingSlice);
    }
  }
}
