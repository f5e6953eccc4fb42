/** Time division: a cycle of slots of individual length, each with its own deque
    (TDMAScheduler.cpp).  The slot table is an ordered map from start offset to slot index. */
module TdmaScheduling {
  import opened Basics

  datatype Slot = Slot(name: string, length: Time, fifo: seq<int>)

  datatype State = State(slots: seq<Slot>, offsets: map<Time, nat>, cycle: Time,
                         pidMap: map<int, nat>, processCount: int)

  const DEFAULT_SLOT: string := "slot0"
  const DEFAULT_LENGTH: Time := 10.0

  /** Remainder of the simulated time in the cycle. */
  function CycleTime(now: Time, cycle: Time): Time
    requires cycle != 0.0
  {
    now - cycle * (now / cycle).Floor as real
  }

  // ---- ordered-map lookups -------------------------------------------------------------

  function Ahead(x: Time): real { x }

  function Back(x: Time): real { 0.0 - x }

  /** `upper_bound`: the least key beyond x. */
  function UpperBound(offsets: map<Time, nat>, x: Time): (r: Option<Time>)
    ensures r.None? ==> forall k :: k in offsets ==> k <= x
    ensures r.Some? ==> r.value in offsets && x < r.value && forall k :: k in offsets && x < k ==> r.value <= k
  {
    var beyond := set k | k in offsets && x < k;
    if beyond == {} then
      assert forall k :: k in offsets && x < k ==> k in beyond;
      None
    else
      LeastExists(beyond, Ahead);
      var k :| k in beyond && forall j :: j in beyond ==> k <= j;
      assert forall j :: j in offsets && x < j ==> j in beyond;
      Some(k)
  }

  /** The entry before `upper_bound`: the greatest key not beyond x. */
  function FloorKey(offsets: map<Time, nat>, x: Time): (r: Option<Time>)
    ensures r.None? ==> forall k :: k in offsets ==> x < k
    ensures r.Some? ==> r.value in offsets && r.value <= x && forall k :: k in offsets && k <= x ==> k <= r.value
  {
    var upTo := set k | k in offsets && k <= x;
    if upTo == {} then
      assert forall k :: k in offsets && k <= x ==> k in upTo;
      None
    else
      LeastExists(upTo, Back);
      var k :| k in upTo && forall j :: j in upTo ==> j <= k;
      assert forall j :: j in offsets && j <= x ==> j in upTo;
      Some(k)
  }

  // ---- operations ----------------------------------------------------------------------

  function AddSlot(s: State, name: string, length: Time): State {
    s.(offsets := s.offsets[s.cycle := |s.slots|],
       slots := s.slots + [Slot(name, length, [])],
       cycle := s.cycle + length)
  }

  /** The slot a mapping names: the first slot of that name, or the last slot if there is none. */
  function FindSlot(slots: seq<Slot>, name: string): (i: nat)
    requires |slots| > 0
    ensures i < |slots| && forall k :: 0 <= k < i ==> slots[k].name != name
    ensures slots[i].name == name || i == |slots| - 1
  {
    if slots[0].name == name || |slots| == 1 then 0 else 1 + FindSlot(slots[1..], name)
  }

  function MapProcess(s: State, pid: int, name: string): State
    requires |s.slots| > 0
  {
    s.(pidMap := s.pidMap[pid := FindSlot(s.slots, name)])
  }

  /** A process without a slot is mapped to the default one, which is created when no slot exists. */
  function WithSlot(s: State, pid: int): (r: State)
    ensures pid in r.pidMap
  {
    if pid in s.pidMap then s
    else MapProcess(if |s.slots| == 0 then AddSlot(s, DEFAULT_SLOT, DEFAULT_LENGTH) else s, pid, DEFAULT_SLOT)
  }

  function SetFifo(s: State, i: nat, fifo: seq<int>): State {
    if i < |s.slots| then s.(slots := s.slots[i := s.slots[i].(fifo := fifo)]) else s
  }

  function FifoOf(s: State, i: nat): seq<int> {
    if i < |s.slots| then s.slots[i].fifo else []
  }

  function Added(s: State, t: Task): State {
    var s1 := WithSlot(s, t.pid);
    var i := s1.pidMap[t.pid];
    SetFifo(s1, i, FifoOf(s1, i) + [t.id]).(processCount := s.processCount + 1)
  }

  function Removed(s: State, t: Task): State {
    var i := if t.pid in s.pidMap then s.pidMap[t.pid] else 0;
    SetFifo(s, i, Erase(FifoOf(s, i), t.id)).(processCount := s.processCount - 1)
  }

  /** The slot containing the current instant. */
  function CurrentSlot(s: State, now: Time): nat
    requires s.cycle != 0.0
  {
    match FloorKey(s.offsets, CycleTime(now, s.cycle))
    case Some(start) => s.offsets[start]
    case None => 0
  }

  /** Time left in that slot. */
  function RemainingSlice(s: State, now: Time): Time
    requires s.cycle != 0.0
  {
    var x := CycleTime(now, s.cycle);
    match UpperBound(s.offsets, x)
    case Some(next) => next - x
    case None => s.cycle - x
  }

  predicate DecisionAssert(s: State, now: Time) {
    s.cycle != 0.0 && FloorKey(s.offsets, CycleTime(now, s.cycle)).Some?
  }

  /** The decision for the deque of the current slot: its front runs, or nobody. */
  function DecideFor(fifo: seq<int>, running: TaskMap): Decision {
    if running.Keys != {} then
      var r := Begin(running);
      if fifo == [] then Resigned(r)
      else if fifo[0] == r then NoChange
      else Preempt(r, fifo[0])
    else if fifo == [] then NoChange
    else OnlyAssign(fifo[0])
  }

  function Decide(s: State, now: Time, running: TaskMap): Decision {
    DecideFor(if s.cycle == 0.0 then [] else FifoOf(s, CurrentSlot(s, now)), running)
  }

  function TimeSlice(s: State, now: Time, running: TaskMap): Option<Time> {
    if (s.processCount == 0 && running.Keys == {}) || s.cycle == 0.0 then None
    else Some(RemainingSlice(s, now))
  }

  // ---- the slot table --------------------------------------------------------------------

  /** Start of slot i by summing the lengths before it. */
  function Offset(slots: seq<Slot>, i: nat): Time
    requires i <= |slots|
  {
    if i == 0 then 0.0 else Offset(slots, i - 1) + slots[i - 1].length
  }

  /** The slot containing x by walking the slots in order: the reference for the map lookups. */
  function Scan(slots: seq<Slot>, x: Time): nat {
    if |slots| <= 1 || x < slots[0].length then 0 else 1 + Scan(slots[1..], x - slots[0].length)
  }

  predicate IsSlot(slots: seq<Slot>, i: int) {
    0 <= i < |slots|
  }

  /** Positive slot lengths and a table that agrees with them. */
  ghost predicate Consistent(s: State) {
    && (forall i :: 0 <= i < |s.slots| ==> 0.0 < s.slots[i].length)
    && s.cycle == Offset(s.slots, |s.slots|)
    && (forall i {:trigger IsSlot(s.slots, i)} :: IsSlot(s.slots, i) ==>
          Offset(s.slots, i) in s.offsets && s.offsets[Offset(s.slots, i)] == i)
    && (forall k {:trigger k in s.offsets} :: k in s.offsets ==>
          s.offsets[k] < |s.slots| && Offset(s.slots, s.offsets[k]) == k)
    && (forall p :: p in s.pidMap ==> s.pidMap[p] < |s.slots|)
  }

  ghost predicate Configured(s: State) {
    |s.slots| > 0 && Consistent(s)
  }

  const EMPTY: State := State([], map[], 0.0, map[], 0)

  lemma {:induction false} OffsetMonotone(slots: seq<Slot>, i: nat, j: nat)
    requires i < j <= |slots| && forall k :: 0 <= k < |slots| ==> 0.0 < slots[k].length
    ensures Offset(slots, i) < Offset(slots, j)
    decreases j
  {
    if i < j - 1 {
      OffsetMonotone(slots, i, j - 1);
    }
  }

  lemma {:induction false} OffsetFrame(a: seq<Slot>, b: seq<Slot>, i: nat)
    requires i <= |a| && i <= |b| && forall k :: 0 <= k < i ==> a[k].length == b[k].length
    ensures Offset(a, i) == Offset(b, i)
  {
    if i > 0 {
      OffsetFrame(a, b, i - 1);
    }
  }

  lemma {:induction false} OffsetTail(slots: seq<Slot>, i: nat)
    requires 0 < i <= |slots|
    ensures Offset(slots, i) == slots[0].length + Offset(slots[1..], i - 1)
  {
    if i > 1 {
      OffsetTail(slots, i - 1);
    } else {
      assert Offset(slots, 1) == Offset(slots, 0) + slots[0].length;
    }
  }

  /** Adding a slot at the end of the cycle, be it the first one, keeps the table in agreement with the lengths. */
  lemma AddSlotConfigured(s: State, name: string, length: Time)
    requires Consistent(s) && 0.0 < length
    ensures Configured(AddSlot(s, name, length))
  {
    var r := AddSlot(s, name, length);
    forall i | 0 <= i <= |s.slots| ensures Offset(r.slots, i) == Offset(s.slots, i) {
      OffsetFrame(s.slots, r.slots, i);
    }
    forall i | 0 <= i < |s.slots| ensures Offset(s.slots, i) < s.cycle {
      OffsetMonotone(s.slots, i, |s.slots|);
    }
    forall i {:trigger IsSlot(r.slots, i)} | IsSlot(r.slots, i)
      ensures Offset(r.slots, i) in r.offsets && r.offsets[Offset(r.slots, i)] == i
    {
      assert i < |s.slots| ==> IsSlot(s.slots, i);
    }
  }

  /** The slot walk places x between the offsets of the slot it returns. */
  lemma {:induction false} ScanBetween(slots: seq<Slot>, x: Time)
    requires |slots| > 0 && 0.0 <= x < Offset(slots, |slots|)
    requires forall k :: 0 <= k < |slots| ==> 0.0 < slots[k].length
    ensures Scan(slots, x) < |slots|
    ensures Offset(slots, Scan(slots, x)) <= x < Offset(slots, Scan(slots, x) + 1)
  {
    if |slots| <= 1 || x < slots[0].length {
      assert Offset(slots, 1) == Offset(slots, 0) + slots[0].length;
    } else {
      OffsetTail(slots, |slots|);
      ScanBetween(slots[1..], x - slots[0].length);
      var i := Scan(slots[1..], x - slots[0].length);
      OffsetTail(slots, i + 1);
      OffsetTail(slots, i + 2);
    }
  }

  lemma QuotientAbove(a: real, c: real, f: real)
    requires 0.0 < c && a / c < f + 1.0
    ensures a < c * f + c
  {
    var q := a / c;
    var d := f + 1.0 - q;
    assert c * q == a && 0.0 < c * d;
    assert c * d == c * f + c - c * q;
  }

  /** The remainder lies in the cycle, a whole number of cycles below the time. */
  lemma CycleTimeBounds(now: Time, cycle: Time)
    requires 0.0 < cycle
    ensures 0.0 <= CycleTime(now, cycle) < cycle
  {
    var f := (now / cycle).Floor as real;
    QuotientAbove(now, cycle, f);
  }

  /** The map lookups agree with the slot walk: the entry before `upper_bound` is the slot that
      contains the instant, and the slice runs exactly to the end of that slot. */
  lemma LookupIsScan(s: State, now: Time)
    requires Configured(s)
    ensures 0.0 < s.cycle && DecisionAssert(s, now)
    ensures var x := CycleTime(now, s.cycle);
            var i := Scan(s.slots, x);
            && i < |s.slots|
            && CurrentSlot(s, now) == i
            && Offset(s.slots, i) <= x < Offset(s.slots, i + 1)
            && RemainingSlice(s, now) == Offset(s.slots, i + 1) - x
  {
    OffsetMonotone(s.slots, 0, |s.slots|);
    CycleTimeBounds(now, s.cycle);
    var x := CycleTime(now, s.cycle);
    ScanBetween(s.slots, x);
    LookupsAt(s, x, Scan(s.slots, x));
    hide Scan, FloorKey, UpperBound, CycleTime;
  }

  /** What the two lookups find for an instant of slot i. */
  lemma LookupsAt(s: State, x: Time, i: nat)
    requires Configured(s) && i < |s.slots| && Offset(s.slots, i) <= x < Offset(s.slots, i + 1)
    ensures FloorKey(s.offsets, x) == Some(Offset(s.slots, i)) && Offset(s.slots, i) in s.offsets
            && s.offsets[Offset(s.slots, i)] == i
    ensures UpperBound(s.offsets, x) == if i + 1 < |s.slots| then Some(Offset(s.slots, i + 1)) else None
    ensures i + 1 == |s.slots| ==> Offset(s.slots, i + 1) == s.cycle
  {
    hide FloorKey, UpperBound;
    NoOffsetInside(s, i);
    assert IsSlot(s.slots, i) && Offset(s.slots, i) in s.offsets;
    if i + 1 < |s.slots| {
      assert IsSlot(s.slots, i + 1);
      assert Offset(s.slots, i + 1) in s.offsets;
    }
  }

  /** No table entry lies strictly inside a slot, and none at or beyond the end of the cycle. */
  lemma NoOffsetInside(s: State, i: nat)
    requires Configured(s) && i < |s.slots|
    ensures forall k :: k in s.offsets ==> k <= Offset(s.slots, i) || (Offset(s.slots, i + 1) <= k && i + 1 < |s.slots|)
  {
    forall k | k in s.offsets
      ensures k <= Offset(s.slots, i) || (Offset(s.slots, i + 1) <= k && i + 1 < |s.slots|)
    {
      var j := s.offsets[k];
      if j < i {
        OffsetMonotone(s.slots, j, i);
      } else if i + 1 < j {
        OffsetMonotone(s.slots, i + 1, j);
      }
    }
  }

  // ---- agreement with the component --------------------------------------------------------

  /** The instances whose process is mapped to slot i. */
  ghost function Members(pidMap: map<int, nat>, all: TaskMap, i: nat): set<int> {
    set id | id in all && all[id].pid in pidMap && pidMap[all[id].pid] == i
  }

  /** Every instance of the component is in the deque of its own slot, once, and nowhere else. */
  ghost predicate Agree(s: State, all: TaskMap) {
    && (forall id :: id in all ==> all[id].pid in s.pidMap)
    && (forall i :: 0 <= i < |s.slots| ==> Lists(s.slots[i].fifo, Members(s.pidMap, all, i)))
    && s.processCount == |all|
  }

  lemma SetFifoConfigured(s: State, i: nat, fifo: seq<int>, count: int)
    requires Configured(s)
    ensures Configured(SetFifo(s, i, fifo).(processCount := count))
  {
    var r := SetFifo(s, i, fifo);
    forall k | 0 <= k <= |s.slots| ensures Offset(r.slots, k) == Offset(s.slots, k) {
      OffsetFrame(s.slots, r.slots, k);
    }
    forall k {:trigger IsSlot(r.slots, k)} | IsSlot(r.slots, k)
      ensures Offset(r.slots, k) in r.offsets && r.offsets[Offset(r.slots, k)] == k
    {
      assert IsSlot(s.slots, k);
    }
  }

  /** Mapping a process nobody uses moves no instance; without any slot the default one is made up first. */
  lemma WithSlotAgree(s: State, pid: int, all: TaskMap)
    requires Consistent(s) && Agree(s, all)
    ensures Configured(WithSlot(s, pid)) && Agree(WithSlot(s, pid), all)
    ensures WithSlot(s, pid).processCount == s.processCount
    ensures |s.slots| > 0 ==> WithSlot(s, pid).slots == s.slots
    ensures |s.slots| == 0 ==> all == map[] && WithSlot(s, pid).slots == [Slot(DEFAULT_SLOT, DEFAULT_LENGTH, [])]
  {
    if |s.slots| == 0 {
      assert all == map[] by {
        assert forall id :: id !in all;
      }
      AddSlotConfigured(s, DEFAULT_SLOT, DEFAULT_LENGTH);
    } else {
      MapProcessAgree(s, pid, all);
    }
  }

  lemma MapProcessAgree(s: State, pid: int, all: TaskMap)
    requires Configured(s) && Agree(s, all)
    ensures Configured(WithSlot(s, pid)) && Agree(WithSlot(s, pid), all)
  {
    var s1 := WithSlot(s, pid);
    assert forall id :: id in all ==> s1.pidMap[all[id].pid] == s.pidMap[all[id].pid];
    forall k | 0 <= k < |s.slots| ensures Members(s1.pidMap, all, k) == Members(s.pidMap, all, k) {
      assert forall id :: id in all ==> all[id].pid in s1.pidMap;
      assert forall id :: id in Members(s1.pidMap, all, k) <==> id in Members(s.pidMap, all, k);
    }
  }

  lemma PushAgree(s: State, t: Task, all: TaskMap)
    requires Configured(s) && Agree(s, all) && t.id !in all && t.pid in s.pidMap
    ensures var i := s.pidMap[t.pid];
            Agree(SetFifo(s, i, FifoOf(s, i) + [t.id]).(processCount := s.processCount + 1), all[t.id := t])
  {
    var i := s.pidMap[t.pid];
    var q := FifoOf(s, i);
    var all1 := all[t.id := t];
    forall k | 0 <= k < |s.slots|
      ensures Lists(SetFifo(s, i, q + [t.id]).slots[k].fifo, Members(s.pidMap, all1, k))
    {
      var m := Members(s.pidMap, all, k);
      if k == i {
        PushLists(q, m, t.id);
        assert Members(s.pidMap, all1, k) == m + {t.id};
      } else {
        assert Members(s.pidMap, all1, k) == m;
      }
    }
  }

  lemma AddedAgree(s: State, t: Task, all: TaskMap)
    requires Consistent(s) && Agree(s, all) && t.id !in all
    ensures Configured(Added(s, t)) && Agree(Added(s, t), all[t.id := t])
  {
    WithSlotAgree(s, t.pid, all);
    var s1 := WithSlot(s, t.pid);
    var i := s1.pidMap[t.pid];
    SetFifoConfigured(s1, i, FifoOf(s1, i) + [t.id], s.processCount + 1);
    PushAgree(s1, t, all);
  }

  lemma RemovedAgree(s: State, t: Task, all: TaskMap)
    requires Configured(s) && Agree(s, all) && t.id in all && all[t.id].pid == t.pid
    ensures Configured(Removed(s, t)) && Agree(Removed(s, t), all - {t.id})
  {
    var i := s.pidMap[t.pid];
    var q := FifoOf(s, i);
    var all1 := all - {t.id};
    SetFifoConfigured(s, i, Erase(q, t.id), s.processCount - 1);
    forall k | 0 <= k < |s.slots|
      ensures Lists(Removed(s, t).slots[k].fifo, Members(s.pidMap, all1, k))
    {
      var m := Members(s.pidMap, all, k);
      if k == i {
        EraseLists(q, m, t.id);
        assert Members(s.pidMap, all1, k) == m - {t.id};
      } else {
        assert Members(s.pidMap, all1, k) == m;
      }
    }
    assert all == all1[t.id := all[t.id]];
  }

  class TdmaScheduler {
    var tdmaCycle: Time
    var slotOffsets: map<Time, nat>
    var tdmaSlots: seq<Slot>
    var pidMap: map<int, nat>
    var processCount: int

    function Abs(): State
      reads this
    {
      State(tdmaSlots, slotOffsets, tdmaCycle, pidMap, processCount)
    }

    constructor ()
      ensures Abs() == EMPTY && Consistent(Abs())
    {
      tdmaCycle, slotOffsets, tdmaSlots, pidMap, processCount := 0.0, map[], [], map[], 0;
    }

    method SetSlot(name: string, length: Time)
      modifies this
      ensures Abs() == AddSlot(old(Abs()), name, length)
    {
      slotOffsets := slotOffsets[tdmaCycle := |tdmaSlots|];
      tdmaSlots := tdmaSlots + [Slot(name, length, [])];
      tdmaCycle := tdmaCycle + length;
    }

    method SetMapping(pid: int, name: string)
      requires |tdmaSlots| > 0
      modifies this
      ensures Abs() == MapProcess(old(Abs()), pid, name)
    {
      var i := 0;
      while tdmaSlots[i].name != name && i + 1 < |tdmaSlots|
        invariant i < |tdmaSlots|
        invariant FindSlot(tdmaSlots, name) == i + FindSlot(tdmaSlots[i..], name)
      {
        assert tdmaSlots[i..][1..] == tdmaSlots[i + 1..];
        i := i + 1;
      }
      pidMap := pidMap[pid := i];
    }

    method AddedNewTask(t: Task)
      modifies this
      ensures Abs() == Added(old(Abs()), t)
    {
      if t.pid !in pidMap {
        if |tdmaSlots| == 0 {
          SetSlot(DEFAULT_SLOT, DEFAULT_LENGTH);
        }
        SetMapping(t.pid, DEFAULT_SLOT);
      }
      var i := pidMap[t.pid];
      if i < |tdmaSlots| {
        tdmaSlots := tdmaSlots[i := tdmaSlots[i].(fifo := tdmaSlots[i].fifo + [t.id])];
      }
      processCount := processCount + 1;
    }

    method RemovedTask(t: Task)
      modifies this
      ensures Abs() == Removed(old(Abs()), t)
    {
      var i := if t.pid in pidMap then pidMap[t.pid] else 0;
      if i < |tdmaSlots| {
        var fifo := EraseFirst(tdmaSlots[i].fifo, t.id);
        assert fifo == Erase(FifoOf(Abs(), i), t.id);
        tdmaSlots := tdmaSlots[i := tdmaSlots[i].(fifo := fifo)];
      }
      processCount := processCount - 1;
    }

    method SchedulingDecision(now: Time, running: TaskMap) returns (d: Decision)
      requires DecisionAssert(Abs(), now)
      ensures d == Decide(Abs(), now, running)
    {
      var cycleTime := CycleTime(now, tdmaCycle);
      var it := FloorKey(slotOffsets, cycleTime);
      var current := slotOffsets[it.value];
      var fifo := if current < |tdmaSlots| then tdmaSlots[current].fifo else [];
      if running.Keys != {} {
        var runningTask := Begin(running);
        if |fifo| > 0 && fifo[0] == runningTask {
          return NoChange;
        }
        d := Resigned(runningTask);
        if |fifo| > 0 {
          d := Preempt(runningTask, fifo[0]);
        }
        return;
      }
      return if |fifo| > 0 then OnlyAssign(fifo[0]) else NoChange;
    }

    method GetSchedulerTimeSlice(now: Time, running: TaskMap) returns (time: Option<Time>)
      requires tdmaCycle != 0.0
      ensures time == TimeSlice(Abs(), now, running)
    {
      if processCount == 0 && running.Keys == {} {
        return None;
      }
      var cycleTime := CycleTime(now, tdmaCycle);
      var it := UpperBound(slotOffsets, cycleTime);
      var remaining := if it.None? then tdmaCycle - cycleTime else it.value - cycleTime;
      return Some(remaining);
    }
  }
}
