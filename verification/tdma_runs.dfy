/** Whole runs under TDMA: temporal isolation of the slots at every instant, and the share of the
    resource that the tasks of a slot can get. */
module TdmaRuns {
  import opened Basics
  import opened Component
  import T = TdmaScheduling
  import C = Conservation
  import S = Scheduling

  // ---- slot windows on the time axis ---------------------------------------------------------------------

  /** Number of the cycle that contains an instant. */
  function CycleNo(cycle: Time, t: Time): int
    requires cycle != 0.0
  {
    (t / cycle).Floor
  }

  /** Where cycle number m starts: m whole cycles after time zero. */
  function CycleStart(cycle: Time, m: int): Time
    decreases if m < 0 then -m else m
  {
    if m == 0 then 0.0
    else if m > 0 then CycleStart(cycle, m - 1) + cycle
    else CycleStart(cycle, m + 1) - cycle
  }

  lemma {:induction false} CycleStartIs(cycle: Time, m: int)
    ensures CycleStart(cycle, m) == cycle * m as real
    decreases if m < 0 then -m else m
  {
    if m > 0 {
      CycleStartIs(cycle, m - 1);
      assert m as real == (m - 1) as real + 1.0;
    } else if m < 0 {
      CycleStartIs(cycle, m + 1);
      assert m as real == (m + 1) as real - 1.0;
    }
  }

  /** Where slot i starts in cycle number m; it ends where slot i + 1 would start. */
  function WindowStart(t: T.State, m: int, i: nat): Time
    requires i <= |t.slots|
  {
    CycleStart(t.cycle, m) + T.Offset(t.slots, i)
  }

  lemma CycleNoUnique(cycle: Time, t: Time, m: int)
    requires 0.0 < cycle && CycleStart(cycle, m) <= t < CycleStart(cycle, m) + cycle
    ensures CycleNo(cycle, t) == m
  {
    CycleStartIs(cycle, m);
    Within(cycle, m as real, t / cycle, t);
  }

  lemma Within(c: real, r: real, q: real, t: real)
    requires 0.0 < c && q == t / c && c * r <= t < c * r + c
    ensures r <= q < r + 1.0
  {
    assert c * q == t;
    Cancel(c, r, q);
    assert c * (r + 1.0) == c * r + c;
    Cancel(c, r + 1.0, q);
  }

  lemma Cancel(c: real, a: real, b: real)
    requires 0.0 < c
    ensures c * a <= c * b <==> a <= b
  {
    var d := b - a;
    assert c * b == c * a + c * d;
    assert 0.0 <= d ==> 0.0 <= c * d;
    assert d < 0.0 ==> c * d < 0.0;
  }

  /** Whole cycles and remainder make up the time. */
  lemma TimeSplit(cycle: Time, now: Time)
    requires cycle != 0.0
    ensures now == CycleStart(cycle, CycleNo(cycle, now)) + T.CycleTime(now, cycle)
  {
    CycleStartIs(cycle, CycleNo(cycle, now));
  }

  lemma {:induction false} ScanUnique(slots: seq<T.Slot>, x: Time, i: nat)
    requires i < |slots| && forall k :: 0 <= k < |slots| ==> 0.0 < slots[k].length
    requires T.Offset(slots, i) <= x < T.Offset(slots, i + 1)
    ensures T.Scan(slots, x) == i
  {
    if i == 0 {
      assert T.Offset(slots, 1) == T.Offset(slots, 0) + slots[0].length;
    } else {
      T.OffsetTail(slots, i);
      T.OffsetTail(slots, i + 1);
      if i > 1 {
        T.OffsetMonotone(slots[1..], 0, i - 1);
      }
      ScanUnique(slots[1..], x - slots[0].length, i - 1);
    }
  }

  /** An instant lies in the window of its current slot, and the slice ends with the window. */
  lemma InWindow(t: T.State, now: Time)
    requires T.Configured(t)
    ensures 0.0 < t.cycle
    ensures var i := T.CurrentSlot(t, now);
            var m := CycleNo(t.cycle, now);
            && i < |t.slots|
            && WindowStart(t, m, i) <= now < WindowStart(t, m, i + 1)
            && now + T.RemainingSlice(t, now) == WindowStart(t, m, i + 1)
  {
    Positive(t, now);
    var i := T.CurrentSlot(t, now);
    assert i < |t.slots| && T.Offset(t.slots, i) <= T.CycleTime(now, t.cycle) < T.Offset(t.slots, i + 1)
      && T.RemainingSlice(t, now) == T.Offset(t.slots, i + 1) - T.CycleTime(now, t.cycle) by {
      T.LookupIsScan(t, now);
    }
    TimeSplit(t.cycle, now);
  }

  lemma Positive(t: T.State, now: Time)
    requires T.Configured(t)
    ensures 0.0 < t.cycle
  {
    T.LookupIsScan(t, now);
  }

  /** Every instant of a window has that slot as its current slot. */
  lemma WindowSlot(t: T.State, m: int, i: nat, now: Time)
    requires T.Configured(t) && i < |t.slots| && WindowStart(t, m, i) <= now < WindowStart(t, m, i + 1)
    ensures t.cycle != 0.0 && T.CurrentSlot(t, now) == i
  {
    Positive(t, now);
    OffsetsInCycle(t, i);
    RemainderAt(t, m, i, now);
    ScanUnique(t.slots, T.CycleTime(now, t.cycle), i);
    T.LookupIsScan(t, now);
  }

  lemma RemainderAt(t: T.State, m: int, i: nat, now: Time)
    requires 0.0 < t.cycle && i < |t.slots| && 0.0 <= T.Offset(t.slots, i) && T.Offset(t.slots, i + 1) <= t.cycle
    requires WindowStart(t, m, i) <= now < WindowStart(t, m, i + 1)
    ensures T.Offset(t.slots, i) <= T.CycleTime(now, t.cycle) < T.Offset(t.slots, i + 1)
  {
    CycleNoUnique(t.cycle, now, m);
    TimeSplit(t.cycle, now);
  }

  lemma OffsetsInCycle(t: T.State, i: nat)
    requires T.Configured(t) && i < |t.slots|
    ensures 0.0 <= T.Offset(t.slots, i) && T.Offset(t.slots, i + 1) <= t.cycle
  {
    if i > 0 {
      T.OffsetMonotone(t.slots, 0, i);
    }
    if i + 1 < |t.slots| {
      T.OffsetMonotone(t.slots, i + 1, |t.slots|);
    }
  }

  // ---- the invariant ---------------------------------------------------------------------------------------

  /** The slot a running instance is mapped to. */
  predicate RunsIn(s: State, i: nat) {
    s.policy.Tdma? && exists id :: id in s.comp.running && InSlot(s.policy.t, s.comp.running[id], i)
  }

  /** From its last charging up to the time-out a running instance stays inside one window of its slot. */
  ghost predicate Confined(s: State, m: int, i: nat) {
    && s.policy.Tdma? && i < |s.policy.t.slots| && s.deadline.Some?
    && WindowStart(s.policy.t, m, i) <= s.comp.assignedAt
    && s.deadline.value <= WindowStart(s.policy.t, m, i + 1)
  }

  ghost predicate Inv(s: State) {
    && C.Inv(s) && s.policy.Tdma?
    && forall i: nat :: RunsIn(s, i) ==> exists m :: Confined(s, m, i)
  }

  /** Slot table and known mappings never change. */
  predicate SameTable(a: T.State, b: T.State) {
    && |a.slots| == |b.slots| && (forall k :: 0 <= k < |a.slots| ==> a.slots[k].length == b.slots[k].length)
    && a.cycle == b.cycle && a.offsets == b.offsets
    && (forall p :: p in a.pidMap ==> p in b.pidMap && b.pidMap[p] == a.pidMap[p])
  }

  lemma SameWindow(a: T.State, b: T.State, m: int, i: nat)
    requires SameTable(a, b) && i <= |a.slots|
    ensures WindowStart(a, m, i) == WindowStart(b, m, i)
  {
    T.OffsetFrame(a.slots, b.slots, i);
  }

  lemma AddedTable(t: T.State, task: Task)
    requires |t.slots| > 0
    ensures SameTable(t, T.Added(t, task))
  {
  }

  lemma {:induction false} AddAllTable(c: Comp, t: T.State, ts: seq<Task>, now: Time)
    requires |t.slots| > 0
    ensures var p := AddAll(c, S.Tdma(t), ts, now).1; p.Tdma? && SameTable(t, p.t)
    decreases ts
  {
    if ts != [] {
      AddedTable(t, ts[0]);
      AddAllTable(ReleaseTask(c, ts[0], now), T.Added(t, ts[0]), ts[1..], now);
    }
  }

  lemma BeforeTable(s: State, now: Time, released: seq<Task>)
    requires C.Inv(s) && s.policy.Tdma?
    ensures var p := BeforeDecision(s, released, now).1; p.Tdma? && SameTable(s.policy.t, p.t)
  {
    var (c1, p1) := ChargeRunning(s.comp, s.policy, now);
    AddAllTable(c1, p1.t, released, now);
  }

  /** The decision leaves the front of the deque running, or nothing when it is empty. */
  lemma FrontRuns(fifo: seq<int>, ready: TaskMap, running: TaskMap)
    requires S.Tidy(ready, running) && (fifo != [] ==> fifo[0] in ready || fifo[0] in running)
    ensures var running1 := S.After(T.DecideFor(fifo, running), ready, running).1;
            && running1.Keys == (if fifo == [] then {} else {fifo[0]})
            && (fifo != [] ==> running1[fifo[0]] == (ready + running)[fifo[0]])
  {
    if running.Keys != {} {
      S.MoveBack(ready, running, Begin(running));
    }
  }

  predicate InSlot(t: T.State, task: Task, slot: nat) {
    task.pid in t.pidMap && t.pidMap[task.pid] == slot
  }

  lemma DecisionServesSlot(c: Comp, t: T.State, now: Time)
    requires C.Sound(c, S.Tdma(t), now) && C.UpToDate(c, now) && t.cycle != 0.0
    requires T.CurrentSlot(t, now) < |t.slots|
    ensures var slot := T.CurrentSlot(t, now);
            var fifo := T.FifoOf(t, slot);
            var c1 := Moved(c, T.Decide(t, now, c.running), now);
            && c1.running.Keys == (if fifo == [] then {} else {fifo[0]})
            && (fifo != [] ==> t.processCount != 0 && InSlot(t, c1.running[fifo[0]], slot))
  {
    var slot := T.CurrentSlot(t, now);
    var fifo := T.FifoOf(t, slot);
    if fifo != [] {
      FrontIsMember(t, c.ready + c.running, slot);
    }
    FrontRuns(fifo, c.ready, c.running);
    C.MovedSound(c, S.Tdma(t), now);
  }

  lemma FrontIsMember(t: T.State, all: TaskMap, slot: nat)
    requires T.Agree(t, all) && slot < |t.slots| && t.slots[slot].fifo != []
    ensures var first := t.slots[slot].fifo[0];
            first in all && InSlot(t, all[first], slot) && t.processCount != 0
  {
    var fifo := t.slots[slot].fifo;
    var first := fifo[0];
    assert Lists(fifo, T.Members(t.pidMap, all, slot));
    assert first in fifo && first in all;
    assert all != map[];
  }

  /** ... and wakes the thread no later than the end of the slot. */
  lemma PassConfines(c: Comp, t: T.State, now: Time, notified: bool)
    requires C.Sound(c, S.Tdma(t), now) && C.UpToDate(c, now)
    ensures t.cycle != 0.0
    ensures var s1 := AfterDecision(c, S.Tdma(t), now, notified);
            var slot := T.CurrentSlot(t, now);
            && s1.policy == S.Tdma(t)
            && (forall i: nat :: RunsIn(s1, i) ==> i == slot && Confined(s1, CycleNo(t.cycle, now), slot))
  {
    InWindow(t, now);
    PassServesSlot(c, t, now, notified);
    var slot := T.CurrentSlot(t, now);
    var s1 := AfterDecision(c, S.Tdma(t), now, notified);
    OnlyRunsIn(s1, t, T.FifoOf(t, slot), slot);
    if T.FifoOf(t, slot) != [] {
      DeadlineInSlot(c, t, now, notified);
      ConfinedBy(s1, t, CycleNo(t.cycle, now), slot, now);
    }
  }

  lemma PassServesSlot(c: Comp, t: T.State, now: Time, notified: bool)
    requires C.Sound(c, S.Tdma(t), now) && C.UpToDate(c, now) && t.cycle != 0.0
    requires T.CurrentSlot(t, now) < |t.slots|
    ensures var slot := T.CurrentSlot(t, now);
            var fifo := T.FifoOf(t, slot);
            var s1 := AfterDecision(c, S.Tdma(t), now, notified);
            && s1.policy == S.Tdma(t)
            && s1.comp.running.Keys == (if fifo == [] then {} else {fifo[0]})
            && (fifo != [] ==>
                  && t.processCount != 0 && InSlot(t, s1.comp.running[fifo[0]], slot)
                  && s1.comp.assignedAt == now)
  {
    DecisionServesSlot(c, t, now);
    C.MovedSound(c, S.Tdma(t), now);
    assert AfterDecision(c, S.Tdma(t), now, notified).comp == Moved(c, T.Decide(t, now, c.running), now);
  }

  lemma OnlyRunsIn(s1: State, t: T.State, fifo: seq<int>, slot: nat)
    requires s1.policy == S.Tdma(t) && s1.comp.running.Keys == (if fifo == [] then {} else {fifo[0]})
    requires fifo != [] ==> InSlot(t, s1.comp.running[fifo[0]], slot)
    ensures forall i: nat :: RunsIn(s1, i) ==> fifo != [] && i == slot
  {
  }

  lemma ConfinedBy(s1: State, t: T.State, m: int, slot: nat, now: Time)
    requires s1.policy == S.Tdma(t) && slot < |t.slots| && s1.deadline.Some? && s1.comp.assignedAt == now
    requires WindowStart(t, m, slot) <= now && s1.deadline.value <= WindowStart(t, m, slot + 1)
    ensures Confined(s1, m, slot)
  {
  }

  lemma DeadlineInSlot(c: Comp, t: T.State, now: Time, notified: bool)
    requires C.Sound(c, S.Tdma(t), now) && C.UpToDate(c, now) && t.cycle != 0.0 && t.processCount != 0
    ensures var s1 := AfterDecision(c, S.Tdma(t), now, notified);
            s1.deadline.Some? && s1.deadline.value <= now + T.RemainingSlice(t, now)
  {
    C.SliceHonoured(c, S.Tdma(t), now, notified);
    assert C.SliceOf(c, S.Tdma(t), now) == Some(T.RemainingSlice(t, now));
  }

  lemma StepInv(s: State, e: Event)
    requires Inv(s) && Possible(s, e)
    ensures Inv(Step(s, e)) && SameTable(s.policy.t, Step(s, e).policy.t)
  {
    C.StepInv(s, e);
    match e {
      case Arrive(now, t) =>
        AddedTable(s.policy.t, t);
        KeepConfined(s, Step(s, e));
      case Wake(now, released) =>
        BeforeTable(s, now, released);
        C.BeforeDecisionSound(s, now, released);
        var (c, p) := BeforeDecision(s, released, now);
        PassConfines(c, p.t, now, released != []);
      case Latency(_, _) => KeepConfined(s, Step(s, e));
    }
  }

  lemma KeepConfined(s: State, s1: State)
    requires Inv(s) && C.Inv(s1) && s1.policy.Tdma? && SameTable(s.policy.t, s1.policy.t)
    requires s1.comp.running == s.comp.running && s1.deadline == s.deadline && s1.comp.assignedAt == s.comp.assignedAt
    ensures Inv(s1)
  {
    forall i: nat | RunsIn(s1, i) ensures exists m :: Confined(s1, m, i) {
      var id :| id in s1.comp.running && InSlot(s1.policy.t, s1.comp.running[id], i);
      assert id in s.comp.ready + s.comp.running;
      assert RunsIn(s, i);
      var m :| Confined(s, m, i);
      SameWindow(s.policy.t, s1.policy.t, m, i);
      SameWindow(s.policy.t, s1.policy.t, m, i + 1);
      assert Confined(s1, m, i);
    }
  }

  lemma {:induction false} RunInv(s: State, es: seq<Event>)
    requires Inv(s) && Legal(s, es)
    ensures Inv(Run(s, es))
    decreases es
  {
    if es != [] {
      StepInv(s, es[0]);
      RunInv(Step(s, es[0]), es[1..]);
    }
  }

  lemma StartInv(s: State)
    requires C.Start(s) && s.policy.Tdma?
    ensures Inv(s)
  {
    C.StartInv(s);
  }

  /** Temporal isolation: at every instant of every run, between events as well as at them, a running
      task belongs to the slot that contains the instant. */
  lemma {:induction false} Isolation(s: State, es: seq<Event>, now: Time, i: nat)
    requires C.Start(s) && s.policy.Tdma? && Legal(s, es)
    requires var r := Run(s, es); r.clock <= now && (r.deadline.Some? ==> now < r.deadline.value)
    requires RunsIn(Run(s, es), i)
    ensures var t := Run(s, es).policy.t;
            t.cycle != 0.0 && T.CurrentSlot(t, now) == i && T.Scan(t.slots, T.CycleTime(now, t.cycle)) == i
  {
    StartInv(s);
    RunInv(s, es);
    var r := Run(s, es);
    var m :| Confined(r, m, i);
    WindowSlot(r.policy.t, m, i, now);
    T.LookupIsScan(r.policy.t, now);
  }

  // ---- the share of a slot -----------------------------------------------------------------------------------

  /** Execution time of the tasks of slot i inside [lo, hi) over a run. */
  function SlotTime(s: State, es: seq<Event>, i: nat, lo: Time, hi: Time): Time
    decreases es
  {
    if es == [] then 0.0
    else
      var s1 := Step(s, es[0]);
      (if RunsIn(s, i) then Overlap(s.clock, s1.clock, lo, hi) else 0.0) + SlotTime(s1, es[1..], i, lo, hi)
  }

  function Clamp(t: Time, a: Time, b: Time): Time {
    if t < a then a else if b < t then b else t
  }

  lemma {:induction false} CyclesApart(cycle: Time, m: int, k: int)
    requires 0.0 < cycle && m < k
    ensures CycleStart(cycle, m) + cycle <= CycleStart(cycle, k)
    decreases k - m
  {
    if m + 1 < k {
      CyclesApart(cycle, m + 1, k);
    }
  }

  /** A stretch inside one window overlaps cycle number k only if it is the window of that cycle. */
  lemma StretchInWindow(t: T.State, m: int, k: int, i: nat, u: Time, v: Time)
    requires 0.0 < t.cycle && i < |t.slots| && 0.0 <= T.Offset(t.slots, i) && T.Offset(t.slots, i + 1) <= t.cycle
    requires WindowStart(t, m, i) <= u <= v <= WindowStart(t, m, i + 1)
    ensures var lo := CycleStart(t.cycle, k);
            var a, b := WindowStart(t, k, i), WindowStart(t, k, i + 1);
            Overlap(u, v, lo, lo + t.cycle) <= Clamp(v, a, b) - Clamp(u, a, b)
  {
    if m < k {
      CyclesApart(t.cycle, m, k);
    } else if k < m {
      CyclesApart(t.cycle, k, m);
    }
  }

  /** A stretch of time adds no more execution time than the clamped clock advances. */
  predicate OverlapShared(t: T.State, u: Time, v: Time, k: int, i: nat)
    requires i < |t.slots|
  {
    var lo := CycleStart(t.cycle, k);
    var a, b := WindowStart(t, k, i), WindowStart(t, k, i + 1);
    Overlap(u, v, lo, lo + t.cycle) <= Clamp(v, a, b) - Clamp(u, a, b)
  }

  predicate ClampGrows(t: T.State, u: Time, v: Time, k: int, i: nat)
    requires i < |t.slots|
  {
    Clamp(u, WindowStart(t, k, i), WindowStart(t, k, i + 1)) <= Clamp(v, WindowStart(t, k, i), WindowStart(t, k, i + 1))
  }

  predicate StepShared(t: T.State, s: State, s1: State, k: int, i: nat)
    requires i < |t.slots|
  {
    if RunsIn(s, i) then OverlapShared(t, s.clock, s1.clock, k, i) else ClampGrows(t, s.clock, s1.clock, k, i)
  }

  lemma StepTable(t: T.State, s: State, e: Event)
    requires Inv(s) && Possible(s, e) && SameTable(t, s.policy.t)
    ensures var s1 := Step(s, e); s.clock <= s1.clock == e.at && Inv(s1) && SameTable(t, s1.policy.t)
  {
    StepInv(s, e);
  }

  lemma StretchHere(t: T.State, s: State, m: int, k: int, i: nat, later: Time)
    requires T.Configured(t) && i < |t.slots| && Inv(s) && SameTable(t, s.policy.t) && Confined(s, m, i)
    requires s.clock <= later <= s.deadline.value && s.comp.assignedAt <= s.clock
    ensures OverlapShared(t, s.clock, later, k, i)
  {
    SameWindow(t, s.policy.t, m, i);
    SameWindow(t, s.policy.t, m, i + 1);
    Positive(t, s.clock);
    OffsetsInCycle(t, i);
    hide T.Configured, Inv, CycleStart, SameTable;
    StretchInWindow(t, m, k, i, s.clock, later);
  }

  /** The window that confines a running instance, and the instant of the next event. */
  lemma ConfinedUntil(s: State, e: Event, i: nat) returns (m: int)
    requires Inv(s) && Possible(s, e) && RunsIn(s, i)
    ensures Confined(s, m, i) && s.clock <= e.at && s.deadline.Some? && e.at <= s.deadline.value
            && s.comp.assignedAt <= s.clock
  {
    m :| Confined(s, m, i);
    var id :| id in s.comp.running;
    assert s.comp.holder == Some(id);
  }

  lemma StepShare(t: T.State, s: State, e: Event, k: int, i: nat)
    requires T.Configured(t) && i < |t.slots| && Inv(s) && Possible(s, e) && SameTable(t, s.policy.t) && RunsIn(s, i)
    ensures OverlapShared(t, s.clock, e.at, k, i)
  {
    hide *;
    var m := ConfinedUntil(s, e, i);
    StretchHere(t, s, m, k, i, e.at);
  }

  lemma NoShare(t: T.State, u: Time, v: Time, k: int, i: nat)
    requires i < |t.slots| && 0.0 < t.slots[i].length && u <= v
    ensures ClampGrows(t, u, v, k, i)
  {
    hide CycleStart;
  }

  lemma StepSlotTime(t: T.State, s: State, e: Event, k: int, i: nat)
    requires T.Configured(t) && i < |t.slots| && Inv(s) && Possible(s, e) && SameTable(t, s.policy.t)
    ensures StepShared(t, s, Step(s, e), k, i)
  {
    assert 0.0 < t.slots[i].length;
    hide T.Configured, CycleStart, Inv, Possible, Step, RunsIn, OverlapShared, ClampGrows, C.Inv, SameTable;
    StepTable(t, s, e);
    if RunsIn(s, i) {
      StepShare(t, s, e, k, i);
    } else {
      NoShare(t, s.clock, e.at, k, i);
    }
  }

  /** The bound between two states of a run. */
  predicate Shared(t: T.State, s: State, r: State, time: Time, k: int, i: nat)
    requires i < |t.slots|
  {
    var a, b := WindowStart(t, k, i), WindowStart(t, k, i + 1);
    time <= Clamp(r.clock, a, b) - Clamp(s.clock, a, b)
  }

  lemma {:induction false} ShareUpTo(t: T.State, s: State, es: seq<Event>, k: int, i: nat)
    requires T.Configured(t) && i < |t.slots| && Inv(s) && Legal(s, es) && SameTable(t, s.policy.t)
    ensures Shared(t, s, Run(s, es), SlotTime(s, es, i, CycleStart(t.cycle, k), CycleStart(t.cycle, k) + t.cycle), k, i)
    decreases es
  {
    hide T.Configured, CycleStart, Inv, Possible, Step, RunsIn, Shared, StepShared, SameTable, Overlap;
    if es == [] {
      SharedNone(t, s, k, i);
    } else {
      var s1, lo := Step(s, es[0]), CycleStart(t.cycle, k);
      StepTable(t, s, es[0]);
      StepSlotTime(t, s, es[0], k, i);
      ShareUpTo(t, s1, es[1..], k, i);
      SharedChain(t, s, s1, Run(s1, es[1..]), SlotTime(s1, es[1..], i, lo, lo + t.cycle), k, i);
    }
  }

  lemma SharedNone(t: T.State, s: State, k: int, i: nat)
    requires i < |t.slots|
    ensures Shared(t, s, s, 0.0, k, i)
  {
    hide WindowStart, Clamp;
  }

  lemma SharedChain(t: T.State, s: State, s1: State, r: State, time: Time, k: int, i: nat)
    requires i < |t.slots| && StepShared(t, s, s1, k, i) && Shared(t, s1, r, time, k, i)
    ensures var lo := CycleStart(t.cycle, k);
            Shared(t, s, r, (if RunsIn(s, i) then Overlap(s.clock, s1.clock, lo, lo + t.cycle) else 0.0) + time, k, i)
  {
    hide CycleStart, WindowStart, Overlap, Clamp, RunsIn;
  }

  /** In every cycle of every run the tasks of slot i execute for at most the length of the slot. */
  lemma {:induction false} SlotShare(s: State, es: seq<Event>, k: int, i: nat)
    requires C.Start(s) && s.policy.Tdma? && Legal(s, es) && i < |s.policy.t.slots|
    ensures var t := s.policy.t;
            SlotTime(s, es, i, CycleStart(t.cycle, k), CycleStart(t.cycle, k) + t.cycle) <= t.slots[i].length
  {
    StartInv(s);
    ShareFrom(s, es, k, i);
  }

  lemma {:induction false} ShareFrom(s: State, es: seq<Event>, k: int, i: nat)
    requires Inv(s) && Legal(s, es) && i < |s.policy.t.slots|
    ensures var t := s.policy.t;
            SlotTime(s, es, i, CycleStart(t.cycle, k), CycleStart(t.cycle, k) + t.cycle) <= t.slots[i].length
  {
    hide SlotTime, Legal, Run, CycleStart;
    var t := s.policy.t;
    ShareUpTo(t, s, es, k, i);
  }

}
