/** Credit-based shaping of audio/video traffic classes (AVBScheduler.cpp, AVBScheduler.hpp):
    the transmission selection of section 8.6.8.2 of IEEE Std 802.1Q, without preemption. */
module AvbScheduling {
  import opened Basics

  const INT_MAX: int := 0x7FFF_FFFF
  const NOBODY: int := -1

  /** A traffic class.  `credit` is signed; the entry objects keep it as sign and magnitude. */
  datatype Class = Class(level: int, bw: real, queue: seq<int>, credit: Time, wasEmpty: bool) {
    predicate HasCredit() {
      0.0 <= credit
    }
  }

  datatype State = State(classes: seq<Class>, lastActive: int, lastAssign: Time, firstRun: bool)

  /** The class that takes a task: the first whose level is not below the task's priority. */
  function ClassFor(classes: seq<Class>, prio: int): (i: nat)
    ensures i <= |classes|
    ensures i < |classes| ==> prio <= classes[i].level
    ensures forall k :: 0 <= k < i ==> classes[k].level < prio
  {
    if classes == [] || classes[0].level >= prio then 0 else 1 + ClassFor(classes[1..], prio)
  }

  function Enqueue(c: Class, id: int): Class {
    c.(queue := c.queue + [id], wasEmpty := c.wasEmpty || |c.queue| == 0)
  }

  function Added(s: State, t: Task): State {
    var i := ClassFor(s.classes, t.prio);
    if i < |s.classes| then s.(classes := s.classes[i := Enqueue(s.classes[i], t.id)]) else s
  }

  /** Credit update of one class over `dt` while the resource stays busy. */
  function ChargeBusy(c: Class, active: bool, dt: Time): Class {
    if active then c.(wasEmpty := false, credit := c.credit - dt * (1.0 - c.bw))
    else if |c.queue| != 0 then
      var raised := c.credit + dt * c.bw;
      if c.wasEmpty then c.(wasEmpty := false, credit := if 0.0 <= raised then 0.0 else raised)
      else c.(credit := raised)
    else if c.HasCredit() then c
    else
      var raised := c.credit + dt * c.bw;
      c.(credit := if 0.0 <= raised then 0.0 else raised)
  }

  /** Credit update of one class over `dt` when the resource has just become or is still free. */
  function ChargeFree(c: Class, active: bool, dt: Time): Class {
    var moved := if active then c.credit - dt * (1.0 - c.bw) else c.credit + dt * c.bw;
    if |c.queue| != 0 then
      if !active && 0.0 <= moved && c.wasEmpty then c.(wasEmpty := false, credit := 0.0)
      else c.(credit := moved)
    else c.(credit := if 0.0 <= moved then 0.0 else moved)
  }

  function Charge(c: Class, busy: bool, lastActive: int, dt: Time): (r: Class)
    ensures r.level == c.level && r.bw == c.bw && r.queue == c.queue
  {
    if busy then ChargeBusy(c, c.level == lastActive, dt) else ChargeFree(c, c.level == lastActive, dt)
  }

  function ChargeAll(classes: seq<Class>, busy: bool, lastActive: int, dt: Time): (r: seq<Class>)
    ensures |r| == |classes|
    ensures forall i :: 0 <= i < |r| ==> r[i] == Charge(classes[i], busy, lastActive, dt)
    ensures SameShape(classes, r) && forall i :: 0 <= i < |r| ==> r[i].queue == classes[i].queue
  {
    seq(|classes|, i requires 0 <= i < |classes| => Charge(classes[i], busy, lastActive, dt))
  }

  predicate Eligible(c: Class) {
    |c.queue| != 0 && c.HasCredit()
  }

  /** The first eligible class, or the number of classes when none is. */
  function Pick(classes: seq<Class>): (i: nat)
    ensures i <= |classes|
    ensures i < |classes| ==> Eligible(classes[i])
    ensures forall k :: 0 <= k < i ==> !Eligible(classes[k])
  {
    if classes == [] || Eligible(classes[0]) then 0 else 1 + Pick(classes[1..])
  }

  /** Time since the credits were last brought up to date; none at the very first decision. */
  function Elapsed(s: State, now: Time): Time {
    if s.firstRun then 0.0 else now - s.lastAssign
  }

  function Decide(s: State, now: Time, running: TaskMap): (Decision, State) {
    var busy := running.Keys != {};
    var classes := ChargeAll(s.classes, busy, s.lastActive, Elapsed(s, now));
    if busy then (NoChange, State(classes, s.lastActive, now, false))
    else
      var i := Pick(classes);
      if i < |classes| then
        var c := classes[i];
        (OnlyAssign(c.queue[0]), State(classes[i := c.(queue := c.queue[1..])], c.level, now, false))
      else (NoChange, State(classes, NOBODY, now, false))
  }

  /** The assertion of the slice computation: no class with queued tasks holds credit. */
  predicate SliceAssert(s: State) {
    Pick(s.classes) == |s.classes|
  }

  /** The least time after which some queued class reaches credit zero; zero when nothing is queued. */
  function NeededTime(classes: seq<Class>): Time
    requires forall i :: 0 <= i < |classes| ==> classes[i].bw != 0.0
  {
    if classes == [] then 0.0
    else
      var before := NeededTime(classes[..|classes| - 1]);
      var c := classes[|classes| - 1];
      if |c.queue| == 0 then before
      else
        var mine := (0.0 - c.credit) / c.bw;
        if before == 0.0 || before > mine then mine else before
  }

  function TimeSlice(s: State, ready: TaskMap, running: TaskMap): Option<Time> {
    if ready.Keys == {} || running.Keys != {} then None
    else if SliceAssert(s) && forall i :: 0 <= i < |s.classes| ==> s.classes[i].bw != 0.0
      then Some(NeededTime(s.classes))
    else None
  }

  /** The first class of a greater level, or the number of classes. */
  function InsertAt(classes: seq<Class>, level: int): (p: nat)
    ensures p <= |classes| && (p < |classes| ==> level < classes[p].level)
    ensures forall k :: 0 <= k < p ==> classes[k].level <= level
  {
    if classes == [] || classes[0].level > level then 0 else 1 + InsertAt(classes[1..], level)
  }

  /** A new class goes before the first one of a greater level; it is dropped when there is none. */
  function Insert(classes: seq<Class>, c: Class): seq<Class> {
    var p := InsertAt(classes, c.level);
    if p < |classes| then classes[..p] + [c] + classes[p..] else classes
  }

  const DEFAULT_CLASS: Class := Class(INT_MAX, 1.0, [], 0.0, true)

  /** Levels ascend without repetition up to the default class, and none is the idle marker. */
  ghost predicate Configured(s: State) {
    && |s.classes| > 0
    && s.classes[|s.classes| - 1].level == INT_MAX
    && s.classes[|s.classes| - 1].bw == 1.0
    && Ascending(s.classes)
    && (forall i :: 0 <= i < |s.classes| ==> s.classes[i].level != NOBODY && 0.0 < s.classes[i].bw <= 1.0)
    && (s.lastActive == NOBODY || exists i :: 0 <= i < |s.classes| && s.classes[i].level == s.lastActive)
  }

  /** Configuring a class of a new level keeps the list ascending and ending in the default class. */
  lemma InsertConfigured(s: State, c: Class)
    requires Configured(s) && s.lastActive == NOBODY && 0.0 < c.bw <= 1.0 && c.level != NOBODY && c.level < INT_MAX
    requires forall i :: 0 <= i < |s.classes| ==> s.classes[i].level != c.level
    ensures Configured(s.(classes := Insert(s.classes, c)))
  {
    var p := InsertAt(s.classes, c.level);
    assert p < |s.classes| by {
      assert c.level < s.classes[|s.classes| - 1].level;
    }
    assert forall k :: 0 <= k < p ==> s.classes[k].level < c.level;
    hide InsertAt;
    InsertAscending(s.classes, c, p);
    var r := Insert(s.classes, c);
    hide Ascending;
    forall i | 0 <= i < |r| ensures r[i].level != NOBODY && 0.0 < r[i].bw <= 1.0 {
      assert r[i] == if i < p then s.classes[i] else if i == p then c else s.classes[i - 1];
    }
    assert r[|r| - 1] == s.classes[|s.classes| - 1];
  }

  predicate Ascending(classes: seq<Class>) {
    forall i, j :: 0 <= i < j < |classes| ==> classes[i].level < classes[j].level
  }

  lemma InsertAscending(classes: seq<Class>, c: Class, p: nat)
    requires Ascending(classes) && p < |classes| && c.level < classes[p].level
    requires forall k :: 0 <= k < p ==> classes[k].level < c.level
    ensures Ascending(classes[..p] + [c] + classes[p..])
  {
    var r := classes[..p] + [c] + classes[p..];
    forall i, j | 0 <= i < j < |r| ensures r[i].level < r[j].level {
      if i < p {
        assert r[i] == classes[i];
      } else if i > p {
        assert r[i] == classes[i - 1];
      }
      if j < p {
        assert r[j] == classes[j];
      } else if j > p {
        assert r[j] == classes[j - 1];
        assert p < j - 1 ==> classes[p].level < classes[j - 1].level;
      }
    }
  }

  /** No class is lost or duplicated by an insertion that finds its place. */
  lemma InsertKeeps(classes: seq<Class>, c: Class)
    requires InsertAt(classes, c.level) < |classes|
    ensures multiset(Insert(classes, c)) == multiset(classes) + multiset{c}
  {
    hide InsertAt;
    var p := InsertAt(classes, c.level);
    assert classes == classes[..p] + classes[p..];
  }

  predicate SameShape(a: seq<Class>, b: seq<Class>) {
    |a| == |b| && forall i :: 0 <= i < |a| ==> a[i].level == b[i].level && a[i].bw == b[i].bw
  }

  /** Credits, queues and flags play no part in the configuration. */
  lemma ConfiguredFrame(s: State, r: State, i: nat)
    requires Configured(s) && SameShape(s.classes, r.classes) && i < |r.classes|
    requires r.lastActive in {NOBODY, s.lastActive, r.classes[i].level}
    ensures Configured(r)
  {
    if s.lastActive != NOBODY {
      var w :| 0 <= w < |s.classes| && s.classes[w].level == s.lastActive;
      assert r.classes[w].level == s.lastActive;
    }
  }

  // ---- the least waiting time ---------------------------------------------------------------

  /** Waiting for n is not too long for any waiting class ... */
  predicate NoSooner(classes: seq<Class>, n: Time) {
    forall i :: 0 <= i < |classes| && |classes[i].queue| != 0 ==>
      0.0 < n && n * classes[i].bw <= 0.0 - classes[i].credit
  }

  /** ... and exactly what one of them needs. */
  predicate Needs(c: Class, n: Time) {
    |c.queue| != 0 && n * c.bw == 0.0 - c.credit
  }

  predicate SomeNeeds(classes: seq<Class>, n: Time) {
    exists i :: 0 <= i < |classes| && Needs(classes[i], n)
  }

  /** The least waiting time: positive as soon as anything waits, the time of some waiting class, and
      no waiting class needs less. */
  predicate Least(classes: seq<Class>, n: Time) {
    && NoSooner(classes, n) && 0.0 <= n && (n == 0.0 || SomeNeeds(classes, n))
  }

  lemma LeastSnoc(front: seq<Class>, c: Class, n0: Time, mine: Time, n: Time)
    requires Least(front, n0) && 0.0 < c.bw && forall i :: 0 <= i < |front| ==> 0.0 < front[i].bw
    requires 0.0 < mine && mine * c.bw == 0.0 - c.credit && |c.queue| != 0
    requires n == if n0 == 0.0 || n0 > mine then mine else n0
    ensures Least(front + [c], n)
  {
    if n0 == 0.0 {
      assert NoSooner(front, n);
    }
    if n == mine {
      assert Needs((front + [c])[|front|], n);
    } else {
      SomeNeedsSnoc(front, c, n);
    }
  }

  lemma LeastSkip(front: seq<Class>, c: Class, n: Time)
    requires Least(front, n) && |c.queue| == 0
    ensures Least(front + [c], n)
  {
    var r := front + [c];
    assert forall i :: 0 <= i < |r| && |r[i].queue| != 0 ==> r[i] == front[i];
    if n != 0.0 {
      SomeNeedsSnoc(front, c, n);
    }
  }

  lemma {:induction false} NeededLeast(classes: seq<Class>)
    requires forall i :: 0 <= i < |classes| ==> 0.0 < classes[i].bw && !Eligible(classes[i])
    ensures Least(classes, NeededTime(classes))
  {
    if classes != [] {
      var front, c := classes[..|classes| - 1], classes[|classes| - 1];
      assert classes == front + [c];
      NeededLeast(front);
      if |c.queue| == 0 {
        LeastSkip(front, c, NeededTime(front));
      } else {
        LeastSnoc(front, c, NeededTime(front), (0.0 - c.credit) / c.bw, NeededTime(classes));
      }
    }
  }

  lemma SomeNeedsSnoc(classes: seq<Class>, c: Class, n: Time)
    requires SomeNeeds(classes, n)
    ensures SomeNeeds(classes + [c], n)
  {
    var i :| 0 <= i < |classes| && Needs(classes[i], n);
    assert Needs((classes + [c])[i], n);
  }

  // ---- agreement with the component ---------------------------------------------------------

  ghost function Members(classes: seq<Class>, ready: TaskMap, i: nat): set<int> {
    set id | id in ready && ClassFor(classes, ready[id].prio) == i
  }

  /** Every ready instance is queued once, in the class its priority selects. */
  ghost predicate Agree(s: State, ready: TaskMap) {
    && (forall id :: id in ready ==> ready[id].prio <= INT_MAX)
    && (forall i :: 0 <= i < |s.classes| ==> Lists(s.classes[i].queue, Members(s.classes, ready, i)))
  }

  predicate SameLevels(a: seq<Class>, b: seq<Class>) {
    |a| == |b| && forall i :: 0 <= i < |a| ==> a[i].level == b[i].level
  }

  lemma {:induction false} ClassForFrame(a: seq<Class>, b: seq<Class>, prio: int)
    requires SameLevels(a, b)
    ensures ClassFor(a, prio) == ClassFor(b, prio)
  {
    if a != [] && a[0].level < prio {
      ClassForFrame(a[1..], b[1..], prio);
    }
  }

  lemma MembersFrame(a: seq<Class>, b: seq<Class>, ready: TaskMap, i: nat)
    requires SameLevels(a, b)
    ensures Members(a, ready, i) == Members(b, ready, i)
  {
    forall id | id in ready ensures ClassFor(a, ready[id].prio) == ClassFor(b, ready[id].prio) {
      ClassForFrame(a, b, ready[id].prio);
    }
    assert forall id :: id in Members(a, ready, i) <==> id in Members(b, ready, i);
  }

  /** A task of any 32-bit priority has a class. */
  lemma ClassExists(s: State, prio: int)
    requires Configured(s) && prio <= INT_MAX
    ensures ClassFor(s.classes, prio) < |s.classes|
  {
  }

  lemma AddedAgree(s: State, t: Task, ready: TaskMap)
    requires Configured(s) && Agree(s, ready) && t.id !in ready && t.prio <= INT_MAX
    ensures Configured(Added(s, t)) && Agree(Added(s, t), ready[t.id := t])
  {
    ClassExists(s, t.prio);
    var r := Added(s, t);
    var ready1 := ready[t.id := t];
    var i := ClassFor(s.classes, t.prio);
    ConfiguredFrame(s, r, i);
    hide Configured, ClassFor;
    forall k | 0 <= k < |r.classes| ensures Lists(r.classes[k].queue, Members(r.classes, ready1, k)) {
      MembersFrame(s.classes, r.classes, ready1, k);
      var m := Members(s.classes, ready, k);
      if k == i {
        PushLists(s.classes[i].queue, m, t.id);
        assert Members(s.classes, ready1, k) == m + {t.id};
      } else {
        assert Members(s.classes, ready1, k) == m;
      }
    }
  }

  lemma ChargedAgree(s: State, r: State, ready: TaskMap)
    requires Agree(s, ready) && SameLevels(s.classes, r.classes)
    requires forall i :: 0 <= i < |s.classes| ==> r.classes[i].queue == s.classes[i].queue
    ensures Agree(r, ready)
  {
    forall k | 0 <= k < |r.classes| ensures Lists(r.classes[k].queue, Members(r.classes, ready, k)) {
      MembersFrame(s.classes, r.classes, ready, k);
    }
  }

  lemma PopAgree(s: State, i: nat, ready: TaskMap)
    requires Agree(s, ready) && i < |s.classes| && |s.classes[i].queue| > 0
    ensures s.classes[i].queue[0] in ready
    ensures ClassFor(s.classes, ready[s.classes[i].queue[0]].prio) == i
    ensures Agree(s.(classes := s.classes[i := s.classes[i].(queue := s.classes[i].queue[1..])]),
            ready - {s.classes[i].queue[0]})
  {
    var q := s.classes[i].queue;
    var r := s.classes[i := s.classes[i].(queue := q[1..])];
    var ready1 := ready - {q[0]};
    assert Lists(q, Members(s.classes, ready, i));
    var x := q[0];
    assert x in q && x in Members(s.classes, ready, i);
    forall k | 0 <= k < |r| ensures Lists(r[k].queue, Members(r, ready1, k)) {
      MembersFrame(s.classes, r, ready1, k);
      var m := Members(s.classes, ready, k);
      if k == i {
        DropLists(q, m, 0);
        assert DropAt(q, 0) == q[1..];
        assert Members(s.classes, ready1, k) == m - {q[0]};
      } else {
        assert Members(s.classes, ready1, k) == m;
      }
    }
  }

  // ---- the entry and scheduler objects --------------------------------------------------------

  class AvbListEntry {
    const bwAlloc: real
    const priorityLevel: int
    var queueCredit: Time
    var hasCreditFlag: bool
    var wasEmptyFlag: bool
    var taskQueue: seq<int>

    /** A magnitude; a missing credit is a positive debt. */
    ghost predicate Valid()
      reads this
    {
      0.0 <= queueCredit && (!hasCreditFlag ==> 0.0 < queueCredit)
    }

    function Credit(): Time
      reads this
    {
      if hasCreditFlag then queueCredit else 0.0 - queueCredit
    }

    function Value(): Class
      reads this
    {
      Class(priorityLevel, bwAlloc, taskQueue, Credit(), wasEmptyFlag)
    }

    constructor (level: int, bw: real)
      ensures Valid() && Value() == Class(level, bw, [], 0.0, true)
    {
      priorityLevel, bwAlloc := level, bw;
      queueCredit, hasCreditFlag, wasEmptyFlag, taskQueue := 0.0, true, true, [];
    }

    method IncrementCredit(increment: Time)
      requires Valid() && 0.0 <= increment
      modifies this
      ensures Valid() && Value() == old(Value()).(credit := old(Credit()) + increment)
    {
      if hasCreditFlag {
        queueCredit := queueCredit + increment;
      } else if increment < queueCredit {
        queueCredit := queueCredit - increment;
      } else {
        queueCredit := increment - queueCredit;
        hasCreditFlag := true;
      }
    }

    method DecrementCredit(decrement: Time)
      requires Valid() && 0.0 <= decrement
      modifies this
      ensures Valid() && Value() == old(Value()).(credit := old(Credit()) - decrement)
    {
      if hasCreditFlag {
        if decrement <= queueCredit {
          queueCredit := queueCredit - decrement;
        } else {
          queueCredit := decrement - queueCredit;
          hasCreditFlag := false;
        }
      } else {
        queueCredit := queueCredit + decrement;
      }
    }

    method HasCredit() returns (r: bool)
      requires Valid()
      ensures r <==> 0.0 <= Credit()
    {
      return hasCreditFlag;
    }

    method ResetCredit()
      modifies this
      ensures Valid() && Value() == old(Value()).(credit := 0.0)
    {
      hasCreditFlag, queueCredit := true, 0.0;
    }

    method SetWasEmpty(flag: bool)
      requires Valid()
      modifies this
      ensures Valid() && Value() == old(Value()).(wasEmpty := flag)
    {
      wasEmptyFlag := flag;
    }

    /** A class that waits for the busy resource: tasks queued into an empty class start from zero. */
    method RaiseQueued(gain: Time)
      requires Valid() && 0.0 <= gain
      modifies this
      ensures var raised := old(Credit()) + gain;
              && Valid()
              && Value() == old(Value()).(wasEmpty := false,
                                          credit := if old(wasEmptyFlag) && 0.0 <= raised then 0.0 else raised)
    {
      IncrementCredit(gain);
      if wasEmptyFlag {
        var credit := HasCredit();
        if credit {
          ResetCredit();
        }
        SetWasEmpty(false);
      }
    }

    /** An empty class only pays its debt. */
    method RaiseEmpty(gain: Time)
      requires Valid() && 0.0 <= gain
      modifies this
      ensures var raised := old(Credit()) + gain;
              && Valid()
              && Value() == old(Value()).(credit := if 0.0 <= old(Credit()) then old(Credit())
                                                    else if 0.0 <= raised then 0.0 else raised)
    {
      var credit := HasCredit();
      if !credit {
        IncrementCredit(gain);
        credit := HasCredit();
        if credit {
          ResetCredit();
        }
      }
    }

    /** One iteration of the update loop of the busy branch. */
    method UpdateBusy(active: bool, budget: Time)
      requires Valid() && 0.0 <= budget && 0.0 <= bwAlloc <= 1.0
      modifies this
      ensures Valid() && Value() == ChargeBusy(old(Value()), active, budget)
    {
      var gain, cost := budget * bwAlloc, budget * (1.0 - bwAlloc);
      Share(budget, bwAlloc);
      BusyIs(Value(), active, budget, gain, cost);
      hide ChargeBusy;
      if !active {
        if |taskQueue| != 0 {
          RaiseQueued(gain);
        } else {
          RaiseEmpty(gain);
        }
      } else {
        SetWasEmpty(false);
        DecrementCredit(cost);
      }
    }

    /** One iteration of the update loop of the other branch. */
    method UpdateFree(active: bool, budget: Time)
      requires Valid() && 0.0 <= budget && 0.0 <= bwAlloc <= 1.0
      modifies this
      ensures Valid() && Value() == ChargeFree(old(Value()), active, budget)
    {
      Share(budget, bwAlloc);
      if !active {
        IncrementCredit(budget * bwAlloc);
      } else {
        DecrementCredit(budget * (1.0 - bwAlloc));
      }
      var credit := HasCredit();
      if |taskQueue| != 0 {
        if !active && credit && wasEmptyFlag {
          SetWasEmpty(false);
          ResetCredit();
        }
      } else if credit {
        ResetCredit();
      }
    }
  }

  /** The credit update of the busy branch in terms of the two products. */
  lemma BusyIs(c: Class, active: bool, dt: Time, gain: Time, cost: Time)
    requires gain == dt * c.bw && cost == dt * (1.0 - c.bw)
    ensures ChargeBusy(c, active, dt) ==
            if active then c.(wasEmpty := false, credit := c.credit - cost)
            else if |c.queue| != 0 then
              c.(wasEmpty := false, credit := if c.wasEmpty && 0.0 <= c.credit + gain then 0.0 else c.credit + gain)
            else if 0.0 <= c.credit then c
            else c.(credit := if 0.0 <= c.credit + gain then 0.0 else c.credit + gain)
  {
  }

  lemma Share(dt: Time, bw: real)
    requires 0.0 <= dt && 0.0 <= bw <= 1.0
    ensures 0.0 <= dt * bw && 0.0 <= dt * (1.0 - bw)
  {
  }

  // ---- the scheduler object -----------------------------------------------------------------------

  class AvbScheduler {
    var pList: seq<AvbListEntry>
    var lastActive: int
    var timeLastAssign: Time
    var firstRun: bool
    /** The values of the entries. */
    ghost var classes: seq<Class>

    /** Entries are distinct objects with sensible bandwidths. */
    ghost predicate Valid()
      reads this`pList, this`classes, pList
    {
      && |classes| == |pList|
      && (forall i, j :: 0 <= i < j < |pList| ==> pList[i] != pList[j])
      && (forall i :: 0 <= i < |pList| ==>
            pList[i].Valid() && 0.0 < pList[i].bwAlloc <= 1.0 && classes[i] == pList[i].Value())
    }

    ghost function Abs(): State
      reads this
    {
      State(classes, lastActive, timeLastAssign, firstRun)
    }

    constructor (now: Time)
      ensures Valid() && fresh(pList) && Abs() == State([DEFAULT_CLASS], NOBODY, now, true)
    {
      var newEntry := new AvbListEntry(INT_MAX, 1.0);
      pList, classes := [newEntry], [DEFAULT_CLASS];
      lastActive, timeLastAssign, firstRun := NOBODY, now, true;
    }

    method FindPlace(priority: int) returns (it: nat)
      requires Valid()
      ensures it == InsertAt(classes, priority)
    {
      it := 0;
      while it < |pList| && pList[it].priorityLevel <= priority
        invariant it <= InsertAt(classes, priority)
      {
        it := it + 1;
      }
      if it < |pList| {
      }
    }

    method InsertEntry(it: nat, entry: AvbListEntry)
      requires Valid() && it <= |pList| && entry !in pList && entry.Valid() && 0.0 < entry.bwAlloc <= 1.0
      modifies this`pList, this`classes
      ensures Valid() && pList == old(pList[..it]) + [entry] + old(pList[it..])
      ensures classes == old(classes[..it]) + [entry.Value()] + old(classes[it..])
    {
      pList := pList[..it] + [entry] + pList[it..];
      classes := classes[..it] + [entry.Value()] + classes[it..];
      forall i | 0 <= i < |pList|
        ensures pList[i].Valid() && 0.0 < pList[i].bwAlloc <= 1.0 && classes[i] == pList[i].Value()
      {
        assert i != it ==> pList[i] == old(pList)[if i < it then i else i - 1];
      }
      forall i, j | 0 <= i < j < |pList| ensures pList[i] != pList[j] {
        assert i != it ==> pList[i] == old(pList)[if i < it then i else i - 1];
        assert j != it ==> pList[j] == old(pList)[if j < it then j else j - 1];
      }
    }

    /** Configures a class: the new entry goes before the first one of a greater level. */
    method SetAttribute(priority: int, value: real)
      requires Valid() && 0.0 < value <= 1.0
      modifies this`pList, this`classes
      ensures Valid() && fresh(set e | e in pList && e !in old(pList))
      ensures Abs() == old(Abs()).(classes := Insert(old(Abs()).classes, Class(priority, value, [], 0.0, true)))
    {
      hide InsertAt;
      var it := FindPlace(priority);
      if it < |pList| {
        var newEntry := new AvbListEntry(priority, value);
        InsertEntry(it, newEntry);
      }
    }

    method FindClass(prio: int) returns (it: nat)
      requires Valid()
      ensures it == ClassFor(classes, prio)
    {
      it := 0;
      while it < |pList| && pList[it].priorityLevel < prio
        invariant it <= ClassFor(classes, prio)
      {
        it := it + 1;
      }
      if it < |pList| {
      }
    }

    /** Queues the task in the first class whose level is not below its priority. */
    method AddedNewTask(t: Task)
      requires Valid()
      modifies this`classes, pList
      ensures Valid() && Abs() == Added(old(Abs()), t)
    {
      var it := FindClass(t.prio);
      if it < |pList| {
        var entry := pList[it];
        assert entry.Valid();
        entry.taskQueue := entry.taskQueue + [t.id];
        if |entry.taskQueue| == 1 {
          entry.SetWasEmpty(true);
        }
        classes := classes[it := Enqueue(classes[it], t.id)];
      }
    }

    method UpdateEntry(i: nat, busy: bool, budget: Time)
      requires Valid() && i < |pList| && 0.0 <= budget
      modifies this`classes, pList[i]
      ensures Valid() && classes == old(classes)[i := Charge(old(classes)[i], busy, lastActive, budget)]
    {
      hide ChargeBusy, ChargeFree;
      var entry := pList[i];
      assert entry.Valid();
      var active := entry.priorityLevel == lastActive;
      if busy {
        entry.UpdateBusy(active, budget);
      } else {
        entry.UpdateFree(active, budget);
      }
      classes := classes[i := Charge(classes[i], busy, lastActive, budget)];
    }

    /** The update loop over the class list. */
    method UpdateCredits(busy: bool, budget: Time)
      requires Valid() && 0.0 <= budget
      modifies this`classes, pList
      ensures Valid() && classes == ChargeAll(old(classes), busy, lastActive, budget)
    {
      hide Charge, ChargeAll;
      ghost var charged := ChargeAll(classes, busy, lastActive, budget);
      for i := 0 to |pList|
        invariant Valid() && |classes| == |charged|
        invariant forall k :: 0 <= k < i ==> classes[k] == charged[k]
        invariant forall k :: i <= k < |classes| ==> classes[k] == old(classes)[k]
      {
        hide Valid;
        UpdateEntry(i, busy, budget);
      }
    }

    /** The search for the first class with queued tasks and credit. */
    method PickTask() returns (it: nat)
      requires Valid()
      ensures it == Pick(classes) && |pList| == |classes|
    {
      it := 0;
      while it < |pList|
        invariant it <= Pick(classes)
      {
        PickStep(classes, it);
        var credit := pList[it].HasCredit();
        if |pList[it].taskQueue| != 0 && credit {
          return;
        }
        it := it + 1;
      }
    }

    /** Takes the front task of an entry and marks its class as active. */
    method Serve(it: nat) returns (d: Decision)
      requires Valid() && it < |pList| && |classes[it].queue| != 0
      modifies this`lastActive, this`classes, pList[it]
      ensures Valid() && lastActive == classes[it].level
      ensures var c := old(classes[it]);
              d == OnlyAssign(c.queue[0]) && classes == old(classes)[it := c.(queue := c.queue[1..])]
    {
      var entry := pList[it];
      assert entry.Valid();
      d := OnlyAssign(entry.taskQueue[0]);
      entry.taskQueue := entry.taskQueue[1..];
      lastActive := entry.priorityLevel;
      classes := classes[it := classes[it].(queue := classes[it].queue[1..])];
    }

    method SchedulingDecision(now: Time, running: TaskMap) returns (d: Decision)
      requires Valid() && (firstRun || timeLastAssign <= now)
      modifies this`lastActive, this`timeLastAssign, this`firstRun, this`classes, pList
      ensures Valid() && (d, Abs()) == Decide(old(Abs()), now, running)
    {
      hide Charge, ChargeAll, Pick, Valid;
      if firstRun {
        timeLastAssign := now;
        firstRun := false;
      }
      var timeBudget := now - timeLastAssign;
      UpdateCredits(running.Keys != {}, timeBudget);
      timeLastAssign := now;
      d := NoChange;
      if running.Keys == {} {
        var it := PickTask();
        if it < |pList| {
          d := Serve(it);
        } else {
          lastActive := NOBODY;
        }
      }
    }

    /** A class with queued tasks and credit makes the assertion fail; no slice is computed then. */
    method GetSchedulerTimeSlice(ready: TaskMap, running: TaskMap) returns (time: Option<Time>)
      requires Valid()
      ensures time == TimeSlice(Abs(), ready, running)
    {
      if ready.Keys == {} || running.Keys != {} {
        return None;
      }
      var neededTime := 0.0;
      for i := 0 to |pList|
        invariant i <= Pick(classes)
        invariant neededTime == NeededTime(classes[..i])
      {
        PickStep(classes, i);
        NeededStep(classes, i);
        hide NeededTime;
        if |pList[i].taskQueue| != 0 {
          var credit := pList[i].HasCredit();
          if credit {
            return None;
          }
          var currNeededTime := (0.0 - pList[i].Credit()) / pList[i].bwAlloc;
          if neededTime == 0.0 || neededTime > currNeededTime {
            neededTime := currNeededTime;
          }
        }
      }
      assert classes[..|classes|] == classes;
      return Some(neededTime);
    }
  }

  lemma NeededStep(classes: seq<Class>, i: nat)
    requires i < |classes| && forall k :: 0 <= k < |classes| ==> classes[k].bw != 0.0
    ensures var c, before := classes[i], NeededTime(classes[..i]);
            NeededTime(classes[..i + 1]) ==
            if |c.queue| == 0 then before
            else if before == 0.0 || before > (0.0 - c.credit) / c.bw then (0.0 - c.credit) / c.bw
            else before
  {
    assert classes[..i + 1][..i] == classes[..i];
  }

  lemma {:induction false} PickStep(classes: seq<Class>, i: nat)
    requires i < |classes| && i <= Pick(classes)
    ensures Pick(classes) == i <==> Eligible(classes[i])
  {
    if i > 0 {
      PickStep(classes[1..], i - 1);
    }
  }
}
