/** The component together with the queue that delivers its latencies: what is legal for the two, is legal for each. */
module LatencyDelivery {
  import opened Basics
  import opened Lifecycle
  import opened Component
  import C = Conservation
  import S = Scheduling
  import Q = TimeQueues

  datatype System = System(s: State, q: Q.State)

  /** Work of the component, the trigger of the queue's event, and the run of the queue's method, which picks among
      entries of equal time.  What a call-back of the method releases on the component arrives at that instant. */
  datatype Happening =
    | Work(e: Event)
    | Trigger(at: Time)
    | Deliver(at: Time, choices: seq<nat>)

  // ---- what the component adds ----------------------------------------------------------------------------

  predicate Finishes(s: State, now: Time) {
    s.comp.running.Keys != {} && Finishing(s, now).remaining == 0.0
  }

  function Finishing(s: State, now: Time): Task
    requires s.comp.running.Keys != {}
  {
    RanTask(s.comp.running[Begin(s.comp.running)], s.comp.assignedAt, now)
  }

  /** An instance whose interval is over is queued for the rest of its latency, if there is any. */
  function Adds(s: State, e: Event): seq<Q.Add> {
    if e.Wake? && Finishes(s, e.at) && Finishing(s, e.at).latency != Finishing(s, e.at).delay
      then [Q.Add(Finishing(s, e.at).id, Finishing(s, e.at).latency - Finishing(s, e.at).delay)]
    else []
  }

  function AddEvents(now: Time, adds: seq<Q.Add>): seq<Q.Event> {
    if adds == [] then [] else [Q.Enqueue(now, adds[0])]
  }

  // ---- what the queue delivers ----------------------------------------------------------------------------

  function EntryOf(x: Expiry): Q.Entry {
    Q.Entry(x.time, x.task.id)
  }

  predicate Expires(latencies: set<Expiry>, e: Q.Entry) {
    exists x :: x in latencies && EntryOf(x) == e
  }

  /** The instance that an entry stands for. */
  ghost function TaskOf(latencies: set<Expiry>, e: Q.Entry): (t: Task)
    ensures Expires(latencies, e) ==> Expiry(e.time, t) in latencies && t.id == e.obj
  {
    if Expires(latencies, e) then
      var x :| x in latencies && EntryOf(x) == e;
      x.task
    else Task(e.obj, 0, 0, 0.0, 0.0, 0.0)
  }

  /** The call-backs, one for every entry delivered. */
  ghost function DoneEvents(s: State, now: Time, d: seq<Q.Entry>): seq<Event>
    decreases |d|
  {
    if d == [] then []
    else
      var e := Latency(now, TaskOf(s.comp.latencies, d[0]));
      [e] + DoneEvents(Component.Step(s, e), now, d[1..])
  }

  /** A run of the method in which no call-back adds anything to the queue. */
  function Script(choices: seq<nat>): seq<Q.Reaction> {
    seq(|choices|, i requires 0 <= i < |choices| => Q.Reaction(choices[i], []))
  }

  function Delivered(q: Q.State, now: Time, choices: seq<nat>): seq<Q.Entry> {
    if |q.queue.entries| == 0 then [] else Q.Fire(q.queue, now, Script(choices)).1
  }

  // ---- the two together -------------------------------------------------------------------------------------

  ghost function WorkOf(y: System, h: Happening): seq<Event> {
    match h
    case Work(e) => [e]
    case Trigger(_) => []
    case Deliver(now, choices) => DoneEvents(y.s, now, Delivered(y.q, now, choices))
  }

  function QueueOf(y: System, h: Happening): seq<Q.Event> {
    match h
    case Work(e) => AddEvents(e.at, Adds(y.s, e))
    case Trigger(now) => [Q.Trigger(now)]
    case Deliver(now, choices) => [Q.Activate(now, Script(choices))]
  }

  ghost function Step(y: System, h: Happening): System {
    System(Component.Run(y.s, WorkOf(y, h)), Q.Run(y.q, QueueOf(y, h)))
  }

  /** The kernel: time neither runs backwards nor passes a time-out or a pending notification, and stands still while
      something is runnable.  Nothing is said of the expiry of latencies, nor of what the queue holds. */
  predicate Timely(y: System, now: Time) {
    && y.s.clock <= now && y.q.clock <= now
    && (y.s.notified ==> now == y.s.clock) && (y.s.deadline.Some? ==> now <= y.s.deadline.value)
    && (y.q.triggered ==> now == y.q.clock)
    && (y.q.queue.pending.Some? ==> now <= y.q.queue.pending.value)
  }

  predicate Possible(y: System, h: Happening) {
    match h
    case Work(e) =>
      && Timely(y, e.at)
      && (match e
          case Arrive(_, t) => NewTask(y.s.comp, t)
          case Wake(_, released) => NewTasks(y.s.comp, released)
          case Latency(_, _) => false)
    case Trigger(now) => Timely(y, now) && !y.q.triggered && y.q.queue.pending == Some(now)
    case Deliver(now, _) => Timely(y, now) && y.q.triggered
  }

  /** Every entry of the queue stands for one latency, and every latency for one entry. */
  ghost predicate Coupled(latencies: set<Expiry>, entries: multiset<Q.Entry>) {
    && (forall e :: entries[e] <= 1 && (e in entries <==> Expires(latencies, e)))
    && (forall x, y :: x in latencies && y in latencies && x.task.id == y.task.id ==> x == y)
  }

  ghost predicate Inv(y: System) {
    && C.Inv(y.s) && Q.Inv(y.q) && Q.Exact(y.q)
    && Coupled(y.s.comp.latencies, multiset(y.q.queue.entries))
  }

  /** The entries a run of the component has been handed, with the times. */
  function Handed(es: seq<Event>): seq<(Q.Entry, Time)>
    decreases |es|
  {
    if es == [] then []
    else
      (match es[0]
       case Latency(now, t) => [(Q.Entry(now, t.id), now)]
       case _ => []) + Handed(es[1..])
  }

  lemma {:induction false} HandedConcat(a: seq<Event>, b: seq<Event>)
    ensures Handed(a + b) == Handed(a) + Handed(b)
    decreases |a|
  {
    if a == [] {
      assert a + b == b;
    } else {
      assert (a + b)[1..] == a[1..] + b;
      HandedConcat(a[1..], b);
    }
  }

  // ---- time ---------------------------------------------------------------------------------------------------

  /** The queue's event keeps the time from passing any expiry. */
  lemma NotPast(y: System, now: Time)
    requires Inv(y) && Timely(y, now)
    ensures forall x :: x in y.s.comp.latencies ==> now <= x.time
  {
    var entries := y.q.queue.entries;
    forall x | x in y.s.comp.latencies ensures now <= x.time {
      assert Expires(y.s.comp.latencies, EntryOf(x));
      assert EntryOf(x) in multiset(entries);
      var i :| 0 <= i < |entries| && entries[i] == EntryOf(x);
      if !y.q.triggered {
        assert entries[Q.FirstEarliest(entries)].time <= entries[i].time;
      }
    }
  }

  // ---- work of the component ------------------------------------------------------------------------------

  lemma {:induction false} AddAllLatencies(c: Comp, p: S.Policy, ts: seq<Task>, now: Time)
    ensures AddAll(c, p, ts, now).0.latencies == c.latencies
    decreases ts
  {
    if ts != [] {
      var (c1, p1) := AddTask(c, p, ts[0], now);
      AddAllLatencies(c1, p1, ts[1..], now);
    }
  }

  /** The latencies after an event are those before and the one that is added. */
  lemma StepLatencies(s: State, e: Event)
    requires !e.Latency?
    ensures var l, a := s.comp.latencies, Adds(s, e);
            Component.Step(s, e).comp.latencies
            == if a == [] then l else l + {Expiry(e.at + a[0].delay, Finishing(s, e.at))}
  {
    if e.Wake? {
      var (c1, p1) := ChargeRunning(s.comp, s.policy, e.at);
      AddAllLatencies(c1, p1, e.released, e.at);
    }
  }

  /** Every add of the component has a positive delay, and is for an instance that the queue does not hold yet. */
  lemma AddsPositive(s: State, e: Event)
    requires C.Inv(s) && Adds(s, e) != []
    ensures 0.0 < Adds(s, e)[0].delay && Adds(s, e)[0].obj == Finishing(s, e.at).id
    ensures forall x :: x in s.comp.latencies ==> x.task.id != Finishing(s, e.at).id
  {
    C.Holder(s.comp, s.policy, s.clock);
    var id := Begin(s.comp.running);
    assert C.Tells(s.comp, id);
  }

  lemma CoupledMore(latencies: set<Expiry>, entries: seq<Q.Entry>, x: Expiry)
    requires Coupled(latencies, multiset(entries)) && forall y :: y in latencies ==> y.task.id != x.task.id
    ensures Coupled(latencies + {x}, multiset(entries + [EntryOf(x)]))
  {
    var more := latencies + {x};
    assert multiset(entries + [EntryOf(x)]) == multiset(entries) + multiset{EntryOf(x)};
    forall e ensures e in multiset(entries + [EntryOf(x)]) <==> Expires(more, e) {
      if Expires(more, e) {
        var y :| y in more && EntryOf(y) == e;
        assert y != x ==> Expires(latencies, e);
      }
      if e == EntryOf(x) {
        assert x in more;
      } else if Expires(latencies, e) {
        var y :| y in latencies && EntryOf(y) == e;
        assert y in more;
      }
    }
    assert !Expires(latencies, EntryOf(x));
  }

  lemma WorkInv(y: System, e: Event)
    requires Inv(y) && Possible(y, Work(e))
    ensures var y1 := Step(y, Work(e));
            && Inv(y1) && Component.Legal(y.s, [e])
            && Q.Legal(y.q, QueueOf(y, Work(e))) && Q.AllDelayed(y.q, QueueOf(y, Work(e)))
            && y1.q.delivered == y.q.delivered
  {
    WorkSound(y, e);
    WorkQueued(y, e);
    hide C.Inv, Q.Inv, Q.Exact, Coupled, Component.Run, Component.Legal, Q.Run, Q.Legal, Q.AllDelayed, Adds, AddEvents;
  }

  /** The component's side: what the kernel allows, the component's rules allow. */
  lemma WorkSound(y: System, e: Event)
    requires Inv(y) && Possible(y, Work(e))
    ensures !e.Latency? && Component.Legal(y.s, [e]) && Component.Run(y.s, [e]) == Component.Step(y.s, e)
    ensures C.Inv(Component.Step(y.s, e))
  {
    NotPast(y, e.at);
    WorkStep(y.s, e);
    hide C.Inv, Q.Inv, Q.Exact, Coupled, NewTask, NewTasks;
    C.StepInv(y.s, e);
  }

  /** The queue's side. */
  lemma WorkQueued(y: System, e: Event)
    requires Inv(y) && Possible(y, Work(e))
    ensures var es := AddEvents(e.at, Adds(y.s, e));
            var q1 := Q.Run(y.q, es);
            && Q.Legal(y.q, es) && Q.AllDelayed(y.q, es) && Q.Inv(q1) && Q.Exact(q1) && q1.delivered == y.q.delivered
            && Coupled(Component.Step(y.s, e).comp.latencies, multiset(q1.queue.entries))
  {
    hide C.Inv, Q.Inv, Q.Exact, Coupled, Component.Step, Q.Run, Q.Legal, Q.AllDelayed, AddEvents, NewTask, NewTasks;
    StepLatencies(y.s, e);
    var adds := Adds(y.s, e);
    assert |adds| <= 1;
    if adds == [] {
      NothingAdded(y.q, e.at);
    } else {
      AddsPositive(y.s, e);
      hide Adds, Finishing;
      assert adds == [adds[0]];
      OneAdded(y.q, e.at, adds[0], y.s.comp.latencies, Finishing(y.s, e.at));
    }
  }

  lemma NothingAdded(q: Q.State, now: Time)
    ensures AddEvents(now, []) == [] && Q.Legal(q, []) && Q.AllDelayed(q, []) && Q.Run(q, []) == q
  {
  }

  lemma OneAdded(q: Q.State, now: Time, a: Q.Add, latencies: set<Expiry>, t: Task)
    requires Q.Inv(q) && Q.Exact(q) && 0.0 < a.delay && a.obj == t.id
    requires q.clock <= now && (q.triggered ==> now == q.clock)
    requires q.queue.pending.Some? ==> now <= q.queue.pending.value
    requires Coupled(latencies, multiset(q.queue.entries)) && forall x :: x in latencies ==> x.task.id != t.id
    ensures var es := AddEvents(now, [a]);
            var q1 := Q.Run(q, es);
            && Q.Legal(q, es) && Q.AllDelayed(q, es) && Q.Inv(q1) && Q.Exact(q1) && q1.delivered == q.delivered
            && Coupled(latencies + {Expiry(now + a.delay, t)}, multiset(q1.queue.entries))
  {
    hide Coupled, Q.Inv, Q.Exact, Q.Run, Q.Legal, Q.AllDelayed;
    QueueWork(q, now, a);
    CoupledMore(latencies, q.queue.entries, Expiry(now + a.delay, t));
  }

  lemma WorkStep(s: State, e: Event)
    ensures Component.Run(s, [e]) == Component.Step(s, e) && (Component.Legal(s, [e]) <==> Component.Possible(s, e))
  {
    hide Component.Step, Component.Possible;
    assert [e][1..] == [];
    assert Component.Run(Component.Step(s, e), []) == Component.Step(s, e);
  }

  lemma QueueWork(q: Q.State, now: Time, a: Q.Add)
    requires Q.Inv(q) && Q.Exact(q) && 0.0 < a.delay
    requires q.clock <= now && (q.triggered ==> now == q.clock)
    requires q.queue.pending.Some? ==> now <= q.queue.pending.value
    ensures var es := [Q.Enqueue(now, a)];
            var q1 := Q.Run(q, es);
            && Q.Legal(q, es) && Q.AllDelayed(q, es) && Q.Inv(q1) && Q.Exact(q1) && q1.delivered == q.delivered
            && q1.queue.entries == q.queue.entries + [Q.Entry(now + a.delay, a.obj)]
  {
    hide Q.Inv, Q.Exact, Q.Run, Q.Legal, Q.AllDelayed;
    Q.StepInv(q, Q.Enqueue(now, a));
    QueueStep(q, Q.Enqueue(now, a));
  }

  lemma QueueStep(q: Q.State, e: Q.Event)
    ensures Q.Run(q, [e]) == Q.Step(q, e)
    ensures (Q.Legal(q, [e]) <==> Q.Possible(q, e)) && (Q.AllDelayed(q, [e]) <==> Q.Delayed(q, e))
  {
    hide Q.Step, Q.Possible, Q.Delayed;
    assert [e][1..] == [];
    assert Q.Run(Q.Step(q, e), []) == Q.Step(q, e);
  }

  // ---- the queue ------------------------------------------------------------------------------------------------

  lemma TriggerInv(y: System, now: Time)
    requires Inv(y) && Possible(y, Trigger(now))
    ensures var y1 := Step(y, Trigger(now));
            && Inv(y1) && y1.s == y.s
            && Q.Legal(y.q, QueueOf(y, Trigger(now))) && Q.AllDelayed(y.q, QueueOf(y, Trigger(now)))
            && y1.q.delivered == y.q.delivered
  {
    QueueStep(y.q, Q.Trigger(now));
    Q.StepInv(y.q, Q.Trigger(now));
    hide C.Inv, Q.Inv, Q.Exact, Coupled;
  }

  lemma {:induction false} SilentScript(now: Time, script: seq<Q.Reaction>, n: nat)
    requires forall i :: 0 <= i < |script| ==> script[i].adds == []
    ensures Q.ScriptDues(now, script, n) == [] && !Q.ZeroAdded(script, n)
    decreases |script|
  {
    if n > 0 && script != [] {
      SilentScript(now, script[1..], n - 1);
    }
  }

  /** Nothing can go wrong in a run of the method: its checks hold, it hands over exactly what is due, and leaves
      the event exact. */
  lemma DeliverQueue(q: Q.State, now: Time, choices: seq<nat>)
    requires Q.Inv(q) && Q.Exact(q) && q.triggered && now == q.clock
    requires q.queue.pending.Some? ==> now <= q.queue.pending.value
    ensures var es, d := [Q.Activate(now, Script(choices))], Delivered(q, now, choices);
            var q1 := Q.Run(q, es);
            && Q.Legal(q, es) && Q.AllDelayed(q, es) && Q.Inv(q1) && Q.Exact(q1)
            && (forall i :: 0 <= i < |d| ==> d[i].time == now)
            && multiset(q.queue.entries) == multiset(d) + multiset(q1.queue.entries)
            && q1.delivered == q.delivered + Q.At(d, now)
  {
    var script := Script(choices);
    var e := Q.Activate(now, script);
    assert Q.Polite(script);
    Q.StepInv(q, e);
    QueueStep(q, e);
    Q.ActivateFires(q, now, script);
    var d := Q.Fire(q.queue, now, script).1;
    SilentScript(now, script, |d|);
    SilentScript(now, script, |Q.Step(q, e).delivered| - |q.delivered|);
    hide Q.Inv, Q.Exact, Q.Fire, Q.ZeroAdded;
  }

  /** A state in which what is due can be handed over. */
  ghost predicate Handing(s: State, now: Time, due: seq<Q.Entry>, rest: multiset<Q.Entry>) {
    && C.Inv(s) && s.clock <= now && (s.notified ==> now == s.clock) && (s.deadline.Some? ==> now <= s.deadline.value)
    && (forall x :: x in s.comp.latencies ==> now <= x.time)
    && (forall i :: 0 <= i < |due| ==> due[i].time == now)
    && Coupled(s.comp.latencies, multiset(due) + rest)
  }

  lemma CoupledLess(latencies: set<Expiry>, entries: multiset<Q.Entry>, x: Expiry)
    requires Coupled(latencies, entries) && x in latencies
    ensures Coupled(latencies - {x}, entries - multiset{EntryOf(x)})
  {
    var less := latencies - {x};
    assert Expires(latencies, EntryOf(x));
    forall e ensures e in entries - multiset{EntryOf(x)} <==> Expires(less, e) {
      if Expires(less, e) {
        var y :| y in less && EntryOf(y) == e;
        assert y in latencies && y.task.id != x.task.id;
        assert Expires(latencies, e);
      }
      if e in entries && e != EntryOf(x) {
        var y :| y in latencies && EntryOf(y) == e;
        assert y in less;
      }
    }
  }

  lemma OneHanded(s: State, now: Time, due: seq<Q.Entry>, rest: multiset<Q.Entry>)
    requires Handing(s, now, due, rest) && due != []
    ensures var e := Latency(now, TaskOf(s.comp.latencies, due[0]));
            && Component.Possible(s, e) && Handing(Component.Step(s, e), now, due[1..], rest)
            && e.done.id == due[0].obj && due[0].time == now
  {
    var t := TaskOf(s.comp.latencies, due[0]);
    assert due[0] in multiset(due) + rest;
    assert Expires(s.comp.latencies, due[0]);
    assert Expiry(now, t) in s.comp.latencies;
    hide C.Inv, Coupled, Expires, PhaseOf;
    C.StepInv(s, Latency(now, t));
    CoupledLess(s.comp.latencies, multiset(due) + rest, Expiry(now, t));
    assert due == [due[0]] + due[1..];
    assert (multiset(due) + rest) - multiset{due[0]} == multiset(due[1..]) + rest;
  }

  lemma {:induction false} AllHanded(s: State, now: Time, due: seq<Q.Entry>, rest: multiset<Q.Entry>)
    requires Handing(s, now, due, rest)
    ensures var es := DoneEvents(s, now, due);
            && Component.Legal(s, es) && Handing(Component.Run(s, es), now, [], rest)
            && Handed(es) == Q.At(due, now)
    decreases |due|
  {
    hide Handing, Component.Step, Component.Possible;
    if due != [] {
      var e := Latency(now, TaskOf(s.comp.latencies, due[0]));
      var s1 := Component.Step(s, e);
      OneHanded(s, now, due, rest);
      AllHanded(s1, now, due[1..], rest);
      var es := DoneEvents(s1, now, due[1..]);
      assert ([e] + es)[1..] == es;
      assert Q.At(due, now) == [(due[0], now)] + Q.At(due[1..], now);
    }
  }

  lemma DeliverInv(y: System, now: Time, choices: seq<nat>)
    requires Inv(y) && Possible(y, Deliver(now, choices))
    ensures var h := Deliver(now, choices);
            var y1 := Step(y, h);
            && Inv(y1) && Component.Legal(y.s, WorkOf(y, h))
            && Q.Legal(y.q, QueueOf(y, h)) && Q.AllDelayed(y.q, QueueOf(y, h))
            && y1.q.delivered == y.q.delivered + Handed(WorkOf(y, h))
  {
    var d, rest := Delivered(y.q, now, choices), multiset(Q.Run(y.q, QueueOf(y, Deliver(now, choices))).queue.entries);
    ReadyToHand(y, now, choices);
    AllHanded(y.s, now, d, rest);
    DeliverQueue(y.q, now, choices);
    assert multiset([]) + rest == rest;
    hide Q.Inv, Q.Exact, C.Inv, Coupled, DoneEvents, Delivered, Handed;
    hide Component.Run, Component.Legal, Q.Run, Q.Legal, Q.AllDelayed;
  }

  lemma ReadyToHand(y: System, now: Time, choices: seq<nat>)
    requires Inv(y) && Possible(y, Deliver(now, choices))
    ensures Handing(y.s, now, Delivered(y.q, now, choices),
                    multiset(Q.Run(y.q, QueueOf(y, Deliver(now, choices))).queue.entries))
  {
    DeliverQueue(y.q, now, choices);
    NotPast(y, now);
    hide Q.Inv, Q.Exact, C.Inv, Coupled, Delivered, Q.Run, Q.Legal, Q.AllDelayed;
  }

  // ---- runs -------------------------------------------------------------------------------------------------------

  lemma StepInv(y: System, h: Happening)
    requires Inv(y) && Possible(y, h)
    ensures var y1 := Step(y, h);
            && Inv(y1) && Component.Legal(y.s, WorkOf(y, h))
            && Q.Legal(y.q, QueueOf(y, h)) && Q.AllDelayed(y.q, QueueOf(y, h))
            && y1.q.delivered == y.q.delivered + Handed(WorkOf(y, h))
  {
    hide Inv;
    match h {
      case Work(e) =>
        WorkInv(y, e);
        hide Component.Legal, Q.Legal, Q.AllDelayed, Step;
        assert [e][1..] == [];
      case Trigger(now) => TriggerInv(y, now);
      case Deliver(now, choices) => DeliverInv(y, now, choices);
    }
  }

  ghost predicate Legal(y: System, hs: seq<Happening>)
    decreases |hs|
  {
    hs == [] || (Possible(y, hs[0]) && Legal(Step(y, hs[0]), hs[1..]))
  }

  ghost function Run(y: System, hs: seq<Happening>): System
    decreases |hs|
  {
    if hs == [] then y else Run(Step(y, hs[0]), hs[1..])
  }

  /** What the component and what the queue have seen of a run. */
  ghost function WorkIn(y: System, hs: seq<Happening>): seq<Event>
    decreases |hs|
  {
    if hs == [] then [] else WorkOf(y, hs[0]) + WorkIn(Step(y, hs[0]), hs[1..])
  }

  ghost function QueueIn(y: System, hs: seq<Happening>): seq<Q.Event>
    decreases |hs|
  {
    if hs == [] then [] else QueueOf(y, hs[0]) + QueueIn(Step(y, hs[0]), hs[1..])
  }

  lemma {:induction false} WorkConcat(s: State, a: seq<Event>, b: seq<Event>)
    ensures Component.Run(s, a + b) == Component.Run(Component.Run(s, a), b)
    ensures Component.Legal(s, a + b) <==> Component.Legal(s, a) && Component.Legal(Component.Run(s, a), b)
    decreases |a|
  {
    hide Component.Step, Component.Possible;
    if a == [] {
      assert a + b == b;
    } else {
      assert (a + b)[1..] == a[1..] + b;
      WorkConcat(Component.Step(s, a[0]), a[1..], b);
    }
  }

  lemma {:induction false} DelayedConcat(q: Q.State, a: seq<Q.Event>, b: seq<Q.Event>)
    ensures Q.AllDelayed(q, a + b) <==> Q.AllDelayed(q, a) && Q.AllDelayed(Q.Run(q, a), b)
    decreases |a|
  {
    hide Q.Step, Q.Delayed;
    if a == [] {
      assert a + b == b;
    } else {
      assert (a + b)[1..] == a[1..] + b;
      DelayedConcat(Q.Step(q, a[0]), a[1..], b);
    }
  }

  /** What holds of a run of the two from y to r: both sides are legal, the queue's event stays exact, and the
      component is handed exactly what the queue delivers, in that order. */
  ghost predicate Together(y: System, r: System, work: seq<Event>, queue: seq<Q.Event>) {
    && Component.Legal(y.s, work) && r.s == Component.Run(y.s, work)
    && Q.Legal(y.q, queue) && Q.AllDelayed(y.q, queue) && r.q == Q.Run(y.q, queue)
    && r.q.delivered == y.q.delivered + Handed(work)
  }

  lemma TogetherTrans(y: System, m: System, r: System, w0: seq<Event>, w1: seq<Event>,
                      q0: seq<Q.Event>, q1: seq<Q.Event>)
    requires Together(y, m, w0, q0) && Together(m, r, w1, q1)
    ensures Together(y, r, w0 + w1, q0 + q1)
  {
    hide Component.Run, Component.Legal, Q.Run, Q.Legal, Q.AllDelayed, Handed;
    WorkConcat(y.s, w0, w1);
    Q.RunConcat(y.q, q0, q1);
    DelayedConcat(y.q, q0, q1);
    HandedConcat(w0, w1);
    assert (y.q.delivered + Handed(w0)) + Handed(w1) == y.q.delivered + (Handed(w0) + Handed(w1));
  }

  lemma {:induction false} RunTogether(y: System, hs: seq<Happening>)
    requires Inv(y) && Legal(y, hs)
    ensures Inv(Run(y, hs)) && Together(y, Run(y, hs), WorkIn(y, hs), QueueIn(y, hs))
    decreases |hs|
  {
    if hs != [] {
      var m := Step(y, hs[0]);
      StepInv(y, hs[0]);
      assert Together(y, m, WorkOf(y, hs[0]), QueueOf(y, hs[0]));
      hide Together, Step, Possible, Inv, WorkOf, QueueOf;
      RunTogether(m, hs[1..]);
      TogetherTrans(y, m, Run(m, hs[1..]), WorkOf(y, hs[0]), WorkIn(m, hs[1..]),
                    QueueOf(y, hs[0]), QueueIn(m, hs[1..]));
    }
  }

  /** Latencies end on time because of the queue: in every run of the component and its queue under the kernel's
      rules, which say nothing of latencies, the component sees a legal run of its own, with a Latency event for
      exactly what the queue has delivered; the queue sees a legal run of its own in which nothing is ever added
      without delay, so that its event is exact and its checks hold; and the queue holds exactly the latencies
      that are still running. */
  lemma {:induction false} OnTimeTogether(s: State, hs: seq<Happening>)
    requires C.Start(s) && Legal(System(s, Q.EMPTY), hs)
    ensures var y := System(s, Q.EMPTY);
            var r := Run(y, hs);
            && Together(y, r, WorkIn(y, hs), QueueIn(y, hs))
            && Q.Exact(r.q) && Coupled(r.s.comp.latencies, multiset(r.q.queue.entries))
  {
    StartTogether(s);
    RunTogether(System(s, Q.EMPTY), hs);
  }

  lemma StartTogether(s: State)
    requires C.Start(s)
    ensures Inv(System(s, Q.EMPTY))
  {
    C.StartInv(s);
    hide C.Inv;
  }
}
