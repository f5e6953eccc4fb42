/** The non-preemptive component (NonPreemptiveComponent.cpp) with its first-come-first-served and priority
    variants (FcfsComponent.cpp, PriorityComponent.cpp): a thread that counts ready tasks, serves them one at a
    time to completion, and otherwise waits for an event. */
module NonPreemptive {
  import opened Basics
  import opened Lifecycle
  import P = PriorityScheduling

  /** An element of the priority variant's queue: the priority, the arrival number, and the task. */
  datatype QueueElem = QueueElem(priority: int, fcfsOrder: int, payload: Task)

  /** The variant's own queue of ready tasks. */
  datatype Policy =
    | Fcfs(queue: seq<Task>)
    | ByPriority(fcfsOrder: int, elems: seq<QueueElem>)

  function Queued(p: Policy): nat {
    match p
    case Fcfs(queue) => |queue|
    case ByPriority(_, elems) => |elems|
  }

  function Payloads(elems: seq<QueueElem>): seq<Task> {
    seq(|elems|, i requires 0 <= i < |elems| => elems[i].payload)
  }

  /** The queued tasks in the order of their arrival. */
  function Tasks(p: Policy): seq<Task> {
    match p
    case Fcfs(queue) => queue
    case ByPriority(_, elems) => Payloads(elems)
  }

  function NewReady(p: Policy, t: Task): Policy {
    match p
    case Fcfs(queue) => Fcfs(queue + [t])
    case ByPriority(order, elems) => ByPriority(order + 1, elems + [QueueElem(t.prio, order, t)])
  }

  /** Elements carry the priority of their task, and arrival numbers ascend. */
  predicate Numbered(elems: seq<QueueElem>, order: int) {
    && (forall i :: 0 <= i < |elems| ==> elems[i].priority == elems[i].payload.prio && elems[i].fcfsOrder < order)
    && (forall i, j :: 0 <= i < j < |elems| ==> elems[i].fcfsOrder < elems[j].fcfsOrder)
  }

  predicate Intact(p: Policy) {
    && (forall i :: 0 <= i < |Tasks(p)| ==> 0.0 <= Tasks(p)[i].delay)
    && (p.ByPriority? ==> Numbered(p.elems, p.fcfsOrder))
  }

  /** The queue elements are ordered as those of the preemptive priority scheduler. */
  function Ranks(elems: seq<QueueElem>): seq<P.Entry> {
    seq(|elems|, i requires 0 <= i < |elems| => P.Entry(elems[i].fcfsOrder, elems[i].priority, elems[i].payload.id))
  }

  function SelectIndex(p: Policy): (i: nat)
    requires Queued(p) > 0
    ensures i < Queued(p)
  {
    match p
    case Fcfs(_) => 0
    case ByPriority(_, elems) => P.Top(Ranks(elems))
  }

  function Select(p: Policy): (Task, Policy)
    requires Queued(p) > 0
  {
    match p
    case Fcfs(queue) => (queue[0], Fcfs(queue[1..]))
    case ByPriority(order, elems) =>
      var i := SelectIndex(p);
      (elems[i].payload, ByPriority(order, DropAt(elems, i)))
  }

  /** Where the thread stands: not yet started, waiting for the event, runnable because the event has triggered,
      or waiting out a task's delay. */
  datatype Thread = NotStarted | Blocked | Woken | Serving(task: Task, until: Time)

  /** `pending` is the notification of the event for the current instant. */
  datatype State = State(policy: Policy, counter: int, thread: Thread, pending: bool, clock: Time, trace: seq<Op>)

  datatype Event =
    | Begin
    | Arrive(at: Time, task: Task)
    | Fire
    | Resume
    | Finish(at: Time, meanwhile: seq<Task>)

  function Log(s: State, kind: Kind, t: Task): State {
    s.(trace := s.trace + [Op(kind, t, s.clock)])
  }

  function Enqueued(s: State, t: Task): State {
    var s1 := Log(s, Release, t);
    s1.(policy := NewReady(s.policy, t), counter := s.counter + 1, pending := s.pending || !s.thread.Serving?)
  }

  function AddTasks(s: State, ts: seq<Task>): State
    decreases ts
  {
    if ts == [] then s else AddTasks(Enqueued(s, ts[0]), ts[1..])
  }

  /** The thread runs until it waits again; nobody is being served when it starts. */
  function Schedule(s: State): State
    requires s.counter > 0 ==> Queued(s.policy) > 0
  {
    if s.counter > 0 then
      var (t, p) := Select(s.policy);
      Log(s.(policy := p, counter := s.counter - 1, thread := Serving(t, s.clock + t.delay)), Assign, t)
    else s.(thread := Blocked)
  }

  /** What happens before the thread runs.  The kernel takes the notification back when the event triggers; a
      thread that does not wait for the event does not notice. */
  function StepTo(s: State, e: Event): State {
    match e
    case Begin => s
    case Arrive(now, t) => Enqueued(s.(clock := now), t)
    case Fire => s.(pending := false, thread := if s.thread.Blocked? then Woken else s.thread)
    case Resume => s
    case Finish(now, meanwhile) =>
      if s.thread.Serving? then AddTasks(Log(s.(clock := now), FinishDii, s.thread.task), meanwhile) else s
  }

  /** Whether the event makes the thread run. */
  predicate Runs(s: State, e: Event) {
    match e
    case Begin => s.thread.NotStarted?
    case Arrive(_, _) => false
    case Fire => false
    case Resume => s.thread.Woken?
    case Finish(_, _) => s.thread.Serving?
  }

  function Step(s: State, e: Event): State
    requires Inv(s) && Possible(s, e)
  {
    var s1 := StepTo(s, e);
    AddTasksKeep(s, e);
    if Runs(s, e) then Schedule(s1) else s1
  }

  /** The kernel: a runnable thread runs before anything pending triggers.  Time stands still while the event is
      pending or the thread is runnable, and does not pass the end of a delay.  Tasks may arrive at any time, also
      while the thread is runnable; what that notifies triggers before a delay that starts then is over. */
  predicate Possible(s: State, e: Event) {
    match e
    case Begin => s.thread.NotStarted?
    case Arrive(now, t) =>
      && s.clock <= now && (s.pending || s.thread.NotStarted? || s.thread.Woken? ==> now == s.clock)
      && (s.thread.Serving? ==> now <= s.thread.until) && 0.0 <= t.delay
    case Fire => s.pending && !s.thread.NotStarted? && !s.thread.Woken?
    case Resume => s.thread.Woken?
    case Finish(now, meanwhile) =>
      && s.thread.Serving? && now == s.thread.until && !s.pending
      && forall i :: 0 <= i < |meanwhile| ==> 0.0 <= meanwhile[i].delay
  }

  /** The counter is the size of the variant's queue; a thread that waits for the event while tasks are ready
      has a notification pending, and one that waits without any has none. */
  ghost predicate Inv(s: State) {
    && Intact(s.policy) && s.counter == Queued(s.policy)
    && (s.thread.NotStarted? || s.thread.Blocked? ==> (s.pending <==> s.counter > 0))
    && (s.thread.Woken? ==> s.counter > 0)
    && (s.thread.Serving? ==> s.clock <= s.thread.until)
  }

  lemma NewReadyKeeps(p: Policy, t: Task)
    requires Intact(p) && 0.0 <= t.delay
    ensures Intact(NewReady(p, t)) && Tasks(NewReady(p, t)) == Tasks(p) + [t] && Queued(NewReady(p, t)) == Queued(p) + 1
  {
    assert Tasks(NewReady(p, t)) == Tasks(p) + [t];
  }

  lemma SelectKeeps(p: Policy)
    requires Queued(p) > 0 && Intact(p)
    ensures var (t, p1) := Select(p);
            && Intact(p1) && Queued(p1) == Queued(p) - 1 && 0.0 <= t.delay
            && t == Tasks(p)[SelectIndex(p)] && Tasks(p1) == DropAt(Tasks(p), SelectIndex(p))
  {
    hide P.Top;
    var i := SelectIndex(p);
    var p1 := Select(p).1;
    assert Tasks(p1) == DropAt(Tasks(p), i);
    assert forall k :: 0 <= k < |Tasks(p1)| ==> Tasks(p1)[k] == Tasks(p)[if k < i then k else k + 1];
    if p.ByPriority? {
      DropNumbered(p.elems, p.fcfsOrder, i);
      hide Numbered, Ranks;
    }
  }

  lemma DropNumbered(elems: seq<QueueElem>, order: int, i: nat)
    requires Numbered(elems, order) && i < |elems|
    ensures Numbered(DropAt(elems, i), order)
  {
  }

  lemma {:induction false} AddAllKeep(s: State, ts: seq<Task>)
    requires Intact(s.policy) && s.counter == Queued(s.policy) && forall i :: 0 <= i < |ts| ==> 0.0 <= ts[i].delay
    ensures var s1 := AddTasks(s, ts);
            && Intact(s1.policy) && s1.counter == Queued(s1.policy) && s1.thread == s.thread && s1.clock == s.clock
            && (s.thread.Serving? ==> s1.pending == s.pending)
    decreases ts
  {
    hide Intact, NewReady;
    if ts != [] {
      NewReadyKeeps(s.policy, ts[0]);
      AddAllKeep(Enqueued(s, ts[0]), ts[1..]);
    }
  }

  lemma AddTasksKeep(s: State, e: Event)
    requires Inv(s) && Possible(s, e)
    ensures var s1 := StepTo(s, e); Intact(s1.policy) && s1.counter == Queued(s1.policy)
  {
    hide Intact, NewReady;
    match e {
      case Finish(now, meanwhile) => AddAllKeep(Log(s.(clock := now), FinishDii, s.thread.task), meanwhile);
      case Arrive(_, t) => NewReadyKeeps(s.policy, t);
      case _ =>
    }
  }

  lemma ScheduleKeeps(s: State)
    requires Intact(s.policy) && s.counter == Queued(s.policy) && (s.counter == 0 ==> !s.pending)
    ensures Inv(Schedule(s))
  {
    hide Intact, Tasks;
    if s.counter > 0 {
      SelectKeeps(s.policy);
    }
  }

  lemma StepInv(s: State, e: Event)
    requires Inv(s) && Possible(s, e)
    ensures Inv(Step(s, e))
  {
    hide Intact, NewReady, Select, Queued, Schedule;
    AddTasksKeep(s, e);
    match e {
      case Begin => ScheduleKeeps(s);
      case Arrive(_, t) => NewReadyKeeps(s.policy, t);
      case Fire =>
      case Resume => ScheduleKeeps(s);
      case Finish(now, meanwhile) =>
        var done := Log(s.(clock := now), FinishDii, s.thread.task);
        AddAllKeep(done, meanwhile);
        ScheduleKeeps(AddTasks(done, meanwhile));
    }
  }

  // ---- runs -------------------------------------------------------------------------------------------------

  predicate Legal(s: State, es: seq<Event>)
    requires Inv(s)
    decreases |es|
  {
    es == [] || (Possible(s, es[0]) && (StepInv(s, es[0]); Legal(Step(s, es[0]), es[1..])))
  }

  function Run(s: State, es: seq<Event>): State
    requires Inv(s) && Legal(s, es)
    decreases |es|
  {
    if es == [] then s else (StepInv(s, es[0]); Run(Step(s, es[0]), es[1..]))
  }

  /** Before time starts. */
  predicate Start(s: State) {
    && s.thread.NotStarted? && !s.pending && s.counter == 0 && s.trace == []
    && s.policy in {Fcfs([]), ByPriority(0, [])}
  }

  lemma {:induction false} RunInv(s: State, es: seq<Event>)
    requires Inv(s) && Legal(s, es)
    ensures Inv(Run(s, es))
    decreases |es|
  {
    if es != [] {
      StepInv(s, es[0]);
      RunInv(Step(s, es[0]), es[1..]);
    }
  }

  /** No lost wake-up: in every run, whenever the thread waits for its event, a notification is pending if and
      only if tasks are ready.  So it never sleeps on ready tasks, never wakes to an empty queue, although tasks
      arrive between the trigger and its run, and the counter it trusts is the size of the variant's queue. */
  lemma {:induction false} NoLostWakeup(s: State, es: seq<Event>)
    requires Start(s) && Legal(s, es)
    ensures var r := Run(s, es);
            && Inv(r) && r.counter == Queued(r.policy)
            && (r.thread.Blocked? ==> (r.pending <==> r.counter > 0))
            && (r.thread.Woken? ==> r.counter > 0 && Step(r, Resume).thread.Serving?)
  {
    RunInv(s, es);
  }

  // ---- service ----------------------------------------------------------------------------------------------

  /** The assignment that has not been finished. */
  function OpenIn(trace: seq<Op>): Option<Op> {
    if trace == [] then None
    else
      var last := trace[|trace| - 1];
      if last.kind == Assign then Some(last)
      else if last.kind == FinishDii then None
      else OpenIn(trace[..|trace| - 1])
  }

  /** One task at a time, and each for exactly its delay. */
  predicate WellServed(trace: seq<Op>) {
    if trace == [] then true
    else
      var before, last := trace[..|trace| - 1], trace[|trace| - 1];
      && WellServed(before)
      && (last.kind == Assign ==> OpenIn(before) == None)
      && (last.kind == FinishDii ==>
            && OpenIn(before).Some? && OpenIn(before).value.task == last.task
            && last.at == OpenIn(before).value.at + last.task.delay)
  }

  /** The first of the most urgent tasks. */
  function MostUrgent(ts: seq<Task>): (i: nat)
    requires |ts| > 0
    ensures i < |ts| && forall j :: 0 <= j < |ts| ==> ts[i].prio <= ts[j].prio
    ensures forall j :: 0 <= j < i ==> ts[i].prio < ts[j].prio
  {
    if |ts| == 1 then 0
    else
      var i := MostUrgent(ts[..|ts| - 1]);
      if ts[|ts| - 1].prio < ts[i].prio then |ts| - 1 else i
  }

  /** Whose turn it is among the waiting tasks, which are in the order of their arrival. */
  function Turn(byPriority: bool, waiting: seq<Task>): (i: nat)
    requires |waiting| > 0
    ensures i < |waiting|
  {
    if byPriority then MostUrgent(waiting) else 0
  }

  /** The tasks that have arrived and not been assigned, in the order of their arrival, if all turns are kept. */
  function Waiting(byPriority: bool, trace: seq<Op>): seq<Task> {
    if trace == [] then []
    else
      var waiting, last := Waiting(byPriority, trace[..|trace| - 1]), trace[|trace| - 1];
      if last.kind == Release then waiting + [last.task]
      else if last.kind == Assign && waiting != [] then DropAt(waiting, Turn(byPriority, waiting))
      else waiting
  }

  /** Every assignment of the trace is of the task whose turn it is. */
  predicate InTurn(byPriority: bool, trace: seq<Op>) {
    if trace == [] then true
    else
      var before, last := trace[..|trace| - 1], trace[|trace| - 1];
      && InTurn(byPriority, before)
      && (last.kind == Assign ==>
            var waiting := Waiting(byPriority, before);
            waiting != [] && last.task == waiting[Turn(byPriority, waiting)])
  }

  /** The arrival numbers make the top of the heap the first of the most urgent elements. */
  lemma SelectsTurn(p: Policy)
    requires Queued(p) > 0 && Intact(p)
    ensures SelectIndex(p) == Turn(p.ByPriority?, Tasks(p))
  {
    if p.ByPriority? {
      var i, k := P.Top(Ranks(p.elems)), MostUrgent(Payloads(p.elems));
      assert !P.Below(Ranks(p.elems)[i], Ranks(p.elems)[k]);
      assert Payloads(p.elems)[k].prio <= Payloads(p.elems)[i].prio;
      assert p.elems[i].payload == Payloads(p.elems)[i] && p.elems[k].payload == Payloads(p.elems)[k];
      assert p.elems[i].fcfsOrder <= p.elems[k].fcfsOrder;
    }
  }

  /** The queue is what the trace says is waiting, and all turns were kept. */
  predicate Fair(policy: Policy, trace: seq<Op>) {
    InTurn(policy.ByPriority?, trace) && Tasks(policy) == Waiting(policy.ByPriority?, trace)
  }

  /** The thread and the trace agree on who is being served since when, and on who is waiting. */
  ghost predicate Told(s: State) {
    && WellServed(s.trace)
    && (match s.thread
        case Serving(t, until) =>
          && OpenIn(s.trace).Some? && OpenIn(s.trace).value.task == t
          && until == OpenIn(s.trace).value.at + t.delay
        case _ => OpenIn(s.trace) == None)
    && Fair(s.policy, s.trace)
  }

  lemma Snoc(trace: seq<Op>, op: Op)
    ensures OpenIn(trace + [op])
            == if op.kind == Assign then Some(op) else if op.kind == FinishDii then None else OpenIn(trace)
    ensures op.kind == Release ==> WellServed(trace + [op]) == WellServed(trace)
    ensures op.kind == Assign && OpenIn(trace) == None ==> WellServed(trace + [op]) == WellServed(trace)
    ensures forall b :: op.kind == Release ==> Waiting(b, trace + [op]) == Waiting(b, trace) + [op.task]
    ensures forall b :: op.kind == FinishDii ==> Waiting(b, trace + [op]) == Waiting(b, trace)
    ensures forall b :: op.kind != Assign ==> InTurn(b, trace + [op]) == InTurn(b, trace)
  {
    assert (trace + [op])[..|trace|] == trace;
  }

  lemma AddTold(s: State, t: Task)
    requires Intact(s.policy) && 0.0 <= t.delay && Fair(s.policy, s.trace)
    ensures var s1 := Enqueued(s, t);
            && Fair(s1.policy, s1.trace) && WellServed(s1.trace) == WellServed(s.trace)
            && OpenIn(s1.trace) == OpenIn(s.trace)
  {
    Snoc(s.trace, Op(Release, t, s.clock));
    NewReadyKeeps(s.policy, t);
  }

  lemma ScheduleTold(s: State)
    requires Intact(s.policy) && s.counter == Queued(s.policy)
    requires WellServed(s.trace) && OpenIn(s.trace) == None && Fair(s.policy, s.trace)
    ensures Told(Schedule(s))
  {
    if s.counter > 0 {
      var (t, p) := Select(s.policy);
      SelectKeeps(s.policy);
      SelectsTurn(s.policy);
      AssignFair(s.policy, s.trace, Op(Assign, t, s.clock));
      Snoc(s.trace, Op(Assign, t, s.clock));
      hide Fair, WellServed;
    }
  }

  lemma AssignFair(p: Policy, trace: seq<Op>, op: Op)
    requires Intact(p) && Queued(p) > 0 && Fair(p, trace) && op.kind == Assign && op.task == Select(p).0
    ensures Fair(Select(p).1, trace + [op])
  {
    SelectKeeps(p);
    SelectsTurn(p);
    hide Intact, Select, SelectIndex, Tasks, Turn, DropAt, InTurn, Waiting;
    TurnTaken(p.ByPriority?, trace, op);
  }

  lemma TurnTaken(byPriority: bool, trace: seq<Op>, op: Op)
    requires InTurn(byPriority, trace) && Waiting(byPriority, trace) != [] && op.kind == Assign
    requires var waiting := Waiting(byPriority, trace); op.task == waiting[Turn(byPriority, waiting)]
    ensures InTurn(byPriority, trace + [op])
    ensures var waiting := Waiting(byPriority, trace);
            Waiting(byPriority, trace + [op]) == DropAt(waiting, Turn(byPriority, waiting))
  {
    hide Turn, DropAt;
    assert (trace + [op])[..|trace|] == trace;
  }

  lemma {:induction false} AddAllTold(s: State, ts: seq<Task>)
    requires Intact(s.policy) && Fair(s.policy, s.trace) && forall i :: 0 <= i < |ts| ==> 0.0 <= ts[i].delay
    ensures var s1 := AddTasks(s, ts);
            && Fair(s1.policy, s1.trace) && WellServed(s1.trace) == WellServed(s.trace)
            && OpenIn(s1.trace) == OpenIn(s.trace)
    decreases ts
  {
    hide Intact, Fair, WellServed, OpenIn, NewReady;
    if ts != [] {
      AddTold(s, ts[0]);
      NewReadyKeeps(s.policy, ts[0]);
      AddAllTold(Enqueued(s, ts[0]), ts[1..]);
    }
  }

  lemma FinishTold(s: State, now: Time, meanwhile: seq<Task>)
    requires Inv(s) && Told(s) && Possible(s, Finish(now, meanwhile))
    ensures Told(Step(s, Finish(now, meanwhile)))
  {
    hide Intact, Schedule;
    var done := Log(s.(clock := now), FinishDii, s.thread.task);
    Snoc(s.trace, Op(FinishDii, s.thread.task, now));
    assert done.trace[..|s.trace|] == s.trace;
    hide Fair;
    AddAllTold(done, meanwhile);
    AddTasksKeep(s, Finish(now, meanwhile));
    ScheduleTold(AddTasks(done, meanwhile));
  }

  lemma StepTold(s: State, e: Event)
    requires Inv(s) && Told(s) && Possible(s, e)
    ensures Told(Step(s, e))
  {
    hide Intact, Fair, Schedule, WellServed, OpenIn;
    AddTasksKeep(s, e);
    match e {
      case Begin => ScheduleTold(s);
      case Arrive(now, t) => AddTold(s.(clock := now), t);
      case Fire =>
      case Resume => ScheduleTold(s);
      case Finish(now, meanwhile) => FinishTold(s, now, meanwhile);
    }
  }

  lemma {:induction false} RunTold(s: State, es: seq<Event>)
    requires Inv(s) && Told(s) && Legal(s, es)
    ensures Told(Run(s, es))
    decreases |es|
  {
    if es != [] {
      StepInv(s, es[0]);
      StepTold(s, es[0]);
      RunTold(Step(s, es[0]), es[1..]);
    }
  }

  /** Service to completion: in every run one task is served at a time, each for exactly its delay without
      interruption.  First come, first served assigns the task that has waited longest; the priority variant
      assigns a task that no waiting one is more urgent than, and of several such the one that arrived first.
      What has arrived and not been assigned is in the queue, in the order of arrival. */
  lemma {:induction false} ServedToCompletion(s: State, es: seq<Event>)
    requires Start(s) && Legal(s, es)
    ensures var r := Run(s, es);
            && WellServed(r.trace) && InTurn(r.policy.ByPriority?, r.trace)
            && Tasks(r.policy) == Waiting(r.policy.ByPriority?, r.trace)
  {
    assert Tasks(s.policy) == [];
    RunTold(s, es);
  }

  // ---- the component object -------------------------------------------------------------------------------------

  class NonPreemptiveComponent {
    var policy: Policy
    var readyTasks: int
    var runningTask: Option<Task>
    var thread: Thread
    var scheduleEvent: bool
    var clock: Time
    ghost var observed: seq<Op>

    ghost predicate Valid()
      reads this
    {
      runningTask == if thread.Serving? then Some(thread.task) else None
    }

    ghost function Abs(): State
      reads this
    {
      State(policy, readyTasks, thread, scheduleEvent, clock, observed)
    }

    constructor (policy: Policy)
      requires policy in {Fcfs([]), ByPriority(0, [])}
      ensures Valid() && Start(Abs()) && this.policy == policy
    {
      this.policy, readyTasks, runningTask, thread := policy, 0, None, NotStarted;
      scheduleEvent, clock, observed := false, 0.0, [];
    }

    method AddTask(t: Task)
      requires Valid()
      modifies this
      ensures Valid() && Abs() == Enqueued(old(Abs()), t)
    {
      observed := observed + [Op(Release, t, clock)];
      policy := NewReady(policy, t);
      readyTasks := readyTasks + 1;
      if runningTask == None {
        scheduleEvent := true;
      }
    }

    /** The thread from one wait to the next. */
    method ScheduleLoop()
      requires Valid() && runningTask == None && readyTasks == Queued(policy)
      modifies this
      ensures Valid() && Abs() == Schedule(old(Abs()))
    {
      if readyTasks > 0 {
        var (task, rest) := Select(policy);
        policy := rest;
        runningTask := Some(task);
        readyTasks := readyTasks - 1;
        observed := observed + [Op(Assign, task, clock)];
        thread := Serving(task, clock + task.delay);
      } else {
        thread := Blocked;
      }
    }

    /** The thread goes on after the event has triggered. */
    method WaitOver()
      requires Valid() && Inv(Abs()) && Possible(Abs(), Resume)
      modifies this
      ensures Valid() && Abs() == Step(old(Abs()), Resume)
    {
      assert readyTasks > 0;
      ScheduleLoop();
    }

    /** The delay of the running task is over; call-backs may add tasks while it still counts as running. */
    method DelayOver(now: Time, meanwhile: seq<Task>)
      requires Valid() && Inv(Abs()) && Possible(Abs(), Finish(now, meanwhile))
      modifies this
      ensures Valid() && Abs() == Step(old(Abs()), Finish(now, meanwhile))
    {
      hide Intact, Queued, Inv;
      AddTasksKeep(Abs(), Finish(now, meanwhile));
      clock := now;
      observed := observed + [Op(FinishDii, thread.task, now)];
      ghost var s := Abs();
      for i := 0 to |meanwhile|
        invariant Valid() && thread == s.thread && AddTasks(Abs(), meanwhile[i..]) == AddTasks(s, meanwhile)
      {
        assert meanwhile[i..][0] == meanwhile[i] && meanwhile[i..][1..] == meanwhile[i + 1..];
        AddTask(meanwhile[i]);
      }
      assert AddTasks(Abs(), meanwhile[|meanwhile|..]) == Abs();
      assert StepTo(old(Abs()), Finish(now, meanwhile)) == Abs();
      runningTask, thread := None, Blocked;
      ScheduleLoop();
    }
  }
}
