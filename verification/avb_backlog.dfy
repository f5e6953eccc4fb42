/** The books of a class that stays backlogged under credit-based shaping, and the ceiling of the most important
    one.  A backlogged class forfeits no credit, so every entry of its ledger is exact; and whoever is more
    important than all others is held up by one task at a time, so its credit stays below its share of the
    longest task.  Both are kept by every event, and therefore by every run. */
module AvbBacklog {
  import opened Basics
  import opened Component
  import opened AvbLedger
  import A = AvbScheduling
  import S = Scheduling
  import C = Conservation

  // ---- a backlogged class is served exactly -------------------------------------------------------------

  /** The class has tasks queued and no pending reset of its credit. */
  predicate Backlogged(s: State, q: nat) {
    s.policy.Avb? && q < |s.policy.a.classes| && |s.policy.a.classes[q].queue| != 0 && !s.policy.a.classes[q].wasEmpty
  }

  /** ... in every state of the run. */
  predicate StaysBacklogged(s: State, es: seq<Event>, q: nat)
    decreases es
  {
    Backlogged(s, q) && (es == [] || StaysBacklogged(Step(s, es[0]), es[1..], q))
  }

  predicate Gains(before: Time, after: Time, bw: real, dt: Time, sends: bool) {
    after == before + dt * bw - (if sends then dt else 0.0)
  }

  lemma BackloggedStarted(s: State, q: nat)
    requires Inv(s) && Backlogged(s, q)
    ensures !s.policy.a.firstRun
  {
    if s.comp.running.Keys != {} {
      assert Begin(s.comp.running) in s.comp.running;
    }
  }

  lemma TimePassesExactly(a: A.State, q: nat, t0: Time, t1: Time)
    requires q < |a.classes| && !a.firstRun
    ensures Gains(Books(a.classes[q], a.lastActive, A.Elapsed(a, t0)),
                  Books(a.classes[q], a.lastActive, A.Elapsed(a, t1)),
                  a.classes[q].bw, t1 - t0, a.classes[q].level == a.lastActive)
  {
  }

  /** Closing the books of a backlogged class changes nothing. */
  lemma DecideExactly(a0: A.State, a: A.State, now: Time, running: TaskMap, q: nat)
    requires Grown(a0, a) && q < |a.classes| && |a0.classes[q].queue| != 0 && !a0.classes[q].wasEmpty
    ensures var a1 := A.Decide(a, now, running).1;
            && A.SameShape(a0.classes, a1.classes)
            && Books(a1.classes[q], a1.lastActive, A.Elapsed(a1, now))
              == Books(a0.classes[q], a0.lastActive, A.Elapsed(a0, now))
  {
    hide A.Decide, A.Charge;
    assert GrownClass(a0.classes[q], a.classes[q]);
    DecideCharges(a, now, running, q);
    ChargeExactly(a.classes[q], running.Keys != {}, a.lastActive, A.Elapsed(a, now));
  }

  predicate StepIsExact(s: State, s1: State, q: nat)
    requires s.policy.Avb? && q < |s.policy.a.classes|
  {
    && s1.policy.Avb? && s.clock <= s1.clock && A.SameShape(s.policy.a.classes, s1.policy.a.classes)
    && Gains(CreditNow(s, q), CreditNow(s1, q), s.policy.a.classes[q].bw, s1.clock - s.clock, Sends(s, q))
  }

  lemma WaitsExactly(s: State, q: nat, now: Time)
    requires Inv(s) && Backlogged(s, q)
    ensures var a := s.policy.a;
            Gains(CreditNow(s, q), Books(a.classes[q], a.lastActive, A.Elapsed(a, now)),
                  a.classes[q].bw, now - s.clock, Sends(s, q))
  {
    BackloggedStarted(s, q);
    SendsActive(s, q);
    TimePassesExactly(s.policy.a, q, s.clock, now);
  }

  lemma QuietExact(s: State, e: Event, q: nat)
    requires s.policy.Avb? && Inv(s) && Possible(s, e) && Backlogged(s, q) && !e.Wake?
    ensures StepIsExact(s, Step(s, e), q)
  {
    if e.Arrive? {
      AddedGrown(s.policy.a, e.task);
    }
    var s1 := Step(s, e);
    assert GrownClass(s.policy.a.classes[q], s1.policy.a.classes[q]);
    WaitsExactly(s, q, s1.clock);
    SameBooks(s.policy.a.classes[q], s1.policy.a.classes[q], s.policy.a.lastActive, A.Elapsed(s.policy.a, s1.clock));
    hide Books, Gains;
  }

  lemma PassExact(s: State, now: Time, released: seq<Task>, q: nat)
    requires Inv(s) && Possible(s, Wake(now, released)) && Backlogged(s, q)
    ensures var a, s1 := s.policy.a, Pass(s, now, released);
            && s1.policy.Avb? && s1.clock == now && A.SameShape(a.classes, s1.policy.a.classes)
            && CreditNow(s1, q) == Books(a.classes[q], a.lastActive, A.Elapsed(a, now))
  {
    hide Books;
    BeforeReady(s, now, released);
    var (c, p) := BeforeDecision(s, released, now);
    AvbAfter(c, p.a, now, released != []);
    DecideExactly(s.policy.a, p.a, now, c.running, q);
  }

  lemma WakeExact(s: State, e: Event, q: nat)
    requires s.policy.Avb? && Inv(s) && Possible(s, e) && Backlogged(s, q) && e.Wake?
    ensures StepIsExact(s, Step(s, e), q)
  {
    hide Books, Gains, Sends, Pass, AvbLedger.Inv, NewTasks;
    PassExact(s, e.at, e.released, q);
    WaitsExactly(s, q, e.at);
    assert CreditNow(s, q) == Books(s.policy.a.classes[q], s.policy.a.lastActive, A.Elapsed(s.policy.a, s.clock));
  }

  lemma StepExact(s: State, e: Event, q: nat)
    requires s.policy.Avb? && Inv(s) && Possible(s, e) && q < |s.policy.a.classes| && Backlogged(s, q)
    ensures StepIsExact(s, Step(s, e), q)
  {
    hide *;
    if e.Wake? {
      WakeExact(s, e, q);
    } else {
      QuietExact(s, e, q);
    }
  }

  predicate SendsExactly(s: State, r: State, sent: Time, q: nat)
    requires s.policy.Avb? && q < |s.policy.a.classes|
  {
    && r.policy.Avb? && A.SameShape(s.policy.a.classes, r.policy.a.classes) && s.clock <= r.clock
    && sent == (r.clock - s.clock) * s.policy.a.classes[q].bw + CreditNow(s, q) - CreditNow(r, q)
  }

  lemma ExactChain(s: State, m: State, r: State, sent: Time, q: nat)
    requires s.policy.Avb? && q < |s.policy.a.classes| && StepIsExact(s, m, q)
    requires SendsExactly(m, r, sent, q)
    ensures SendsExactly(s, r, (if Sends(s, q) then m.clock - s.clock else 0.0) + sent, q)
  {
    hide Books, Sends;
  }

  lemma ExactStep(s: State, e: Event, r: State, sent: Time, q: nat)
    requires s.policy.Avb? && Inv(s) && Possible(s, e) && q < |s.policy.a.classes| && Backlogged(s, q)
    requires Step(s, e).policy.Avb? && q < |Step(s, e).policy.a.classes| && SendsExactly(Step(s, e), r, sent, q)
    ensures SendsExactly(s, r, (if Sends(s, q) then Step(s, e).clock - s.clock else 0.0) + sent, q)
  {
    hide *;
    StepExact(s, e, q);
    ExactChain(s, Step(s, e), r, sent, q);
  }

  // ---- the most important class is held up by at most one task -------------------------------------------

  predicate Short(m: TaskMap, longest: Time) {
    forall id :: id in m ==> m[id].delay <= longest
  }

  /** All arriving tasks, of whatever class, have at most this delay. */
  predicate ArrivalsShort(es: seq<Event>, longest: Time) {
    forall i :: 0 <= i < |es| ==> ArrivalShort(es[i], longest)
  }

  predicate ArrivalShort(e: Event, longest: Time) {
    match e
    case Arrive(_, t) => t.delay <= longest
    case Wake(_, released) => forall k :: 0 <= k < |released| ==> released[k].delay <= longest
    case Latency(_, _) => true
  }

  /** Credit of the most important class: none on an idle link, at most its share of the time a task
      of another class has been in the way, and at most its share of the longest task otherwise. */
  predicate CeilAt(c: A.Class, lastActive: int, running: TaskMap, longest: Time) {
    if lastActive == A.NOBODY then c.credit <= 0.0
    else if c.level == lastActive then c.credit <= longest * c.bw
    else forall id :: id in running ==> c.credit <= (running[id].delay - running[id].remaining) * c.bw
  }

  ghost predicate CeilInv(s: State, longest: Time) {
    && s.policy.Avb? && |s.policy.a.classes| > 0 && 0.0 <= longest
    && Short(s.comp.ready, longest) && Short(s.comp.running, longest)
    && CeilAt(s.policy.a.classes[0], s.policy.a.lastActive, s.comp.running, longest)
  }

  predicate CeilCharged(r: A.Class, lastActive: int, running: TaskMap, longest: Time) {
    r.credit <= longest * r.bw && (running.Keys != {} ==> CeilAt(r, lastActive, running, longest))
  }

  /** The class is charged while, or after, a task of another class ran. */
  lemma ChargeBehind(c: A.Class, busy: bool, lastActive: int, dt: Time, t: Task, longest: Time)
    requires 0.0 <= dt <= t.remaining <= t.delay <= longest && 0.0 < c.bw <= 1.0 && c.level != lastActive
    requires c.credit <= (t.delay - t.remaining) * c.bw
    ensures var r := A.Charge(c, busy, lastActive, dt).credit;
            && r <= (t.delay - (t.remaining - dt)) * c.bw && r <= longest * c.bw
  {
    hide A.Charge;
    ChargeAtMost(c, busy, lastActive, dt);
    var r, before := A.Charge(c, busy, lastActive, dt).credit, t.delay - t.remaining;
    HeldUp(r, before, dt, longest, c.bw);
    assert before + dt == t.delay - (t.remaining - dt);
  }

  lemma HeldUp(r: real, before: Time, dt: Time, longest: Time, bw: real)
    requires before + dt <= longest && 0.0 < bw && r <= before * bw + dt * bw
    ensures r <= (before + dt) * bw && r <= longest * bw
  {
    assert (before + dt) * bw <= longest * bw;
  }

  /** The class is charged while, or after, its own task ran. */
  lemma ChargeOwn(c: A.Class, busy: bool, dt: Time, longest: Time)
    requires 0.0 <= dt && 0.0 < c.bw <= 1.0 && c.credit <= longest * c.bw
    ensures A.Charge(c, busy, c.level, dt).credit <= longest * c.bw
  {
    ChargeAtMost(c, busy, c.level, dt);
    A.Share(dt, c.bw);
    assert dt * (1.0 - c.bw) == dt - dt * c.bw;
  }

  /** On an idle link no class leaves its debt for more than zero credit. */
  lemma ChargeIdle(c: A.Class, dt: Time)
    requires c.level != A.NOBODY && 0.0 <= dt && 0.0 < c.bw <= 1.0 && c.credit <= 0.0
    requires |c.queue| != 0 && !c.wasEmpty ==> dt * c.bw <= 0.0 - c.credit
    ensures A.Charge(c, false, A.NOBODY, dt).credit <= 0.0
  {
  }

  /** The idle link up to `now`: a class whose credit is not about to be reset has not paid its debt. */
  lemma IdleInTime(a: A.State, a1: A.State, deadline: Option<Time>, now: Time, q: nat)
    requires NotLate(a, deadline) && a.lastActive == A.NOBODY && Grown(a, a1) && q < |a.classes|
             && 0.0 < a.classes[q].bw
    requires deadline.Some? ==> now <= deadline.value
    ensures |a1.classes[q].queue| != 0 && !a1.classes[q].wasEmpty ==>
              A.Elapsed(a1, now) * a1.classes[q].bw <= 0.0 - a1.classes[q].credit
  {
    assert GrownClass(a.classes[q], a1.classes[q]);
    if |a1.classes[q].queue| != 0 && !a1.classes[q].wasEmpty {
      assert |a.classes[q].queue| != 0;
    }
  }

  lemma CeilIdle(s: State, now: Time, a1: A.State, longest: Time)
    requires Inv(s) && OnTime(s, now) && CeilInv(s, longest) && s.policy.a.lastActive == A.NOBODY
             && Grown(s.policy.a, a1)
    requires 0.0 <= A.Elapsed(s.policy.a, now)
    ensures A.Charge(a1.classes[0], false, A.NOBODY, A.Elapsed(a1, now)).credit <= longest * a1.classes[0].bw
  {
    assert GrownClass(s.policy.a.classes[0], a1.classes[0]);
    IdleInTime(s.policy.a, a1, s.deadline, now, 0);
    ChargeIdle(a1.classes[0], A.Elapsed(a1, now));
    ShareOf(longest, a1.classes[0].bw);
  }

  lemma CeilFacts(s: State, longest: Time)
    requires Inv(s) && CeilInv(s, longest) && s.policy.a.lastActive != A.NOBODY && s.comp.running.Keys != {}
    ensures var c, t := s.policy.a.classes[0], s.comp.running[Begin(s.comp.running)];
            && t.delay <= longest
            && (if c.level == s.policy.a.lastActive then c.credit <= longest * c.bw
                else c.credit <= (t.delay - t.remaining) * c.bw)
  {
  }

  lemma CeilOf(r: A.Class, lastActive: int, running: TaskMap, id: int, t: Task, dt: Time, longest: Time)
    requires lastActive != A.NOBODY && r.credit <= longest * r.bw
    requires running.Keys == {} || (running.Keys == {id} && running[id] == t.(remaining := t.remaining - dt))
    requires r.level != lastActive ==> r.credit <= (t.delay - (t.remaining - dt)) * r.bw
    ensures CeilCharged(r, lastActive, running, longest)
  {
    assert running.Keys != {} ==> forall x :: x in running <==> x == id;
  }

  /** The busy link up to `now`: who sends, for how long, and what the first class has saved by then. */
  lemma BusySetting(s: State, now: Time, running: TaskMap, a1: A.State, longest: Time)
    requires Inv(s) && OnTime(s, now) && CeilInv(s, longest) && s.policy.a.lastActive != A.NOBODY
             && Grown(s.policy.a, a1)
    requires Charged(s.comp, running, now) && s.comp.running.Keys != {}
    ensures var a, id, c, dt := s.policy.a, Begin(s.comp.running), a1.classes[0], A.Elapsed(a1, now);
            var t := s.comp.running[id];
            && 0.0 <= dt <= t.remaining <= t.delay <= longest && 0.0 < c.bw <= 1.0 && a1.lastActive == a.lastActive
            && (running.Keys == {} || (running.Keys == {id} && running[id] == t.(remaining := t.remaining - dt)))
            && (if c.level == a.lastActive then c.credit <= longest * c.bw
              else c.credit <= (t.delay - t.remaining) * c.bw)
  {
    hide CeilAt, Short;
    assert GrownClass(s.policy.a.classes[0], a1.classes[0]);
    C.Holder(s.comp, s.policy, s.clock);
    CeilFacts(s, longest);
  }

  lemma CeilBusy(s: State, now: Time, running: TaskMap, a1: A.State, longest: Time)
    requires Inv(s) && OnTime(s, now) && CeilInv(s, longest) && s.policy.a.lastActive != A.NOBODY
             && Grown(s.policy.a, a1)
    requires Charged(s.comp, running, now) && s.comp.running.Keys != {}
    ensures CeilCharged(A.Charge(a1.classes[0], running.Keys != {}, a1.lastActive, A.Elapsed(a1, now)),
            a1.lastActive, running, longest)
  {
    BusySetting(s, now, running, a1, longest);
    var id := Begin(s.comp.running);
    BusyCharged(a1.classes[0], a1.lastActive, A.Elapsed(a1, now), running, id, s.comp.running[id], longest) by {
      hide Inv, CeilInv, Charged, OnTime, A.Elapsed;
    }
    hide *;
  }

  lemma BusyCharged(c: A.Class, lastActive: int, dt: Time, running: TaskMap, id: int, t: Task, longest: Time)
    requires lastActive != A.NOBODY && 0.0 <= dt <= t.remaining <= t.delay <= longest && 0.0 < c.bw <= 1.0
    requires running.Keys == {} || (running.Keys == {id} && running[id] == t.(remaining := t.remaining - dt))
    requires if c.level == lastActive then c.credit <= longest * c.bw else c.credit <= (t.delay - t.remaining) * c.bw
    ensures CeilCharged(A.Charge(c, running.Keys != {}, lastActive, dt), lastActive, running, longest)
  {
    hide CeilCharged, A.Charge;
    if c.level == lastActive {
      ChargeOwn(c, running.Keys != {}, dt, longest);
    } else {
      ChargeBehind(c, running.Keys != {}, lastActive, dt, t, longest);
    }
    CeilOf(A.Charge(c, running.Keys != {}, lastActive, dt), lastActive, running, id, t, dt, longest);
  }

  lemma {:induction false} AddAllShort(c: Comp, p: S.Policy, ts: seq<Task>, now: Time, longest: Time)
    requires Short(c.ready, longest) && forall k :: 0 <= k < |ts| ==> ts[k].delay <= longest
    ensures Short(AddAll(c, p, ts, now).0.ready, longest)
    decreases ts
  {
    if ts != [] {
      AddAllShort(ReleaseTask(c, ts[0], now), S.Added(p, ts[0]), ts[1..], now, longest);
    }
  }

  lemma ShortBefore(s: State, now: Time, released: seq<Task>, longest: Time)
    requires Inv(s) && OnTime(s, now) && NewTasks(s.comp, released) && CeilInv(s, longest)
             && ArrivalShort(Wake(now, released), longest)
    ensures var c := BeforeDecision(s, released, now).0;
            Short(c.ready, longest) && Short(c.running, longest)
  {
    ChargedRunning(s.comp, s.policy.a, s.clock, now);
    BeforeReady(s, now, released);
    AddAllShort(ChargeRunning(s.comp, s.policy, now).0, s.policy, released, now, longest);
    if s.comp.running.Keys != {} {
      C.Holder(s.comp, s.policy, s.clock);
    }
  }

  lemma CeilBefore(s: State, now: Time, released: seq<Task>, longest: Time)
    requires Inv(s) && OnTime(s, now) && NewTasks(s.comp, released) && CeilInv(s, longest)
             && ArrivalShort(Wake(now, released), longest)
    ensures var (c, p) := BeforeDecision(s, released, now);
            && p.Avb? && Ready(c, p.a, now) && |p.a.classes| > 0
            && Short(c.ready, longest) && Short(c.running, longest)
            && CeilCharged(A.Charge(p.a.classes[0], c.running.Keys != {}, p.a.lastActive, A.Elapsed(p.a, now)),
                           p.a.lastActive, c.running, longest)
  {
    hide CeilAt, A.Charge, Ready, Short;
    ShortBefore(s, now, released, longest);
    BeforeReady(s, now, released);
    var (c, p) := BeforeDecision(s, released, now);
    if s.comp.running.Keys == {} {
      CeilIdle(s, now, p.a, longest);
    } else {
      ActiveIsReal(s.policy.a, s.comp.running);
      CeilBusy(s, now, c.running, p.a, longest);
    }
  }

  /** A class that was passed over holds no credit. */
  lemma PassedOver(a: A.State, now: Time, running: TaskMap)
    requires A.Configured(a) && running.Keys == {} && (!a.firstRun ==> a.lastAssign <= now)
    ensures var a1 := A.Decide(a, now, running).1;
            && |a1.classes| == |a.classes|
            && (a1.classes[0].level == a1.lastActive || a1.classes[0].credit <= 0.0)
  {
  }

  lemma CeilFree(c: A.Class, lastActive: int, id: int, t: Task, longest: Time)
    requires c.level == lastActive || c.credit <= 0.0
    requires c.credit <= longest * c.bw && t.remaining == t.delay && lastActive != A.NOBODY
    ensures CeilAt(c, lastActive, map[id := t], longest)
  {
  }

  /** Who is picked has not run yet, for a class that exists. */
  lemma PickedFresh(c: Comp, a: A.State, now: Time)
    requires Ready(c, a, now) && c.running.Keys == {} && A.Decide(a, now, c.running).0.OnlyAssign?
    ensures var (d, a1) := A.Decide(a, now, c.running);
            && d.assign in c.ready && c.ready[d.assign].remaining == c.ready[d.assign].delay
            && a1.lastActive != A.NOBODY
  {
    hide A.Charge;
    Picked(c, a, now);
  }

  lemma CeilPicked(c: Comp, a: A.State, now: Time, longest: Time)
    requires Ready(c, a, now) && c.running.Keys == {} && A.Decide(a, now, c.running).0.OnlyAssign?
    requires A.Charge(a.classes[0], false, a.lastActive, A.Elapsed(a, now)).credit <= longest * a.classes[0].bw
    ensures var (d, a1) := A.Decide(a, now, c.running);
            d.assign in c.ready && CeilAt(a1.classes[0], a1.lastActive, map[d.assign := c.ready[d.assign]], longest)
  {
    hide CeilAt, A.Charge;
    PassedOver(a, now, c.running);
    DecideCharges(a, now, c.running, 0);
    PickedFresh(c, a, now);
    var (d, a1) := A.Decide(a, now, c.running);
    hide Ready, A.Decide, A.Elapsed;
    CeilFree(a1.classes[0], a1.lastActive, d.assign, c.ready[d.assign], longest);
  }

  lemma CeilDecision(c: Comp, a: A.State, now: Time, notified: bool, longest: Time)
    requires Ready(c, a, now) && 0.0 <= longest && Short(c.ready, longest) && Short(c.running, longest)
    requires CeilCharged(A.Charge(a.classes[0], c.running.Keys != {}, a.lastActive, A.Elapsed(a, now)),
                         a.lastActive, c.running, longest)
    ensures CeilInv(AfterDecision(c, S.Avb(a), now, notified), longest)
  {
    hide A.Charge;
    var s1 := AfterDecision(c, S.Avb(a), now, notified);
    var (d, a1) := A.Decide(a, now, c.running);
    AvbAfter(c, a, now, notified);
    DecideCharges(a, now, c.running, 0);
    if c.running.Keys == {} {
      assert c.running == map[];
      if d.OnlyAssign? {
        CeilPicked(c, a, now, longest);
        assert s1.comp.running == map[d.assign := c.ready[d.assign]];
      } else {
        IdleKeeps(c, a, now);
      }
    }
  }

  lemma CeilArrive(s: State, now: Time, t: Task, longest: Time)
    requires s.policy.Avb? && Inv(s) && CeilInv(s, longest) && t.delay <= longest
    ensures CeilInv(Step(s, Arrive(now, t)), longest)
  {
    AddedGrown(s.policy.a, t);
    assert GrownClass(s.policy.a.classes[0], A.Added(s.policy.a, t).classes[0]);
  }

  lemma CeilStep(s: State, e: Event, longest: Time)
    requires s.policy.Avb? && Inv(s) && Possible(s, e) && CeilInv(s, longest) && ArrivalShort(e, longest)
    ensures CeilInv(Step(s, e), longest)
  {
    match e {
      case Arrive(now, t) => CeilArrive(s, now, t, longest);
      case Wake(now, released) =>
        hide A.Charge, CeilCharged, CeilAt, Short;
        CeilBefore(s, now, released, longest);
        var (c, p) := BeforeDecision(s, released, now);
        CeilDecision(c, p.a, now, released != [], longest);
      case Latency(_, _) =>
    }
  }

  lemma {:induction false} CeilRun(s: State, es: seq<Event>, longest: Time)
    requires s.policy.Avb? && Inv(s) && Legal(s, es) && CeilInv(s, longest) && ArrivalsShort(es, longest)
    ensures var r := Run(s, es); r.policy.Avb? && |r.policy.a.classes| > 0 && Inv(r) && CeilInv(r, longest)
    decreases es
  {
    if es != [] {
      assert ArrivalShort(es[0], longest);
      StepInv(s, es[0]);
      StepShape(s, es[0]);
      CeilStep(s, es[0], longest);
      CeilRun(Step(s, es[0]), es[1..], longest);
    }
  }

  /** The books of the most important class, closed at any time while it is backlogged. */
  lemma CeilNow(s: State, longest: Time)
    requires Inv(s) && CeilInv(s, longest) && Backlogged(s, 0)
    ensures CreditNow(s, 0) <= longest * s.policy.a.classes[0].bw
  {
    var a := s.policy.a;
    var c, dt := a.classes[0], A.Elapsed(a, s.clock);
    BackloggedStarted(s, 0);
    if a.lastActive == A.NOBODY {
      IdleInTime(a, a, s.deadline, s.clock, 0);
      ShareOf(longest, c.bw);
    } else {
      CeilNowBusy(s, longest);
    }
  }

  lemma CeilNowBusy(s: State, longest: Time)
    requires Inv(s) && CeilInv(s, longest) && Backlogged(s, 0) && s.policy.a.lastActive != A.NOBODY
    ensures CreditNow(s, 0) <= longest * s.policy.a.classes[0].bw
  {
    var a := s.policy.a;
    NowSetting(s, longest);
    BooksBusy(a.classes[0], a.lastActive, A.Elapsed(a, s.clock), s.comp.running[Begin(s.comp.running)], longest) by {
      hide Inv, CeilInv, A.Elapsed;
    }
    hide *;
  }

  /** The busy link now: who sends, for how long, and what the first class has saved. */
  lemma NowSetting(s: State, longest: Time)
    requires Inv(s) && CeilInv(s, longest) && s.policy.a.lastActive != A.NOBODY
    ensures s.comp.running.Keys != {}
    ensures var a, t := s.policy.a, s.comp.running[Begin(s.comp.running)];
            var c, dt := a.classes[0], A.Elapsed(a, s.clock);
            && 0.0 <= dt <= t.remaining <= t.delay <= longest && 0.0 < c.bw <= 1.0
            && (if c.level == a.lastActive then c.credit <= longest * c.bw
              else c.credit <= (t.delay - t.remaining) * c.bw)
  {
    hide CeilAt;
    C.Holder(s.comp, s.policy, s.clock);
    CeilFacts(s, longest);
  }

  lemma BooksBusy(c: A.Class, lastActive: int, dt: Time, t: Task, longest: Time)
    requires |c.queue| != 0 && !c.wasEmpty && 0.0 <= dt <= t.remaining <= t.delay <= longest && 0.0 < c.bw <= 1.0
    requires if c.level == lastActive then c.credit <= longest * c.bw else c.credit <= (t.delay - t.remaining) * c.bw
    ensures Books(c, lastActive, dt) <= longest * c.bw
  {
    hide A.Charge;
    ChargeExactly(c, true, lastActive, dt);
    if c.level == lastActive {
      ChargeOwn(c, true, dt, longest);
    } else {
      ChargeBehind(c, true, lastActive, dt, t, longest);
    }
  }

  lemma StartCeil(s: State, longest: Time)
    requires Start(s) && 0.0 <= longest
    ensures s.policy.Avb? && Inv(s) && CeilInv(s, longest)
  {
    StartInv(s);
  }
}
