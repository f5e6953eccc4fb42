/** Whole runs under credit-based shaping: the bandwidth a class can get, and the range of its credit. */
module AvbRuns {
  import opened Basics
  import opened Component
  import opened AvbLedger
  import A = AvbScheduling

  // ---- the bandwidth of a class ---------------------------------------------------------------------------

  /** The bound on the sending time of class q between two states of a run. */
  predicate SendsAtMost(s: State, r: State, sent: Time, q: nat)
    requires s.policy.Avb? && q < |s.policy.a.classes|
  {
    && r.policy.Avb? && A.SameShape(s.policy.a.classes, r.policy.a.classes) && s.clock <= r.clock
    && sent <= (r.clock - s.clock) * s.policy.a.classes[q].bw + CreditNow(s, q) - CreditNow(r, q)
  }

  lemma SendsChain(s: State, m: State, r: State, sent: Time, q: nat)
    requires s.policy.Avb? && q < |s.policy.a.classes| && StepGains(s, m, q)
    requires SendsAtMost(m, r, sent, q)
    ensures SendsAtMost(s, r, (if Sends(s, q) then m.clock - s.clock else 0.0) + sent, q)
  {
    hide Books, Sends;
  }

  /** One more step before a stretch of run that keeps the bound. */
  lemma SendsStep(s: State, e: Event, r: State, sent: Time, q: nat)
    requires s.policy.Avb? && Inv(s) && Possible(s, e) && q < |s.policy.a.classes|
    requires Step(s, e).policy.Avb? && q < |Step(s, e).policy.a.classes| && SendsAtMost(Step(s, e), r, sent, q)
    ensures SendsAtMost(s, r, (if Sends(s, q) then Step(s, e).clock - s.clock else 0.0) + sent, q)
  {
    hide *;
    StepCredit(s, e, q);
    SendsChain(s, Step(s, e), r, sent, q);
  }

  /** Bandwidth reservation: over any run, the time for which a class holds the link is at most its
      share of the elapsed time plus the credit it uses up. */
  lemma {:induction false} Bandwidth(s: State, es: seq<Event>, q: nat)
    requires Inv(s) && Legal(s, es) && q < |s.policy.a.classes|
    ensures SendsAtMost(s, Run(s, es), SendTime(s, es, q), q)
    decreases es
  {
    if es != [] {
      var s1 := Step(s, es[0]);
      StepInv(s, es[0]);
      StepShape(s, es[0]);
      Bandwidth(s1, es[1..], q);
      SendsStep(s, es[0], Run(s1, es[1..]), SendTime(s1, es[1..], q), q);
    }
  }

  // ---- the range of the credit ----------------------------------------------------------------------------

  /** The floor: in every run, the credit of a class never falls below what serving its most expensive
      task costs, that is delay * (1 - bandwidth). */
  lemma {:induction false} CreditFloor(s: State, es: seq<Event>, q: nat, floor: Time)
    requires Start(s) && Legal(s, es) && q < |s.policy.a.classes|
    requires 0.0 <= floor && EventsFit(es, s.policy.a.classes, q, floor)
    ensures var r := Run(s, es);
            r.policy.Avb? && q < |r.policy.a.classes| && 0.0 - floor <= CreditNow(r, q)
  {
    StartInv(s);
    RunInv(s, es);
    FloorRun(s, es, q, floor);
    FloorNow(Run(s, es), q, floor);
  }

  lemma RunShape(s: State, es: seq<Event>)
    requires Inv(s) && Legal(s, es)
    ensures Run(s, es).policy.Avb? && A.SameShape(s.policy.a.classes, Run(s, es).policy.a.classes)
  {
    Bandwidth(s, es, 0);
  }

  lemma StartCredit(s: State, q: nat)
    requires Start(s) && q < |s.policy.a.classes|
    ensures Inv(s) && s.clock == 0.0 && CreditNow(s, q) == 0.0 && 0.0 < s.policy.a.classes[q].bw <= 1.0
  {
    StartInv(s);
  }

  lemma BoundOf(s: State, r: State, sent: Time, q: nat, floor: Time)
    requires s.policy.Avb? && q < |s.policy.a.classes| && SendsAtMost(s, r, sent, q)
    requires s.clock == 0.0 && CreditNow(s, q) == 0.0 && 0.0 - floor <= CreditNow(r, q)
    ensures sent <= r.clock * s.policy.a.classes[q].bw + floor
  {
    FromZero(sent, r.clock, s.clock, s.policy.a.classes[q].bw, CreditNow(s, q), CreditNow(r, q), floor) by {
      hide CreditNow, A.SameShape;
    }
  }

  lemma FromZero(sent: Time, x: Time, y: Time, bw: real, c0: real, c1: real, floor: real)
    requires y == 0.0 && c0 == 0.0 && 0.0 - floor <= c1 && sent <= (x - y) * bw + c0 - c1
    ensures sent <= x * bw + floor
  {
    assert x - y == x;
  }

  /** The bandwidth bound with the floor: no more than the share of the elapsed time plus one task's cost. */
  lemma {:induction false} BandwidthFromStart(s: State, es: seq<Event>, q: nat, longest: Time)
    requires Start(s) && Legal(s, es) && q < |s.policy.a.classes|
    requires 0.0 <= longest && EventsShort(es, s.policy.a.classes, q, longest)
    ensures var bw := s.policy.a.classes[q].bw;
            SendTime(s, es, q) <= Run(s, es).clock * bw + longest * (1.0 - bw)
  {
    hide SendsAtMost, CreditNow, Inv, Run, Legal, SendTime, EventsFit, EventsShort;
    StartCredit(s, q);
    var bw := s.policy.a.classes[q].bw;
    var floor := longest * (1.0 - bw);
    ShortFits(es, s.policy.a.classes, q, longest, floor);
    A.Share(longest, bw);
    CreditFloor(s, es, q, floor);
    Bandwidth(s, es, q);
    BoundOf(s, Run(s, es), SendTime(s, es, q), q, floor);
  }

  /** Every task of class q that arrives has at most this delay. */
  predicate EventsShort(es: seq<Event>, classes: seq<A.Class>, q: nat, longest: Time) {
    forall i :: 0 <= i < |es| ==>
      match es[i]
      case Arrive(_, t) => A.ClassFor(classes, t.prio) == q ==> t.delay <= longest
      case Wake(_, released) =>
        forall k :: 0 <= k < |released| && A.ClassFor(classes, released[k].prio) == q ==> released[k].delay <= longest
      case Latency(_, _) => true
  }

  lemma ShortFits(es: seq<Event>, classes: seq<A.Class>, q: nat, longest: Time, floor: Time)
    requires q < |classes| && 0.0 < classes[q].bw <= 1.0 && EventsShort(es, classes, q, longest)
    requires floor == longest * (1.0 - classes[q].bw)
    ensures EventsFit(es, classes, q, floor)
  {
    forall t: Task | t.delay <= longest ensures Fits(t, classes, q, floor) {
      assert 0.0 <= (longest - t.delay) * (1.0 - classes[q].bw);
    }
  }

  /** The default class has the whole link as its share, so its credit is never negative. */
  lemma {:induction false} DefaultNeverInDebt(s: State, es: seq<Event>)
    requires Start(s) && Legal(s, es)
    ensures var r := Run(s, es);
            && r.policy.Avb? && |r.policy.a.classes| == |s.policy.a.classes|
            && 0.0 <= CreditNow(r, |s.policy.a.classes| - 1)
  {
    var q := |s.policy.a.classes| - 1;
    hide EventsFit, Fits, CreditNow, Run, Legal;
    AllFree(es, s.policy.a.classes, q);
    CreditFloor(s, es, q, 0.0);
    StartInv(s);
    RunShape(s, es);
  }

  lemma AllFree(es: seq<Event>, classes: seq<A.Class>, q: nat)
    requires q < |classes| && classes[q].bw == 1.0
    ensures EventsFit(es, classes, q, 0.0)
  {
    forall t: Task ensures Fits(t, classes, q, 0.0) {
      assert t.delay * (1.0 - classes[q].bw) == 0.0;
    }
  }

  /** A class with nothing queued that is not sending never holds credit; the running task came from the
      class marked active, and no class is marked when the link is idle. */
  lemma {:induction false} EmptyHoldsNoCredit(s: State, es: seq<Event>, q: nat)
    requires Start(s) && Legal(s, es) && q < |s.policy.a.classes|
    ensures var r := Run(s, es);
            && r.policy.Avb? && q < |r.policy.a.classes|
            && (Sends(r, q) <==> r.policy.a.classes[q].level == r.policy.a.lastActive)
            && (r.comp.running.Keys == {} <==> r.policy.a.lastActive == A.NOBODY)
            && (|r.policy.a.classes[q].queue| == 0 && !Sends(r, q) ==> r.policy.a.classes[q].credit <= 0.0)
  {
    StartInv(s);
    RunInv(s, es);
    RunShape(s, es);
    var r := Run(s, es);
    SendsActive(r, q);
    if r.comp.running.Keys != {} {
      ActiveIsReal(r.policy.a, r.comp.running);
    }
  }
}
