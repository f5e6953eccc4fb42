/** A power governor with hysteresis on a sliding window (HysteresisLocalGovernor.cpp). */
module HysteresisGovernor {
  import opened Basics
  import Q = TimeQueues

  datatype ComponentState = IDLE | RUNNING | STALLED

  const SLOW: string := "SLOW"
  const FAST: string := "FAST"
  const DEFAULT: string := "DEFAULT"

  datatype Config = Config(window: Time, fast: Time, slow: Time)

  /** The component was in `state` up to `until`, from the entry before or from the start. */
  datatype Segment = Segment(state: ComponentState, until: Time)

  datatype Governor = Governor(known: bool, mode: string, last: ComponentState,
                               history: seq<Segment>, wakeup: Option<Time>)

  /** Where the sliding window starts. */
  function WindowStart(window: Time, now: Time): Time {
    if now > window then now - window else 0.0
  }

  /** Drops what ended before the window. */
  function Prune(h: seq<Segment>, start: Time): seq<Segment> {
    if h != [] && h[0].until < start then Prune(h[1..], start) else h
  }

  function Busy(state: ComponentState, length: Time): Time {
    if state != IDLE then length else 0.0
  }

  /** The sum over the remaining entries, the first one counted from the start of the window. */
  function ExecTime(h: seq<Segment>, last: ComponentState, from: Time, now: Time): Time {
    if h == [] then Busy(last, now - from)
    else Busy(h[0].state, h[0].until - from) + ExecTime(h[1..], last, h[0].until, now)
  }

  function NextMode(c: Config, mode: string, exec: Time): string {
    if mode == SLOW && exec >= c.fast then FAST
    else if mode == FAST && exec <= c.slow then SLOW
    else mode
  }

  /** The delay after which the load can reach the next threshold, if anything changes at all. */
  function WakeDelay(c: Config, mode: string, last: ComponentState, exec: Time): Option<Time> {
    if mode == SLOW && last != IDLE then Some(c.fast - exec)
    else if mode == FAST && last == IDLE then Some(exec - c.slow)
    else None
  }

  /** A state change of the component, reported while the component is in power mode `powerMode`. */
  function Notified(g: Governor, now: Time, state: ComponentState, powerMode: string): Governor {
    var g1 := if g.known then g else g.(known := true, mode := powerMode, wakeup := Q.Notify(g.wakeup, now));
    if state == g1.last then g1
    else g1.(history := g1.history + [Segment(g1.last, now)], last := state, wakeup := Q.Notify(g1.wakeup, now))
  }

  /** One activation of the process, on whatever has been notified since the event triggered. */
  function Processed(c: Config, g: Governor, now: Time): Governor {
    var start := WindowStart(c.window, now);
    var history := Prune(g.history, start);
    var exec := ExecTime(history, g.last, start, now);
    var mode := NextMode(c, g.mode, exec);
    var delay := WakeDelay(c, mode, g.last, exec);
    Governor(g.known, mode, g.last, history, if delay.None? then g.wakeup else Q.Notify(g.wakeup, now + delay.value))
  }

  // ---- the reference: busy time of the whole history ---------------------------------------------------

  /** Time in [a, b] for which the component was not idle, by its full history; the last state holds on. */
  function Load(h: seq<Segment>, last: ComponentState, from: Time, a: Time, b: Time): Time {
    if h == [] then Busy(last, if from < b then Overlap(from, b, a, b) else 0.0)
    else Busy(h[0].state, Overlap(from, h[0].until, a, b)) + Load(h[1..], last, h[0].until, a, b)
  }

  /** Entries are in order of time, none before `from` or after `now`. */
  predicate Ordered(h: seq<Segment>, from: Time, now: Time)
    decreases h
  {
    if h == [] then from <= now else from <= h[0].until && Ordered(h[1..], h[0].until, now)
  }

  lemma {:induction false} OrderedBound(h: seq<Segment>, from: Time, now: Time)
    requires Ordered(h, from, now)
    ensures from <= now && forall i :: 0 <= i < |h| ==> from <= h[i].until <= now
  {
    if h != [] {
      OrderedBound(h[1..], h[0].until, now);
      forall i | 0 <= i < |h| ensures from <= h[i].until <= now {
        if i > 0 {
          assert h[i] == h[1..][i - 1];
        }
      }
    }
  }

  /** What ended before the window contributes nothing. */
  lemma {:induction false} PruneLoad(h: seq<Segment>, last: ComponentState, from: Time, a: Time, b: Time)
    requires Ordered(h, from, b) && from <= a <= b
    ensures Load(h, last, from, a, b) == ExecTime(Prune(h, a), last, a, b)
    decreases h
  {
    if h != [] && h[0].until < a {
      PruneLoad(h[1..], last, h[0].until, a, b);
    } else if h != [] {
      OrderedBound(h, from, b);
      InsideLoad(h[1..], last, h[0].until, a, b);
    }
  }

  /** Inside the window the sum is the load. */
  lemma {:induction false} InsideLoad(h: seq<Segment>, last: ComponentState, from: Time, a: Time, b: Time)
    requires Ordered(h, from, b) && a <= from
    ensures Load(h, last, from, a, b) == ExecTime(h, last, from, b)
    decreases h
  {
    if h != [] {
      OrderedBound(h, from, b);
      InsideLoad(h[1..], last, h[0].until, a, b);
    }
  }

  /** Intervals add up. */
  lemma {:induction false} LoadSplit(h: seq<Segment>, last: ComponentState, from: Time, now: Time, a: Time,
      b: Time, c: Time)
    requires Ordered(h, from, now) && a <= b <= c
    ensures Load(h, last, from, a, c) == Load(h, last, from, a, b) + Load(h, last, from, b, c)
    decreases h
  {
    if h != [] {
      LoadSplit(h[1..], last, h[0].until, now, a, b, c);
    }
  }

  /** No interval holds more busy time than it is long. */
  lemma {:induction false} LoadBounded(h: seq<Segment>, last: ComponentState, from: Time, now: Time, a: Time, b: Time)
    requires Ordered(h, from, now) && a <= b
    ensures 0.0 <= Load(h, last, from, a, b) <= (if from < a then b - a else if from < b then b - from else 0.0)
    decreases h
  {
    if h != [] {
      LoadBounded(h[1..], last, h[0].until, now, a, b);
    }
  }

  /** After the last change only the last state counts. */
  lemma {:induction false} LoadAfter(h: seq<Segment>, last: ComponentState, from: Time, now: Time, b: Time)
    requires Ordered(h, from, now) && now <= b
    ensures Load(h, last, from, now, b) == Busy(last, b - now)
    decreases h
  {
    OrderedBound(h, from, now);
    if h != [] {
      LoadAfter(h[1..], last, h[0].until, now, b);
    }
  }

  /** Busy time in the window at time t, by the full history. */
  function WindowLoad(c: Config, full: seq<Segment>, last: ComponentState, t: Time): Time {
    Load(full, last, 0.0, WindowStart(c.window, t), t)
  }

  /** Without a change of state, the load moves with the last state only: it cannot fall while the component
      is busy, cannot rise while it is idle, and never changes faster than time. */
  lemma LoadMoves(c: Config, full: seq<Segment>, last: ComponentState, now: Time, t: Time)
    requires Ordered(full, 0.0, now) && now <= t && 0.0 < c.window
    ensures var l0, l1 := WindowLoad(c, full, last, now), WindowLoad(c, full, last, t);
            if last != IDLE then l0 <= l1 <= l0 + (t - now) else l0 - (t - now) <= l1 <= l0
  {
    OrderedBound(full, 0.0, now);
    var a, b := WindowStart(c.window, now), WindowStart(c.window, t);
    LoadSplit(full, last, 0.0, now, a, now, t);
    LoadSplit(full, last, 0.0, now, a, b, t);
    LoadBounded(full, last, 0.0, now, a, b);
    LoadAfter(full, last, 0.0, now, t);
  }

  // ---- the process ------------------------------------------------------------------------------------------

  /** The governor schedules itself strictly into the future, whatever the load, if and only if the lower
      threshold is below the upper one. */
  lemma PositiveExactly(c: Config)
    ensures c.slow < c.fast <==>
            forall mode: string, last: ComponentState, exec: Time ::
              var d := WakeDelay(c, NextMode(c, mode, exec), last, exec); d.Some? ==> 0.0 < d.value
  {
    if c.slow >= c.fast {
      var d := WakeDelay(c, NextMode(c, SLOW, c.fast), IDLE, c.fast);
      assert d == Some(c.fast - c.slow);
    }
  }

  /** Dropping for good is harmless because the window only moves forward. */
  lemma {:induction false} PruneAgain(dropped: seq<Segment>, kept: seq<Segment>, start: Time)
    requires forall i :: 0 <= i < |dropped| ==> dropped[i].until < start
    ensures Prune(dropped + kept, start) == Prune(kept, start)
  {
    if dropped == [] {
      assert dropped + kept == kept;
    } else {
      PruneAgain(dropped[1..], kept, start);
      assert (dropped + kept)[1..] == dropped[1..] + kept;
    }
  }

  /** The number of entries that pruning takes away. */
  function Expired(h: seq<Segment>, start: Time): (n: nat)
    ensures n <= |h|
  {
    if h != [] && h[0].until < start then 1 + Expired(h[1..], start) else 0
  }

  /** What pruning leaves, and what it takes away. */
  lemma {:induction false} PruneSplits(h: seq<Segment>, start: Time)
    ensures Prune(h, start) == h[Expired(h, start)..]
    ensures forall i :: 0 <= i < Expired(h, start) ==> h[i].until < start
  {
    if h != [] && h[0].until < start {
      PruneSplits(h[1..], start);
      forall i | 0 <= i < Expired(h, start) ensures h[i].until < start {
        assert i > 0 ==> h[i] == h[1..][i - 1];
      }
    }
  }

  // ---- runs ---------------------------------------------------------------------------------------------------

  /** `triggered` says that the event has triggered and the process is runnable but has not run yet;
      `full` is the history that is never pruned. */
  datatype State = State(g: Governor, triggered: bool, full: seq<Segment>, clock: Time)

  datatype Event =
    | Notify(at: Time, state: ComponentState, powerMode: string)
    | Trigger(at: Time)
    | Process(at: Time)

  function Step(c: Config, s: State, e: Event): State {
    match e
    case Notify(now, state, powerMode) =>
      State(Notified(s.g, now, state, powerMode), s.triggered,
            if state == s.g.last then s.full else s.full + [Segment(s.g.last, now)], now)
    case Trigger(now) => s.(g := s.g.(wakeup := None), triggered := true, clock := now)
    case Process(now) => State(Processed(c, s.g, now), false, s.full, now)
  }

  /** The kernel takes the notification back when the event triggers, and runs the process some time later in
      the same phase; the component may change its state in between. */
  predicate Possible(s: State, e: Event) {
    && s.clock <= e.at && (s.g.wakeup.Some? ==> e.at <= s.g.wakeup.value) && (s.triggered ==> e.at == s.clock)
    && match e
       case Notify(_, _, _) => true
       case Trigger(now) => !s.triggered && s.g.wakeup == Some(now)
       case Process(_) => s.triggered
  }

  function Run(c: Config, s: State, es: seq<Event>): State
    decreases es
  {
    if es == [] then s else Run(c, Step(c, s, es[0]), es[1..])
  }

  predicate Legal(c: Config, s: State, es: seq<Event>)
    decreases es
  {
    es == [] || (Possible(s, es[0]) && Legal(c, Step(c, s, es[0]), es[1..]))
  }

  const START: State := State(Governor(false, DEFAULT, IDLE, [], None), false, [], 0.0)

  /** The mode is right for the load at time t. */
  predicate ModeFits(c: Config, s: State, t: Time) {
    && (s.g.mode == SLOW ==> WindowLoad(c, s.full, s.g.last, t) < c.fast)
    && (s.g.mode == FAST ==> c.slow < WindowLoad(c, s.full, s.g.last, t))
  }

  /** The deque is the full history without its first n entries, which ended before the window. */
  predicate Suffix(full: seq<Segment>, history: seq<Segment>, n: nat, start: Time) {
    n <= |full| && history == full[n..] && forall i :: 0 <= i < n ==> full[i].until < start
  }

  /** At time t the process is still waiting. */
  predicate Asleep(s: State, t: Time) {
    !s.triggered && s.clock <= t && (s.g.wakeup.Some? ==> t < s.g.wakeup.value)
  }

  ghost predicate History(c: Config, s: State) {
    Ordered(s.full, 0.0, s.clock) && exists n: nat :: Suffix(s.full, s.g.history, n, WindowStart(c.window, s.clock))
  }

  ghost predicate Inv(c: Config, s: State) {
    && History(c, s)
    && (s.g.wakeup.Some? || s.triggered ==> s.g.known) && (s.g.wakeup.Some? ==> s.clock <= s.g.wakeup.value)
    && (!s.g.known ==> s.g.mode == DEFAULT)
    && (forall t :: Asleep(s, t) ==> ModeFits(c, s, t))
  }

  lemma {:induction false} OrderedLater(h: seq<Segment>, from: Time, now: Time, later: Time)
    requires Ordered(h, from, now) && now <= later
    ensures Ordered(h, from, later)
    decreases h
  {
    if h != [] {
      OrderedLater(h[1..], h[0].until, now, later);
    }
  }

  lemma {:induction false} OrderedSnoc(h: seq<Segment>, from: Time, now: Time, state: ComponentState)
    requires Ordered(h, from, now)
    ensures Ordered(h + [Segment(state, now)], from, now)
    decreases h
  {
    OrderedBound(h, from, now);
    if h != [] {
      OrderedSnoc(h[1..], h[0].until, now, state);
      assert (h + [Segment(state, now)])[1..] == h[1..] + [Segment(state, now)];
    }
  }

  lemma SuffixPrune(full: seq<Segment>, history: seq<Segment>, n: nat, start: Time, later: Time)
    requires Suffix(full, history, n, start) && start <= later
    ensures Prune(full, later) == Prune(history, later)
  {
    assert full == full[..n] + full[n..];
    PruneAgain(full[..n], history, later);
  }

  /** The execution time that the process computes from the pruned deque is the load of the whole history. */
  lemma ExecIsLoad(c: Config, s: State, now: Time)
    requires History(c, s) && s.clock <= now && 0.0 < c.window
    ensures var start := WindowStart(c.window, now);
            ExecTime(Prune(s.g.history, start), s.g.last, start, now) == WindowLoad(c, s.full, s.g.last, now)
  {
    hide Suffix;
    var start := WindowStart(c.window, now);
    var n: nat :| Suffix(s.full, s.g.history, n, WindowStart(c.window, s.clock));
    SuffixPrune(s.full, s.g.history, n, WindowStart(c.window, s.clock), start);
    OrderedLater(s.full, 0.0, s.clock, now);
    OrderedBound(s.full, 0.0, now);
    PruneLoad(s.full, s.g.last, 0.0, start, now);
  }

  lemma SuffixSnoc(full: seq<Segment>, history: seq<Segment>, n: nat, start: Time, later: Time, x: Segment)
    requires Suffix(full, history, n, start) && start <= later
    ensures Suffix(full, history, n, later) && Suffix(full + [x], history + [x], n, later)
  {
  }

  lemma SuffixPruned(full: seq<Segment>, history: seq<Segment>, n: nat, start: Time, later: Time)
    requires Suffix(full, history, n, start) && start <= later
    ensures exists k: nat :: Suffix(full, Prune(history, later), k, later)
  {
    PruneSplits(history, later);
    var k := Expired(history, later);
    forall i | 0 <= i < n + k ensures full[i].until < later {
      assert i >= n ==> full[i] == history[i - n];
    }
    assert Suffix(full, Prune(history, later), n + k, later);
  }

  /** No event loses anything that is still in the window. */
  lemma StepHistory(c: Config, s: State, e: Event)
    requires History(c, s) && Possible(s, e) && 0.0 < c.window
    ensures History(c, Step(c, s, e))
  {
    hide Suffix;
    var w0, w1 := WindowStart(c.window, s.clock), WindowStart(c.window, e.at);
    var n: nat :| Suffix(s.full, s.g.history, n, w0);
    OrderedLater(s.full, 0.0, s.clock, e.at);
    match e {
      case Notify(now, _, _) =>
        OrderedSnoc(s.full, 0.0, now, s.g.last);
        SuffixSnoc(s.full, s.g.history, n, w0, w1, Segment(s.g.last, now));
      case Trigger(now) => SuffixSnoc(s.full, s.g.history, n, w0, w1, Segment(s.g.last, now));
      case Process(_) => SuffixPruned(s.full, s.g.history, n, w0, w1);
    }
  }

  lemma {:induction false} RunHistory(c: Config, s: State, es: seq<Event>)
    requires History(c, s) && Legal(c, s, es) && 0.0 < c.window
    ensures History(c, Run(c, s, es))
    decreases es
  {
    if es != [] {
      StepHistory(c, s, es[0]);
      RunHistory(c, Step(c, s, es[0]), es[1..]);
    }
  }

  /** After an activation the mode fits the load from now until the governor has asked to be woken. */
  lemma ProcessFits(c: Config, s: State, now: Time, t: Time)
    requires History(c, s) && s.clock <= now <= t && 0.0 < c.window && c.slow < c.fast
    requires var w := Processed(c, s.g, now).wakeup; w.Some? ==> t < w.value
    ensures ModeFits(c, Step(c, s, Process(now)), t)
  {
    ExecIsLoad(c, s, now);
    OrderedLater(s.full, 0.0, s.clock, now);
    LoadMoves(c, s.full, s.g.last, now, t);
    hide History, WindowLoad;
  }

  lemma StepInv(c: Config, s: State, e: Event)
    requires Inv(c, s) && Possible(s, e) && 0.0 < c.window && c.slow < c.fast
    ensures Inv(c, Step(c, s, e))
  {
    hide History;
    var s1 := Step(c, s, e);
    StepHistory(c, s, e);
    PositiveExactly(c);
    forall t | Asleep(s1, t) ensures ModeFits(c, s1, t) {
      match e {
        case Notify(_, _, _) => assert Asleep(s, t);
        case Process(now) => ProcessFits(c, s, now, t);
      }
    }
  }

  lemma {:induction false} RunInv(c: Config, s: State, es: seq<Event>)
    requires Inv(c, s) && Legal(c, s, es) && 0.0 < c.window && c.slow < c.fast
    ensures Inv(c, Run(c, s, es))
    decreases es
  {
    if es != [] {
      StepInv(c, s, es[0]);
      RunInv(c, Step(c, s, es[0]), es[1..]);
    }
  }

  lemma StartInv(c: Config)
    ensures Inv(c, START)
  {
    assert Suffix(START.full, START.g.history, 0, WindowStart(c.window, 0.0));
  }

  /** Sliding window: in every run, the execution time that the next activation computes from its pruned
      deque equals the busy time in the window by the full, never pruned history. */
  lemma {:induction false} WindowExact(c: Config, es: seq<Event>, now: Time)
    requires 0.0 < c.window && Legal(c, START, es) && Run(c, START, es).clock <= now
    ensures var s := Run(c, START, es);
            var start := WindowStart(c.window, now);
            ExecTime(Prune(s.g.history, start), s.g.last, start, now) == WindowLoad(c, s.full, s.g.last, now)
  {
    StartInv(c);
    RunHistory(c, START, es);
    ExecIsLoad(c, Run(c, START, es), now);
  }

  /** Hysteresis at every instant: while the process waits, at any time before its event triggers, the load is below
      the upper threshold in the slow mode and above the lower one in the fast mode.  No crossing is missed,
      although the governor sleeps. */
  lemma {:induction false} NoCrossingMissed(c: Config, es: seq<Event>, t: Time)
    requires 0.0 < c.window && c.slow < c.fast && Legal(c, START, es)
    requires Asleep(Run(c, START, es), t)
    ensures ModeFits(c, Run(c, START, es), t)
  {
    StartInv(c);
    RunInv(c, START, es);
  }

  /** What an activation makes of the load of the full history: the slow mode is left if and only if the load has
      reached the upper threshold, the fast one if and only if it has come down to the lower one, and in between,
      or in any other mode, nothing changes.  The governor then wakes itself after exactly the distance to the
      threshold that the last state moves the load towards, unless it has been notified again meanwhile. */
  lemma {:induction false} ActivationExact(c: Config, es: seq<Event>, now: Time)
    requires 0.0 < c.window && Legal(c, START, es) && Possible(Run(c, START, es), Process(now))
    ensures var s := Run(c, START, es);
            var s1, load := Step(c, s, Process(now)), WindowLoad(c, s.full, s.g.last, now);
            && (s.g.mode == SLOW ==> s1.g.mode == if load >= c.fast then FAST else SLOW)
            && (s.g.mode == FAST ==> s1.g.mode == if load <= c.slow then SLOW else FAST)
            && (s.g.mode != SLOW && s.g.mode != FAST ==> s1.g.mode == s.g.mode)
            && s1.g.last == s.g.last && s1.full == s.full
            && (s.g.wakeup.Some? ==> s1.g.wakeup.Some? && s1.g.wakeup.value <= s.g.wakeup.value)
            && (s.g.wakeup.None? ==>
                  s1.g.wakeup == if s1.g.mode == SLOW && s.g.last != IDLE then Some(now + (c.fast - load))
                                 else if s1.g.mode == FAST && s.g.last == IDLE then Some(now + (load - c.slow))
                                 else None)
  {
    StartInv(c);
    RunHistory(c, START, es);
    ExecIsLoad(c, Run(c, START, es), now);
    hide History, WindowLoad, ExecTime, Prune, Run, Legal;
  }

  /** Hysteresis over runs: once the governor knows its component, no event changes the mode but an activation that
      finds the load at or beyond the threshold on the far side; between the thresholds the mode stays. */
  lemma {:induction false} ModeChanges(c: Config, es: seq<Event>, e: Event)
    requires 0.0 < c.window && Legal(c, START, es) && Possible(Run(c, START, es), e)
    ensures var s := Run(c, START, es);
            var s1, load := Step(c, s, e), WindowLoad(c, s.full, s.g.last, e.at);
            s.g.known && s1.g.mode != s.g.mode ==>
              && e.Process?
              && (|| (s.g.mode == SLOW && s1.g.mode == FAST && load >= c.fast)
                  || (s.g.mode == FAST && s1.g.mode == SLOW && load <= c.slow))
  {
    if e.Process? {
      ActivationExact(c, es, e.at);
    }
    hide WindowLoad, Processed, Run, Legal;
  }

  // ---- the history and what happened ----------------------------------------------------------------------

  /** Time in [a, b] for which the component was not idle, by the notified states alone: each holds from its
      notification to the next, and the last one on. */
  function BusyTime(es: seq<Event>, state: ComponentState, from: Time, a: Time, b: Time): Time
    decreases es
  {
    if es == [] then Busy(state, if from < b then Overlap(from, b, a, b) else 0.0)
    else
      match es[0]
      case Notify(now, next, _) =>
        Busy(state, Overlap(from, now, a, b)) + BusyTime(es[1..], next, now, a, b)
      case _ => BusyTime(es[1..], state, from, a, b)
  }

  /** The time of the last entry of a history. */
  function LastUntil(h: seq<Segment>, from: Time): Time {
    if h == [] then from else h[|h| - 1].until
  }

  /** The part of the load that the entries of the history make up. */
  function Past(h: seq<Segment>, from: Time, a: Time, b: Time): Time {
    if h == [] then 0.0 else Busy(h[0].state, Overlap(from, h[0].until, a, b)) + Past(h[1..], h[0].until, a, b)
  }

  lemma {:induction false} LoadPast(h: seq<Segment>, last: ComponentState, from: Time, a: Time, b: Time)
    ensures Load(h, last, from, a, b)
            == Past(h, from, a, b)
               + Busy(last, if LastUntil(h, from) < b then Overlap(LastUntil(h, from), b, a, b) else 0.0)
    decreases h
  {
    if h != [] {
      LoadPast(h[1..], last, h[0].until, a, b);
    }
  }

  lemma {:induction false} PastSnoc(h: seq<Segment>, x: Segment, from: Time, a: Time, b: Time)
    ensures Past(h + [x], from, a, b) == Past(h, from, a, b) + Busy(x.state, Overlap(LastUntil(h, from), x.until, a, b))
    decreases h
  {
    var more := h + [x];
    if h == [] {
      assert more[1..] == [];
    } else {
      assert more[1..] == h[1..] + [x];
      PastSnoc(h[1..], x, h[0].until, a, b);
    }
  }

  /** A stretch of one state counts the same in one piece or in two. */
  lemma OverlapSplit(u: Time, v: Time, w: Time, a: Time, b: Time)
    requires u <= v <= w
    ensures Overlap(u, v, a, b) + Overlap(v, w, a, b) == Overlap(u, w, a, b)
  {
  }

  /** From a state of a run on: what the history will add is the busy time of what happens. */
  lemma {:induction false} HistoryAdds(c: Config, s: State, es: seq<Event>, since: Time, a: Time, b: Time)
    requires Legal(c, s, es) && LastUntil(s.full, 0.0) <= since <= s.clock && Run(c, s, es).clock <= b
    ensures var r := Run(c, s, es);
            Load(r.full, r.g.last, 0.0, a, b)
            == Past(s.full, 0.0, a, b) + Busy(s.g.last, Overlap(LastUntil(s.full, 0.0), since, a, b))
               + BusyTime(es, s.g.last, since, a, b)
    decreases es
  {
    if es == [] {
      LoadPast(s.full, s.g.last, 0.0, a, b);
      OverlapSplit(LastUntil(s.full, 0.0), since, b, a, b);
    } else {
      var s1 := Step(c, s, es[0]);
      ClockGrows(c, s1, es[1..]);
      match es[0] {
        case Notify(now, state, _) =>
          OverlapSplit(LastUntil(s.full, 0.0), since, now, a, b);
          if state != s.g.last {
            PastSnoc(s.full, Segment(s.g.last, now), 0.0, a, b);
          }
          HistoryAdds(c, s1, es[1..], now, a, b);
        case _ => HistoryAdds(c, s1, es[1..], since, a, b);
      }
    }
  }

  lemma {:induction false} ClockGrows(c: Config, s: State, es: seq<Event>)
    requires Legal(c, s, es)
    ensures s.clock <= Run(c, s, es).clock
    decreases es
  {
    if es != [] {
      ClockGrows(c, Step(c, s, es[0]), es[1..]);
    }
  }

  /** The load of the full history is the busy time by the notified states. */
  lemma {:induction false} LoadIsBusyTime(c: Config, es: seq<Event>, now: Time)
    requires Legal(c, START, es) && Run(c, START, es).clock <= now
    ensures var r := Run(c, START, es);
            WindowLoad(c, r.full, r.g.last, now) == BusyTime(es, IDLE, 0.0, WindowStart(c.window, now), now)
  {
    HistoryAdds(c, START, es, 0.0, WindowStart(c.window, now), now);
  }

  // ---- the governor object --------------------------------------------------------------------------------------

  class LoadHysteresisGovernor {
    const windowTime: Time
    const fastTime: Time
    const slowTime: Time
    var known: bool
    var powerMode: string
    var lastState: ComponentState
    var stateHistory: seq<Segment>
    var wakeupEvent: Option<Time>

    function Abs(): Governor
      reads this
    {
      Governor(known, powerMode, lastState, stateHistory, wakeupEvent)
    }

    constructor (c: Config)
      ensures Abs() == START.g && Config(windowTime, fastTime, slowTime) == c
    {
      windowTime, fastTime, slowTime := c.window, c.fast, c.slow;
      known, powerMode, lastState, stateHistory, wakeupEvent := false, DEFAULT, IDLE, [], None;
    }

    method Wake(at: Time)
      modifies this`wakeupEvent
      ensures wakeupEvent == Q.Notify(old(wakeupEvent), at)
    {
      if wakeupEvent.None? || at < wakeupEvent.value {
        wakeupEvent := Some(at);
      }
    }

    method Notify(now: Time, newState: ComponentState, mode: string)
      modifies this
      ensures Abs() == Notified(old(Abs()), now, newState, mode)
    {
      if !known {
        known, powerMode := true, mode;
        Wake(now);
      }
      if newState != lastState {
        stateHistory := stateHistory + [Segment(lastState, now)];
        lastState := newState;
        Wake(now);
      }
    }

    method Process(now: Time)
      modifies this
      ensures Abs() == Processed(Config(windowTime, fastTime, slowTime), old(Abs()), now)
    {
      var startTime := if now > windowTime then now - windowTime else 0.0;
      ghost var start, h0 := startTime, stateHistory;
      while |stateHistory| > 0 && stateHistory[0].until < startTime
        invariant Prune(stateHistory, start) == Prune(h0, start)
        invariant known == old(known) && powerMode == old(powerMode) && lastState == old(lastState)
                  && wakeupEvent == old(wakeupEvent)
        decreases |stateHistory|
      {
        stateHistory := stateHistory[1..];
      }
      var execTime := 0.0;
      for i := 0 to |stateHistory|
        invariant execTime + ExecTime(stateHistory[i..], lastState, startTime, now)
                  == ExecTime(stateHistory, lastState, start, now)
      {
        assert stateHistory[i..][0] == stateHistory[i] && stateHistory[i..][1..] == stateHistory[i + 1..];
        if stateHistory[i].state != IDLE {
          execTime := execTime + (stateHistory[i].until - startTime);
        }
        startTime := stateHistory[i].until;
      }
      if lastState != IDLE {
        execTime := execTime + (now - startTime);
      }
      if powerMode == SLOW && execTime >= fastTime {
        powerMode := FAST;
      } else if powerMode == FAST && execTime <= slowTime {
        powerMode := SLOW;
      }
      if powerMode == SLOW && lastState != IDLE {
        Wake(now + (fastTime - execTime));
      } else if powerMode == FAST && lastState == IDLE {
        Wake(now + (execTime - slowTime));
      }
    }
  }
}
