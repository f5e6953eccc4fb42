/** Delayed delivery (TimeQueue.hpp, TimeQueue.cpp): a queue of due times driven by one kernel event, which has at
    most one pending notification, the earliest. */
module TimeQueues {
  import opened Basics

  datatype Entry = Entry(time: Time, obj: int)
  datatype Add = Add(obj: int, delay: Time)

  /** What the environment does in one call-back: which of several earliest entries the heap
      surrenders, and what the call-back adds. */
  datatype Reaction = Reaction(choice: nat, adds: seq<Add>)

  datatype Queue = Queue(entries: seq<Entry>, pending: Option<Time>)

  function Notify(pending: Option<Time>, at: Time): Option<Time> {
    if pending.None? || at < pending.value then Some(at) else pending
  }

  function Due(now: Time, a: Add): Entry {
    Entry(now + a.delay, a.obj)
  }

  function AddTo(q: Queue, now: Time, a: Add): Queue {
    Queue(q.entries + [Due(now, a)], Notify(q.pending, now + a.delay))
  }

  function AddAllTo(q: Queue, now: Time, adds: seq<Add>): Queue
    decreases adds
  {
    if adds == [] then q else AddAllTo(AddTo(q, now, adds[0]), now, adds[1..])
  }

  predicate IsEarliest(entries: seq<Entry>, i: nat) {
    i < |entries| && forall j :: 0 <= j < |entries| ==> entries[i].time <= entries[j].time
  }

  function FirstEarliest(entries: seq<Entry>): (i: nat)
    requires |entries| > 0
    ensures IsEarliest(entries, i)
  {
    if |entries| == 1 then 0
    else
      var i := FirstEarliest(entries[..|entries| - 1]);
      if entries[|entries| - 1].time < entries[i].time then |entries| - 1 else i
  }

  /** The entry on top of the heap; ties are broken by the environment. */
  function Top(entries: seq<Entry>, choice: nat): (i: nat)
    requires |entries| > 0
    ensures IsEarliest(entries, i)
  {
    if IsEarliest(entries, choice) then choice else FirstEarliest(entries)
  }

  function Next(script: seq<Reaction>): Reaction {
    if script == [] then Reaction(0, []) else script[0]
  }

  function Rest(script: seq<Reaction>): seq<Reaction> {
    if script == [] then [] else script[1..]
  }

  /** The queue after one call-back. */
  function Delivered1(q: Queue, now: Time, r: Reaction): Queue
    requires |q.entries| > 0
  {
    AddAllTo(q.(entries := DropAt(q.entries, Top(q.entries, r.choice))), now, r.adds)
  }

  lemma {:induction false} AddAllLength(q: Queue, now: Time, adds: seq<Add>)
    ensures |AddAllTo(q, now, adds).entries| == |q.entries| + |adds|
    decreases adds
  {
    if adds != [] {
      AddAllLength(AddTo(q, now, adds[0]), now, adds[1..]);
    }
  }

  /** One activation of the queue method: the queue it leaves and the entries it delivers, in order. */
  function Fire(q: Queue, now: Time, script: seq<Reaction>): (Queue, seq<Entry>)
    requires |q.entries| > 0
    decreases |script|, |q.entries|
  {
    var r := Next(script);
    var e := q.entries[Top(q.entries, r.choice)];
    var q1 := Delivered1(q, now, r);
    if q1.entries == [] then (q1, [e])
    else
      var next := q1.entries[FirstEarliest(q1.entries)].time;
      if next > now then (q1.(pending := Notify(q1.pending, next)), [e])
      else
        AddAllLength(q.(entries := DropAt(q.entries, Top(q.entries, r.choice))), now, r.adds);
        var (q2, d) := Fire(q1, now, Rest(script));
        (q2, [e] + d)
  }

  /** Pending exactly for the earliest entry; nothing is overdue. */
  ghost predicate Armed(q: Queue, now: Time) {
    && (forall i :: 0 <= i < |q.entries| ==> now <= q.entries[i].time)
    && (if q.entries == [] then q.pending == None
        else q.pending == Some(q.entries[FirstEarliest(q.entries)].time))
  }

  // ---- adding ----------------------------------------------------------------------------------------

  function Dues(now: Time, adds: seq<Add>): seq<Entry> {
    if adds == [] then [] else [Due(now, adds[0])] + Dues(now, adds[1..])
  }

  predicate Positive(adds: seq<Add>) {
    forall i :: 0 <= i < |adds| ==> 0.0 < adds[i].delay
  }

  predicate NotNegative(adds: seq<Add>) {
    forall i :: 0 <= i < |adds| ==> 0.0 <= adds[i].delay
  }

  lemma {:induction false} AddAllEntries(q: Queue, now: Time, adds: seq<Add>)
    ensures AddAllTo(q, now, adds).entries == q.entries + Dues(now, adds)
    decreases adds
  {
    if adds != [] {
      AddAllEntries(AddTo(q, now, adds[0]), now, adds[1..]);
    }
  }

  lemma {:induction false} DuesAt(now: Time, adds: seq<Add>)
    ensures |Dues(now, adds)| == |adds|
    ensures forall i :: 0 <= i < |adds| ==> Dues(now, adds)[i] == Due(now, adds[i])
  {
    if adds != [] {
      DuesAt(now, adds[1..]);
    }
  }

  /** The pending notification is for the earliest of what was pending and what was added. */
  predicate PendingFor(pending: Option<Time>, before: Option<Time>, dues: seq<Entry>) {
    && (pending.None? <==> before.None? && dues == [])
    && (pending.Some? ==>
          && (before.Some? ==> pending.value <= before.value)
          && (forall i :: 0 <= i < |dues| ==> pending.value <= dues[i].time)
          && (pending == before || exists i :: 0 <= i < |dues| && dues[i].time == pending.value))
  }

  lemma {:induction false} AddAllPending(q: Queue, now: Time, adds: seq<Add>)
    ensures PendingFor(AddAllTo(q, now, adds).pending, q.pending, Dues(now, adds))
    decreases adds
  {
    if adds != [] {
      var q1 := AddTo(q, now, adds[0]);
      AddAllPending(q1, now, adds[1..]);
      var p, rest := AddAllTo(q1, now, adds[1..]).pending, Dues(now, adds[1..]);
      var dues := Dues(now, adds);
      assert dues[0] == Due(now, adds[0]) && dues[1..] == rest;
      forall i | 0 <= i < |dues| ensures p.value <= dues[i].time {
        if i > 0 {
          assert dues[i] == rest[i - 1];
        }
      }
      if p != q.pending {
        if p == q1.pending {
          assert dues[0].time == p.value;
        } else {
          var i :| 0 <= i < |rest| && rest[i].time == p.value;
          assert dues[i + 1].time == p.value;
        }
      }
    }
  }

  function EarliestTime(entries: seq<Entry>): Option<Time> {
    if entries == [] then None else Some(entries[FirstEarliest(entries)].time)
  }

  /** Adding to an armed queue, with any delay that is not negative, keeps the event armed for the earliest entry. */
  lemma AddKeepsArmed(q: Queue, now: Time, a: Add)
    requires Armed(q, now) && 0.0 <= a.delay
    ensures Armed(AddTo(q, now, a), now)
  {
    var q1 := AddTo(q, now, a);
    var last := |q.entries|;
    if q.entries == [] || now + a.delay < q.pending.value {
      forall j | 0 <= j < |q1.entries| ensures q1.entries[last].time <= q1.entries[j].time {
        assert j < last ==> q.entries[FirstEarliest(q.entries)].time <= q.entries[j].time;
      }
    } else {
      var i := FirstEarliest(q.entries);
      forall j | 0 <= j < |q1.entries| ensures q1.entries[i].time <= q1.entries[j].time {
        assert j < last ==> q.entries[i].time <= q.entries[j].time;
      }
    }
  }

  // ---- one firing -----------------------------------------------------------------------------------------

  predicate HasZero(adds: seq<Add>) {
    exists i :: 0 <= i < |adds| && adds[i].delay == 0.0
  }

  /** One of the first n call-backs added something without delay. */
  predicate ZeroAdded(script: seq<Reaction>, n: nat)
    decreases script
  {
    n > 0 && script != [] && (HasZero(script[0].adds) || ZeroAdded(script[1..], n - 1))
  }

  /** The entries added by the first n call-backs. */
  function ScriptDues(now: Time, script: seq<Reaction>, n: nat): seq<Entry>
    decreases script
  {
    if n == 0 || script == [] then [] else Dues(now, script[0].adds) + ScriptDues(now, script[1..], n - 1)
  }

  predicate Polite(script: seq<Reaction>) {
    forall k :: 0 <= k < |script| ==> NotNegative(script[k].adds)
  }

  /** During an activation the pending notification belongs to an entry beyond `now`, or a call-back has
      added something without delay and it is pending for `now`. */
  predicate Pledged(q: Queue, now: Time, zero: bool) {
    if zero then q.pending == Some(now)
    else
      || q.pending.None?
      || (now < q.pending.value && exists i :: 0 <= i < |q.entries| && q.entries[i].time == q.pending.value)
  }

  predicate NoneOverdue(entries: seq<Entry>, now: Time) {
    forall i :: 0 <= i < |entries| ==> now <= entries[i].time
  }

  lemma DropKeeps(q: Queue, i: nat, now: Time, zero: bool)
    requires i < |q.entries| && q.entries[i].time == now && Pledged(q, now, zero) && NoneOverdue(q.entries, now)
    ensures Pledged(q.(entries := DropAt(q.entries, i)), now, zero) && NoneOverdue(DropAt(q.entries, i), now)
  {
    var r := DropAt(q.entries, i);
    forall k | 0 <= k < |r| ensures now <= r[k].time {
      assert r[k] == q.entries[if k < i then k else k + 1];
    }
    if !zero && q.pending.Some? {
      var j :| 0 <= j < |q.entries| && q.entries[j].time == q.pending.value;
      assert r[if j < i then j else j - 1] == q.entries[j];
    }
  }

  lemma AddAllKeeps(q: Queue, now: Time, adds: seq<Add>, zero: bool)
    requires Pledged(q, now, zero) && NoneOverdue(q.entries, now) && NotNegative(adds)
    ensures var q1 := AddAllTo(q, now, adds);
            NoneOverdue(q1.entries, now) && Pledged(q1, now, zero || HasZero(adds))
  {
    var q1, dues := AddAllTo(q, now, adds), Dues(now, adds);
    AddAllEntries(q, now, adds);
    AddAllPending(q, now, adds);
    DuesAt(now, adds);
    if HasZero(adds) {
      var i :| 0 <= i < |adds| && adds[i].delay == 0.0;
      assert dues[i].time == now;
    }
    if q1.pending.Some? && q1.pending != q.pending {
      var i :| 0 <= i < |dues| && dues[i].time == q1.pending.value;
      assert q1.entries[|q.entries| + i] == dues[i];
    } else if !zero && q.pending.Some? {
      var i :| 0 <= i < |q.entries| && q.entries[i].time == q.pending.value;
      assert q1.entries[i] == q.entries[i];
    }
  }

  lemma OneDelivery(q: Queue, now: Time, r: Reaction, zero: bool)
    requires |q.entries| > 0 && NoneOverdue(q.entries, now) && EarliestTime(q.entries) == Some(now)
    requires Pledged(q, now, zero) && NotNegative(r.adds)
    ensures var e, q1 := q.entries[Top(q.entries, r.choice)], Delivered1(q, now, r);
            && e.time == now && NoneOverdue(q1.entries, now) && Pledged(q1, now, zero || HasZero(r.adds))
            && multiset(q.entries) + multiset(Dues(now, r.adds)) == multiset([e]) + multiset(q1.entries)
  {
    var i := Top(q.entries, r.choice);
    DropKeeps(q, i, now, zero);
    var mid := q.(entries := DropAt(q.entries, i));
    AddAllKeeps(mid, now, r.adds, zero);
    AddAllEntries(mid, now, r.adds);
  }

  /** What an activation leaves behind. */
  ghost predicate Fired(q: Queue, now: Time, script: seq<Reaction>, zero: bool, q1: Queue, d: seq<Entry>) {
    && |d| > 0 && (forall i :: 0 <= i < |d| ==> d[i].time == now)
    && (forall i :: 0 <= i < |q1.entries| ==> now < q1.entries[i].time)
    && multiset(q.entries) + multiset(ScriptDues(now, script, |d|)) == multiset(d) + multiset(q1.entries)
    && q1.pending == if zero || ZeroAdded(script, |d|) then Some(now) else EarliestTime(q1.entries)
  }

  lemma OneReaction(now: Time, script: seq<Reaction>)
    ensures ScriptDues(now, script, 1) == Dues(now, Next(script).adds)
    ensures ZeroAdded(script, 1) <==> HasZero(Next(script).adds)
  {
    if script != [] {
      assert ScriptDues(now, script[1..], 0) == [];
      assert !ZeroAdded(script[1..], 0);
    }
  }

  lemma LastDelivery(q: Queue, now: Time, script: seq<Reaction>, zero: bool)
    requires |q.entries| > 0 && NoneOverdue(q.entries, now) && EarliestTime(q.entries) == Some(now)
    requires Pledged(q, now, zero) && NotNegative(Next(script).adds)
    requires var q1 := Delivered1(q, now, Next(script)); q1.entries == [] || EarliestTime(q1.entries) != Some(now)
    ensures var (q2, d) := Fire(q, now, script); Fired(q, now, script, zero, q2, d)
  {
    hide Delivered1, ScriptDues, ZeroAdded, HasZero, NotNegative, Dues;
    var r := Next(script);
    OneDelivery(q, now, r, zero);
    OneReaction(now, script);
    var e, q1 := q.entries[Top(q.entries, r.choice)], Delivered1(q, now, r);
    if q1.entries == [] {
    } else {
      LeftArmed(q1, now, zero || HasZero(r.adds));
    }
  }

  lemma LeftArmed(q: Queue, now: Time, zero: bool)
    requires Pledged(q, now, zero) && q.entries != [] && NoneOverdue(q.entries, now)
             && EarliestTime(q.entries) != Some(now)
    ensures var next := q.entries[FirstEarliest(q.entries)].time;
            && now < next && (forall i :: 0 <= i < |q.entries| ==> now < q.entries[i].time)
            && Notify(q.pending, next) == if zero then Some(now) else Some(next)
  {
    var i := FirstEarliest(q.entries);
    assert now <= q.entries[i].time;
  }

  lemma Account(q: multiset<Entry>, added: multiset<Entry>, e: multiset<Entry>, q1: multiset<Entry>,
                more: multiset<Entry>, d: multiset<Entry>, q2: multiset<Entry>)
    requires q + added == e + q1 && q1 + more == d + q2
    ensures q + (added + more) == (e + d) + q2
  {
    assert q + (added + more) == (q + added) + more;
    assert (e + q1) + more == e + (q1 + more);
  }

  lemma MoreReactions(now: Time, script: seq<Reaction>, n: nat)
    ensures multiset(ScriptDues(now, script, n + 1))
            == multiset(Dues(now, Next(script).adds)) + multiset(ScriptDues(now, Rest(script), n))
    ensures ZeroAdded(script, n + 1) <==> HasZero(Next(script).adds) || ZeroAdded(Rest(script), n)
  {
  }

  lemma ConsFired(q: Queue, q1: Queue, now: Time, script: seq<Reaction>, zero: bool, e: Entry, q2: Queue, d: seq<Entry>)
    requires e.time == now && Fired(q1, now, Rest(script), zero || HasZero(Next(script).adds), q2, d)
    requires multiset(q.entries) + multiset(Dues(now, Next(script).adds)) == multiset([e]) + multiset(q1.entries)
    ensures Fired(q, now, script, zero, q2, [e] + d)
  {
    hide ScriptDues, Dues, ZeroAdded, HasZero;
    MoreReactions(now, script, |d|);
    Account(multiset(q.entries), multiset(Dues(now, Next(script).adds)), multiset([e]), multiset(q1.entries),
            multiset(ScriptDues(now, Rest(script), |d|)), multiset(d), multiset(q2.entries));
  }

  lemma Delivered1Length(q: Queue, now: Time, r: Reaction)
    requires |q.entries| > 0
    ensures |Delivered1(q, now, r).entries| == |q.entries| - 1 + |r.adds|
  {
    AddAllLength(q.(entries := DropAt(q.entries, Top(q.entries, r.choice))), now, r.adds);
  }

  /** Exactness of one activation: everything that is due is delivered, everything delivered is due,
      nothing is lost or duplicated, and the event is armed for the earliest remaining entry, unless a
      call-back added something without delay. */
  lemma {:induction false} FireExact(q: Queue, now: Time, script: seq<Reaction>, zero: bool)
    requires |q.entries| > 0 && NoneOverdue(q.entries, now) && EarliestTime(q.entries) == Some(now)
    requires Pledged(q, now, zero) && Polite(script)
    ensures var (q1, d) := Fire(q, now, script); Fired(q, now, script, zero, q1, d)
    decreases |script|, |q.entries|
  {
    hide Fired, Pledged, Delivered1, HasZero;
    var r := Next(script);
    var q1 := Delivered1(q, now, r);
    if q1.entries == [] || EarliestTime(q1.entries) != Some(now) {
      LastDelivery(q, now, script, zero);
    } else {
      OneDelivery(q, now, r, zero);
      Delivered1Length(q, now, r);
      FireExact(q1, now, Rest(script), zero || HasZero(r.adds));
      var (q2, d) := Fire(q1, now, Rest(script));
      ConsFired(q, q1, now, script, zero, q.entries[Top(q.entries, r.choice)], q2, d);
    }
  }

  // ---- runs ---------------------------------------------------------------------------------------------------

  /** `triggered` says that the event has triggered and the queue method is runnable but has not run yet.
      `added` are the due entries of all adds so far, `delivered` the entries handed to the call-back with
      the times at which that happened. */
  datatype State = State(queue: Queue, triggered: bool, clock: Time, added: multiset<Entry>,
                         delivered: seq<(Entry, Time)>)

  datatype Event =
    | Enqueue(at: Time, item: Add)
    | Trigger(at: Time)
    | Activate(at: Time, script: seq<Reaction>)

  function At(d: seq<Entry>, now: Time): seq<(Entry, Time)> {
    seq(|d|, i requires 0 <= i < |d| => (d[i], now))
  }

  function Entries(d: seq<(Entry, Time)>): seq<Entry> {
    seq(|d|, i requires 0 <= i < |d| => d[i].0)
  }

  /** The checks of the queue method: something is queued, and its due time is now. */
  predicate Asserts(s: State) {
    |s.queue.entries| > 0 && EarliestTime(s.queue.entries) == Some(s.clock)
  }

  /** The kernel takes the notification back when the event triggers, and runs the method some time later in
      the same phase. */
  function Step(s: State, e: Event): State {
    match e
    case Enqueue(now, a) =>
      s.(queue := AddTo(s.queue, now, a), clock := now, added := s.added + multiset{Due(now, a)})
    case Trigger(now) => s.(queue := s.queue.(pending := None), triggered := true, clock := now)
    case Activate(now, script) =>
      if |s.queue.entries| == 0 then s
      else
        var (q, d) := Fire(s.queue, now, script);
        State(q, false, now, s.added + multiset(ScriptDues(now, script, |d|)), s.delivered + At(d, now))
  }

  /** Time passes up to the pending notification, and stands still while the method is runnable.  Anybody may
      add at any time, also between the trigger and the run of the method, which goes on if its checks hold. */
  predicate Possible(s: State, e: Event) {
    && s.clock <= e.at && (s.queue.pending.Some? ==> e.at <= s.queue.pending.value)
    && (s.triggered ==> e.at == s.clock)
    && match e
       case Enqueue(_, a) => 0.0 <= a.delay
       case Trigger(now) => !s.triggered && s.queue.pending == Some(now)
       case Activate(_, script) => s.triggered && Asserts(s) && Polite(script)
  }

  function Run(s: State, es: seq<Event>): State
    decreases es
  {
    if es == [] then s else Run(Step(s, es[0]), es[1..])
  }

  predicate Legal(s: State, es: seq<Event>)
    decreases es
  {
    es == [] || (Possible(s, es[0]) && Legal(Step(s, es[0]), es[1..]))
  }

  /** Nothing is added without delay from the trigger to the end of the run: neither before the method runs nor
      in a call-back it makes. */
  predicate Delayed(s: State, e: Event) {
    match e
    case Enqueue(_, a) => s.triggered ==> 0.0 < a.delay
    case Trigger(_) => true
    case Activate(_, script) => !ZeroAdded(script, |Step(s, e).delivered| - |s.delivered|)
  }

  predicate AllDelayed(s: State, es: seq<Event>)
    decreases es
  {
    es == [] || (Delayed(s, es[0]) && AllDelayed(Step(s, es[0]), es[1..]))
  }

  predicate OnTime(d: seq<(Entry, Time)>) {
    forall i :: 0 <= i < |d| ==> d[i].1 == d[i].0.time
  }

  /** The event is exact: pending for the earliest entry; or triggered with something due, and the
      notification that may be pending again is for a later entry. */
  ghost predicate Exact(s: State) {
    if s.triggered then Asserts(s) && Pledged(s.queue, s.clock, false)
    else s.queue.pending == EarliestTime(s.queue.entries)
  }

  /** The event is pending for the current instant, and nothing is due. */
  predicate Stray(s: State) {
    !s.triggered && s.queue.pending == Some(s.clock) && EarliestTime(s.queue.entries) != Some(s.clock)
  }

  /** What holds in every run. */
  ghost predicate Inv(s: State) {
    && NoneOverdue(s.queue.entries, s.clock)
    && s.added == multiset(Entries(s.delivered)) + multiset(s.queue.entries)
    && OnTime(s.delivered)
    && (if s.triggered then Pledged(s.queue, s.clock, s.queue.pending == Some(s.clock)) else Exact(s) || Stray(s))
  }

  lemma ArmedIs(q: Queue, now: Time)
    ensures Armed(q, now) <==> NoneOverdue(q.entries, now) && q.pending == EarliestTime(q.entries)
  {
  }

  lemma EntriesAt(before: seq<(Entry, Time)>, d: seq<Entry>, now: Time)
    ensures Entries(before + At(d, now)) == Entries(before) + d
  {
  }

  lemma Totals(added: multiset<Entry>, del: multiset<Entry>, q: multiset<Entry>, more: multiset<Entry>,
               d: multiset<Entry>, q1: multiset<Entry>)
    requires added == del + q && q + more == d + q1
    ensures added + more == (del + d) + q1
  {
    assert (del + q) + more == del + (q + more);
  }

  // ---- one event ----------------------------------------------------------------------------------------------

  /** An add outside the window between trigger and run leaves the event exact, and repairs a stray one if it
      is without delay. */
  lemma EnqueueSleeping(s: State, now: Time, a: Add)
    requires Inv(s) && Possible(s, Enqueue(now, a)) && !s.triggered
    ensures var s1 := Step(s, Enqueue(now, a)); Inv(s1) && (Exact(s) ==> Exact(s1))
  {
    var s1 := Step(s, Enqueue(now, a));
    if Exact(s) {
      EarliestLater(s.queue.entries, s.clock, now);
      ArmedIs(s.queue, now);
      AddKeepsArmed(s.queue, now, a);
      ArmedIs(s1.queue, now);
    } else {
      var i := FirstEarliest(s1.queue.entries);
      assert s1.queue.entries[|s.queue.entries|] == Due(now, a);
      if EarliestTime(s1.queue.entries) != Some(now) {
        assert Stray(s1);
      }
    }
  }

  /** The clock does not pass the earliest entry of an exact queue. */
  lemma EarliestLater(entries: seq<Entry>, clock: Time, now: Time)
    requires NoneOverdue(entries, clock) && (EarliestTime(entries).Some? ==> now <= EarliestTime(entries).value)
    ensures NoneOverdue(entries, now)
  {
    forall i | 0 <= i < |entries| ensures now <= entries[i].time {
      assert entries[FirstEarliest(entries)].time <= entries[i].time;
    }
  }

  /** What is due stays due, and something without delay makes the event pending for now. */
  lemma StaysDue(s: State, a: Add)
    requires Inv(s) && s.triggered && Asserts(s) && 0.0 <= a.delay
    ensures var s1 := Step(s, Enqueue(s.clock, a));
            Asserts(s1) && (s1.queue.pending == Some(s.clock) <==> s.queue.pending == Some(s.clock) || a.delay == 0.0)
  {
    var s1 := Step(s, Enqueue(s.clock, a));
    assert s1.queue.entries[FirstEarliest(s.queue.entries)] == s.queue.entries[FirstEarliest(s.queue.entries)];
    assert s1.queue.entries[|s.queue.entries|] == Due(s.clock, a);
  }

  /** An add while the method is runnable: the event stays exact if and only if it comes with a delay. */
  lemma EnqueueTriggered(s: State, now: Time, a: Add)
    requires Inv(s) && Possible(s, Enqueue(now, a)) && s.triggered
    ensures var s1 := Step(s, Enqueue(now, a)); Inv(s1) && (Exact(s) ==> (Exact(s1) <==> 0.0 < a.delay))
  {
    hide EarliestTime, FirstEarliest;
    var q, q1, zero := s.queue, AddTo(s.queue, now, a), s.queue.pending == Some(s.clock);
    AddKeeps(q, now, a, zero);
    if Exact(s) {
      StaysDue(s, a);
    }
    hide Pledged, AddTo;
  }

  lemma AddKeeps(q: Queue, now: Time, a: Add, zero: bool)
    requires Pledged(q, now, zero) && NoneOverdue(q.entries, now) && 0.0 <= a.delay
    ensures var q1 := AddTo(q, now, a);
            && NoneOverdue(q1.entries, now) && Pledged(q1, now, zero || a.delay == 0.0)
            && (q1.pending == Some(now) <==> zero || a.delay == 0.0)
  {
    AddAllKeeps(q, now, [a], zero);
    assert AddAllTo(q, now, [a]) == AddTo(q, now, a);
    assert HasZero([a]) <==> [a][0].delay == 0.0;
  }

  lemma TriggerInv(s: State, now: Time)
    requires Inv(s) && Possible(s, Trigger(now))
    ensures var s1 := Step(s, Trigger(now)); Inv(s1) && (Exact(s1) <==> Exact(s)) && (Exact(s1) <==> Asserts(s1))
  {
    if Exact(s) {
      EarliestLater(s.queue.entries, s.clock, now);
    }
  }

  /** The run of the method, on whatever is pending by then. */
  lemma ActivateFires(s: State, now: Time, script: seq<Reaction>)
    requires Inv(s) && Possible(s, Activate(now, script))
    ensures var (q1, d) := Fire(s.queue, now, script);
            Fired(s.queue, now, script, s.queue.pending == Some(now), q1, d)
  {
    FireExact(s.queue, now, script, s.queue.pending == Some(now));
  }

  lemma NotNow(q: Queue, now: Time)
    requires forall i :: 0 <= i < |q.entries| ==> now < q.entries[i].time
    ensures EarliestTime(q.entries) != Some(now) && NoneOverdue(q.entries, now)
  {
  }

  /** A run of the method leaves the event exact, if it was exact before and no call-back added anything
      without delay; otherwise it leaves a stray notification. */
  lemma ActivateInv(s: State, now: Time, script: seq<Reaction>)
    requires Inv(s) && Possible(s, Activate(now, script))
    ensures var s1 := Step(s, Activate(now, script));
            var n := |s1.delivered| - |s.delivered|;
            var zero := s.queue.pending == Some(now) || ZeroAdded(script, n);
            n > 0 && Inv(s1) && (Exact(s1) <==> !zero) && (Stray(s1) <==> zero)
  {
    hide ScriptDues, ZeroAdded, Fire, FirstEarliest;
    ActivateFires(s, now, script);
    var q := s.queue;
    var (q1, d) := Fire(q, now, script);
    var s1 := Step(s, Activate(now, script));
    EntriesAt(s.delivered, d, now);
    Totals(s.added, multiset(Entries(s.delivered)), multiset(q.entries), multiset(ScriptDues(now, script, |d|)),
      multiset(d), multiset(q1.entries));
    assert s1.queue == q1 && s1.clock == now;
    forall i | 0 <= i < |s1.delivered| ensures s1.delivered[i].1 == s1.delivered[i].0.time {
      if i >= |s.delivered| {
        assert s1.delivered[i] == (d[i - |s.delivered|], now);
      }
    }
    NotNow(q1, now);
  }

  // ---- whole runs -----------------------------------------------------------------------------------------

  /** One event keeps the invariant, and an exact event exact if and only if nothing is added without delay
      from the trigger to the end of the run. */
  lemma StepInv(s: State, e: Event)
    requires Inv(s) && Possible(s, e)
    ensures Inv(Step(s, e)) && (Exact(s) ==> (Exact(Step(s, e)) <==> Delayed(s, e)))
  {
    hide Inv, Pledged, EarliestTime, Fire, ZeroAdded;
    match e {
      case Enqueue(now, a) =>
        if s.triggered {
          EnqueueTriggered(s, now, a);
        } else {
          EnqueueSleeping(s, now, a);
        }
      case Trigger(now) => TriggerInv(s, now);
      case Activate(now, script) =>
        ActivateInv(s, now, script);
        if Exact(s) {
          PledgedLater(s, now);
        }
    }
  }

  lemma PledgedLater(s: State, now: Time)
    requires s.triggered && s.clock == now && Exact(s)
    ensures s.queue.pending != Some(now)
  {
  }

  /** The event is exact after every event of the run. */
  ghost predicate AlwaysExact(s: State, es: seq<Event>)
    decreases es
  {
    Exact(s) && (es == [] || AlwaysExact(Step(s, es[0]), es[1..]))
  }

  lemma {:induction false} RunInv(s: State, es: seq<Event>)
    requires Inv(s) && Legal(s, es)
    ensures Inv(Run(s, es)) && (Exact(s) ==> (AlwaysExact(s, es) <==> AllDelayed(s, es)))
    ensures AlwaysExact(s, es) ==> Exact(Run(s, es))
    decreases es
  {
    if es != [] {
      StepInv(s, es[0]);
      RunInv(Step(s, es[0]), es[1..]);
    }
  }

  const EMPTY: State := State(Queue([], None), false, 0.0, multiset{}, [])

  /** Exactness, over every run: every entry ever added has been delivered exactly once, at its add time plus
      its delay, or is still queued.  The event is exact throughout the run (pending for the earliest entry
      whenever the method is not runnable, and the checks of the method hold whenever it is) if and only if
      nothing was added without delay between a trigger and the end of the run of the method. */
  lemma {:induction false} Exactness(es: seq<Event>)
    requires Legal(EMPTY, es)
    ensures var r := Run(EMPTY, es);
            && r.added == multiset(Entries(r.delivered)) + multiset(r.queue.entries)
            && OnTime(r.delivered)
            && (AlwaysExact(EMPTY, es) <==> AllDelayed(EMPTY, es))
            && (AllDelayed(EMPTY, es) && !r.triggered ==> r.queue.pending == EarliestTime(r.queue.entries))
            && (AllDelayed(EMPTY, es) && r.triggered ==> Asserts(r))
  {
    RunInv(EMPTY, es);
  }

  /** Any number of adds while the method is runnable. */
  function AddEvents(now: Time, adds: seq<Add>): seq<Event> {
    seq(|adds|, i requires 0 <= i < |adds| => Enqueue(now, adds[i]))
  }

  lemma {:induction false} AddsTriggered(s: State, adds: seq<Add>)
    requires Inv(s) && s.triggered && Asserts(s) && NotNegative(adds)
    ensures var es := AddEvents(s.clock, adds);
            var r := Run(s, es);
            && Legal(s, es) && Inv(r) && r.triggered && Asserts(r) && r.clock == s.clock && r.delivered == s.delivered
            && (r.queue.pending == Some(s.clock) <==> s.queue.pending == Some(s.clock) || HasZero(adds))
    decreases adds
  {
    if adds != [] {
      var e := Enqueue(s.clock, adds[0]);
      var s1 := Step(s, e);
      assert AddEvents(s.clock, adds)[1..] == AddEvents(s.clock, adds[1..]);
      EnqueueTriggered(s, s.clock, adds[0]);
      StaysDue(s, adds[0]);
      AddsTriggered(s1, adds[1..]);
      HasZeroCons(adds);
    }
  }

  lemma HasZeroCons(adds: seq<Add>)
    requires adds != []
    ensures HasZero(adds) <==> adds[0].delay == 0.0 || HasZero(adds[1..])
  {
    if HasZero(adds) && adds[0].delay != 0.0 {
      var i :| 0 <= i < |adds| && adds[i].delay == 0.0;
      assert adds[1..][i - 1] == adds[i];
    }
  }

  /** The exact condition for one activation, from the trigger to the end of the run: the event is left
      pending for the earliest entry if and only if neither an add since the trigger nor a call-back of the
      run came without delay.  Otherwise it is left pending for the current instant, with nothing due; unless
      something else becomes due at once, it triggers again and the method fails its checks. */
  lemma ArmedExactly(s: State, now: Time, adds: seq<Add>, script: seq<Reaction>)
    requires Inv(s) && Exact(s) && Possible(s, Trigger(now)) && NotNegative(adds) && Polite(script)
    ensures var s1 := Run(Step(s, Trigger(now)), AddEvents(now, adds));
            var s2 := Step(s1, Activate(now, script));
            var zero := HasZero(adds) || ZeroAdded(script, |s2.delivered| - |s1.delivered|);
            && Legal(Step(s, Trigger(now)), AddEvents(now, adds)) && Possible(s1, Activate(now, script))
            && |s1.delivered| < |s2.delivered|
            && (s2.queue.pending == EarliestTime(s2.queue.entries) <==> !zero)
            && (zero ==> Possible(s2, Trigger(now)) && !Asserts(Step(s2, Trigger(now))))
  {
    TriggerInv(s, now);
    AddsTriggered(Step(s, Trigger(now)), adds);
    var s1 := Run(Step(s, Trigger(now)), AddEvents(now, adds));
    ActivateInv(s1, now, script);
    hide Fire, ZeroAdded, AddEvents, Run, Legal, Fired;
  }

  lemma {:induction false} RunConcat(s: State, a: seq<Event>, b: seq<Event>)
    ensures Run(s, a + b) == Run(Run(s, a), b)
    ensures Legal(s, a + b) <==> Legal(s, a) && Legal(Run(s, a), b)
    decreases a
  {
    if a == [] {
      assert a + b == b;
    } else {
      assert (a + b)[1..] == a[1..] + b;
      RunConcat(Step(s, a[0]), a[1..], b);
    }
  }

  lemma RunOne(s: State, e: Event)
    ensures Run(s, [e]) == Step(s, e) && (Legal(s, [e]) <==> Possible(s, e))
  {
    hide Step, Possible;
    assert [e][1..] == [];
    assert Run(Step(s, e), []) == Step(s, e);
  }

  /** One entry that is due at once, its activation, and the trigger after it. */
  function Story(adds: seq<Add>, script: seq<Reaction>): seq<Event> {
    [Enqueue(0.0, Add(1, 0.0))] + ([Trigger(0.0)] + (AddEvents(0.0, adds) + ([Activate(0.0, script)] + [Trigger(0.0)])))
  }

  lemma FirstEntry()
    ensures var e0 := Enqueue(0.0, Add(1, 0.0));
            var s0 := Step(EMPTY, e0);
            Possible(EMPTY, e0) && Inv(s0) && Exact(s0) && Possible(s0, Trigger(0.0))
  {
    EnqueueSleeping(EMPTY, 0.0, Add(1, 0.0));
    hide Inv, Exact, EarliestTime;
  }

  lemma StorySteps(adds: seq<Add>, script: seq<Reaction>)
    requires NotNegative(adds) && Polite(script)
    requires HasZero(adds) || (script != [] && HasZero(script[0].adds))
    ensures var e0, t := Enqueue(0.0, Add(1, 0.0)), Trigger(0.0);
            var s0 := Step(EMPTY, e0);
            var s1 := Step(s0, t);
            var s2 := Run(s1, AddEvents(0.0, adds));
            var s3 := Step(s2, Activate(0.0, script));
            && Possible(EMPTY, e0) && Possible(s0, t) && Legal(s1, AddEvents(0.0, adds))
            && Possible(s2, Activate(0.0, script)) && Possible(s3, t) && !Asserts(Step(s3, t))
  {
    FirstEntry();
    var s0 := Step(EMPTY, Enqueue(0.0, Add(1, 0.0)));
    var s2 := Run(Step(s0, Trigger(0.0)), AddEvents(0.0, adds));
    hide Step, Possible, Inv, Exact, Asserts, Run, Legal, AddEvents, HasZero, Polite, NotNegative, ZeroAdded;
    ArmedExactly(s0, 0.0, adds, script);
    FirstCounts(script, |Step(s2, Activate(0.0, script)).delivered| - |s2.delivered|);
  }

  lemma FirstCounts(script: seq<Reaction>, n: int)
    ensures 0 < n && script != [] && HasZero(script[0].adds) ==> ZeroAdded(script, n)
  {
  }

  lemma StoryFails(adds: seq<Add>, script: seq<Reaction>)
    requires NotNegative(adds) && Polite(script)
    requires HasZero(adds) || (script != [] && HasZero(script[0].adds))
    ensures Legal(EMPTY, Story(adds, script)) && !Asserts(Run(EMPTY, Story(adds, script)))
  {
    hide Step, Possible, Asserts, AddEvents, Run, Legal, HasZero, Polite, NotNegative;
    var e0, t, a := Enqueue(0.0, Add(1, 0.0)), Trigger(0.0), Activate(0.0, script);
    var s0 := Step(EMPTY, e0);
    var s1 := Step(s0, t);
    var s2 := Run(s1, AddEvents(0.0, adds));
    StorySteps(adds, script);
    RunOne(EMPTY, e0);
    RunOne(s0, t);
    RunOne(s2, a);
    RunOne(Step(s2, a), t);
    RunConcat(s2, [a], [t]);
    RunConcat(s1, AddEvents(0.0, adds), [a] + [t]);
    RunConcat(s0, [t], AddEvents(0.0, adds) + ([a] + [t]));
    RunConcat(EMPTY, [e0], [t] + (AddEvents(0.0, adds) + ([a] + [t])));
  }

  /** The excluded family is not empty: a call-back that adds another object without delay ... */
  lemma ZeroDelayFails()
    ensures var es := Story([], [Reaction(0, [Add(2, 0.0)])]); Legal(EMPTY, es) && !Asserts(Run(EMPTY, es))
  {
    assert [Add(2, 0.0)][0].delay == 0.0;
    StoryFails([], [Reaction(0, [Add(2, 0.0)])]);
  }

  /** ... and another process that adds one without delay, after the trigger and before the method runs. */
  lemma LateAddFails()
    ensures var es := Story([Add(2, 0.0)], []); Legal(EMPTY, es) && !Asserts(Run(EMPTY, es))
  {
    assert [Add(2, 0.0)][0].delay == 0.0;
    StoryFails([Add(2, 0.0)], []);
  }

  // ---- the queue object ------------------------------------------------------------------------------------------

  class TimeQueueImpl {
    var queue: seq<Entry>
    var queueEvent: Option<Time>

    function Abs(): Queue
      reads this
    {
      Queue(queue, queueEvent)
    }

    constructor ()
      ensures Abs() == Queue([], None)
    {
      queue, queueEvent := [], None;
    }

    method NotifyEvent(at: Time)
      modifies this`queueEvent
      ensures queueEvent == Notify(old(queueEvent), at)
    {
      if queueEvent.None? || at < queueEvent.value {
        queueEvent := Some(at);
      }
    }

    method AddEntry(now: Time, a: Add)
      requires 0.0 <= a.delay
      modifies this
      ensures Abs() == AddTo(old(Abs()), now, a)
    {
      queue := queue + [Entry(now + a.delay, a.obj)];
      NotifyEvent(now + a.delay);
    }

    /** A call-back of the environment. */
    method Callback(now: Time, adds: seq<Add>)
      requires NotNegative(adds)
      modifies this
      ensures Abs() == AddAllTo(old(Abs()), now, adds)
    {
      ghost var q0 := Abs();
      for i := 0 to |adds|
        invariant AddAllTo(Abs(), now, adds[i..]) == AddAllTo(q0, now, adds)
      {
        assert adds[i..][1..] == adds[i + 1..] && adds[i..][0] == adds[i];
        AddEntry(now, adds[i]);
      }
    }

    /** Takes the top entry out of the queue and calls back. */
    method DeliverTop(now: Time, r: Reaction) returns (e: Entry)
      requires |queue| > 0 && NotNegative(r.adds)
      modifies this
      ensures e == old(queue[Top(queue, r.choice)])
      ensures Abs() == Delivered1(old(Abs()), now, r)
    {
      var i := Top(queue, r.choice);
      e := queue[i];
      queue := DropAt(queue, i);
      Callback(now, r.adds);
    }

    /** The queue method, activated at `now`. */
    method QueueMethod(now: Time, script: seq<Reaction>) returns (delivered: seq<Entry>)
      requires Polite(script) && NoneOverdue(queue, now)
      requires |queue| > 0 && EarliestTime(queue) == Some(now) && Pledged(Abs(), now, queueEvent == Some(now))
      modifies this
      ensures (Abs(), delivered) == Fire(old(Abs()), now, script)
    {
      hide Fire, Delivered1, Pledged, HasZero, NotNegative, Top;
      ghost var q0 := Abs();
      ghost var zero := queueEvent == Some(now);
      delivered := [];
      var todo := script;
      PrefixedNone(Fire(q0, now, script));
      while true
        invariant |queue| > 0 && NoneOverdue(queue, now) && EarliestTime(queue) == Some(now)
        invariant Pledged(Abs(), now, zero) && Polite(todo)
        invariant Fire(q0, now, script) == Prefixed(delivered, Fire(Abs(), now, todo))
        decreases |todo|, |queue|
      {
        ghost var q := Abs();
        var r := Next(todo);
        OneDelivery(q, now, r, zero);
        Delivered1Length(q, now, r);
        FireStep(q, now, todo);
        var e := DeliverTop(now, r);
        assert e.time == now;
        if queue == [] {
          delivered := delivered + [e];
          break;
        }
        var next := queue[FirstEarliest(queue)].time;
        if next > now {
          delivered := delivered + [e];
          NotifyEvent(next);
          break;
        }
        zero := zero || HasZero(r.adds);
        Regroup(delivered, e, Fire(Abs(), now, Rest(todo)));
        delivered := delivered + [e];
        todo := Rest(todo);
      }
    }
  }

  /** An activation is one delivery, followed by the rest of it as long as something is due. */
  lemma FireStep(q: Queue, now: Time, script: seq<Reaction>)
    requires |q.entries| > 0
    ensures var r := Next(script);
            var e, q1 := q.entries[Top(q.entries, r.choice)], Delivered1(q, now, r);
            Fire(q, now, script) ==
              if q1.entries == [] then (q1, [e])
              else
                var next := q1.entries[FirstEarliest(q1.entries)].time;
                if next > now then (q1.(pending := Notify(q1.pending, next)), [e])
                else Prefixed([e], Fire(q1, now, Rest(script)))
  {
    hide FirstEarliest;
  }

  function Prefixed(d: seq<Entry>, r: (Queue, seq<Entry>)): (Queue, seq<Entry>) {
    (r.0, d + r.1)
  }

  lemma PrefixedNone(r: (Queue, seq<Entry>))
    ensures Prefixed([], r) == r
  {
    assert [] + r.1 == r.1;
  }

  lemma Regroup(d: seq<Entry>, e: Entry, r: (Queue, seq<Entry>))
    ensures Prefixed(d, Prefixed([e], r)) == Prefixed(d + [e], r)
  {
    assert d + ([e] + r.1) == (d + [e]) + r.1;
  }
}
