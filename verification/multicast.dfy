/** A message on a static route (StaticImpl.hpp, StaticImpl.cpp): it walks a forest of hops, branches in
    a table of slots, and is released when the last branch has ended.  Hops complete in any order. */
module Multicast {
  import opened Basics

  datatype Hop = Hop(id: int, destinations: seq<int>, children: seq<Hop>)

  /** What can be observed of a message. */
  datatype Op = Started(hop: Hop) | Finished(hop: Hop) | Completed(dest: int) | Released

  /** A slot of the table: reserved and never written, empty again, or with the hop that is under way there. */
  datatype Slot = Spare | Ended | Busy(hop: Hop)

  /** The slot table up to the next free slot, and the observed operations. */
  datatype Message = Message(slots: seq<Slot>, trace: seq<Op>)

  // ---- the forest --------------------------------------------------------------------------------------

  /** All hops of a tree, parents first. */
  function Tree(h: Hop): seq<Hop>
    decreases h
  {
    [h] + Forest(h.children)
  }

  function Forest(hs: seq<Hop>): seq<Hop>
    decreases hs
  {
    if hs == [] then [] else Tree(hs[0]) + Forest(hs[1..])
  }

  function Calls(dests: seq<int>): seq<Op> {
    seq(|dests|, i requires 0 <= i < |dests| => Completed(dests[i]))
  }

  // ---- operations ----------------------------------------------------------------------------------------

  /** Puts a hop into a slot and starts it there. */
  function StartHop(m: Message, slot: nat, h: Hop): Message
    requires slot < |m.slots|
  {
    Message(m.slots[slot := Busy(h)], m.trace + [Started(h)])
  }

  /** The first child continues in the slot of its parent; every further one takes the next free slot, and
      one more slot is reserved after the last. */
  function StartChildren(m: Message, slot: nat, children: seq<Hop>): Message
    requires slot < |m.slots|
    decreases |children|
  {
    if children == [] then m
    else
      var m1 := StartHop(m, slot, children[0]);
      StartChildren(m1.(slots := m1.slots + [Spare]), |m.slots|, children[1..])
  }

  predicate Idle(slots: seq<Slot>) {
    forall i :: 0 <= i < |slots| ==> !slots[i].Busy?
  }

  function Told(m: Message, slot: nat): Message
    requires slot < |m.slots| && m.slots[slot].Busy?
  {
    var h := m.slots[slot].hop;
    m.(trace := m.trace + [Finished(h)] + Calls(h.destinations))
  }

  /** A hop completes: its destinations are called, then its children start, or its branch ends. */
  function HopDone(m: Message, slot: nat): Message
    requires slot < |m.slots| && m.slots[slot].Busy?
  {
    var h := m.slots[slot].hop;
    var m1 := Told(m, slot);
    if h.children != [] then StartChildren(m1, slot, h.children)
    else
      var m2 := m1.(slots := m1.slots[slot := Ended]);
      if Idle(m2.slots) then m2.(trace := m2.trace + [Released]) else m2
  }

  function StartAll(m: Message, roots: seq<Hop>): Message
    decreases |roots|
  {
    if roots == [] then m
    else StartAll(StartHop(m.(slots := m.slots + [Spare]), |m.slots|, roots[0]), roots[1..])
  }

  /** A new message: every first hop starts in a slot of its own. */
  function Launch(roots: seq<Hop>): Message {
    StartAll(Message([], []), roots)
  }

  /** Hops complete in the order of the given slots. */
  predicate Legal(m: Message, done: seq<nat>)
    decreases |done|
  {
    done == [] || (done[0] < |m.slots| && m.slots[done[0]].Busy? && Legal(HopDone(m, done[0]), done[1..]))
  }

  function Run(m: Message, done: seq<nat>): Message
    requires Legal(m, done)
    decreases |done|
  {
    if done == [] then m else Run(HopDone(m, done[0]), done[1..])
  }

  // ---- what is observed ---------------------------------------------------------------------------------------

  function StartedIn(trace: seq<Op>): seq<Hop> {
    if trace == [] then []
    else
      var last := trace[|trace| - 1];
      StartedIn(trace[..|trace| - 1]) + (if last.Started? then [last.hop] else [])
  }

  function FinishedIn(trace: seq<Op>): seq<Hop> {
    if trace == [] then []
    else
      var last := trace[|trace| - 1];
      FinishedIn(trace[..|trace| - 1]) + (if last.Finished? then [last.hop] else [])
  }

  function CompletedIn(trace: seq<Op>): seq<int> {
    if trace == [] then []
    else
      var last := trace[|trace| - 1];
      CompletedIn(trace[..|trace| - 1]) + (if last.Completed? then [last.dest] else [])
  }

  function ReleasesIn(trace: seq<Op>): nat {
    if trace == [] then 0 else ReleasesIn(trace[..|trace| - 1]) + (if trace[|trace| - 1].Released? then 1 else 0)
  }

  lemma Snoc(trace: seq<Op>, op: Op)
    ensures StartedIn(trace + [op]) == StartedIn(trace) + (if op.Started? then [op.hop] else [])
    ensures FinishedIn(trace + [op]) == FinishedIn(trace) + (if op.Finished? then [op.hop] else [])
    ensures CompletedIn(trace + [op]) == CompletedIn(trace) + (if op.Completed? then [op.dest] else [])
    ensures ReleasesIn(trace + [op]) == ReleasesIn(trace) + (if op.Released? then 1 else 0)
  {
    assert (trace + [op])[..|trace|] == trace;
  }

  lemma {:induction false} SnocCalls(trace: seq<Op>, dests: seq<int>)
    ensures StartedIn(trace + Calls(dests)) == StartedIn(trace)
    ensures FinishedIn(trace + Calls(dests)) == FinishedIn(trace)
    ensures CompletedIn(trace + Calls(dests)) == CompletedIn(trace) + dests
    ensures ReleasesIn(trace + Calls(dests)) == ReleasesIn(trace)
    decreases |dests|
  {
    if dests == [] {
      assert trace + Calls(dests) == trace;
    } else {
      var front, last := dests[..|dests| - 1], dests[|dests| - 1];
      SnocCalls(trace, front);
      Snoc(trace + Calls(front), Completed(last));
      CallsSnoc(trace, front, last);
      hide *;
      assert front + [last] == dests;
    }
  }

  lemma CallsSnoc(trace: seq<Op>, front: seq<int>, last: int)
    ensures trace + Calls(front + [last]) == (trace + Calls(front)) + [Completed(last)]
  {
  }

  // ---- the hops in the table -------------------------------------------------------------------------------

  /** How often hop x is in a slot: as the hop itself, or anywhere in the tree below it. */
  function Weight(slot: Slot, below: bool, x: Hop): nat {
    match slot
    case Spare => 0
    case Ended => 0
    case Busy(h) => if below then multiset(Tree(h))[x] else multiset{h}[x]
  }

  function Sum(slots: seq<Slot>, below: bool, x: Hop): nat {
    if slots == [] then 0 else Sum(slots[..|slots| - 1], below, x) + Weight(slots[|slots| - 1], below, x)
  }

  function SumOf(hs: seq<Hop>, below: bool, x: Hop): nat {
    if below then multiset(Forest(hs))[x] else multiset(hs)[x]
  }

  lemma {:induction false} SumUpdate(slots: seq<Slot>, i: nat, slot: Slot, below: bool, x: Hop)
    requires i < |slots|
    ensures Sum(slots[i := slot], below, x) + Weight(slots[i], below, x)
            == Sum(slots, below, x) + Weight(slot, below, x)
  {
    var n := |slots| - 1;
    var r := slots[i := slot];
    if i < n {
      SumUpdate(slots[..n], i, slot, below, x);
      assert r[..n] == slots[..n][i := slot];
    } else {
      assert r[..n] == slots[..n];
    }
  }

  lemma {:induction false} SumMember(slots: seq<Slot>, i: nat)
    requires i < |slots| && slots[i].Busy?
    ensures 0 < Sum(slots, false, slots[i].hop)
  {
    var n := |slots| - 1;
    if i < n {
      SumMember(slots[..n], i);
    }
  }

  lemma {:induction false} IdleSum(slots: seq<Slot>, below: bool, x: Hop)
    requires Idle(slots)
    ensures Sum(slots, below, x) == 0
  {
    if slots != [] {
      IdleSum(slots[..|slots| - 1], below, x);
    }
  }

  lemma ConsSum(hs: seq<Hop>, below: bool, x: Hop)
    requires hs != []
    ensures SumOf(hs, below, x) == Weight(Busy(hs[0]), below, x) + SumOf(hs[1..], below, x)
  {
    assert hs == [hs[0]] + hs[1..];
  }

  // ---- what the operations do to the table and the trace ---------------------------------------------------

  lemma {:induction false} ChildrenSum(m: Message, slot: nat, children: seq<Hop>, below: bool, x: Hop)
    requires slot < |m.slots| && (children == [] ==> !m.slots[slot].Busy?)
    ensures Sum(StartChildren(m, slot, children).slots, below, x) + Weight(m.slots[slot], below, x)
            == Sum(m.slots, below, x) + SumOf(children, below, x)
    decreases |children|
  {
    if children != [] {
      var m1 := StartHop(m, slot, children[0]);
      var m2 := m1.(slots := m1.slots + [Spare]);
      SumUpdate(m.slots, slot, Busy(children[0]), below, x);
      ChildrenSum(m2, |m.slots|, children[1..], below, x);
      ConsSum(children, below, x);
    }
  }

  lemma {:induction false} ChildrenTrace(m: Message, slot: nat, children: seq<Hop>)
    requires slot < |m.slots|
    ensures var t := StartChildren(m, slot, children).trace;
            && m.trace <= t
            && StartedIn(t) == StartedIn(m.trace) + children && FinishedIn(t) == FinishedIn(m.trace)
            && CompletedIn(t) == CompletedIn(m.trace) && ReleasesIn(t) == ReleasesIn(m.trace)
    decreases |children|
  {
    if children != [] {
      var m1 := StartHop(m, slot, children[0]);
      Snoc(m.trace, Started(children[0]));
      ChildrenTrace(m1.(slots := m1.slots + [Spare]), |m.slots|, children[1..]);
      assert [children[0]] + children[1..] == children;
    }
  }

  lemma ToldTrace(m: Message, slot: nat)
    requires slot < |m.slots| && m.slots[slot].Busy?
    ensures var h, t := m.slots[slot].hop, Told(m, slot).trace;
            && StartedIn(t) == StartedIn(m.trace) && FinishedIn(t) == FinishedIn(m.trace) + [h]
            && CompletedIn(t) == CompletedIn(m.trace) + h.destinations && ReleasesIn(t) == ReleasesIn(m.trace)
  {
    var h := m.slots[slot].hop;
    Snoc(m.trace, Finished(h));
    SnocCalls(m.trace + [Finished(h)], h.destinations);
  }

  lemma TreeWeight(h: Hop, x: Hop)
    ensures Weight(Busy(h), true, x) == multiset{h}[x] + SumOf(h.children, true, x)
  {
  }

  /** One completion: the hop leaves the table, its children enter it. */
  lemma FinishSums(m: Message, slot: nat, x: Hop)
    requires slot < |m.slots| && m.slots[slot].Busy?
    ensures var h, m1 := m.slots[slot].hop, HopDone(m, slot);
            && Sum(m1.slots, true, x) + multiset{h}[x] == Sum(m.slots, true, x)
            && Sum(m1.slots, false, x) + multiset{h}[x] == Sum(m.slots, false, x) + multiset(h.children)[x]
  {
    var h := m.slots[slot].hop;
    var m1 := Told(m, slot);
    TreeWeight(h, x);
    if h.children != [] {
      ChildrenSum(m1, slot, h.children, true, x);
      ChildrenSum(m1, slot, h.children, false, x);
    } else {
      SumUpdate(m.slots, slot, Ended, true, x);
      SumUpdate(m.slots, slot, Ended, false, x);
    }
  }

  /** ... and what its observers are told. */
  lemma FinishEffect(m: Message, slot: nat)
    requires slot < |m.slots| && m.slots[slot].Busy?
    ensures var h, m1 := m.slots[slot].hop, HopDone(m, slot);
            && StartedIn(m1.trace) == StartedIn(m.trace) + h.children
            && FinishedIn(m1.trace) == FinishedIn(m.trace) + [h]
            && CompletedIn(m1.trace) == CompletedIn(m.trace) + h.destinations
            && ReleasesIn(m1.trace) == ReleasesIn(m.trace) + (if Idle(m1.slots) then 1 else 0)
  {
    hide StartedIn, FinishedIn, CompletedIn, ReleasesIn, StartChildren;
    var h := m.slots[slot].hop;
    var m1 := Told(m, slot);
    ToldTrace(m, slot);
    if h.children != [] {
      ChildrenTrace(m1, slot, h.children);
      FirstChildLive(m1, slot, h.children);
    } else {
      Snoc(m1.trace, Released);
    }
  }

  lemma {:induction false} FirstChildLive(m: Message, slot: nat, children: seq<Hop>)
    requires slot < |m.slots| && children != []
    ensures !Idle(StartChildren(m, slot, children).slots)
  {
    ChildrenKeepSlot(StartHop(m, slot, children[0]).(slots := m.slots[slot := Busy(children[0])] + [Spare]),
      |m.slots|, children[1..], slot);
  }

  lemma {:induction false} ChildrenKeepSlot(m: Message, slot: nat, children: seq<Hop>, k: nat)
    requires slot < |m.slots| && k < |m.slots| && k != slot
    ensures k < |StartChildren(m, slot, children).slots| && StartChildren(m, slot, children).slots[k] == m.slots[k]
    decreases |children|
  {
    if children != [] {
      var m1 := StartHop(m, slot, children[0]);
      ChildrenKeepSlot(m1.(slots := m1.slots + [Spare]), |m.slots|, children[1..], k);
    }
  }

  // ---- the invariant -------------------------------------------------------------------------------------------

  function Destinations(hs: seq<Hop>): seq<int> {
    if hs == [] then [] else Destinations(hs[..|hs| - 1]) + hs[|hs| - 1].destinations
  }

  /** Hop x is finished, in the table, or below a hop in the table: exactly as often as it is in the forest. */
  ghost predicate Counted(m: Message, roots: seq<Hop>, x: Hop) {
    && multiset(FinishedIn(m.trace))[x] + Sum(m.slots, true, x) == multiset(Forest(roots))[x]
    && multiset(StartedIn(m.trace))[x] == multiset(FinishedIn(m.trace))[x] + Sum(m.slots, false, x)
  }

  /** A hop is first of the route, or below one that has finished. */
  predicate ParentDone(h: Hop, roots: seq<Hop>, finished: seq<Hop>) {
    h in roots || exists i :: 0 <= i < |finished| && h in finished[i].children
  }

  ghost predicate Inv(m: Message, roots: seq<Hop>) {
    && (forall x :: Counted(m, roots, x))
    && CompletedIn(m.trace) == Destinations(FinishedIn(m.trace))
    && ReleasesIn(m.trace) == (if Idle(m.slots) then 1 else 0)
    && (forall h :: h in StartedIn(m.trace) ==> ParentDone(h, roots, FinishedIn(m.trace)))
  }

  lemma {:induction false} StartAllSum(m: Message, roots: seq<Hop>, below: bool, x: Hop)
    ensures Sum(StartAll(m, roots).slots, below, x) == Sum(m.slots, below, x) + SumOf(roots, below, x)
    decreases |roots|
  {
    if roots != [] {
      var m1 := m.(slots := m.slots + [Spare]);
      SumUpdate(m1.slots, |m.slots|, Busy(roots[0]), below, x);
      StartAllSum(StartHop(m1, |m.slots|, roots[0]), roots[1..], below, x);
      ConsSum(roots, below, x);
    }
  }

  lemma {:induction false} StartAllTrace(m: Message, roots: seq<Hop>)
    ensures var t := StartAll(m, roots).trace;
            && StartedIn(t) == StartedIn(m.trace) + roots && FinishedIn(t) == FinishedIn(m.trace)
            && CompletedIn(t) == CompletedIn(m.trace) && ReleasesIn(t) == ReleasesIn(m.trace)
    decreases |roots|
  {
    if roots != [] {
      Snoc(m.trace, Started(roots[0]));
      StartAllTrace(StartHop(m.(slots := m.slots + [Spare]), |m.slots|, roots[0]), roots[1..]);
      assert [roots[0]] + roots[1..] == roots;
    }
  }

  lemma LaunchBusy(roots: seq<Hop>)
    requires roots != []
    ensures !Idle(Launch(roots).slots)
  {
    StartAllSum(Message([], []), roots, false, roots[0]);
    if Idle(Launch(roots).slots) {
      IdleSum(Launch(roots).slots, false, roots[0]);
    }
  }

  lemma LaunchCounted(roots: seq<Hop>, x: Hop)
    requires StartedIn(Launch(roots).trace) == roots && FinishedIn(Launch(roots).trace) == []
    ensures Counted(Launch(roots), roots, x)
  {
    StartAllSum(Message([], []), roots, true, x);
    StartAllSum(Message([], []), roots, false, x);
  }

  lemma LaunchTrace(roots: seq<Hop>)
    ensures var t := Launch(roots).trace;
            StartedIn(t) == roots && FinishedIn(t) == [] && CompletedIn(t) == [] && ReleasesIn(t) == 0
  {
    StartAllTrace(Message([], []), roots);
  }

  lemma LaunchInv(roots: seq<Hop>)
    requires roots != []
    ensures Inv(Launch(roots), roots) && FinishedIn(Launch(roots).trace) == []
  {
    LaunchTrace(roots);
    LaunchBusy(roots);
    hide Launch, Counted, Forest, Idle, StartedIn, FinishedIn, CompletedIn, ReleasesIn;
    forall x ensures Counted(Launch(roots), roots, x) {
      LaunchCounted(roots, x);
    }
  }

  lemma StepInv(m: Message, slot: nat, roots: seq<Hop>)
    requires Inv(m, roots) && slot < |m.slots| && m.slots[slot].Busy?
    ensures Inv(HopDone(m, slot), roots)
  {
    hide HopDone, Sum, StartedIn, FinishedIn, CompletedIn, ReleasesIn, Forest;
    var h, m1 := m.slots[slot].hop, HopDone(m, slot);
    FinishEffect(m, slot);
    forall x ensures Counted(m1, roots, x) {
      assert Counted(m, roots, x);
      FinishSums(m, slot, x);
    }
    assert FinishedIn(m1.trace)[..|FinishedIn(m.trace)|] == FinishedIn(m.trace);
    forall c | c in StartedIn(m1.trace) ensures ParentDone(c, roots, FinishedIn(m1.trace)) {
      if c in StartedIn(m.trace) {
        LaterDone(c, roots, FinishedIn(m.trace), h);
      } else {
        assert c in FinishedIn(m1.trace)[|FinishedIn(m.trace)|].children;
      }
    }
  }

  lemma LaterDone(c: Hop, roots: seq<Hop>, finished: seq<Hop>, h: Hop)
    requires ParentDone(c, roots, finished)
    ensures ParentDone(c, roots, finished + [h])
  {
    if c !in roots {
      var i :| 0 <= i < |finished| && c in finished[i].children;
      assert c in (finished + [h])[i].children;
    }
  }

  lemma {:induction false} RunInv(m: Message, done: seq<nat>, roots: seq<Hop>)
    requires Inv(m, roots) && Legal(m, done)
    ensures Inv(Run(m, done), roots)
    ensures |FinishedIn(Run(m, done).trace)| == |FinishedIn(m.trace)| + |done|
    decreases |done|
  {
    if done != [] {
      StepInv(m, done[0], roots);
      FinishEffect(m, done[0]);
      RunInv(HopDone(m, done[0]), done[1..], roots);
    }
  }

  // ---- building a route -----------------------------------------------------------------------------------

  function CountTree(h: Hop, id: int): nat
    decreases h
  {
    (if h.id == id then 1 else 0) + CountForest(h.children, id)
  }

  /** How many hops of the forest have this id. */
  function CountForest(hs: seq<Hop>, id: int): nat
    decreases hs
  {
    if hs == [] then 0 else CountTree(hs[0], id) + CountForest(hs[1..], id)
  }

  function AddToTree(h: Hop, parent: int, leaf: Hop): Hop
    decreases h
  {
    var children := AddToForest(h.children, parent, leaf);
    h.(children := if h.id == parent then children + [leaf] else children)
  }

  function AddToForest(hs: seq<Hop>, parent: int, leaf: Hop): seq<Hop>
    decreases hs
  {
    if hs == [] then [] else [AddToTree(hs[0], parent, leaf)] + AddToForest(hs[1..], parent, leaf)
  }

  /** A new hop goes to the first hops, or below its parent after the hops already there. */
  function AddHop(roots: seq<Hop>, id: int, parent: Option<int>): seq<Hop> {
    var leaf := Hop(id, [], []);
    match parent
    case None => roots + [leaf]
    case Some(p) => AddToForest(roots, p, leaf)
  }

  lemma {:induction false} CountSnoc(hs: seq<Hop>, h: Hop, id: int)
    ensures CountForest(hs + [h], id) == CountForest(hs, id) + CountTree(h, id)
    decreases |hs|
  {
    if hs == [] {
      assert hs + [h] == [h];
      assert CountForest([h][1..], id) == 0;
    } else {
      CountSnoc(hs[1..], h, id);
      assert (hs + [h])[1..] == hs[1..] + [h];
    }
  }

  lemma {:induction false} CountAddTree(h: Hop, parent: int, leaf: Hop, id: int)
    requires leaf.children == []
    ensures CountTree(AddToTree(h, parent, leaf), id)
            == CountTree(h, id) + (if id == leaf.id then CountTree(h, parent) else 0)
    decreases h
  {
    CountAddForest(h.children, parent, leaf, id);
    CountSnoc(AddToForest(h.children, parent, leaf), leaf, id);
    assert CountForest(leaf.children, id) == 0;
  }

  lemma {:induction false} CountAddForest(hs: seq<Hop>, parent: int, leaf: Hop, id: int)
    requires leaf.children == []
    ensures CountForest(AddToForest(hs, parent, leaf), id)
            == CountForest(hs, id) + (if id == leaf.id then CountForest(hs, parent) else 0)
    decreases hs
  {
    if hs != [] {
      CountAddTree(hs[0], parent, leaf, id);
      CountAddForest(hs[1..], parent, leaf, id);
      assert AddToForest(hs, parent, leaf)[1..] == AddToForest(hs[1..], parent, leaf);
    }
  }

  ghost predicate UniqueIds(roots: seq<Hop>) {
    forall id :: CountForest(roots, id) <= 1
  }

  /** The first hop with this id, parents first. */
  function FindTree(h: Hop, id: int): Option<Hop>
    decreases h
  {
    if h.id == id then Some(h) else FindForest(h.children, id)
  }

  function FindForest(hs: seq<Hop>, id: int): Option<Hop>
    decreases hs
  {
    if hs == [] then None
    else if FindTree(hs[0], id).Some? then FindTree(hs[0], id)
    else FindForest(hs[1..], id)
  }

  function IdsOf(hs: seq<Hop>): seq<int> {
    seq(|hs|, i requires 0 <= i < |hs| => hs[i].id)
  }

  lemma {:induction false} FindSnoc(hs: seq<Hop>, h: Hop, id: int)
    ensures FindForest(hs + [h], id) == if FindForest(hs, id).Some? then FindForest(hs, id) else FindTree(h, id)
    decreases |hs|
  {
    if hs == [] {
      assert (hs + [h])[0] == h && FindForest((hs + [h])[1..], id) == None;
    } else {
      FindSnoc(hs[1..], h, id);
      assert (hs + [h])[1..] == hs[1..] + [h];
    }
  }

  /** What became of a hop that was found before. */
  function Grown(found: Option<Hop>, parent: int, leaf: Hop): Option<Hop> {
    match found
    case None => None
    case Some(h) => Some(AddToTree(h, parent, leaf))
  }

  lemma {:induction false} FindAddTree(h: Hop, parent: int, leaf: Hop, id: int)
    requires leaf.children == [] && id != leaf.id
    ensures FindTree(AddToTree(h, parent, leaf), id) == Grown(FindTree(h, id), parent, leaf)
    decreases h
  {
    FindAddForest(h.children, parent, leaf, id);
    FindSnoc(AddToForest(h.children, parent, leaf), leaf, id);
    assert FindForest(leaf.children, id) == None;
  }

  lemma {:induction false} FindAddForest(hs: seq<Hop>, parent: int, leaf: Hop, id: int)
    requires leaf.children == [] && id != leaf.id
    ensures FindForest(AddToForest(hs, parent, leaf), id) == Grown(FindForest(hs, id), parent, leaf)
    decreases hs
  {
    if hs != [] {
      FindAddTree(hs[0], parent, leaf, id);
      FindAddForest(hs[1..], parent, leaf, id);
      assert AddToForest(hs, parent, leaf)[1..] == AddToForest(hs[1..], parent, leaf);
    }
  }

  lemma {:induction false} FindNewTree(h: Hop, parent: int, leaf: Hop)
    requires CountTree(h, leaf.id) == 0
    ensures FindTree(AddToTree(h, parent, leaf), leaf.id) == if CountTree(h, parent) > 0 then Some(leaf) else None
    decreases h
  {
    FindNewForest(h.children, parent, leaf);
    FindSnoc(AddToForest(h.children, parent, leaf), leaf, leaf.id);
  }

  lemma {:induction false} FindNewForest(hs: seq<Hop>, parent: int, leaf: Hop)
    requires CountForest(hs, leaf.id) == 0
    ensures FindForest(AddToForest(hs, parent, leaf), leaf.id)
            == if CountForest(hs, parent) > 0 then Some(leaf) else None
    decreases hs
  {
    if hs != [] {
      FindNewTree(hs[0], parent, leaf);
      FindNewForest(hs[1..], parent, leaf);
      assert AddToForest(hs, parent, leaf)[1..] == AddToForest(hs[1..], parent, leaf);
    }
  }

  lemma {:induction false} AddToForestIds(hs: seq<Hop>, parent: int, leaf: Hop)
    ensures IdsOf(AddToForest(hs, parent, leaf)) == IdsOf(hs)
    decreases |hs|
  {
    if hs != [] {
      AddToForestIds(hs[1..], parent, leaf);
      var r := AddToForest(hs, parent, leaf);
      assert r == [r[0]] + r[1..] && IdsOf(r) == [r[0].id] + IdsOf(r[1..]);
      assert IdsOf(hs) == [hs[0].id] + IdsOf(hs[1..]);
    }
  }

  /** Where a hop stands: which destinations it calls, and which hops it starts, in which order. */
  predicate Grows(before: Option<Hop>, after: Option<Hop>, added: seq<int>) {
    && (before.Some? <==> after.Some?)
    && (before.Some? ==>
          && after.value.id == before.value.id && after.value.destinations == before.value.destinations
          && IdsOf(after.value.children) == IdsOf(before.value.children) + added)
  }

  lemma AddedBelow(before: Option<Hop>, parent: int, leaf: Hop)
    ensures Grows(before, Grown(before, parent, leaf),
                  if before.Some? && before.value.id == parent then [leaf.id] else [])
  {
    if before.Some? {
      var h := before.value;
      var children := AddToForest(h.children, parent, leaf);
      AddToForestIds(h.children, parent, leaf);
      assert IdsOf(children + [leaf]) == IdsOf(children) + [leaf.id];
    }
  }

  lemma {:induction false} FoundId(hs: seq<Hop>, id: int)
    ensures FindForest(hs, id).Some? ==> FindForest(hs, id).value.id == id
    decreases hs
  {
    if hs != [] {
      FoundIdTree(hs[0], id);
      FoundId(hs[1..], id);
    }
  }

  lemma {:induction false} FoundIdTree(h: Hop, id: int)
    ensures FindTree(h, id).Some? ==> FindTree(h, id).value.id == id
    decreases h
  {
    FoundId(h.children, id);
  }

  /** Adding a hop of a new id adds exactly that hop, as the last child of its parent or the last of the first
      hops: it is found as a leaf without destinations, every other hop keeps its destinations and its children
      in their order, none is lost or shared between parents, and the ids stay unique. */
  lemma AddHopKeeps(roots: seq<Hop>, id: int, parent: Option<int>)
    requires UniqueIds(roots) && CountForest(roots, id) == 0
    requires parent.Some? ==> CountForest(roots, parent.value) == 1
    ensures var grown := AddHop(roots, id, parent);
            && UniqueIds(grown)
            && (forall x :: CountForest(grown, x) == CountForest(roots, x) + (if x == id then 1 else 0))
            && FindForest(grown, id) == Some(Hop(id, [], []))
            && IdsOf(grown) == IdsOf(roots) + (if parent.None? then [id] else [])
            && (forall x :: x != id ==>
                  Grows(FindForest(roots, x), FindForest(grown, x), if parent == Some(x) then [id] else []))
  {
    AddHopCounts(roots, id, parent);
    AddHopFinds(roots, id, parent);
    forall x | x != id
      ensures Grows(FindForest(roots, x), FindForest(AddHop(roots, id, parent), x),
                    if parent == Some(x) then [id] else [])
    {
      AddHopGrows(roots, id, parent, x);
    }
  }

  lemma AddHopCounts(roots: seq<Hop>, id: int, parent: Option<int>)
    requires UniqueIds(roots) && CountForest(roots, id) == 0
    requires parent.Some? ==> CountForest(roots, parent.value) == 1
    ensures UniqueIds(AddHop(roots, id, parent))
    ensures forall x :: CountForest(AddHop(roots, id, parent), x) == CountForest(roots, x) + (if x == id then 1 else 0)
  {
    var leaf := Hop(id, [], []);
    forall x ensures CountForest(AddHop(roots, id, parent), x) == CountForest(roots, x) + (if x == id then 1 else 0) {
      match parent {
        case None => CountSnoc(roots, leaf, x);
        case Some(p) => CountAddForest(roots, p, leaf, x);
      }
    }
  }

  lemma AddHopFinds(roots: seq<Hop>, id: int, parent: Option<int>)
    requires CountForest(roots, id) == 0 && (parent.Some? ==> CountForest(roots, parent.value) == 1)
    ensures FindForest(AddHop(roots, id, parent), id) == Some(Hop(id, [], []))
    ensures IdsOf(AddHop(roots, id, parent)) == IdsOf(roots) + (if parent.None? then [id] else [])
  {
    var leaf := Hop(id, [], []);
    match parent {
      case None =>
        FindSnoc(roots, leaf, id);
        NotFound(roots, id);
      case Some(p) =>
        FindNewForest(roots, p, leaf);
        AddToForestIds(roots, p, leaf);
    }
  }

  lemma AddHopGrows(roots: seq<Hop>, id: int, parent: Option<int>, x: int)
    requires x != id
    ensures Grows(FindForest(roots, x), FindForest(AddHop(roots, id, parent), x),
                  if parent == Some(x) then [id] else [])
  {
    var leaf := Hop(id, [], []);
    match parent {
      case None => FindSnoc(roots, leaf, x);
      case Some(p) =>
        FindAddForest(roots, p, leaf, x);
        FoundId(roots, x);
        AddedBelow(FindForest(roots, x), p, leaf);
    }
  }

  lemma {:induction false} NotFound(hs: seq<Hop>, id: int)
    requires CountForest(hs, id) == 0
    ensures FindForest(hs, id) == None
    decreases hs
  {
    if hs != [] {
      NotFoundTree(hs[0], id);
      NotFound(hs[1..], id);
    }
  }

  lemma {:induction false} NotFoundTree(h: Hop, id: int)
    requires CountTree(h, id) == 0
    ensures FindTree(h, id) == None
    decreases h
  {
    NotFound(h.children, id);
  }

  lemma {:induction false} CountsTree(h: Hop, x: Hop)
    ensures multiset(Tree(h))[x] <= CountTree(h, x.id)
    decreases h
  {
    CountsForest(h.children, x);
  }

  lemma {:induction false} CountsForest(hs: seq<Hop>, x: Hop)
    ensures multiset(Forest(hs))[x] <= CountForest(hs, x.id)
    decreases hs
  {
    if hs != [] {
      CountsTree(hs[0], x);
      CountsForest(hs[1..], x);
    }
  }

  /** Every hop object occurs once in the route. */
  predicate Distinct(roots: seq<Hop>) {
    forall x :: x in Forest(roots) ==> multiset(Forest(roots))[x] == 1
  }

  /** Unique ids make the hops of a route distinct. */
  lemma UniqueDistinct(roots: seq<Hop>)
    requires UniqueIds(roots)
    ensures Distinct(roots)
  {
    forall x | x in Forest(roots) ensures multiset(Forest(roots))[x] == 1 {
      CountsForest(roots, x);
      assert x in multiset(Forest(roots));
    }
  }

  // ---- results ------------------------------------------------------------------------------------------------------

  /** A parent comes first: in every state of every run, a hop that has been started is a first hop or
      below a hop that has finished. */
  lemma {:induction false} ParentFirst(roots: seq<Hop>, done: seq<nat>, h: Hop)
    requires roots != [] && Legal(Launch(roots), done)
    ensures var m := Run(Launch(roots), done);
            h in StartedIn(m.trace) ==> ParentDone(h, roots, FinishedIn(m.trace))
  {
    LaunchInv(roots);
    RunInv(Launch(roots), done, roots);
  }

  /** On a route whose hops have ids of their own, every hop is started and finished at most once, only hops of
      the route are, and branches that are under way never share a slot or a hop. */
  lemma {:induction false} OnceEach(roots: seq<Hop>, done: seq<nat>, x: Hop)
    requires roots != [] && UniqueIds(roots) && Legal(Launch(roots), done)
    ensures var m := Run(Launch(roots), done);
            && multiset(FinishedIn(m.trace))[x] <= multiset(StartedIn(m.trace))[x]
            && multiset(StartedIn(m.trace))[x] <= (if x in Forest(roots) then 1 else 0)
            && (forall i, j :: 0 <= i < j < |m.slots| && m.slots[i].Busy? && m.slots[j].Busy? ==>
              m.slots[i] != m.slots[j])
  {
    LaunchInv(roots);
    RunInv(Launch(roots), done, roots);
    UniqueDistinct(roots);
    var m := Run(Launch(roots), done);
    assert Counted(m, roots, x);
    LiveBelow(m.slots, x);
    forall i, j | 0 <= i < j < |m.slots| && m.slots[i].Busy? && m.slots[j].Busy? ensures m.slots[i] != m.slots[j] {
      var h := m.slots[i].hop;
      assert Counted(m, roots, h);
      LiveBelow(m.slots, h);
      if m.slots[i] == m.slots[j] {
        TwoSlots(m.slots, i, j);
      }
    }
  }

  lemma {:induction false} LiveBelow(slots: seq<Slot>, x: Hop)
    ensures Sum(slots, false, x) <= Sum(slots, true, x)
  {
    if slots != [] {
      LiveBelow(slots[..|slots| - 1], x);
      var last := slots[|slots| - 1];
      if last.Busy? {
        assert Tree(last.hop)[0] == last.hop;
      }
    }
  }

  lemma {:induction false} TwoSlots(slots: seq<Slot>, i: nat, j: nat)
    requires i < j < |slots| && slots[i].Busy? && slots[j] == slots[i]
    ensures 2 <= Sum(slots, false, slots[i].hop)
  {
    var n := |slots| - 1;
    if j < n {
      TwoSlots(slots[..n], i, j);
    } else {
      SumMember(slots[..n], i);
    }
  }

  lemma DestinationsSnoc(hs: seq<Hop>, h: Hop, d: int)
    ensures multiset(Destinations(hs + [h]))[d] == multiset(Destinations(hs))[d] + multiset(h.destinations)[d]
  {
    assert (hs + [h])[..|hs|] == hs;
  }

  lemma {:induction false} DestinationsOf(hs: seq<Hop>, i: nat, d: int)
    requires i < |hs|
    ensures multiset(Destinations(hs))[d] == multiset(Destinations(DropAt(hs, i)))[d] + multiset(hs[i].destinations)[d]
  {
    hide Destinations;
    var n := |hs| - 1;
    assert hs == hs[..n] + [hs[n]];
    DestinationsSnoc(hs[..n], hs[n], d);
    if i < n {
      DestinationsOf(hs[..n], i, d);
      assert DropAt(hs, i) == DropAt(hs[..n], i) + [hs[n]];
      DestinationsSnoc(DropAt(hs[..n], i), hs[n], d);
    } else {
      assert DropAt(hs, i) == hs[..n];
    }
  }

  /** The destinations depend only on which hops there are, not on their order. */
  lemma {:induction false} SameDestinations(a: seq<Hop>, b: seq<Hop>, d: int)
    requires multiset(a) == multiset(b)
    ensures multiset(Destinations(a))[d] == multiset(Destinations(b))[d]
    decreases |a|
  {
    assert |multiset(a)| == |a| && |multiset(b)| == |b|;
    if a == [] {
      assert b == [];
    } else {
      hide Destinations;
      var front, x := a[..|a| - 1], a[|a| - 1];
      assert a == front + [x];
      assert x in multiset(a) && x in b;
      var j :| 0 <= j < |b| && b[j] == x;
      DestinationsSnoc(front, x, d);
      DestinationsOf(b, j, d);
      assert multiset(front) == multiset(a) - multiset{x};
      SameDestinations(front, DropAt(b, j), d);
    }
  }

  /** Release: a run has at most as many completions as the route has hops.  Before the last of them some
      branch is under way and the message is not released; with the last one it is released exactly once,
      every hop has finished, and every destination has been called exactly as often as it is registered. */
  lemma {:induction false} ReleasedAfterLast(roots: seq<Hop>, done: seq<nat>)
    requires roots != [] && Legal(Launch(roots), done)
    ensures var m := Run(Launch(roots), done);
            && |done| <= |Forest(roots)|
            && ReleasesIn(m.trace) == (if |done| == |Forest(roots)| then 1 else 0)
            && (|done| < |Forest(roots)| ==> exists slot :: 0 <= slot < |m.slots| && m.slots[slot].Busy?)
            && (|done| == |Forest(roots)| ==>
                  && multiset(FinishedIn(m.trace)) == multiset(Forest(roots)) == multiset(StartedIn(m.trace))
                  && multiset(CompletedIn(m.trace)) == multiset(Destinations(Forest(roots))))
  {
    LaunchInv(roots);
    RunInv(Launch(roots), done, roots);
    var m := Run(Launch(roots), done);
    if Idle(m.slots) {
      AllDone(m, roots);
    } else {
      NotAllDone(m, roots);
    }
  }

  lemma AllDone(m: Message, roots: seq<Hop>)
    requires Inv(m, roots) && Idle(m.slots)
    ensures multiset(FinishedIn(m.trace)) == multiset(Forest(roots)) == multiset(StartedIn(m.trace))
    ensures |FinishedIn(m.trace)| == |Forest(roots)|
    ensures multiset(CompletedIn(m.trace)) == multiset(Destinations(Forest(roots)))
  {
    var f, all := FinishedIn(m.trace), Forest(roots);
    forall x ensures multiset(f)[x] == multiset(all)[x] == multiset(StartedIn(m.trace))[x] {
      assert Counted(m, roots, x);
      IdleSum(m.slots, true, x);
      IdleSum(m.slots, false, x);
    }
    assert multiset(f) == multiset(all);
    assert |multiset(f)| == |f| && |multiset(all)| == |all|;
    forall d ensures multiset(Destinations(f))[d] == multiset(Destinations(all))[d] {
      SameDestinations(f, all, d);
    }
  }

  lemma NotAllDone(m: Message, roots: seq<Hop>)
    requires Inv(m, roots) && !Idle(m.slots)
    ensures |FinishedIn(m.trace)| < |Forest(roots)|
  {
    var i :| 0 <= i < |m.slots| && m.slots[i].Busy?;
    var h := m.slots[i].hop;
    SumMember(m.slots, i);
    LiveBelow(m.slots, h);
    var f, all := multiset(FinishedIn(m.trace)), multiset(Forest(roots));
    assert Counted(m, roots, h);
    forall x ensures (f + multiset{h})[x] <= all[x] {
      assert Counted(m, roots, x);
    }
    assert f + multiset{h} <= all;
    assert all == (f + multiset{h}) + (all - (f + multiset{h}));
    assert |all| >= |f| + 1;
    assert |f| == |FinishedIn(m.trace)| && |all| == |Forest(roots)|;
  }

  // ---- the size of the table ---------------------------------------------------------------------------------

  function Spares(slots: seq<Slot>): nat {
    if slots == [] then 0 else Spares(slots[..|slots| - 1]) + (if slots[|slots| - 1].Spare? then 1 else 0)
  }

  /** The hops that have hops below them. */
  function Inner(hs: seq<Hop>): nat {
    if hs == [] then 0 else Inner(hs[..|hs| - 1]) + (if hs[|hs| - 1].children != [] then 1 else 0)
  }

  lemma {:induction false} SparesUpdate(slots: seq<Slot>, i: nat, slot: Slot)
    requires i < |slots|
    ensures Spares(slots[i := slot]) + (if slots[i].Spare? then 1 else 0)
            == Spares(slots) + (if slot.Spare? then 1 else 0)
  {
    var n, r := |slots| - 1, slots[i := slot];
    if i < n {
      SparesUpdate(slots[..n], i, slot);
      assert r[..n] == slots[..n][i := slot];
    } else {
      assert r[..n] == slots[..n];
    }
  }

  lemma SparesSnoc(slots: seq<Slot>)
    ensures Spares(slots + [Spare]) == Spares(slots) + 1
  {
    assert (slots + [Spare])[..|slots|] == slots;
  }

  /** Starting the hops below one that has ended reserves a slot for each of them, and leaves the last spare. */
  lemma {:induction false} ChildrenSize(m: Message, slot: nat, children: seq<Hop>)
    requires slot < |m.slots|
    ensures var s := StartChildren(m, slot, children).slots;
            && |s| == |m.slots| + |children|
            && Spares(s) + (if m.slots[slot].Spare? && children != [] then 1 else 0)
               == Spares(m.slots) + (if children != [] then 1 else 0)
    decreases |children|
  {
    if children != [] {
      var m1 := StartHop(m, slot, children[0]);
      SparesUpdate(m.slots, slot, Busy(children[0]));
      SparesSnoc(m1.slots);
      ChildrenSize(m1.(slots := m1.slots + [Spare]), |m.slots|, children[1..]);
    }
  }

  lemma {:induction false} StartAllSize(m: Message, roots: seq<Hop>)
    ensures |StartAll(m, roots).slots| == |m.slots| + |roots| && Spares(StartAll(m, roots).slots) == Spares(m.slots)
    decreases |roots|
  {
    if roots != [] {
      var m1 := m.(slots := m.slots + [Spare]);
      SparesSnoc(m.slots);
      SparesUpdate(m1.slots, |m.slots|, Busy(roots[0]));
      StartAllSize(StartHop(m1, |m.slots|, roots[0]), roots[1..]);
    }
  }

  /** One slot for every hop that has been started; one of them spare for every inner hop that has finished. */
  predicate Sized(m: Message) {
    |m.slots| == |StartedIn(m.trace)| && Spares(m.slots) == Inner(FinishedIn(m.trace))
  }

  lemma StepSized(m: Message, slot: nat)
    requires Sized(m) && slot < |m.slots| && m.slots[slot].Busy?
    ensures Sized(HopDone(m, slot))
  {
    hide StartedIn, FinishedIn, CompletedIn, ReleasesIn, StartChildren;
    var h, m1 := m.slots[slot].hop, Told(m, slot);
    FinishEffect(m, slot);
    assert (FinishedIn(m.trace) + [h])[..|FinishedIn(m.trace)|] == FinishedIn(m.trace);
    if h.children != [] {
      ChildrenSize(m1, slot, h.children);
    } else {
      SparesUpdate(m.slots, slot, Ended);
    }
  }

  lemma {:induction false} RunSized(m: Message, done: seq<nat>)
    requires Sized(m) && Legal(m, done)
    ensures Sized(Run(m, done))
    decreases |done|
  {
    if done != [] {
      StepSized(m, done[0]);
      RunSized(HopDone(m, done[0]), done[1..]);
    }
  }

  /** The table has one slot for every hop started so far, of which one is spare for every inner hop that has
      finished: the search over the table reads slots that nobody has written as soon as one has. */
  lemma {:induction false} TableSize(roots: seq<Hop>, done: seq<nat>)
    requires roots != [] && Legal(Launch(roots), done)
    ensures var m := Run(Launch(roots), done);
            |m.slots| == |StartedIn(m.trace)| && Spares(m.slots) == Inner(FinishedIn(m.trace))
  {
    StartAllSize(Message([], []), roots);
    LaunchTrace(roots);
    RunSized(Launch(roots), done);
  }

  /** Some order of completions to the end. */
  lemma {:induction false} ToTheEnd(m: Message, roots: seq<Hop>) returns (done: seq<nat>)
    requires Inv(m, roots)
    ensures Legal(m, done) && Idle(Run(m, done).slots)
    decreases |Forest(roots)| - |FinishedIn(m.trace)|
  {
    if Idle(m.slots) {
      return [];
    }
    var slot: nat :| slot < |m.slots| && m.slots[slot].Busy?;
    NotAllDone(m, roots);
    StepInv(m, slot, roots);
    FinishEffect(m, slot);
    hide Inv, HopDone, FinishedIn, Forest;
    var rest := ToTheEnd(HopDone(m, slot), roots);
    done := [slot] + rest;
    assert done[1..] == rest;
  }

  lemma StartedAtMost(m: Message, roots: seq<Hop>)
    requires Inv(m, roots)
    ensures |StartedIn(m.trace)| <= |Forest(roots)|
  {
    var s, all := multiset(StartedIn(m.trace)), multiset(Forest(roots));
    forall x ensures s[x] <= all[x] {
      assert Counted(m, roots, x);
      LiveBelow(m.slots, x);
    }
    assert s <= all;
    assert all == s + (all - s);
    assert |s| == |StartedIn(m.trace)| && |all| == |Forest(roots)|;
  }

  /** A table of a fixed capacity, such as the number of destinations that the route allocates, is large enough
      for every run if and only if the route has no more hops than that. */
  lemma {:induction false} TableFits(roots: seq<Hop>, capacity: nat)
    requires roots != []
    ensures (forall done :: Legal(Launch(roots), done) ==> |Run(Launch(roots), done).slots| <= capacity)
            <==> |Forest(roots)| <= capacity
  {
    LaunchInv(roots);
    forall done | Legal(Launch(roots), done) && |Forest(roots)| <= capacity
      ensures |Run(Launch(roots), done).slots| <= capacity
    {
      RunInv(Launch(roots), done, roots);
      TableSize(roots, done);
      StartedAtMost(Run(Launch(roots), done), roots);
    }
    var done := ToTheEnd(Launch(roots), roots);
    var m := Run(Launch(roots), done);
    RunInv(Launch(roots), done, roots);
    TableSize(roots, done);
    AllDone(m, roots);
    assert |multiset(StartedIn(m.trace))| == |StartedIn(m.trace)| && |multiset(Forest(roots))| == |Forest(roots)|;
  }

  /** The excluded family is not empty: two hops in a row to one destination. */
  lemma ChainOverflows(dest: int)
    ensures var roots := [Hop(1, [], [Hop(2, [dest], [])])];
            |Forest(roots)| == 2 && |Destinations(Forest(roots))| == 1
  {
    var second := Hop(2, [dest], []);
    var first := Hop(1, [], [second]);
    assert Forest([second]) == [second];
    assert Forest([first]) == [first, second];
    assert [first, second][..1] == [first] && [first][..0] == [];
    assert Destinations([first]) == [];
  }

  // ---- the message object ---------------------------------------------------------------------------------

  class MessageInstance {
    /** The slot table.  A spare slot, which nobody has written, is taken for an empty one. */
    var currHop: seq<Slot>
    var nextFreeCurrHop: nat
    ghost var trace: seq<Op>

    ghost predicate Valid()
      reads this
    {
      |currHop| == nextFreeCurrHop
    }

    ghost function Abs(): Message
      reads this
    {
      Message(currHop, trace)
    }

    constructor (firstHops: seq<Hop>)
      ensures Valid() && Abs() == Launch(firstHops)
    {
      currHop, nextFreeCurrHop, trace := [], 0, [];
      new;
      for i := 0 to |firstHops|
        invariant Valid() && StartAll(Abs(), firstHops[i..]) == Launch(firstHops)
      {
        assert firstHops[i..][0] == firstHops[i] && firstHops[i..][1..] == firstHops[i + 1..];
        var hop := ReserveSlot();
        SetAndStart(hop, firstHops[i]);
      }
    }

    method ReserveSlot() returns (hop: nat)
      requires Valid()
      modifies this
      ensures Valid() && hop == |old(currHop)| && Abs() == old(Abs()).(slots := old(currHop) + [Spare])
    {
      hop := nextFreeCurrHop;
      nextFreeCurrHop := nextFreeCurrHop + 1;
      currHop := currHop + [Spare];
    }

    method SetAndStart(hop: nat, h: Hop)
      requires Valid() && hop < |currHop|
      modifies this
      ensures Valid() && Abs() == StartHop(old(Abs()), hop, h)
    {
      currHop := currHop[hop := Busy(h)];
      trace := trace + [Started(h)];
    }

    method Complete(h: Hop)
      modifies this`trace
      ensures trace == old(trace) + [Finished(h)] + Calls(h.destinations)
    {
      trace := trace + [Finished(h)];
      ghost var before := trace;
      for i := 0 to |h.destinations|
        invariant trace == before + Calls(h.destinations[..i])
      {
        trace := trace + [Completed(h.destinations[i])];
        assert Calls(h.destinations[..i + 1]) == Calls(h.destinations[..i]) + [Completed(h.destinations[i])];
      }
      assert h.destinations[..|h.destinations|] == h.destinations;
    }

    method StartChildHops(slot: nat, children: seq<Hop>)
      requires Valid() && slot < |currHop|
      modifies this
      ensures Valid() && Abs() == StartChildren(old(Abs()), slot, children)
    {
      var hop: nat := slot;
      ghost var m := Abs();
      for i := 0 to |children|
        invariant Valid() && hop < |currHop|
        invariant StartChildren(Abs(), hop, children[i..]) == StartChildren(m, slot, children)
      {
        assert children[i..][0] == children[i] && children[i..][1..] == children[i + 1..];
        SetAndStart(hop, children[i]);
        hop := ReserveSlot();
      }
    }

    /** Whether anything is still running: the search over the table. */
    method StillRunning() returns (running: bool)
      requires Valid()
      ensures running <==> !Idle(currHop)
    {
      for i := 0 to nextFreeCurrHop
        invariant Idle(currHop[..i])
      {
        if currHop[i].Busy? {
          return true;
        }
      }
      assert currHop[..nextFreeCurrHop] == currHop;
      return false;
    }

    method FinishHop(hop: nat)
      requires Valid() && hop < |currHop| && currHop[hop].Busy?
      modifies this
      ensures Valid() && Abs() == HopDone(old(Abs()), hop)
    {
      var h := currHop[hop].hop;
      Complete(h);
      if |h.children| > 0 {
        StartChildHops(hop, h.children);
      } else {
        currHop := currHop[hop := Ended];
        var running := StillRunning();
        if !running {
          trace := trace + [Released];
        }
      }
    }
  }
}
