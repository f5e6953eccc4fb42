/** The join in front of a firing (AbstractComponent.cpp): an actor's task is computed when its inputs have
    arrived over their routes and the firing has been set up, in whatever order that happens. */
module FiringJoin {

  /** An input arrives on a port, possibly while the firing is still being set up; `Wait` ends the set-up. */
  datatype Signal = Arrived(port: nat) | Wait

  datatype Listener = Listener(missing: int, computed: nat)

  /** One more than there are inputs, so that nothing is computed before the set-up is over. */
  function New(inputs: nat): Listener {
    Listener(inputs + 1, 0)
  }

  function Count(l: Listener): Listener {
    Listener(l.missing - 1, if l.missing - 1 == 0 then l.computed + 1 else l.computed)
  }

  function After(l: Listener, signals: seq<Signal>): Listener {
    if signals == [] then l else Count(After(l, signals[..|signals| - 1]))
  }

  function AllSignals(inputs: nat): (s: set<Signal>) {
    (set p: nat | p < inputs :: Arrived(p)) + {Wait}
  }

  /** Each route delivers once, and the set-up ends once. */
  ghost predicate Delivered(signals: seq<Signal>, inputs: nat) {
    && (forall i :: 0 <= i < |signals| ==> signals[i] in AllSignals(inputs))
    && (forall i, j :: 0 <= i < j < |signals| ==> signals[i] != signals[j])
  }

  lemma {:induction false} SignalCount(inputs: nat)
    ensures |AllSignals(inputs)| == inputs + 1
  {
    Ports(inputs);
  }

  lemma {:induction false} Ports(n: nat)
    ensures |set p: nat | p < n :: Arrived(p)| == n
    ensures Wait !in (set p: nat | p < n :: Arrived(p))
  {
    if n == 0 {
      assert (set p: nat | p < 0 :: Arrived(p)) == {};
    } else {
      Ports(n - 1);
      var before := set p: nat | p < n - 1 :: Arrived(p);
      assert (set p: nat | p < n :: Arrived(p)) == before + {Arrived(n - 1)};
      assert Arrived(n - 1) !in before;
    }
  }

  function Seen(signals: seq<Signal>): set<Signal> {
    set i | 0 <= i < |signals| :: signals[i]
  }

  lemma {:induction false} SeenCount(signals: seq<Signal>)
    requires forall i, j :: 0 <= i < j < |signals| ==> signals[i] != signals[j]
    ensures |Seen(signals)| == |signals|
  {
    if signals == [] {
      assert Seen(signals) == {};
    } else {
      var front, last := signals[..|signals| - 1], signals[|signals| - 1];
      SeenCount(front);
      assert Seen(signals) == Seen(front) + {last} by {
        assert forall i :: 0 <= i < |signals| ==> signals[i] == last || signals[i] in Seen(front) by {
          forall i | 0 <= i < |signals| ensures signals[i] == last || signals[i] in Seen(front) {
            assert i < |front| ==> signals[i] == front[i];
          }
        }
        assert forall i :: 0 <= i < |front| ==> front[i] == signals[i];
        assert signals[|signals| - 1] in Seen(signals);
      }
      assert last !in Seen(front);
    }
  }

  lemma {:induction false} Counted(inputs: nat, signals: seq<Signal>)
    requires |signals| <= inputs + 1
    ensures After(New(inputs), signals) == Listener(inputs + 1 - |signals|, if |signals| == inputs + 1 then 1 else 0)
  {
    if signals != [] {
      Counted(inputs, signals[..|signals| - 1]);
    }
  }

  lemma Subset(a: set<Signal>, b: set<Signal>)
    requires a <= b
    ensures |a| <= |b| && (|a| == |b| <==> a == b)
  {
    assert b == a + (b - a);
    assert |b| == |a| + |b - a|;
  }

  /** The join: however arrivals and the end of the set-up interleave, the counter never runs below zero, and the
      task is computed exactly once, by the signal that completes them all; before that it is not computed. */
  lemma {:induction false} ComputedOnce(inputs: nat, signals: seq<Signal>)
    requires Delivered(signals, inputs)
    ensures var l := After(New(inputs), signals);
            && 0 <= l.missing
            && l.computed == (if Seen(signals) == AllSignals(inputs) then 1 else 0)
  {
    SeenCount(signals);
    SignalCount(inputs);
    assert Seen(signals) <= AllSignals(inputs);
    Subset(Seen(signals), AllSignals(inputs));
    Counted(inputs, signals);
  }

  class InputsAvailableListener {
    var missing: int
    var computed: nat

    function Abs(): Listener
      reads this
    {
      Listener(missing, computed)
    }

    constructor (inputs: nat)
      ensures Abs() == New(inputs)
    {
      missing, computed := inputs + 1, 0;
    }

    /** Both `wait` and `arrived`. */
    method Signalled()
      modifies this
      ensures Abs() == Count(old(Abs()))
    {
      missing := missing - 1;
      if missing == 0 {
        computed := computed + 1;
      }
    }
  }
}
