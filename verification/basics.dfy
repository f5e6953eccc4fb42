/** Values shared by every part of the model: simulated time, task instances, the component's task maps and the
    four answers a scheduler can give; then what every scheduler's queue needs: a sequence without duplicates that
    lists exactly a set, and what it lists after an element is added, dropped at an index, or erased by value. */
module Basics {

  /** Simulated time and durations; exact, so the integer time of the kernel is a special case. */
  type Time = real

  datatype Option<+T> = None | Some(value: T)

  /** One execution of a task.  `remaining` is the only part that changes while it lives. */
  datatype Task = Task(id: int, pid: int, prio: int, delay: Time, latency: Time, remaining: Time)

  /** The component's map from instance id to instance. */
  type TaskMap = map<int, Task>

  datatype Decision =
    | NoChange
    | Resigned(resign: int)
    | OnlyAssign(assign: int)
    | Preempt(resign: int, assign: int)

  /** An instance as it enters the component. */
  predicate Fresh(t: Task) {
    0.0 < t.delay <= t.latency && t.remaining == t.delay
  }

  /** An instance known to the component: filed under its own id, with work left. */
  predicate Keyed(m: TaskMap) {
    forall id :: id in m ==> m[id].id == id && 0.0 < m[id].remaining <= m[id].delay <= m[id].latency
  }

  /** No element of the set has a lesser key. */
  ghost predicate IsLeast<T(!new)>(s: set<T>, key: T -> real, k: T) {
    k in s && forall j :: j in s ==> key(k) <= key(j)
  }

  lemma Inhabited<T(!new)>(s: set<T>)
    requires s != {}
    ensures exists x :: x in s
  {
    if !exists x :: x in s {
      assert false;
    }
  }

  lemma {:induction false} LeastExists<T(!new)>(s: set<T>, key: T -> real)
    requires s != {}
    ensures exists k :: IsLeast(s, key, k)
  {
    Inhabited(s);
    var x :| x in s;
    var rest := s - {x};
    if rest == {} {
      assert s == {x} && IsLeast(s, key, x);
    } else {
      LeastExists(rest, key);
      var k :| IsLeast(rest, key, k);
      assert forall j :: j in s ==> j == x || j in rest;
      assert IsLeast(s, key, if key(k) <= key(x) then k else x);
    }
  }

  function AsReal(k: int): real {
    k as real
  }

  /** `begin()` of an ordered map: its least key. */
  function Begin(m: TaskMap): (k: int)
    requires m.Keys != {}
    ensures k in m && forall j :: j in m ==> k <= j
  {
    LeastExists(m.Keys, AsReal);
    var k :| k in m && forall j :: j in m ==> k <= j;
    k
  }

  /** Length of the part of [u, v] inside [a, b]. */
  function Overlap(u: Time, v: Time, a: Time, b: Time): Time {
    var lo := if u < a then a else u;
    var hi := if b < v then b else v;
    if lo < hi then hi - lo else 0.0
  }

  function Pow2(n: nat): (r: int)
    ensures r > 0
  {
    if n == 0 then 1 else 2 * Pow2(n - 1)
  }

  function TaskIds(ts: seq<Task>): seq<int> {
    seq(|ts|, i requires 0 <= i < |ts| => ts[i].id)
  }

  ghost predicate NoDup(q: seq<int>) {
    forall i, j :: 0 <= i < j < |q| ==> q[i] != q[j]
  }

  /** The queue names exactly the keys of the map, each once. */
  ghost predicate Lists(q: seq<int>, s: set<int>) {
    NoDup(q) && forall x :: x in q <==> x in s
  }

  lemma HeadIn(q: seq<int>)
    ensures q != [] ==> q[0] in q
  {
  }

  lemma PushLists(q: seq<int>, s: set<int>, x: int)
    requires Lists(q, s) && x !in s
    ensures Lists(q + [x], s + {x})
  {
    assert forall i :: 0 <= i < |q| ==> q[i] in q;
  }

  /** The queue without the entry at position i. */
  function DropAt<T>(q: seq<T>, i: nat): (r: seq<T>)
    requires i < |q|
    ensures multiset(r) == multiset(q) - multiset{q[i]}
  {
    assert q == q[..i] + [q[i]] + q[i + 1..];
    q[..i] + q[i + 1..]
  }

  lemma DropLists(q: seq<int>, s: set<int>, i: nat)
    requires Lists(q, s) && i < |q|
    ensures Lists(DropAt(q, i), s - {q[i]})
  {
    var r := DropAt(q, i);
    assert forall k :: 0 <= k < |r| ==> r[k] == q[if k < i then k else k + 1];
    forall x ensures x in r <==> x in s - {q[i]} {
      if x in s - {q[i]} {
        var k :| 0 <= k < |q| && q[k] == x;
        assert r[if k < i then k else k - 1] == x;
      }
    }
  }

  /** Erases the first occurrence of x, as the removal loops of the schedulers do. */
  function Erase(q: seq<int>, x: int): seq<int> {
    if q == [] then [] else if q[0] == x then q[1..] else [q[0]] + Erase(q[1..], x)
  }

  /** Erasing is dropping the position at which x is found. */
  lemma {:induction false} EraseAt(q: seq<int>, i: nat)
    requires i < |q| && forall k :: 0 <= k < i ==> q[k] != q[i]
    ensures Erase(q, q[i]) == DropAt(q, i)
  {
    if i > 0 {
      EraseAt(q[1..], i - 1);
      assert DropAt(q, i) == [q[0]] + DropAt(q[1..], i - 1);
    }
  }

  lemma {:induction false} EraseAbsent(q: seq<int>, x: int)
    requires x !in q
    ensures Erase(q, x) == q
  {
    if q != [] {
      EraseAbsent(q[1..], x);
    }
  }

  lemma EraseLists(q: seq<int>, s: set<int>, x: int)
    requires Lists(q, s)
    ensures Lists(Erase(q, x), s - {x})
  {
    if x in q {
      var i :| 0 <= i < |q| && q[i] == x;
      EraseAt(q, i);
      DropLists(q, s, i);
    } else {
      EraseAbsent(q, x);
      assert s - {x} == s;
    }
  }

  /** The removal loop shared by the schedulers that keep a deque of ids. */
  method EraseFirst(q: seq<int>, x: int) returns (r: seq<int>)
    ensures r == Erase(q, x)
  {
    for i := 0 to |q|
      invariant x !in q[..i]
    {
      if q[i] == x {
        EraseAt(q, i);
        return q[..i] + q[i + 1..];
      }
    }
    assert q[..|q|] == q;
    EraseAbsent(q, x);
    return q;
  }
}
