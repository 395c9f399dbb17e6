/**
 The bounded queue between the thread that fetches log rows and the thread that
 handles them.  Each operation runs under one lock, so a run of any number of pushing
 and popping threads is a sequence of whole operations, each of which was enabled
 (its wait condition held) when its thread went on.
 */
module Buffer {

  // The ring, newest item first, and how many of its items are unread.
  datatype Ring<T> = Ring(container: seq<T>, unread: nat)

  datatype Step<T> = Push(item: T) | Pop

  predicate Enabled<T>(b: Ring<T>, capacity: nat, s: Step<T>) {
    match s
    case Push(_) => b.unread < capacity
    case Pop => b.unread > 0
  }

  // push_front of a full ring drops the item at the other end.
  function PushFront<T>(container: seq<T>, capacity: nat, item: T): seq<T> {
    var c := [item] + container;
    if |c| > capacity then c[..capacity] else c
  }

  function Next<T>(b: Ring<T>, capacity: nat, s: Step<T>): Ring<T>
    requires Enabled(b, capacity, s)
  {
    match s
    case Push(x) => Ring(PushFront(b.container, capacity, x), b.unread + 1)
    case Pop => b.(unread := b.unread - 1)
  }

  // Unread items, oldest first.
  function Waiting<T>(b: Ring<T>): (w: seq<T>)
    requires b.unread <= |b.container|
    ensures |w| == b.unread
  {
    seq(b.unread, i requires 0 <= i < b.unread => b.container[b.unread - 1 - i])
  }

  ghost predicate Sound<T>(b: Ring<T>, capacity: nat) {
    b.unread <= |b.container| <= capacity
  }

  // A push goes to the end of the waiting line, a pop takes its head.
  lemma StepKeepsOrder<T>(b: Ring<T>, capacity: nat, s: Step<T>)
    requires Sound(b, capacity) && Enabled(b, capacity, s)
    ensures Sound(Next(b, capacity, s), capacity)
    ensures s.Push? ==> Waiting(Next(b, capacity, s)) == Waiting(b) + [s.item]
    ensures s.Pop? ==> Waiting(b) == [b.container[b.unread - 1]] + Waiting(Next(b, capacity, s))
  {
  }

  // ---------- Runs ----------

  // All steps of the run are enabled in turn.
  ghost predicate Runs<T>(capacity: nat, steps: seq<Step<T>>)
    decreases |steps|, 0
  {
    steps == [] ||
    var front := steps[..|steps| - 1];
    Runs(capacity, front) && Enabled(After(capacity, front), capacity, steps[|steps| - 1])
  }

  ghost function After<T>(capacity: nat, steps: seq<Step<T>>): Ring<T>
    requires Runs(capacity, steps)
    decreases |steps|, 1
  {
    if steps == [] then Ring([], 0)
    else Next(After(capacity, steps[..|steps| - 1]), capacity, steps[|steps| - 1])
  }

  ghost function Pushed<T>(steps: seq<Step<T>>): seq<T>
    decreases |steps|
  {
    if steps == [] then []
    else
      var front, last := Pushed(steps[..|steps| - 1]), steps[|steps| - 1];
      if last.Push? then front + [last.item] else front
  }

  // What the pops returned, in order.
  ghost function Popped<T>(capacity: nat, steps: seq<Step<T>>): seq<T>
    requires Runs(capacity, steps)
    decreases |steps|
  {
    if steps == [] then []
    else
      var pre := steps[..|steps| - 1];
      var b := After(capacity, pre);
      if steps[|steps| - 1].Pop? && b.unread <= |b.container|
      then Popped(capacity, pre) + [b.container[b.unread - 1]]
      else Popped(capacity, pre)
  }

  // First in, first out, nothing lost and nothing twice, under every interleaving.
  lemma {:induction false} RunsAreFifo<T>(capacity: nat, steps: seq<Step<T>>)
    requires Runs(capacity, steps)
    ensures Sound(After(capacity, steps), capacity)
    ensures Popped(capacity, steps) + Waiting(After(capacity, steps)) == Pushed(steps)
    decreases |steps|
  {
    if steps != [] {
      var pre, s := steps[..|steps| - 1], steps[|steps| - 1];
      var b := After(capacity, pre);
      RunsAreFifo(capacity, pre);
      StepKeepsOrder(b, capacity, s);
    }
  }

  // How many more were pushed than popped.
  function Balance<T>(steps: seq<Step<T>>): int
    decreases |steps|
  {
    if steps == [] then 0
    else Balance(steps[..|steps| - 1]) + if steps[|steps| - 1].Push? then 1 else -1
  }

  ghost predicate Balanced<T>(capacity: nat, steps: seq<Step<T>>) {
    forall i :: 0 <= i <= |steps| ==> 0 <= Balance(steps[..i]) <= capacity
  }

  lemma BalancedSnoc<T>(capacity: nat, steps: seq<Step<T>>)
    requires steps != []
    ensures Balanced(capacity, steps) <==>
      Balanced(capacity, steps[..|steps| - 1]) && 0 <= Balance(steps) <= capacity
  {
    hide Balance;
    var pre := steps[..|steps| - 1];
    assert steps[..|steps|] == steps;
    assert forall i :: 0 <= i <= |pre| ==> steps[..i] == pre[..i];
  }

  // No thread waits for anything else: a sequence of operations is a run if and only if
  // at no time more was popped than pushed, or more waits than the ring has room for.
  lemma {:induction false} RunsAreBalanced<T>(capacity: nat, steps: seq<Step<T>>)
    ensures Runs(capacity, steps) <==> Balanced(capacity, steps)
    ensures Runs(capacity, steps) ==> After(capacity, steps).unread == Balance(steps)
    decreases |steps|
  {
    if steps == [] {
      assert steps[..0] == [];
    } else {
      RunsAreBalanced(capacity, steps[..|steps| - 1]);
      BalancedSnoc(capacity, steps);
    }
  }

  // Items that were read and are still in the ring, oldest first.
  function ReadPart<T>(b: Ring<T>): (r: seq<T>)
    requires b.unread <= |b.container|
    ensures |r| == |b.container| - b.unread
  {
    var n := |b.container|;
    seq(n - b.unread, i requires 0 <= i < n - b.unread => b.container[n - 1 - i])
  }

  ghost predicate EndsWith<T>(s: seq<T>, t: seq<T>) {
    |t| <= |s| && s[|s| - |t|..] == t
  }

  lemma ReadPartStep<T>(b: Ring<T>, capacity: nat, s: Step<T>)
    requires Sound(b, capacity) && Enabled(b, capacity, s)
    ensures s.Pop? ==> ReadPart(Next(b, capacity, s)) == ReadPart(b) + [b.container[b.unread - 1]]
    ensures s.Push? ==> EndsWith(ReadPart(b), ReadPart(Next(b, capacity, s)))
  {
  }

  // What follows the unread items in the ring is what was popped last, in order: the
  // place a push overwrites in a full ring is that of the oldest of them.
  lemma {:induction false} DropsOnlyRead<T>(capacity: nat, steps: seq<Step<T>>)
    requires Runs(capacity, steps)
    ensures Sound(After(capacity, steps), capacity)
    ensures EndsWith(Popped(capacity, steps), ReadPart(After(capacity, steps)))
    decreases |steps|
  {
    hide Waiting, ReadPart, Sound, Enabled, Next;
    RunsAreFifo(capacity, steps);
    if steps != [] {
      var pre, s := steps[..|steps| - 1], steps[|steps| - 1];
      DropsOnlyRead(capacity, pre);
      ReadPartStep(After(capacity, pre), capacity, s);
    }
  }

  class BoundedBuffer<T> {
    const capacity: nat
    var container: seq<T>
    var unread: nat

    function State(): Ring<T>
      reads this
    {
      Ring(container, unread)
    }

    constructor (capacity: nat)
      ensures this.capacity == capacity && State() == Ring([], 0)
    {
      this.capacity := capacity;
      container, unread := [], 0;
    }

    // The critical section of pushFront, once its wait is over.
    method PushFront(item: T)
      requires Sound(State(), capacity) && Enabled(State(), capacity, Push(item))
      modifies this
      ensures Sound(State(), capacity) && State() == Next(old(State()), capacity, Push(item))
      ensures Waiting(State()) == old(Waiting(State())) + [item]
    {
      StepKeepsOrder(State(), capacity, Push(item));
      container := [item] + container;
      if |container| > capacity {
        container := container[..capacity];
      }
      unread := unread + 1;
    }

    // The critical section of popBack, once its wait is over.
    method PopBack() returns (item: T)
      requires Sound(State(), capacity) && Enabled(State(), capacity, Pop)
      modifies this
      ensures Sound(State(), capacity) && State() == Next(old(State()), capacity, Pop)
      ensures old(Waiting(State())) == [item] + Waiting(State())
    {
      StepKeepsOrder(State(), capacity, Pop);
      unread := unread - 1;
      item := container[unread];
    }
  }
}
