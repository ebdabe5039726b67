/**
 size_approx of tasks/spsc-queue/reference.hpp, called by a third thread while producer and consumer go
 on. Its acquire loads may be stale like those of the others; but a head value that the consumer has
 published brings with it all that the consumer had seen then, its view of the tail included.
 */
module SpscObserver {
  import opened Arithmetic
  import opened SpscQueue

  // Where the third thread is. lost: the pops that had been published when it loaded the tail, and that
  // the head it had loaded does not show.
  datatype Observer = Resting | HasHead(head: nat) | Has(head: nat, tail: nat, lost: nat, result: nat)

  datatype World = World(
    queue: State,
    observer: Observer,
    // How far the third thread has seen the counters move.
    seenHead: nat,
    seenTail: nat,
    // For each head value, how far the consumer had seen the tail move when it published it.
    published: seq<nat>)

  datatype WorldStep = Others(step: Step) | ObserveHead(seen: nat) | ObserveTail(seen: nat)

  function Start(c: Config): World {
    World(Init(c), Resting, 0, 0, [0])
  }

  predicate CanStep(c: Config, w: World, step: WorldStep) {
    match step
    case Others(s) => |w.queue.slots| == c.capacity && Enabled(c, w.queue, s)
    case ObserveHead(seen) =>
      c.Ok() && !w.observer.HasHead? && w.seenHead <= seen <= |w.queue.popped| && seen < |w.published|
    case ObserveTail(seen) => c.Ok() && w.observer.HasHead? && w.seenTail <= seen <= |w.queue.pushed|
  }

  function Max(a: nat, b: nat): nat {
    if a < b then b else a
  }

  function After(c: Config, w: World, step: WorldStep): World
    requires CanStep(c, w, step)
  {
    match step
    case Others(s) =>
      w.(queue := Apply(c, w.queue, s),
         published := if s.PublishHead? then w.published + [w.queue.seenTail] else w.published)
    case ObserveHead(seen) =>
      w.(observer := HasHead(seen), seenHead := seen, seenTail := Max(w.seenTail, w.published[seen]))
    case ObserveTail(seen) =>
      var head := w.observer.head;
      var lost := if head < |w.queue.popped| then |w.queue.popped| - head else 0;
      w.(observer := Has(head, seen, lost, SizeApprox(c, head, seen)), seenTail := seen)
  }

  predicate Leads(c: Config, w: World, steps: seq<WorldStep>, t: World)
    decreases |steps|
  {
    if steps == [] then w == t
    else CanStep(c, w, steps[0]) && Leads(c, After(c, w, steps[0]), steps[1..], t)
  }

  ghost predicate Possible(c: Config, w: World) {
    exists steps :: Leads(c, Start(c), steps, w)
  }

  // Invariants

  ghost predicate ViewsOk(w: World) {
    && |w.published| == |w.queue.popped| + 1
    && (forall h :: 0 <= h < |w.published| ==> h <= w.published[h] <= w.queue.seenTail)
    && w.seenHead <= |w.queue.popped|
    && w.seenHead <= w.seenTail <= |w.queue.pushed|
  }

  ghost predicate ObserverOk(c: Config, w: World)
    requires c.Ok()
  {
    match w.observer
    case Resting => true
    case HasHead(head) => head == w.seenHead
    case Has(head, tail, lost, result) =>
      && head <= tail <= head + lost + c.capacity
      && result == SizeApprox(c, head, tail)
  }

  ghost predicate WorldInv(c: Config, w: World) {
    Inv(c, w.queue) && ViewsOk(w) && ObserverOk(c, w)
  }

  lemma OthersKeepViews(c: Config, w: World, step: Step)
    requires Inv(c, w.queue) && ViewsOk(w) && Enabled(c, w.queue, step)
    ensures ViewsOk(After(c, w, Others(step)))
  {
  }

  lemma StepKeepsWorld(c: Config, w: World, step: WorldStep)
    requires WorldInv(c, w) && CanStep(c, w, step) && Straight(c, w.queue)
    ensures WorldInv(c, After(c, w, step))
  {
    hide Inv, Apply;
    QueueIsBounded(c, w.queue);
    match step
    case Others(s) =>
      StepKeepsInv(c, w.queue, s);
      OthersKeepViews(c, w, s);
    case ObserveHead(_) =>
    case ObserveTail(_) =>
  }

  lemma QueueIsBounded(c: Config, s: State)
    requires Inv(c, s)
    ensures c.Ok() && |s.popped| <= s.seenTail <= |s.pushed| <= |s.popped| + c.capacity
  {
  }

  lemma {:induction false} ClaimsGrow(c: Config, w: World, steps: seq<WorldStep>, t: World)
    requires Leads(c, w, steps, t)
    ensures Claimed(w.queue) <= Claimed(t.queue)
    decreases |steps|
  {
    if steps != [] {
      ClaimsGrow(c, After(c, w, steps[0]), steps[1..], t);
    }
  }

  lemma {:induction false} RunKeepsWorld(c: Config, w: World, steps: seq<WorldStep>, t: World)
    requires WorldInv(c, w) && Leads(c, w, steps, t) && Straight(c, t.queue)
    ensures WorldInv(c, t)
    decreases |steps|
  {
    hide Inv, Apply, After;
    ClaimsGrow(c, w, steps, t);
    if steps != [] {
      StepKeepsWorld(c, w, steps[0]);
      RunKeepsWorld(c, After(c, w, steps[0]), steps[1..], t);
    }
  }

  /** The tail that a third thread loads is never before the head it has loaded. So its result is their
      distance, reduced to the range of the counters, and exceeds the capacity by no more than the
      pops that it did not see. */
  lemma SizeApproxOfOthers(c: Config, w: World)
    requires c.Ok() && Possible(c, w) && Straight(c, w.queue) && w.observer.Has?
    ensures var o := w.observer;
      && o.head <= o.tail <= o.head + c.capacity + o.lost
      && o.result == (o.tail - o.head) % c.modulus
      && o.result <= c.capacity + o.lost
  {
    hide Inv, Apply, After;
    var steps :| Leads(c, Start(c), steps, w);
    StartIsOk(c);
    RunKeepsWorld(c, Start(c), steps, w);
    var o := w.observer;
    ModMinus(c.modulus, o.tail, o.head);
    ModAtMost(c.modulus, o.tail - o.head);
  }

  lemma StartIsOk(c: Config)
    requires c.Ok()
    ensures WorldInv(c, Start(c))
  {
    Reached(c, [], Init(c));
  }

  lemma ModAtMost(m: nat, x: nat)
    requires 0 < m
    ensures x % m <= x
  {
    if x < m {
      DivModUnique(m, x, 0, x);
    }
  }

  // A run of the queue goes on in the same way while the third thread holds a head value.

  lemma {:induction false} Lifted(c: Config, w: World, steps: seq<Step>, s: State) returns (t: World)
    requires Possible(c, w) && Reaches(c, w.queue, steps, s)
    ensures Possible(c, t) && t.queue == s
    ensures t.observer == w.observer && t.seenHead == w.seenHead && t.seenTail == w.seenTail
    decreases |steps|
  {
    hide Apply;
    if steps == [] {
      t := w;
    } else {
      OneMoreStep(c, w, Others(steps[0]));
      t := Lifted(c, After(c, w, Others(steps[0])), steps[1..], s);
    }
  }

  lemma OneMoreStep(c: Config, w: World, step: WorldStep)
    requires Possible(c, w) && CanStep(c, w, step)
    ensures Possible(c, After(c, w, step))
  {
    var steps :| Leads(c, Start(c), steps, w);
    LeadsOn(c, Start(c), steps, w, step);
  }

  lemma {:induction false} LeadsOn(c: Config, w: World, steps: seq<WorldStep>, t: World, step: WorldStep)
    requires Leads(c, w, steps, t) && CanStep(c, t, step)
    ensures Leads(c, w, steps + [step], After(c, t, step))
    decreases |steps|
  {
    hide Apply, After, CanStep;
    if steps == [] {
      assert [step][1..] == [];
    } else {
      LeadsOn(c, After(c, w, steps[0]), steps[1..], t, step);
      assert (steps + [step])[1..] == steps[1..] + [step];
    }
  }

  /** For every number of unseen pops and every excess up to it there is a run with that result: the head
      loaded at the start, so many elements pushed and popped, the queue filled, and then the tail. */
  lemma SizeApproxReaches(c: Config, v: T, lost: nat, excess: nat) returns (w: World)
    requires c.Ok() && Fits(c, lost + c.capacity) && excess <= lost && c.capacity + excess < c.modulus
    ensures Possible(c, w) && Straight(c, w.queue)
    ensures w.observer == Has(0, c.capacity + excess, lost, c.capacity + excess)
  {
    hide Apply, Inv, Enabled, Reaches, Possible, CanStep, Straight;
    w := HeadLoaded(c);
    var s := Fill(c, v, lost, c.capacity);
    var steps := RunOf(c, s);
    w := Lifted(c, w, steps, s);
    w := TailLoaded(c, w, c.capacity + excess);
    SizeApproxIs(c, 0, c.capacity + excess);
    StraightIs(c, s);
  }

  lemma HeadLoaded(c: Config) returns (w: World)
    requires c.Ok()
    ensures Possible(c, w) && w.queue == Init(c) && w.observer == HasHead(0) && w.seenTail == 0
  {
    assert Leads(c, Start(c), [], Start(c));
    OneMoreStep(c, Start(c), ObserveHead(0));
    w := After(c, Start(c), ObserveHead(0));
  }

  lemma TailLoaded(c: Config, w: World, tail: nat) returns (t: World)
    requires Possible(c, w) && c.Ok() && w.observer == HasHead(0) && w.seenTail <= tail <= |w.queue.pushed|
    ensures Possible(c, t) && t.queue == w.queue
    ensures t.observer == Has(0, tail, |w.queue.popped|, SizeApprox(c, 0, tail))
  {
    OneMoreStep(c, w, ObserveTail(tail));
    t := After(c, w, ObserveTail(tail));
  }

  lemma RunOf(c: Config, s: State) returns (steps: seq<Step>)
    requires Reachable(c, s)
    ensures Reaches(c, Init(c), steps, s)
  {
    steps :| Reaches(c, Init(c), steps, s);
  }

  lemma StraightIs(c: Config, s: State)
    requires c.Ok() && s.producer.Outside? && Fits(c, |s.pushed|)
    ensures Straight(c, s)
  {
  }

  ghost predicate WithinCapacity(c: Config, lost: nat) {
    forall w :: Possible(c, w) && c.Ok() && Straight(c, w.queue) && w.observer.Has? && w.observer.lost == lost ==>
      w.observer.result <= c.capacity
  }

  /** Exactly when a third thread's result is never larger than the capacity: if it misses no pop, or if
      the counters cannot even hold a larger number. */
  lemma WithinCapacityIff(c: Config, v: T, lost: nat)
    requires c.Ok() && Fits(c, lost + c.capacity)
    ensures WithinCapacity(c, lost) <==> lost == 0 || c.capacity + 1 == c.modulus
  {
    hide Possible, Straight;
    if lost == 0 || c.capacity + 1 == c.modulus {
      forall w | Possible(c, w) && Straight(c, w.queue) && w.observer.Has? && w.observer.lost == lost
        ensures w.observer.result <= c.capacity
      {
        SizeApproxOfOthers(c, w);
      }
    } else {
      var w := SizeApproxReaches(c, v, lost, 1);
    }
  }
}
