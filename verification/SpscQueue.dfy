/**
 The single-producer single-consumer ring of tasks/spsc-queue/reference.hpp as a system of
 interleaved steps: every load, construction, destruction and publication is a step.

 The counters are W-bit and wrap: `modulus` is 2^W. The load a thread makes of the other
 thread's counter may return any value the counter has had since that thread last looked,
 as acquire loads do; a step names the unwrapped value that is seen. What would be
 undefined behaviour in the program (constructing over a live element, reading or
 destroying one that is not there) sets `fault`.
 */
module SpscQueue {
  import opened Arithmetic

  // The element type.
  type T(==, !new)

  datatype Config = Config(capacity: nat, modulus: nat) {
    // The static_assert, and capacity being itself a size_t.
    predicate Ok() {
      0 < capacity < modulus
    }
  }

  datatype Slot = Raw | Live(value: T) | MovedFrom

  // Where try_push is. The tail is the producer's own counter as loaded.
  datatype Producer =
    | Outside
    | LoadingHead(value: T, tail: nat)
    | Constructing(value: T, tail: nat)
    | PublishingTail(value: T, tail: nat)

  // Where try_pop is.
  datatype Consumer =
    | Away
    | LoadingTail(head: nat)
    | Moving(head: nat)
    | Destroying(head: nat, out: T)
    | PublishingHead(head: nat, out: T)

  datatype Life = InUse | InDestructor | Destroyed

  datatype State = State(
    head: nat,
    tail: nat,
    slots: seq<Slot>,
    producer: Producer,
    consumer: Consumer,
    life: Life,
    fault: bool,
    // History: the elements published and given back so far, how far each side has seen
    // the other's counter move, and the numbers of constructions and destructions.
    pushed: seq<T>,
    popped: seq<T>,
    seenHead: nat,
    seenTail: nat,
    built: nat,
    destroyed: nat)

  datatype Step =
    | PushBegin(value: T)
    | LoadHead(seen: nat)
    | Construct
    | PublishTail
    | PopBegin
    | LoadTail(seen: nat)
    | MoveOut
    | Destroy
    | PublishHead
    | BeginDestructor

  function Init(c: Config): State {
    State(0, 0, seq(c.capacity, i => Raw), Outside, Away, InUse, false, [], [], 0, 0, 0, 0)
  }

  // Unsigned subtraction of counters.
  function Minus(c: Config, a: int, b: int): nat
    requires c.Ok()
  {
    (a - b) % c.modulus
  }

  function SlotOf(c: Config, counter: nat): (i: nat)
    requires c.Ok()
    ensures i < c.capacity
  {
    counter % c.capacity
  }

  predicate Enabled(c: Config, s: State, step: Step) {
    && c.Ok()
    && match step
       case PushBegin(_) => s.producer.Outside? && s.life.InUse?
       case LoadHead(seen) => s.producer.LoadingHead? && s.seenHead <= seen <= |s.popped|
       case Construct => s.producer.Constructing?
       case PublishTail => s.producer.PublishingTail?
       case PopBegin => s.consumer.Away? && !s.life.Destroyed?
       // The destructor runs after both threads are done and sees everything.
       case LoadTail(seen) =>
         && s.consumer.LoadingTail? && s.seenTail <= seen <= |s.pushed|
         && (s.life.InDestructor? ==> seen == |s.pushed|)
       case MoveOut => s.consumer.Moving?
       case Destroy => s.consumer.Destroying?
       case PublishHead => s.consumer.PublishingHead?
       case BeginDestructor => s.life.InUse? && s.producer.Outside? && s.consumer.Away?
  }

  function Apply(c: Config, s: State, step: Step): State
    requires Enabled(c, s, step) && |s.slots| == c.capacity
  {
    match step
    case PushBegin(value) => s.(producer := LoadingHead(value, s.tail))
    case LoadHead(seen) =>
      var p := s.producer;
      s.(seenHead := seen,
         producer := if Minus(c, p.tail, seen % c.modulus) == c.capacity then Outside
                     else Constructing(p.value, p.tail))
    case Construct =>
      var p := s.producer;
      var i := SlotOf(c, p.tail);
      s.(fault := s.fault || s.slots[i] != Raw,
         slots := s.slots[i := Live(p.value)],
         built := s.built + 1,
         producer := PublishingTail(p.value, p.tail))
    case PublishTail =>
      s.(tail := (s.producer.tail + 1) % c.modulus,
         pushed := s.pushed + [s.producer.value],
         producer := Outside)
    case PopBegin => s.(consumer := LoadingTail(s.head))
    case LoadTail(seen) =>
      if s.consumer.head == seen % c.modulus then
        s.(seenTail := seen, consumer := Away, life := if s.life.InUse? then InUse else Destroyed)
      else
        s.(seenTail := seen, consumer := Moving(s.consumer.head))
    case MoveOut =>
      var i := SlotOf(c, s.consumer.head);
      if s.slots[i].Live? then
        s.(slots := s.slots[i := MovedFrom], consumer := Destroying(s.consumer.head, s.slots[i].value))
      else
        s.(fault := true, consumer := Away)
    case Destroy =>
      var i := SlotOf(c, s.consumer.head);
      s.(fault := s.fault || s.slots[i] != MovedFrom,
         slots := s.slots[i := Raw],
         destroyed := s.destroyed + 1,
         consumer := PublishingHead(s.consumer.head, s.consumer.out))
    case PublishHead =>
      s.(head := (s.consumer.head + 1) % c.modulus,
         popped := s.popped + [s.consumer.out],
         consumer := Away)
    case BeginDestructor => s.(life := InDestructor)
  }

  // `steps` leads from s to t.
  predicate Reaches(c: Config, s: State, steps: seq<Step>, t: State)
    decreases |steps|
  {
    if steps == [] then s == t
    else
      && |s.slots| == c.capacity && Enabled(c, s, steps[0])
      && Reaches(c, Apply(c, s, steps[0]), steps[1..], t)
  }

  // Reducing modulo the counter range first does no harm if the capacity divides it.
  lemma SlotUnwrapped(c: Config, i: nat)
    requires c.Ok() && (c.modulus % c.capacity == 0 || i < c.modulus)
    ensures SlotOf(c, i % c.modulus) == i % c.capacity
  {
    if i < c.modulus {
      DivModUnique(c.modulus, i, 0, i);
    } else {
      ModMod(c.capacity, c.modulus, i);
    }
  }

  // Invariants

  // Pushes that have passed the room test.
  function Claimed(s: State): nat {
    |s.pushed| + if s.producer.Constructing? || s.producer.PublishingTail? then 1 else 0
  }

  // The slots of consecutive counter values are consecutive: either wrapping does not
  // disturb them, or no claimed counter value has wrapped yet.
  predicate Straight(c: Config, s: State)
    requires c.Ok()
  {
    Fits(c, Claimed(s))
  }

  // So many pushes do not disturb that.
  predicate Fits(c: Config, pushes: nat)
    requires c.Ok()
  {
    c.modulus % c.capacity == 0 || pushes <= c.modulus
  }

  // What the slot for unwrapped counter value k holds, for k from |popped| to |popped| + capacity.
  function Expected(s: State, k: nat): Slot {
    if k == |s.popped| && s.consumer.Destroying? then MovedFrom
    else if k == |s.popped| && s.consumer.PublishingHead? then Raw
    else if k < |s.pushed| then Live(s.pushed[k])
    else if k == |s.pushed| && s.producer.PublishingTail? then Live(s.producer.value)
    else Raw
  }

  ghost predicate SlotsOk(c: Config, s: State)
    requires c.Ok() && |s.slots| == c.capacity
  {
    forall k :: |s.popped| <= k < |s.popped| + c.capacity ==> s.slots[k % c.capacity] == Expected(s, k)
  }

  ghost predicate CountersOk(c: Config, s: State)
    requires c.Ok()
  {
    && s.head == |s.popped| % c.modulus
    && s.tail == |s.pushed| % c.modulus
    && s.seenHead <= |s.popped| <= s.seenTail <= |s.pushed|
    && Claimed(s) <= s.seenHead + c.capacity
    && s.popped <= s.pushed
    && s.built == |s.pushed| + (if s.producer.PublishingTail? then 1 else 0)
    && s.destroyed == |s.popped| + (if s.consumer.PublishingHead? then 1 else 0)
  }

  ghost predicate ProgramOk(s: State) {
    && (!s.producer.Outside? ==> s.producer.tail == s.tail)
    && (!s.consumer.Away? ==> s.consumer.head == s.head)
    && (!s.consumer.Away? && !s.consumer.LoadingTail? ==> |s.popped| < s.seenTail)
    && (s.consumer.Destroying? || s.consumer.PublishingHead? ==>
          |s.popped| < |s.pushed| && s.consumer.out == s.pushed[|s.popped|])
    && (!s.life.InUse? ==> s.producer.Outside?)
    && (s.life.Destroyed? ==> s.consumer.Away? && |s.popped| == |s.pushed|)
  }

  ghost predicate Inv(c: Config, s: State) {
    && c.Ok() && |s.slots| == c.capacity && !s.fault
    && CountersOk(c, s) && ProgramOk(s) && SlotsOk(c, s)
  }

  lemma ProducerKeepsInv(c: Config, s: State, step: Step)
    requires Inv(c, s) && Enabled(c, s, step)
    requires step.PushBegin? || step.LoadHead? || step.Construct? || step.PublishTail?
    requires Straight(c, s)
    ensures Inv(c, Apply(c, s, step))
  {
    match step
    case LoadHead(seen) => WrappedDifference(c.modulus, |s.pushed|, seen);
    case Construct => ConstructKeepsInv(c, s);
    case PublishTail => ModPlus(c.modulus, |s.pushed|, 1);
    case _ =>
  }

  lemma ConstructKeepsInv(c: Config, s: State)
    requires Inv(c, s) && Enabled(c, s, Construct) && Straight(c, s)
    ensures Inv(c, Apply(c, s, Construct))
  {
    var t := Apply(c, s, Construct);
    SlotUnwrapped(c, |s.pushed|);
    forall k | |t.popped| <= k < |t.popped| + c.capacity
      ensures t.slots[k % c.capacity] == Expected(t, k)
    {
      if k < |s.pushed| {
        WrappedDifference(c.capacity, |s.pushed|, k);
      } else {
        WrappedDifference(c.capacity, k, |s.pushed|);
      }
    }
  }

  lemma ConsumerKeepsInv(c: Config, s: State, step: Step)
    requires Inv(c, s) && Enabled(c, s, step)
    requires step.PopBegin? || step.LoadTail? || step.MoveOut? || step.Destroy? || step.PublishHead?
    requires Straight(c, s)
    ensures Inv(c, Apply(c, s, step))
  {
    match step
    case LoadTail(seen) => WrappedDifference(c.modulus, seen, |s.popped|);
    case MoveOut => EmptyingKeepsInv(c, s, step);
    case Destroy => EmptyingKeepsInv(c, s, step);
    case PublishHead =>
      ModPlus(c.modulus, |s.popped|, 1);
      assert s.slots[|s.popped| % c.capacity] == Expected(s, |s.popped|);
      ModUnique(c.capacity, |s.popped| + c.capacity, |s.popped|, 1);
    case _ =>
  }

  lemma EmptyingKeepsInv(c: Config, s: State, step: Step)
    requires Inv(c, s) && Enabled(c, s, step) && (step.MoveOut? || step.Destroy?) && Straight(c, s)
    ensures Inv(c, Apply(c, s, step))
  {
    SlotUnwrapped(c, |s.popped|);
    assert s.slots[|s.popped| % c.capacity] == Expected(s, |s.popped|);
    var t := Apply(c, s, step);
    forall k | |t.popped| <= k < |t.popped| + c.capacity
      ensures t.slots[k % c.capacity] == Expected(t, k)
    {
      WrappedDifference(c.capacity, k, |s.popped|);
    }
  }

  lemma StepKeepsInv(c: Config, s: State, step: Step)
    requires Inv(c, s) && Enabled(c, s, step) && Straight(c, s)
    ensures Inv(c, Apply(c, s, step))
  {
    match step
    case BeginDestructor =>
    case PushBegin(_) => ProducerKeepsInv(c, s, step);
    case LoadHead(_) => ProducerKeepsInv(c, s, step);
    case Construct => ProducerKeepsInv(c, s, step);
    case PublishTail => ProducerKeepsInv(c, s, step);
    case _ => ConsumerKeepsInv(c, s, step);
  }

  lemma {:induction false} ClaimedGrows(c: Config, s: State, steps: seq<Step>, t: State)
    requires Reaches(c, s, steps, t)
    ensures Claimed(s) <= Claimed(t)
    decreases |steps|
  {
    if steps != [] {
      ClaimedGrows(c, Apply(c, s, steps[0]), steps[1..], t);
    }
  }

  lemma {:induction false} RunKeepsInv(c: Config, s: State, steps: seq<Step>, t: State)
    requires Inv(c, s) && Reaches(c, s, steps, t) && Straight(c, t)
    ensures Inv(c, t)
    decreases |steps|
  {
    ClaimedGrows(c, s, steps, t);
    if steps != [] {
      StepKeepsInv(c, s, steps[0]);
      RunKeepsInv(c, Apply(c, s, steps[0]), steps[1..], t);
    }
  }

  lemma Reached(c: Config, steps: seq<Step>, s: State)
    requires c.Ok() && Reaches(c, Init(c), steps, s) && Straight(c, s)
    ensures Inv(c, s)
  {
    RunKeepsInv(c, Init(c), steps, s);
  }

  // Theorems about every run from an empty queue

  /** First in, first out, under stale reads: what has been popped is a prefix of what has
      been pushed, and never more than `capacity` elements are in between. */
  lemma FirstInFirstOut(c: Config, steps: seq<Step>, s: State)
    requires c.Ok() && Reaches(c, Init(c), steps, s) && Straight(c, s)
    ensures s.popped <= s.pushed
    ensures |s.pushed| - |s.popped| <= c.capacity
  {
    Reached(c, steps, s);
  }

  /** The tests on wrapped counters decide the right thing. A push is refused exactly when
      `capacity` elements are in the queue as far as the producer sees; a pop finds nothing
      exactly when no element is in the queue as far as the consumer sees. */
  lemma TestsAreExact(c: Config, steps: seq<Step>, s: State, seen: nat)
    requires c.Ok() && Reaches(c, Init(c), steps, s) && Straight(c, s)
    ensures |s.slots| == c.capacity
    ensures Enabled(c, s, LoadHead(seen)) ==>
              (Apply(c, s, LoadHead(seen)).producer.Outside? <==> |s.pushed| - seen == c.capacity)
    ensures Enabled(c, s, LoadTail(seen)) ==>
              (Apply(c, s, LoadTail(seen)).consumer.Away? <==> seen - |s.popped| == 0)
  {
    Reached(c, steps, s);
    if Enabled(c, s, LoadHead(seen)) {
      WrappedDifference(c.modulus, |s.pushed|, seen);
    }
    if Enabled(c, s, LoadTail(seen)) {
      WrappedDifference(c.modulus, seen, |s.popped|);
    }
  }

  /** The two threads never have the same slot in hand. */
  lemma NoSharedSlot(c: Config, steps: seq<Step>, s: State)
    requires c.Ok() && Reaches(c, Init(c), steps, s) && Straight(c, s)
    requires s.producer.Constructing? || s.producer.PublishingTail?
    requires s.consumer.Moving? || s.consumer.Destroying? || s.consumer.PublishingHead?
    ensures SlotOf(c, s.producer.tail) != SlotOf(c, s.consumer.head)
  {
    Reached(c, steps, s);
    SlotUnwrapped(c, |s.pushed|);
    SlotUnwrapped(c, |s.popped|);
    WrappedDifference(c.capacity, |s.pushed|, |s.popped|);
  }

  /** In the destructor a load of the tail ends the destruction if everything has been popped, and takes the
      next element otherwise. */
  lemma DestructorEnds(c: Config, steps: seq<Step>, s: State)
    requires c.Ok() && Reaches(c, Init(c), steps, s) && Straight(c, s)
    requires s.life.InDestructor? && s.consumer.LoadingTail?
    ensures Enabled(c, s, LoadTail(|s.pushed|)) && |s.slots| == c.capacity
    ensures var t := Apply(c, s, LoadTail(|s.pushed|));
      if s.popped == s.pushed then t.life.Destroyed? && t.consumer.Away?
      else t.life.InDestructor? && t.consumer.Moving?
  {
    Reached(c, steps, s);
    WrappedDifference(c.modulus, |s.pushed|, |s.popped|);
    if |s.popped| == |s.pushed| {
      assert s.pushed[..|s.popped|] == s.pushed;
    }
  }

  /** After the destructor everything constructed has been destroyed, once, and everything
      pushed has come out in order. */
  lemma DestructorDrains(c: Config, steps: seq<Step>, s: State)
    requires c.Ok() && Reaches(c, Init(c), steps, s) && Straight(c, s)
    requires s.life.Destroyed?
    ensures s.built == s.destroyed == |s.pushed| && s.popped == s.pushed
    ensures s.slots == seq(c.capacity, i => Raw)
  {
    Reached(c, steps, s);
    DrainedIsRaw(c, s);
  }

  lemma DrainedIsRaw(c: Config, s: State)
    requires Inv(c, s) && s.life.Destroyed?
    ensures s.slots == seq(c.capacity, i => Raw)
  {
    forall i | 0 <= i < c.capacity
      ensures s.slots[i] == Raw
    {
      var base := |s.popped|;
      // The counter value at or after base whose slot is i.
      var k := base + (i - base) % c.capacity;
      ModPlus(c.capacity, i - base, base);
      DivModUnique(c.capacity, i, 0, i);
      assert s.slots[k % c.capacity] == Expected(s, k);
    }
  }

  // Runs that show where the bounds are

  ghost predicate Reachable(c: Config, s: State) {
    exists steps :: Reaches(c, Init(c), steps, s)
  }

  lemma {:induction false} OneMore(c: Config, s: State, steps: seq<Step>, t: State, step: Step)
    requires Reaches(c, s, steps, t) && |t.slots| == c.capacity && Enabled(c, t, step)
    ensures Reaches(c, s, steps + [step], Apply(c, t, step))
    decreases |steps|
  {
    if steps == [] {
      assert [step][1..] == [];
    } else {
      OneMore(c, Apply(c, s, steps[0]), steps[1..], t, step);
      assert (steps + [step])[1..] == steps[1..] + [step];
    }
  }

  lemma Extend(c: Config, s: State, step: Step)
    requires Reachable(c, s) && |s.slots| == c.capacity && Enabled(c, s, step)
    ensures Reachable(c, Apply(c, s, step))
  {
    var steps :| Reaches(c, Init(c), steps, s);
    OneMore(c, Init(c), steps, s, step);
  }

  // A push and a pop by themselves, seeing the latest counters.

  lemma ClaimAlone(c: Config, s: State, v: T) returns (t: State)
    requires Reachable(c, s) && Inv(c, s) && s.life.InUse? && s.producer.Outside?
    requires |s.pushed| - |s.popped| < c.capacity
    ensures Reachable(c, t) && t == s.(producer := Constructing(v, s.tail), seenHead := |s.popped|)
  {
    Extend(c, s, PushBegin(v));
    t := Apply(c, s, PushBegin(v));
    WrappedDifference(c.modulus, |s.pushed|, |s.popped|);
    Extend(c, t, LoadHead(|t.popped|));
    t := Apply(c, t, LoadHead(|t.popped|));
  }

  lemma PushAlone(c: Config, s: State, v: T) returns (t: State)
    requires Reachable(c, s) && Inv(c, s) && s.life.InUse? && s.producer.Outside? && s.consumer.Away?
    requires |s.pushed| - |s.popped| < c.capacity && Fits(c, |s.pushed| + 1)
    ensures Reachable(c, t) && Inv(c, t) && t.life.InUse? && t.producer.Outside? && t.consumer.Away?
    ensures |t.pushed| == |s.pushed| + 1 && t.popped == s.popped && t.seenTail == s.seenTail
  {
    t := ClaimAlone(c, s, v);
    assert Inv(c, t);
    Extend(c, t, Construct);
    StepKeepsInv(c, t, Construct);
    t := Apply(c, t, Construct);
    Extend(c, t, PublishTail);
    StepKeepsInv(c, t, PublishTail);
    t := Apply(c, t, PublishTail);
  }

  lemma TakeStep(c: Config, s: State, step: Step) returns (t: State)
    requires Reachable(c, s) && Inv(c, s) && Enabled(c, s, step) && Straight(c, s)
    ensures Reachable(c, t) && Inv(c, t) && t == Apply(c, s, step)
  {
    Extend(c, s, step);
    StepKeepsInv(c, s, step);
    t := Apply(c, s, step);
  }

  // Up to the point where the consumer knows that there is an element.
  lemma FindAlone(c: Config, s: State) returns (t: State)
    requires Reachable(c, s) && Inv(c, s) && s.life.InUse? && s.producer.Outside? && s.consumer.Away?
    requires |s.popped| < |s.pushed| && Fits(c, |s.pushed|)
    ensures Reachable(c, t) && Inv(c, t) && t == s.(consumer := Moving(s.head), seenTail := |s.pushed|)
  {
    WrappedDifference(c.modulus, |s.pushed|, |s.popped|);
    t := TakeStep(c, s, PopBegin);
    t := TakeStep(c, t, LoadTail(|t.pushed|));
  }

  lemma PopAlone(c: Config, s: State) returns (t: State)
    requires Reachable(c, s) && Inv(c, s) && s.life.InUse? && s.producer.Outside? && s.consumer.Away?
    requires |s.popped| < |s.pushed| && Fits(c, |s.pushed|)
    ensures Reachable(c, t) && Inv(c, t) && t.life.InUse? && t.producer.Outside? && t.consumer.Away?
    ensures t.pushed == s.pushed && |t.popped| == |s.popped| + 1 && t.seenHead == s.seenHead
  {
    t := FindAlone(c, s);
    HoldsElement(c, t);
    hide Inv, Reachable;
    t := TakeStep(c, t, MoveOut);
    t := TakeStep(c, t, Destroy);
    t := TakeStep(c, t, PublishHead);
  }

  lemma HoldsElement(c: Config, s: State)
    requires Inv(c, s) && Straight(c, s) && s.consumer.Moving?
    ensures s.slots[SlotOf(c, s.consumer.head)].Live?
  {
    SlotUnwrapped(c, |s.popped|);
    assert s.slots[|s.popped| % c.capacity] == Expected(s, |s.popped|);
  }

  // A run that pops `gone` elements and leaves `kept` in the queue.
  lemma {:induction false} Fill(c: Config, v: T, gone: nat, kept: nat) returns (s: State)
    requires c.Ok() && kept <= c.capacity && Fits(c, gone + kept)
    ensures Reachable(c, s) && Inv(c, s) && s.life.InUse? && s.producer.Outside? && s.consumer.Away?
    ensures |s.popped| == gone && |s.pushed| == gone + kept
    decreases gone, kept
  {
    if kept > 0 {
      s := Fill(c, v, gone, kept - 1);
      s := PushAlone(c, s, v);
    } else if gone > 0 {
      s := Fill(c, v, gone - 1, 1);
      s := PopAlone(c, s);
    } else {
      s := Init(c);
      assert Reaches(c, Init(c), [], s);
    }
  }

  lemma {:induction false} PopAll(c: Config, s: State) returns (t: State)
    requires Reachable(c, s) && Inv(c, s) && s.life.InUse? && s.producer.Outside? && s.consumer.Away?
    requires Fits(c, |s.pushed|)
    ensures Reachable(c, t) && Inv(c, t) && t.life.InUse? && t.producer.Outside? && t.consumer.Away?
    ensures t.pushed == s.pushed == t.popped && t.seenHead == s.seenHead
    decreases |s.pushed| - |s.popped|
  {
    if |s.popped| < |s.pushed| {
      t := PopAlone(c, s);
      t := PopAll(c, t);
    } else {
      t := s;
    }
  }

  /** A load of the other thread's counter may be out of date: a push can be refused by a queue that is empty,
      and a pop by one that is not. */
  lemma StaleRefusals(c: Config, v: T) returns (s: State, t: State)
    requires c.Ok()
    ensures Reachable(c, s) && s.popped == s.pushed && s.producer.LoadingHead? && |s.slots| == c.capacity
    ensures Enabled(c, s, LoadHead(0)) && Apply(c, s, LoadHead(0)).producer.Outside?
    ensures Reachable(c, t) && t.popped != t.pushed && t.consumer.LoadingTail? && |t.slots| == c.capacity
    ensures Enabled(c, t, LoadTail(0)) && Apply(c, t, LoadTail(0)).consumer.Away?
  {
    var full := Fill(c, v, 0, c.capacity);
    var empty := PopAll(c, full);
    s := TakeStep(c, empty, PushBegin(v));
    WrappedDifference(c.modulus, c.capacity, 0);
    assert Reaches(c, Init(c), [], Init(c));
    var one := PushAlone(c, Init(c), v);
    t := TakeStep(c, one, PopBegin);
    WrappedDifference(c.modulus, 0, 0);
  }

  /** If the capacity does not divide the counter range, the push that wraps around can
      land on a live element. */
  lemma WrapFaults(c: Config, v: T) returns (s: State)
    requires c.Ok() && c.modulus % c.capacity != 0
    ensures Reachable(c, s) && s.fault
  {
    var r := c.modulus % c.capacity;
    s := Fill(c, v, c.modulus - r, r);
    WrappedIsTaken(c, s, r);
    s := ClaimAlone(c, s, v);
    hide Inv, Reachable;
    Extend(c, s, Construct);
    s := Apply(c, s, Construct);
  }

  // With a whole range of pushes behind, the next counter value is 0, and a live element is in its slot.
  lemma WrappedIsTaken(c: Config, s: State, r: nat)
    requires Inv(c, s) && s.producer.Outside? && s.consumer.Away?
    requires r == c.modulus % c.capacity > 0 && |s.popped| == c.modulus - r && |s.pushed| == c.modulus
    ensures s.tail == 0 && s.slots[SlotOf(c, 0)] != Raw
  {
    DivModUnique(c.modulus, c.modulus, 1, 0);
    DivModUnique(c.capacity, c.modulus - r, c.modulus / c.capacity, 0);
    DivModUnique(c.capacity, 0, 0, 0);
    assert s.slots[|s.popped| % c.capacity] == Expected(s, |s.popped|);
  }

  /** Exactly when wrap-around keeps the arithmetic correct: every run is free of faults if
      and only if the capacity divides the counter range. */
  lemma FaultFreeIffDivides(c: Config, v: T)
    requires c.Ok()
    ensures (forall s :: Reachable(c, s) ==> !s.fault) <==> c.modulus % c.capacity == 0
  {
    if c.modulus % c.capacity != 0 {
      var s := WrapFaults(c, v);
    } else {
      forall s | Reachable(c, s)
        ensures !s.fault
      {
        var steps :| Reaches(c, Init(c), steps, s);
        Reached(c, steps, s);
      }
    }
  }

  // size_approx, given the unwrapped counter values its two loads see.
  function SizeApprox(c: Config, head: nat, tail: nat): nat
    requires c.Ok()
  {
    Minus(c, tail % c.modulus, head % c.modulus)
  }

  lemma SizeApproxIs(c: Config, head: nat, tail: nat)
    requires c.Ok() && head <= tail && tail - head < c.modulus
    ensures SizeApprox(c, head, tail) == tail - head
  {
    WrappedDifference(c.modulus, tail, head);
  }

  /** Called by the producer, who knows the tail and whose view of the head may be old, or by
      the consumer, who knows the head, size_approx stays within the capacity; the producer
      never sees too few elements, the consumer never too many. */
  lemma SizeApproxOfOwners(c: Config, steps: seq<Step>, s: State, head: nat, tail: nat)
    requires c.Ok() && Reaches(c, Init(c), steps, s) && Straight(c, s)
    ensures s.producer.Outside? && s.seenHead <= head <= |s.popped| ==>
              |s.pushed| - |s.popped| <= SizeApprox(c, head, |s.pushed|) <= c.capacity
    ensures s.consumer.Away? && s.seenTail <= tail <= |s.pushed| ==>
              SizeApprox(c, |s.popped|, tail) <= |s.pushed| - |s.popped| <= c.capacity
  {
    Reached(c, steps, s);
    if s.producer.Outside? && s.seenHead <= head <= |s.popped| {
      SizeApproxIs(c, head, |s.pushed|);
    }
    if s.consumer.Away? && s.seenTail <= tail <= |s.pushed| {
      SizeApproxIs(c, |s.popped|, tail);
    }
  }
}
