/**
 The member functions of tasks/spsc-queue/reference.hpp on the storage itself. Each access to a counter
 or a slot is a method that does one step of SpscQueue in place, and may be called whatever the other
 thread is in the middle of; try_push and try_pop are these one after the other.
 */
module SpscRing {
  import opened Arithmetic
  import opened SpscQueue
  import opened Wrappers

  class Queue {
    const capacity: nat
    const modulus: nat
    const storage: array<Slot>
    var head: nat
    var tail: nat
    ghost var state: State

    ghost const c := Config(capacity, modulus)

    ghost predicate Valid()
      reads this, storage
    {
      && Inv(c, state)
      && storage[..] == state.slots
      && head == state.head && tail == state.tail
    }

    // Whether the counter values in use stay consecutive in the storage after one more push.
    ghost predicate Room()
      requires c.Ok()
      reads this
    {
      Fits(c, |state.pushed| + 1)
    }

    constructor (capacity: nat, modulus: nat)
      requires Config(capacity, modulus).Ok()
      ensures Valid() && fresh(storage) && c == Config(capacity, modulus) && state == Init(c)
    {
      this.capacity, this.modulus := capacity, modulus;
      storage := new Slot[capacity](i => Raw);
      head, tail := 0, 0;
      state := Init(Config(capacity, modulus));
      new;
      assert storage[..] == Init(c).slots;
    }

    // A step that only decides where its thread goes on.
    ghost method Look(step: Step)
      requires Valid() && Enabled(c, state, step) && Straight(c, state)
      requires step.PushBegin? || step.LoadHead? || step.PopBegin? || step.LoadTail? || step.BeginDestructor?
      modifies this`state
      ensures Valid() && state == Apply(c, old(state), step)
    {
      StepKeepsInv(c, state, step);
      state := Apply(c, state, step);
    }

    method ConstructAt(t: nat, value: T)
      requires Valid() && state.producer == Constructing(value, t) && Straight(c, state)
      modifies this`state, storage
      ensures Valid() && state == Apply(c, old(state), Construct)
    {
      StepKeepsInv(c, state, Construct);
      state := Apply(c, state, Construct);
      storage[t % capacity] := Live(value);
    }

    method StoreTail(t: nat)
      requires Valid() && state.producer.PublishingTail? && state.producer.tail == t && Straight(c, state)
      modifies this`state, this`tail
      ensures Valid() && state == Apply(c, old(state), PublishTail)
    {
      StepKeepsInv(c, state, PublishTail);
      state := Apply(c, state, PublishTail);
      tail := (t + 1) % modulus;
    }

    method MoveFrom(h: nat) returns (out: T)
      requires Valid() && state.consumer == Moving(h) && Straight(c, state)
      modifies this`state, storage
      ensures Valid() && state == Apply(c, old(state), MoveOut) && state.consumer == Destroying(h, out)
    {
      StepKeepsInv(c, state, MoveOut);
      state := Apply(c, state, MoveOut);
      out := storage[h % capacity].value;
      storage[h % capacity] := MovedFrom;
    }

    method DestroyAt(h: nat)
      requires Valid() && state.consumer.Destroying? && state.consumer.head == h && Straight(c, state)
      modifies this`state, storage
      ensures Valid() && state == Apply(c, old(state), Destroy)
    {
      StepKeepsInv(c, state, Destroy);
      state := Apply(c, state, Destroy);
      storage[h % capacity] := Raw;
    }

    method StoreHead(h: nat)
      requires Valid() && state.consumer.PublishingHead? && state.consumer.head == h && Straight(c, state)
      modifies this`state, this`head
      ensures Valid() && state == Apply(c, old(state), PublishHead)
    {
      StepKeepsInv(c, state, PublishHead);
      state := Apply(c, state, PublishHead);
      head := (h + 1) % modulus;
    }

    method PutIn(t: nat, value: T)
      requires Valid() && state.producer == Constructing(value, t) && Straight(c, state)
      modifies this`state, this`tail, storage
      ensures Valid()
      ensures state == old(state).(slots := state.slots, tail := state.tail, built := state.built,
                                   pushed := old(state.pushed) + [value], producer := Outside)
    {
      ConstructAt(t, value);
      StoreTail(t);
    }

    // `loaded` is what the acquire load of the head gives: any value it has had since the last look.
    method TryPush(value: T, loaded: nat, ghost seen: nat) returns (ok: bool)
      requires Valid() && Room() && state.life.InUse? && state.producer.Outside?
      requires state.seenHead <= seen <= |state.popped| && loaded == seen % modulus
      modifies this`state, this`tail, storage
      ensures Valid() && state.producer.Outside? && state.seenHead == seen
      ensures ok <==> |old(state.pushed)| - seen < capacity
      ensures state.pushed == old(state.pushed) + if ok then [value] else []
      ensures state.popped == old(state.popped) && state.consumer == old(state.consumer)
      ensures state.life == old(state.life) && state.seenTail == old(state.seenTail)
    {
      var t := tail;
      Look(PushBegin(value));
      WrappedDifference(modulus, |state.pushed|, seen);
      Look(LoadHead(seen));
      if (t - loaded) % modulus == capacity {
        return false;
      }
      PutIn(t, value);
      return true;
    }

    method TakeOut(h: nat) returns (item: T)
      requires Valid() && state.consumer == Moving(h) && Straight(c, state)
      modifies this`state, this`head, storage
      ensures Valid() && |old(state.popped)| < |old(state.pushed)| && item == old(state.pushed)[|old(state.popped)|]
      ensures state == old(state).(slots := state.slots, head := state.head, destroyed := state.destroyed,
                                   popped := old(state.popped) + [item], consumer := Away)
    {
      item := MoveFrom(h);
      DestroyAt(h);
      StoreHead(h);
    }

    // `loaded` is what the acquire load of the tail gives.
    method TryPop(loaded: nat, ghost seen: nat) returns (out: Option<T>)
      requires Valid() && Straight(c, state) && !state.life.Destroyed? && state.consumer.Away?
      requires state.seenTail <= seen <= |state.pushed| && loaded == seen % modulus
      requires state.life.InDestructor? ==> seen == |state.pushed|
      modifies this`state, this`head, storage
      ensures Valid() && state.consumer.Away? && state.seenTail == seen
      ensures out.Some? <==> |old(state.popped)| < seen
      ensures state.popped == old(state.popped) + if out.Some? then [out.value] else []
      ensures out.Some? ==> out.value == old(state.pushed)[|old(state.popped)|]
      ensures state.pushed == old(state.pushed) && state.producer == old(state.producer)
      ensures state.life == if out.None? && old(state.life).InDestructor? then Destroyed else old(state.life)
    {
      var h := head;
      Look(PopBegin);
      WrappedDifference(modulus, seen, |state.popped|);
      Look(LoadTail(seen));
      if h == loaded {
        return None;
      }
      var item := TakeOut(h);
      return Some(item);
    }

    // The destructor, after both threads are done.
    method Dispose()
      requires Valid() && Straight(c, state)
      requires state.life.InUse? && state.producer.Outside? && state.consumer.Away?
      modifies this`state, this`head, storage
      ensures Valid() && state.life.Destroyed?
      ensures state.pushed == old(state.pushed) == state.popped
      ensures state.built == state.destroyed && forall i :: 0 <= i < capacity ==> storage[i] == Raw
    {
      Look(BeginDestructor);
      var more := true;
      while more
        invariant Valid() && Straight(c, state) && state.consumer.Away?
        invariant state.pushed == old(state.pushed) && state.producer.Outside?
        invariant if more then state.life.InDestructor? else state.life.Destroyed?
        decreases more, |state.pushed| - |state.popped|
      {
        var out := TryPop(tail, |state.pushed|);
        more := out.Some?;
      }
      DrainedIsRaw(c, state);
    }
  }
}
