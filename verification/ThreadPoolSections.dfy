/**
 The critical sections of tasks/thread-pool/reference.hpp in place, on the fields that the mutex guards.
 Each is a method that does one step of ThreadPool and may be called in any reachable state.
 */
module ThreadPoolSections {
  import opened ThreadPool
  import opened Wrappers

  // A call of submit by an outside thread or by a worker's job.
  function Submission(job: Job, from: Option<nat>): Step {
    match from
    case None => Submit(job)
    case Some(w) => SubmitFrom(w, job)
  }

  class Pool {
    var queue: seq<Job>
    var active: int
    var stopping: bool
    ghost var state: State

    ghost predicate Valid()
      reads this
    {
      Inv(state) && queue == state.queue && active == state.active && stopping == state.stopping
    }

    constructor (threads: nat)
      ensures Valid() && state == Init(threads)
    {
      InvInit(threads);
      queue, active, stopping := [], 0, false;
      state := Init(threads);
    }

    // In submit. `from` is the worker whose job calls it, if it is one.
    method Enqueue(job: Job, ghost from: Option<nat>)
      requires Valid() && Enabled(state, Submission(job, from))
      modifies this
      ensures Valid() && state == Apply(old(state), Submission(job, from))
    {
      StepKeepsInv(state, Submission(job, from));
      state := Apply(state, Submission(job, from));
      queue := queue + [job];
    }

    // At the head of worker_loop. The wait gives up the lock and starts over when it is woken.
    method Take(w: nat) returns (waits: bool, job: Option<Job>)
      requires Valid() && Enabled(state, Check(w))
      modifies this
      ensures Valid() && state == Apply(old(state), Check(w))
      ensures waits <==> state.workers[w].Parked?
      ensures !waits ==> state.workers[w] == match job case None => Exited case Some(j) => Running(j, false)
    {
      StepKeepsInv(state, Check(w));
      state := Apply(state, Check(w));
      if !(stopping || queue != []) {
        return true, None;
      }
      if queue == [] {
        return false, None;
      }
      job := Some(queue[0]);
      queue := queue[1..];
      active := active + 1;
      waits := false;
    }

    // After a job.
    method Account(w: nat) returns (notified: bool)
      requires Valid() && Enabled(state, Finish(w))
      modifies this
      ensures Valid() && state == Apply(old(state), Finish(w))
      ensures notified <==> Idle(state)
    {
      StepKeepsInv(state, Finish(w));
      state := Apply(state, Finish(w));
      active := active - 1;
      notified := queue == [] && active == 0;
    }

    // At the head of the destructor.
    method BeginStop()
      requires Valid() && Enabled(state, Stop)
      modifies this
      ensures Valid() && state == Apply(old(state), Stop)
    {
      StepKeepsInv(state, Stop);
      state := Apply(state, Stop);
      stopping := true;
    }

    // What remains of worker_loop after shutdown, if no other thread moves and no job submits another.
    method WorkerLoop(w: nat)
      requires Valid() && stopping && w < |state.workers| && state.workers[w].Checking?
      modifies this
      ensures Valid() && queue == [] && state.workers == old(state.workers)[w := Exited]
      ensures state.started == old(state.started) + old(queue)
      ensures state.finished == old(state.finished) + old(queue)
    {
      while true
        invariant Valid() && stopping && state.workers == old(state.workers)
        invariant state.started + queue == old(state.started + queue)
        invariant state.finished + queue == old(state.finished + queue)
        decreases |queue|
      {
        var waits, job := Take(w);
        if job.None? {
          return;
        }
        var notified := Account(w);
      }
    }
  }
}
