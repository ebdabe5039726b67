/**
 What a worker of Runner::run in src/eval/runner.cpp does, in place, on the counter and the results that
 the workers share. Each access is a method that does one step of WorkDistribution and may be called
 in any reachable state.
 */
module WorkSharing {
  import opened WorkDistribution
  import opened Wrappers

  class Shared {
    const results: array<Option<TaskResult>>
    var next: nat
    ghost var state: State

    ghost predicate Valid()
      reads this, results
    {
      Inv(state) && results[..] == state.results && next == state.next
    }

    constructor (tasks: nat, jobs: int, ghost hasCallback: bool)
      ensures Valid() && fresh(results) && results.Length == tasks && state == Init(tasks, jobs, hasCallback)
    {
      results := new Option<TaskResult>[tasks](i => None);
      next := 0;
      state := Init(tasks, jobs, hasCallback);
      new;
      assert results[..] == state.results;
    }

    method FetchAdd(w: nat) returns (i: nat)
      requires Valid() && Enabled(state, Claim(w))
      modifies this
      ensures Valid() && state == Apply(old(state), Claim(w)) && i == old(next)
    {
      ClaimKeepsInv(state, w);
      state := Apply(state, Claim(w));
      i := next;
      next := next + 1;
    }

    method WriteResult(w: nat, i: nat, result: TaskResult)
      requires Valid() && w < |state.workers| && state.workers[w] == Running(i)
      modifies this`state, results
      ensures Valid() && state == Apply(old(state), Write(w, result))
    {
      WriteKeepsInv(state, w, result);
      state := Apply(state, Write(w, result));
      results[i] := Some(result);
    }

    // The callback, under its lock.
    ghost method ReportResult(w: nat)
      requires Valid() && w < |state.workers| && state.workers[w].Reporting?
      modifies this`state
      ensures Valid() && state == Apply(old(state), Report(w))
    {
      ReportKeepsInv(state, w);
      state := Apply(state, Report(w));
    }

    // The loop of a worker that no other worker interrupts. outcomes says what run_task gives for each task.
    method Worker(w: nat, outcomes: seq<TaskResult>)
      requires Valid() && w < |state.workers| && state.workers[w].Claiming? && |outcomes| == results.Length
      modifies this, results
      ensures Valid() && state.workers == old(state.workers)[w := Done] && next > results.Length
      ensures forall i :: 0 <= i < results.Length ==>
                results[i] == if i < old(next) then old(results[i]) else Some(outcomes[i])
      ensures forall i :: old(next) <= i < results.Length ==>
                state.runs[i] == 1 && state.reports[i] == if state.hasCallback then 1 else 0
    {
      var i := FetchAdd(w);
      while i < results.Length
        invariant Valid() && w < |state.workers| && next == i + 1 && i >= old(next)
        invariant state.hasCallback == old(state.hasCallback)
        invariant state.workers == old(state.workers)[w := if i < results.Length then Running(i) else Done]
        invariant forall k :: 0 <= k < results.Length ==>
                    results[k] == if old(next) <= k < i then Some(outcomes[k]) else old(results[k])
        decreases results.Length - i
      {
        WriteResult(w, i, outcomes[i]);
        if state.hasCallback {
          ReportResult(w);
        }
        i := FetchAdd(w);
      }
      forall i | old(next) <= i < results.Length
        ensures state.runs[i] == 1 && state.reports[i] == if state.hasCallback then 1 else 0
      {
        assert TaskInv(state, i) && results[i] == state.results[i];
        assert !InReport(state.workers, i);
      }
    }
  }
}
