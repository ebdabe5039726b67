/**
 Runner::run of src/eval/runner.cpp as a system of interleaved steps: workers claim task numbers
 from an atomic counter, run the tasks, write each result in its place, and report it under a lock.
 */
module WorkDistribution {
  import opened Wrappers

  type TaskResult(!new)

  datatype Worker =
    | Claiming          // about to fetch and increment the counter
    | Running(i: nat)   // runs task i
    | Reporting(i: nat) // has written result i and is about to take the lock and report it
    | Done

  datatype State = State(
    next: nat,
    workers: seq<Worker>,
    results: seq<Option<TaskResult>>,
    hasCallback: bool,
    // History, read by no step: how often each task was run and each result reported.
    runs: seq<nat>,
    reports: seq<nat>)

  datatype Step = Claim(w: nat) | Write(w: nat, result: TaskResult) | Report(w: nat)

  // One worker for each job asked for, but not more than tasks, and at least the caller itself. The
  // constructor of the runner takes anything below 1 for 1.
  function Jobs(jobs: int, tasks: nat): nat {
    var asked := if jobs < 1 then 1 else jobs;
    var n := if asked < tasks then asked else tasks;
    if n <= 1 then 1 else n
  }

  function Init(tasks: nat, jobs: int, hasCallback: bool): State {
    State(0, seq(Jobs(jobs, tasks), i => Claiming), seq(tasks, i => None), hasCallback,
          seq(tasks, i => 0), seq(tasks, i => 0))
  }

  /** As many workers as are asked for, but not more than there are tasks, and never none. */
  lemma JobsAre(jobs: int, tasks: nat, hasCallback: bool)
    ensures var n := |Init(tasks, jobs, hasCallback).workers|;
      && (jobs >= 1 && tasks >= 1 ==> n <= jobs && n <= tasks && (n == jobs || n == tasks))
      && (jobs < 1 || tasks == 0 ==> n == 1)
  {
  }

  // A worker at its step; the indices are in range by Inv below.
  predicate Enabled(s: State, step: Step) {
    match step
    case Claim(w) => w < |s.workers| && s.workers[w].Claiming?
    case Write(w, _) => w < |s.workers| && s.workers[w].Running? && s.workers[w].i < |s.results|
    case Report(w) => w < |s.workers| && s.workers[w].Reporting? && s.workers[w].i < |s.reports|
  }

  function Bump(counts: seq<nat>, i: nat): seq<nat> {
    if i < |counts| then counts[i := counts[i] + 1] else counts
  }

  function Apply(s: State, step: Step): State
    requires Enabled(s, step)
  {
    match step
    case Claim(w) =>
      var i := s.next;
      s.(next := i + 1,
         workers := s.workers[w := if i < |s.results| then Running(i) else Done],
         runs := Bump(s.runs, i))
    case Write(w, result) =>
      var i := s.workers[w].i;
      s.(workers := s.workers[w := if s.hasCallback then Reporting(i) else Claiming],
         results := s.results[i := Some(result)])
    case Report(w) =>
      s.(workers := s.workers[w := Claiming], reports := Bump(s.reports, s.workers[w].i))
  }

  predicate Reaches(s: State, steps: seq<Step>, t: State)
    decreases |steps|
  {
    if steps == [] then s == t
    else Enabled(s, steps[0]) && Reaches(Apply(s, steps[0]), steps[1..], t)
  }

  predicate Holds(w: Worker, i: nat) {
    (w.Running? || w.Reporting?) && w.i == i
  }

  // No task is in two hands.
  predicate Disjoint(ws: seq<Worker>) {
    forall v, w :: 0 <= v < w < |ws| && (ws[v].Running? || ws[v].Reporting?) ==> !Holds(ws[w], ws[v].i)
  }

  ghost predicate InRun(ws: seq<Worker>, i: nat) {
    exists w :: 0 <= w < |ws| && ws[w] == Running(i)
  }

  ghost predicate InReport(ws: seq<Worker>, i: nat) {
    exists w :: 0 <= w < |ws| && ws[w] == Reporting(i)
  }

  // What is known of one task.
  ghost predicate TaskInv(s: State, i: nat)
    requires i < |s.results| == |s.runs| == |s.reports|
  {
    if i < s.next then
      && s.runs[i] == 1
      && (s.results[i].None? <==> InRun(s.workers, i))
      && s.reports[i] == if s.hasCallback && s.results[i].Some? && !InReport(s.workers, i) then 1 else 0
    else s.results[i].None? && s.runs[i] == 0 && s.reports[i] == 0
  }

  ghost predicate Inv(s: State) {
    && |s.results| == |s.runs| == |s.reports|
    && (forall w :: 0 <= w < |s.workers| && (s.workers[w].Running? || s.workers[w].Reporting?) ==>
          s.workers[w].i < s.next && s.workers[w].i < |s.results|)
    && (forall w :: 0 <= w < |s.workers| && s.workers[w].Reporting? ==> s.hasCallback)
    && Disjoint(s.workers)
    && forall i :: 0 <= i < |s.results| ==> TaskInv(s, i)
  }

  // Who runs and who reports a task after one worker has changed.
  lemma Changed(ws: seq<Worker>, w: nat, x: Worker, i: nat)
    requires w < |ws|
    ensures InRun(ws[w := x], i) <==> x == Running(i) || (exists v :: 0 <= v < |ws| && v != w && ws[v] == Running(i))
    ensures InReport(ws[w := x], i)
       <==> x == Reporting(i) || (exists v :: 0 <= v < |ws| && v != w && ws[v] == Reporting(i))
    ensures InRun(ws, i) <==> ws[w] == Running(i) || (exists v :: 0 <= v < |ws| && v != w && ws[v] == Running(i))
    ensures InReport(ws, i) <==> ws[w] == Reporting(i) || (exists v :: 0 <= v < |ws| && v != w && ws[v] == Reporting(i))
  {
    var after := ws[w := x];
    assert after[w] == x && forall v :: 0 <= v < |ws| && v != w ==> after[v] == ws[v];
  }

  lemma OthersDoNot(ws: seq<Worker>, w: nat)
    requires w < |ws| && Disjoint(ws) && (ws[w].Running? || ws[w].Reporting?)
    ensures forall v :: 0 <= v < |ws| && v != w ==> !Holds(ws[v], ws[w].i)
  {
  }

  lemma ClaimKeepsInv(s: State, w: nat)
    requires Inv(s) && Enabled(s, Claim(w))
    ensures Inv(Apply(s, Claim(w)))
  {
    var t := Apply(s, Claim(w));
    forall i | 0 <= i < |s.results|
      ensures TaskInv(t, i)
    {
      assert TaskInv(s, i);
      Changed(s.workers, w, t.workers[w], i);
      if i == s.next {
        assert !InReport(s.workers, i);
      }
    }
  }

  lemma WriteKeepsInv(s: State, w: nat, result: TaskResult)
    requires Inv(s) && Enabled(s, Write(w, result))
    ensures Inv(Apply(s, Write(w, result)))
  {
    var t := Apply(s, Write(w, result));
    OthersDoNot(s.workers, w);
    forall i | 0 <= i < |s.results|
      ensures TaskInv(t, i)
    {
      assert TaskInv(s, i);
      Changed(s.workers, w, t.workers[w], i);
    }
  }

  lemma ReportKeepsInv(s: State, w: nat)
    requires Inv(s) && Enabled(s, Report(w))
    ensures Inv(Apply(s, Report(w)))
  {
    var t := Apply(s, Report(w));
    OthersDoNot(s.workers, w);
    forall i | 0 <= i < |s.results|
      ensures TaskInv(t, i)
    {
      assert TaskInv(s, i);
      Changed(s.workers, w, t.workers[w], i);
    }
  }

  lemma {:induction false} RunKeepsInv(s: State, steps: seq<Step>, t: State)
    requires Inv(s) && Reaches(s, steps, t)
    ensures Inv(t)
    ensures |t.results| == |s.results| && |t.workers| == |s.workers| && t.hasCallback == s.hasCallback
    decreases |steps|
  {
    if steps != [] {
      match steps[0] {
        case Claim(w) => ClaimKeepsInv(s, w);
        case Write(w, result) => WriteKeepsInv(s, w, result);
        case Report(w) => ReportKeepsInv(s, w);
      }
      RunKeepsInv(Apply(s, steps[0]), steps[1..], t);
    }
  }

  predicate Finished(s: State) {
    forall w :: 0 <= w < |s.workers| ==> s.workers[w].Done?
  }

  // Once a worker is done, the counter is past the tasks.
  predicate Exhausted(s: State) {
    (exists w :: 0 <= w < |s.workers| && s.workers[w].Done?) ==> s.next > |s.results|
  }

  lemma {:induction false} RunKeepsExhausted(s: State, steps: seq<Step>, t: State)
    requires Exhausted(s) && Reaches(s, steps, t)
    ensures Exhausted(t)
    decreases |steps|
  {
    if steps != [] {
      RunKeepsExhausted(Apply(s, steps[0]), steps[1..], t);
    }
  }

  /** While workers still run: no two have the same task, and no result is written over. */
  lemma NothingIsOverwritten(tasks: nat, jobs: int, hasCallback: bool, steps: seq<Step>, s: State, w: nat,
                             result: TaskResult)
    requires Reaches(Init(tasks, jobs, hasCallback), steps, s) && Enabled(s, Write(w, result))
    ensures s.results[s.workers[w].i].None?
    ensures forall v :: 0 <= v < |s.workers| && v != w ==> !Holds(s.workers[v], s.workers[w].i)
  {
    RunKeepsInv(Init(tasks, jobs, hasCallback), steps, s);
    OthersDoNot(s.workers, w);
    assert TaskInv(s, s.workers[w].i);
  }

  /** When all workers are done, every task has been run exactly once, has its result, and has been
      reported exactly once if results are reported at all. */
  lemma EveryTaskOnce(tasks: nat, jobs: int, hasCallback: bool, steps: seq<Step>, s: State)
    requires Reaches(Init(tasks, jobs, hasCallback), steps, s) && Finished(s)
    ensures |s.results| == |s.runs| == |s.reports| == tasks
    ensures forall i :: 0 <= i < tasks ==>
              s.results[i].Some? && s.runs[i] == 1 && s.reports[i] == if hasCallback then 1 else 0
  {
    RunKeepsInv(Init(tasks, jobs, hasCallback), steps, s);
    RunKeepsExhausted(Init(tasks, jobs, hasCallback), steps, s);
    assert s.workers[0].Done?;
    forall i | 0 <= i < tasks
      ensures s.results[i].Some? && s.runs[i] == 1 && s.reports[i] == if hasCallback then 1 else 0
    {
      assert TaskInv(s, i);
    }
  }

  // How many steps a worker still has to take for the task at hand and its next claim.
  function Cost(w: Worker, hasCallback: bool): nat {
    match w
    case Claiming => 1
    case Running(_) => if hasCallback then 3 else 2
    case Reporting(_) => 2
    case Done => 0
  }

  function Costs(ws: seq<Worker>, hasCallback: bool): nat {
    if ws == [] then 0 else Cost(ws[0], hasCallback) + Costs(ws[1..], hasCallback)
  }

  function Remaining(s: State): nat {
    (if s.next < |s.results| then |s.results| - s.next else 0) * (if s.hasCallback then 3 else 2)
    + Costs(s.workers, s.hasCallback)
  }

  lemma {:induction false} CostsChange(ws: seq<Worker>, w: nat, x: Worker, hasCallback: bool)
    requires w < |ws|
    ensures Costs(ws[w := x], hasCallback) == Costs(ws, hasCallback) - Cost(ws[w], hasCallback) + Cost(x, hasCallback)
  {
    if w > 0 {
      CostsChange(ws[1..], w - 1, x, hasCallback);
      assert ws[w := x][1..] == ws[1..][w - 1 := x];
    } else {
      assert ws[w := x][1..] == ws[1..];
    }
  }

  lemma {:induction false} CostsOfClaiming(n: nat, hasCallback: bool)
    ensures Costs(seq(n, i => Claiming), hasCallback) == n
  {
    if n > 0 {
      assert seq(n, i => Claiming)[1..] == seq(n - 1, i => Claiming);
      CostsOfClaiming(n - 1, hasCallback);
    }
  }

  lemma StepCosts(s: State, step: Step)
    requires Inv(s) && Enabled(s, step)
    ensures Remaining(Apply(s, step)) == Remaining(s) - 1
  {
    var w := step.w;
    CostsChange(s.workers, w, Apply(s, step).workers[w], s.hasCallback);
  }

  lemma {:induction false} RunCosts(s: State, steps: seq<Step>, t: State)
    requires Inv(s) && Reaches(s, steps, t)
    ensures Remaining(t) == Remaining(s) - |steps|
    decreases |steps|
  {
    if steps != [] {
      StepCosts(s, steps[0]);
      RunKeepsInv(s, [steps[0]], Apply(s, steps[0]));
      RunCosts(Apply(s, steps[0]), steps[1..], t);
    }
  }

  /** Every run ends: while a worker is not done it can take a step, and whatever the order, the
      steps of a complete run are three (or two, without a callback) per task and one per worker. */
  lemma {:induction false} RunsEnd(tasks: nat, jobs: int, hasCallback: bool, steps: seq<Step>, s: State,
                                   any: TaskResult)
    requires Reaches(Init(tasks, jobs, hasCallback), steps, s)
    ensures |steps| <= (if hasCallback then 3 else 2) * tasks + Jobs(jobs, tasks)
    ensures Finished(s) <==> |steps| == (if hasCallback then 3 else 2) * tasks + Jobs(jobs, tasks)
    ensures forall w :: 0 <= w < |s.workers| && !s.workers[w].Done? ==>
              Enabled(s, Claim(w)) || Enabled(s, Write(w, any)) || Enabled(s, Report(w))
  {
    InitKeeps(tasks, jobs, hasCallback);
    FirstCosts(tasks, jobs, hasCallback);
    hide Inv, Costs, Reaches, Init, Jobs;
    var init := Init(tasks, jobs, hasCallback);
    RunKeepsInv(init, steps, s);
    RunKeepsExhausted(init, steps, s);
    RunCosts(init, steps, s);
    Spent(s);
    forall w | 0 <= w < |s.workers| && !s.workers[w].Done?
      ensures Enabled(s, Claim(w)) || Enabled(s, Write(w, any)) || Enabled(s, Report(w))
    {
      CanStep(s, w, any);
    }
  }

  lemma InitKeeps(tasks: nat, jobs: int, hasCallback: bool)
    ensures Inv(Init(tasks, jobs, hasCallback)) && Exhausted(Init(tasks, jobs, hasCallback))
  {
  }

  lemma FirstCosts(tasks: nat, jobs: int, hasCallback: bool)
    ensures var s := Init(tasks, jobs, hasCallback);
      && Remaining(s) == (if hasCallback then 3 else 2) * tasks + Jobs(jobs, tasks)
      && s.workers != [] && s.hasCallback == hasCallback
  {
    hide Costs;
    CostsOfClaiming(Jobs(jobs, tasks), hasCallback);
  }

  lemma Spent(s: State)
    requires Exhausted(s) && s.workers != []
    ensures Remaining(s) == 0 <==> Finished(s)
  {
    CostsOfDone(s.workers, s.hasCallback);
    hide Costs;
    if Finished(s) {
      assert s.workers[0].Done?;
    }
  }

  lemma CanStep(s: State, w: nat, any: TaskResult)
    requires Inv(s) && w < |s.workers| && !s.workers[w].Done?
    ensures Enabled(s, Claim(w)) || Enabled(s, Write(w, any)) || Enabled(s, Report(w))
  {
  }

  lemma {:induction false} CostsOfDone(ws: seq<Worker>, hasCallback: bool)
    ensures Costs(ws, hasCallback) == 0 <==> forall w :: 0 <= w < |ws| ==> ws[w].Done?
  {
    if ws != [] {
      CostsOfDone(ws[1..], hasCallback);
      assert ws == [ws[0]] + ws[1..];
    }
  }
}
