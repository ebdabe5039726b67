/**
 The thread pool of tasks/thread-pool/reference.hpp as a system of interleaved steps.

 A critical section of `mutex_` is one step. What happens outside the lock is a step of
 its own: the notify_one after a submission, the notify_all of the destructor, and the run
 of a job. Spurious wake-ups of both condition variables are steps too. A job is an
 arbitrary value; while it runs it may submit further jobs.
 */
module ThreadPool {

  // What a submitted callable is does not matter here.
  type Job(==, !new)

  datatype Worker =
    | Checking                        // awake, about to lock the mutex and test the wait predicate
    | Parked                          // blocked on work_cv_
    | Running(job: Job, owes: bool)   // runs a job; owes: the job has enqueued another one and not notified yet
    | Exited

  // A caller of wait_idle.
  datatype Waiter = Testing | Blocked | Returned

  // Where the destructor is.
  datatype Shutdown = NotCalled | MustNotify | Joining

  datatype State = State(
    queue: seq<Job>,
    active: int,
    stopping: bool,
    workers: seq<Worker>,
    waiters: seq<Waiter>,
    pending: nat,              // outside threads between unlocking in submit and their notify_one
    shutdown: Shutdown,
    // History, read by no step.
    submitted: seq<Job>,
    started: seq<Job>,
    finished: seq<Job>)

  datatype Step =
    | Submit(job: Job)
    | Notify(target: nat)
    | SubmitFrom(w: nat, job: Job)
    | NotifyFrom(w: nat, target: nat)
    | Check(w: nat)
    | Finish(w: nat)
    | Spurious(w: nat)
    | CallWaitIdle
    | TestIdle(i: nat)
    | SpuriousIdle(i: nat)
    | Stop
    | NotifyAll

  function Init(threads: nat): State {
    var n := if threads == 0 then 1 else threads;
    State([], 0, false, seq(n, i => Checking), [], 0, NotCalled, [], [], [])
  }

  // notify_one wakes some parked worker if there is one.
  predicate CanWake(ws: seq<Worker>, target: nat) {
    Count(ws, IsParked) > 0 ==> target < |ws| && ws[target].Parked?
  }

  function Wake(ws: seq<Worker>, target: nat): seq<Worker>
    requires CanWake(ws, target)
  {
    if Count(ws, IsParked) > 0 then ws[target := Checking] else ws
  }

  function WakeAll(ws: seq<Worker>): seq<Worker> {
    if ws == [] then [] else [if ws[0].Parked? then Checking else ws[0]] + WakeAll(ws[1..])
  }

  predicate Enabled(s: State, step: Step) {
    match step
    // Once the destructor has begun, only running jobs may still call submit.
    case Submit(_) => !s.stopping
    case Notify(target) => s.pending > 0 && CanWake(s.workers, target)
    case SubmitFrom(w, _) => w < |s.workers| && s.workers[w].Running? && !s.workers[w].owes
    case NotifyFrom(w, target) =>
      w < |s.workers| && s.workers[w].Running? && s.workers[w].owes && CanWake(s.workers, target)
    case Check(w) => w < |s.workers| && s.workers[w].Checking?
    case Finish(w) => w < |s.workers| && s.workers[w].Running? && !s.workers[w].owes
    case Spurious(w) => w < |s.workers| && s.workers[w].Parked?
    case CallWaitIdle => true
    case TestIdle(i) => i < |s.waiters| && s.waiters[i].Testing?
    case SpuriousIdle(i) => i < |s.waiters| && s.waiters[i].Blocked?
    case Stop => s.shutdown.NotCalled?
    case NotifyAll => s.shutdown.MustNotify?
  }

  // The critical section at the head of worker_loop.
  function CheckStep(s: State, w: nat): State
    requires w < |s.workers|
  {
    if !s.stopping && s.queue == [] then
      s.(workers := s.workers[w := Parked])
    else if s.queue == [] then
      s.(workers := s.workers[w := Exited])
    else
      s.(queue := s.queue[1..],
         active := s.active + 1,
         workers := s.workers[w := Running(s.queue[0], false)],
         started := s.started + [s.queue[0]])
  }

  // The critical section after a job; idle_cv_ is notified inside it.
  function FinishStep(s: State, w: nat): State
    requires w < |s.workers| && s.workers[w].Running?
  {
    var active := s.active - 1;
    s.(active := active,
       workers := s.workers[w := Checking],
       waiters := if s.queue == [] && active == 0 then UnblockAll(s.waiters) else s.waiters,
       finished := s.finished + [s.workers[w].job])
  }

  function UnblockAll(ws: seq<Waiter>): seq<Waiter> {
    seq(|ws|, i requires 0 <= i < |ws| => if ws[i].Blocked? then Testing else ws[i])
  }

  predicate Idle(s: State) {
    s.queue == [] && s.active == 0
  }

  function Apply(s: State, step: Step): State
    requires Enabled(s, step)
  {
    match step
    case Submit(job) =>
      s.(queue := s.queue + [job], pending := s.pending + 1, submitted := s.submitted + [job])
    case Notify(target) =>
      s.(pending := s.pending - 1, workers := Wake(s.workers, target))
    case SubmitFrom(w, job) =>
      s.(queue := s.queue + [job],
         workers := s.workers[w := Running(s.workers[w].job, true)],
         submitted := s.submitted + [job])
    case NotifyFrom(w, target) =>
      s.(workers := Wake(s.workers, target)[w := Running(s.workers[w].job, false)])
    case Check(w) => CheckStep(s, w)
    case Finish(w) => FinishStep(s, w)
    case Spurious(w) => s.(workers := s.workers[w := Checking])
    case CallWaitIdle => s.(waiters := s.waiters + [Testing])
    case TestIdle(i) => s.(waiters := s.waiters[i := if Idle(s) then Returned else Blocked])
    case SpuriousIdle(i) => s.(waiters := s.waiters[i := Testing])
    case Stop => s.(stopping := true, shutdown := MustNotify)
    case NotifyAll => s.(workers := WakeAll(s.workers), shutdown := Joining)
  }

  // `steps` leads from s to t.
  predicate Reaches(s: State, steps: seq<Step>, t: State)
    decreases |steps|
  {
    if steps == [] then s == t
    else Enabled(s, steps[0]) && Reaches(Apply(s, steps[0]), steps[1..], t)
  }

  // Counting workers

  datatype Kind = IsChecking | IsParked | IsRunning | IsOwing | IsExited | Runs(job: Job)

  predicate Is(w: Worker, k: Kind) {
    match k
    case IsChecking => w.Checking?
    case IsParked => w.Parked?
    case IsRunning => w.Running?
    case IsOwing => w.Running? && w.owes
    case IsExited => w.Exited?
    case Runs(job) => w.Running? && w.job == job
  }

  function Count(ws: seq<Worker>, k: Kind): nat {
    if ws == [] then 0 else (if Is(ws[0], k) then 1 else 0) + Count(ws[1..], k)
  }

  lemma {:induction false} CountUpdate(ws: seq<Worker>, i: nat, w: Worker, k: Kind)
    requires i < |ws|
    ensures Count(ws[i := w], k) + (if Is(ws[i], k) then 1 else 0) == Count(ws, k) + (if Is(w, k) then 1 else 0)
  {
    if i > 0 {
      assert ws[i := w][1..] == ws[1..][i - 1 := w];
      CountUpdate(ws[1..], i - 1, w, k);
    } else {
      assert ws[i := w][1..] == ws[1..];
    }
  }

  lemma CountsUpdate(ws: seq<Worker>, i: nat, w: Worker)
    requires i < |ws|
    ensures forall k :: Count(ws[i := w], k) + (if Is(ws[i], k) then 1 else 0)
                        == Count(ws, k) + (if Is(w, k) then 1 else 0)
  {
    forall k
      ensures Count(ws[i := w], k) + (if Is(ws[i], k) then 1 else 0) == Count(ws, k) + (if Is(w, k) then 1 else 0)
    {
      CountUpdate(ws, i, w, k);
    }
  }

  lemma {:induction false} CountWitness(ws: seq<Worker>, k: Kind)
    ensures Count(ws, k) > 0 <==> exists i :: 0 <= i < |ws| && Is(ws[i], k)
  {
    if ws != [] {
      CountWitness(ws[1..], k);
      if i :| 0 <= i < |ws[1..]| && Is(ws[1..][i], k) {
        assert Is(ws[i + 1], k);
      }
      if i :| 0 <= i < |ws| && Is(ws[i], k) {
        assert i == 0 || Is(ws[1..][i - 1], k);
      }
    }
  }

  lemma {:induction false} CountTotal(ws: seq<Worker>)
    ensures Count(ws, IsChecking) + Count(ws, IsParked) + Count(ws, IsRunning) + Count(ws, IsExited) == |ws|
    ensures Count(ws, IsOwing) <= Count(ws, IsRunning)
    ensures Count(ws, IsRunning) == 0 ==> forall j :: Count(ws, Runs(j)) == 0
  {
    if ws != [] {
      CountTotal(ws[1..]);
    }
  }

  lemma {:induction false} WakeAllCounts(ws: seq<Worker>)
    ensures |WakeAll(ws)| == |ws|
    ensures Count(WakeAll(ws), IsParked) == 0
    ensures Count(WakeAll(ws), IsChecking) == Count(ws, IsChecking) + Count(ws, IsParked)
    ensures forall k :: k != IsParked && k != IsChecking ==> Count(WakeAll(ws), k) == Count(ws, k)
  {
    if ws != [] {
      WakeAllCounts(ws[1..]);
    }
  }

  lemma WakeCounts(ws: seq<Worker>, target: nat)
    requires CanWake(ws, target)
    ensures |Wake(ws, target)| == |ws|
    ensures Count(ws, IsParked) > 0 ==>
              && Count(Wake(ws, target), IsParked) == Count(ws, IsParked) - 1
              && Count(Wake(ws, target), IsChecking) == Count(ws, IsChecking) + 1
    ensures forall k :: k != IsParked && k != IsChecking ==> Count(Wake(ws, target), k) == Count(ws, k)
    ensures Count(ws, IsParked) == 0 ==> Wake(ws, target) == ws
  {
    if Count(ws, IsParked) > 0 {
      CountsUpdate(ws, target, Checking);
    }
  }

  // Invariants

  // Notifications that have been promised and not yet sent.
  function PendingNotifies(s: State): nat {
    s.pending + Count(s.workers, IsOwing)
  }

  ghost predicate NoLostWakeup(s: State) {
    Count(s.workers, IsParked) > 0 ==> PendingNotifies(s) + Count(s.workers, IsChecking) >= |s.queue|
  }

  ghost predicate History(s: State) {
    && s.submitted == s.started + s.queue
    && forall j :: multiset(s.started)[j] == multiset(s.finished)[j] + Count(s.workers, Runs(j))
  }

  ghost predicate ShutdownOk(s: State) {
    && (s.stopping <==> !s.shutdown.NotCalled?)
    && (s.shutdown.Joining? ==> Count(s.workers, IsParked) == 0)
    && (Count(s.workers, IsExited) > 0 ==> s.stopping)
    && (s.queue != [] ==> Count(s.workers, IsExited) < |s.workers|)
  }

  ghost predicate WaitersOk(s: State) {
    Idle(s) ==> forall i :: 0 <= i < |s.waiters| ==> !s.waiters[i].Blocked?
  }

  ghost predicate Inv(s: State) {
    && |s.workers| > 0
    && s.active == Count(s.workers, IsRunning)
    && NoLostWakeup(s)
    && History(s)
    && ShutdownOk(s)
    && WaitersOk(s)
  }

  lemma {:induction false} FreshWorkers(n: nat)
    ensures var ws := seq(n, i => Worker.Checking);
      Count(ws, IsChecking) == n && forall k :: k != IsChecking ==> Count(ws, k) == 0
  {
    var ws := seq(n, i => Worker.Checking);
    if n > 0 {
      assert ws[1..] == seq(n - 1, i => Worker.Checking);
      FreshWorkers(n - 1);
    }
  }

  lemma InvInit(threads: nat)
    ensures Inv(Init(threads))
  {
    FreshWorkers(if threads == 0 then 1 else threads);
  }

  lemma CheckKeepsHistory(s: State, w: nat)
    requires Inv(s) && Enabled(s, Check(w))
    ensures History(CheckStep(s, w))
  {
    var t := CheckStep(s, w);
    CountsUpdate(s.workers, w, t.workers[w]);
    if s.queue != [] {
      Moved(s.started, s.queue);
    }
  }

  lemma Moved(started: seq<Job>, queue: seq<Job>)
    requires queue != []
    ensures started + queue == started + [queue[0]] + queue[1..]
  {
  }

  lemma CheckKeepsInv(s: State, w: nat)
    requires Inv(s) && Enabled(s, Check(w))
    ensures Inv(CheckStep(s, w))
  {
    var t := CheckStep(s, w);
    CheckKeepsHistory(s, w);
    CountTotal(s.workers);
    CountsUpdate(s.workers, w, t.workers[w]);
    CountTotal(t.workers);
  }

  lemma FinishKeepsHistory(s: State, w: nat)
    requires Inv(s) && Enabled(s, Finish(w))
    ensures History(FinishStep(s, w))
  {
    CountsUpdate(s.workers, w, Checking);
  }

  lemma FinishKeepsInv(s: State, w: nat)
    requires Inv(s) && Enabled(s, Finish(w))
    ensures Inv(FinishStep(s, w))
  {
    FinishKeepsHistory(s, w);
    CountsUpdate(s.workers, w, Checking);
    CountTotal(FinishStep(s, w).workers);
  }

  lemma NotifyKeepsInv(s: State, step: Step)
    requires Inv(s) && Enabled(s, step) && (step.Notify? || step.NotifyFrom?)
    ensures Inv(Apply(s, step))
  {
    WakeCounts(s.workers, step.target);
    if step.NotifyFrom? {
      var ws := Wake(s.workers, step.target);
      var awake := Running(s.workers[step.w].job, false);
      CountsUpdate(ws, step.w, awake);
    }
  }

  lemma SubmitKeepsInv(s: State, step: Step)
    requires Inv(s) && Enabled(s, step) && (step.Submit? || step.SubmitFrom?)
    ensures Inv(Apply(s, step))
  {
    assert s.submitted + [step.job] == s.started + (s.queue + [step.job]);
    if step.SubmitFrom? {
      var owing := Running(s.workers[step.w].job, true);
      CountsUpdate(s.workers, step.w, owing);
      CountTotal(s.workers[step.w := owing]);
    }
  }

  lemma StepKeepsInv(s: State, step: Step)
    requires Inv(s) && Enabled(s, step)
    ensures Inv(Apply(s, step))
  {
    match step
    case Submit(_) => SubmitKeepsInv(s, step);
    case SubmitFrom(_, _) => SubmitKeepsInv(s, step);
    case Notify(_) => NotifyKeepsInv(s, step);
    case NotifyFrom(_, _) => NotifyKeepsInv(s, step);
    case Check(w) => CheckKeepsInv(s, w);
    case Finish(w) => FinishKeepsInv(s, w);
    case Spurious(w) => SpuriousKeepsInv(s, w);
    case NotifyAll => NotifyAllKeepsInv(s);
    case _ =>
  }

  lemma SpuriousKeepsInv(s: State, w: nat)
    requires Inv(s) && Enabled(s, Spurious(w))
    ensures Inv(Apply(s, Spurious(w)))
  {
    CountsUpdate(s.workers, w, Checking);
  }

  lemma NotifyAllKeepsInv(s: State)
    requires Inv(s) && Enabled(s, NotifyAll)
    ensures Inv(Apply(s, NotifyAll))
  {
    WakeAllCounts(s.workers);
  }

  lemma {:induction false} RunKeepsInv(s: State, steps: seq<Step>, t: State)
    requires Inv(s) && Reaches(s, steps, t)
    ensures Inv(t)
    decreases |steps|
  {
    if steps != [] {
      StepKeepsInv(s, steps[0]);
      RunKeepsInv(Apply(s, steps[0]), steps[1..], t);
    }
  }

  // Theorems about every run from a new pool

  /** No wake-up is lost: while a worker sleeps, every queued job is matched by a promised
      notification or by a worker that is awake and about to look at the queue. */
  lemma QueuedWorkIsAnnounced(threads: nat, steps: seq<Step>, s: State, sleeper: nat)
    requires Reaches(Init(threads), steps, s)
    requires sleeper < |s.workers| && s.workers[sleeper].Parked?
    ensures PendingNotifies(s) + Count(s.workers, IsChecking) >= |s.queue|
  {
    InvInit(threads);
    RunKeepsInv(Init(threads), steps, s);
    assert Is(s.workers[sleeper], IsParked);
    CountWitness(s.workers, IsParked);
  }

  /** Queued work never waits for nobody: with no notification outstanding, some worker is
      awake, about to test the predicate or running a job it will return from. */
  lemma QueuedWorkIsAttended(threads: nat, steps: seq<Step>, s: State)
    requires Reaches(Init(threads), steps, s)
    requires s.queue != [] && PendingNotifies(s) == 0
    ensures exists w :: 0 <= w < |s.workers| && (s.workers[w].Checking? || s.workers[w].Running?)
  {
    InvInit(threads);
    RunKeepsInv(Init(threads), steps, s);
    CountTotal(s.workers);
    CountWitness(s.workers, IsChecking);
    CountWitness(s.workers, IsRunning);
  }

  /** Jobs are started in submission order, and `active_` counts exactly the workers between
      taking a job and accounting for it. */
  lemma StartedInOrder(threads: nat, steps: seq<Step>, s: State)
    requires Reaches(Init(threads), steps, s)
    ensures s.started <= s.submitted && s.submitted[|s.started|..] == s.queue
    ensures s.active == Count(s.workers, IsRunning)
    ensures forall j :: multiset(s.started)[j] == multiset(s.finished)[j] + Count(s.workers, Runs(j))
  {
    InvInit(threads);
    RunKeepsInv(Init(threads), steps, s);
  }

  /** The destructor drains: when the last worker has gone, every job ever submitted, before
      or during shutdown, has been started once, in order, and has finished. */
  lemma ShutdownDrains(threads: nat, steps: seq<Step>, s: State)
    requires Reaches(Init(threads), steps, s)
    requires forall w :: 0 <= w < |s.workers| ==> s.workers[w].Exited?
    ensures s.queue == [] && s.active == 0 && s.stopping
    ensures s.started == s.submitted
    ensures multiset(s.finished) == multiset(s.submitted)
  {
    InvInit(threads);
    RunKeepsInv(Init(threads), steps, s);
    CountTotal(s.workers);
    CountWitness(s.workers, IsChecking);
    CountWitness(s.workers, IsParked);
    CountWitness(s.workers, IsRunning);
  }

  /** No caller of wait_idle sleeps through the idle moment. */
  lemma IdleWakesWaiters(threads: nat, steps: seq<Step>, s: State, i: nat)
    requires Reaches(Init(threads), steps, s)
    requires i < |s.waiters| && s.waiters[i].Blocked?
    ensures s.queue != [] || exists w :: 0 <= w < |s.workers| && s.workers[w].Running?
  {
    InvInit(threads);
    RunKeepsInv(Init(threads), steps, s);
    CountWitness(s.workers, IsRunning);
  }

  /** A caller that wait_idle lets go at some step finds all jobs submitted so far finished. */
  lemma WaitIdleReturnsWhenDone(threads: nat, steps: seq<Step>, s: State, i: nat)
    requires Reaches(Init(threads), steps, s)
    requires Enabled(s, TestIdle(i)) && Apply(s, TestIdle(i)).waiters[i].Returned?
    ensures multiset(s.finished) == multiset(s.submitted)
  {
    InvInit(threads);
    RunKeepsInv(Init(threads), steps, s);
    CountTotal(s.workers);
    assert s.started + [] == s.started;
  }

  lemma QueuedIsUnfinished(s: State, j: Job)
    requires History(s) && j in s.queue
    ensures multiset(s.finished)[j] < multiset(s.submitted)[j]
  {
    assert multiset(s.submitted) == multiset(s.started) + multiset(s.queue);
    assert multiset(s.started)[j] >= multiset(s.finished)[j];
  }

  /** Every submission has finished exactly when nothing is queued and nothing runs. */
  lemma AllDoneIff(threads: nat, steps: seq<Step>, s: State)
    requires Reaches(Init(threads), steps, s)
    ensures multiset(s.finished) == multiset(s.submitted)
       <==> s.queue == [] && forall w :: 0 <= w < |s.workers| ==> !s.workers[w].Running?
  {
    InvInit(threads);
    RunKeepsInv(Init(threads), steps, s);
    CountTotal(s.workers);
    CountWitness(s.workers, IsRunning);
    assert s.started + [] == s.started;
    if multiset(s.finished) == multiset(s.submitted) {
      NothingLeft(s);
    }
  }

  lemma NothingLeft(s: State)
    requires History(s) && multiset(s.finished) == multiset(s.submitted)
    ensures s.queue == [] && forall w :: 0 <= w < |s.workers| ==> !s.workers[w].Running?
  {
    assert multiset(s.submitted) == multiset(s.started) + multiset(s.queue);
    if s.queue != [] {
      QueuedIsUnfinished(s, s.queue[0]);
    }
    forall w | 0 <= w < |s.workers|
      ensures !s.workers[w].Running?
    {
      if s.workers[w].Running? {
        CountWitness(s.workers, Runs(s.workers[w].job));
        assert Is(s.workers[w], Runs(s.workers[w].job));
      }
    }
  }

  /** A call of wait_idle can always be made and then looks at the pool. When it looks, it returns if
      every job submitted so far has finished, and blocks if not. */
  lemma WaitIdleReturnsIffDone(threads: nat, steps: seq<Step>, s: State, i: nat)
    requires Reaches(Init(threads), steps, s)
    ensures Enabled(s, CallWaitIdle) && Apply(s, CallWaitIdle) == s.(waiters := s.waiters + [Testing])
    ensures i < |s.waiters| && s.waiters[i].Testing? ==>
              && Enabled(s, TestIdle(i))
              && Apply(s, TestIdle(i)).waiters
                 == s.waiters[i := if multiset(s.finished) == multiset(s.submitted) then Returned else Blocked]
  {
    InvInit(threads);
    RunKeepsInv(Init(threads), steps, s);
    AllDoneIff(threads, steps, s);
    CountWitness(s.workers, IsRunning);
  }

  /** Once everything has finished, a caller of wait_idle that has not returned has one step to take,
      and has returned after it. */
  lemma WaitIdleReturns(threads: nat, steps: seq<Step>, s: State, i: nat)
    requires Reaches(Init(threads), steps, s) && multiset(s.finished) == multiset(s.submitted)
    requires i < |s.waiters| && !s.waiters[i].Returned?
    ensures Enabled(s, TestIdle(i)) && Apply(s, TestIdle(i)).waiters[i].Returned?
  {
    AllDoneIff(threads, steps, s);
    if s.waiters[i].Blocked? {
      IdleWakesWaiters(threads, steps, s, i);
    }
    WaitIdleReturnsIffDone(threads, steps, s, i);
  }

  /** A waiter is released by its own test and by nothing else, and the end of a job sends the blocked ones
      to test again exactly when no job is queued or running any more. */
  lemma OnlyTestsReturn(threads: nat, steps: seq<Step>, s: State, step: Step, i: nat)
    requires Reaches(Init(threads), steps, s) && Enabled(s, step) && i < |s.waiters|
    ensures var t := Apply(s, step);
      && |t.waiters| >= |s.waiters|
      && (s.waiters[i].Returned? ==> t.waiters[i].Returned?)
      && (t.waiters[i].Returned? && !s.waiters[i].Returned? ==> step == TestIdle(i))
      && (step.Finish? && s.waiters[i].Blocked? ==>
            (t.waiters[i].Testing? <==> t.queue == [] && forall w :: 0 <= w < |t.workers| ==> !t.workers[w].Running?))
      && (step.Finish? && !s.waiters[i].Blocked? ==> t.waiters[i] == s.waiters[i])
  {
    InvInit(threads);
    RunKeepsInv(Init(threads), steps, s);
    StepKeepsInv(s, step);
    CountWitness(Apply(s, step).workers, IsRunning);
  }

  /** A job may submit another one as long as it runs, also after the destructor has begun; the new job goes
      to the end of the queue. */
  lemma RunningJobsMaySubmit(s: State, w: nat, running: Job, job: Job)
    requires w < |s.workers| && s.workers[w] == Running(running, false)
    ensures Enabled(s, SubmitFrom(w, job)) && Apply(s, SubmitFrom(w, job)).queue == s.queue + [job]
    ensures Apply(s, SubmitFrom(w, job)).submitted == s.submitted + [job]
  {
  }

  function Submits(steps: seq<Step>): nat {
    if steps == [] then 0 else (if steps[0].Submit? then 1 else 0) + Submits(steps[1..])
  }

  function Notifies(steps: seq<Step>): nat {
    if steps == [] then 0 else (if steps[0].Notify? then 1 else 0) + Notifies(steps[1..])
  }

  /** Every submission from outside is followed by one notification. */
  lemma {:induction false} NotifiedOnce(s: State, steps: seq<Step>, t: State)
    requires Reaches(s, steps, t)
    ensures t.pending + Notifies(steps) == s.pending + Submits(steps)
    decreases |steps|
  {
    if steps != [] {
      NotifiedOnce(Apply(s, steps[0]), steps[1..], t);
    }
  }

  /** There are as many workers as asked for, and one if none were, at all times. */
  lemma {:induction false} ThreadCount(threads: nat, steps: seq<Step>, s: State)
    requires Reaches(Init(threads), steps, s)
    ensures |s.workers| == (if threads == 0 then 1 else threads)
  {
    WorkersStay(Init(threads), steps, s);
  }

  lemma {:induction false} WorkersStay(s: State, steps: seq<Step>, t: State)
    requires Reaches(s, steps, t)
    ensures |t.workers| == |s.workers|
    decreases |steps|
  {
    if steps != [] {
      if steps[0].NotifyAll? {
        WakeAllCounts(s.workers);
      }
      WorkersStay(Apply(s, steps[0]), steps[1..], t);
    }
  }

  /** Until the destructor begins anyone may submit; a job goes to the end of the queue, and a worker
      that looks takes the first one, or leaves if there is none and the destructor has begun. */
  lemma SubmitAndTake(threads: nat, steps: seq<Step>, s: State, job: Job, w: nat)
    requires Reaches(Init(threads), steps, s)
    ensures s.shutdown.NotCalled? ==>
              && Enabled(s, Submit(job)) && Apply(s, Submit(job)).queue == s.queue + [job]
              && Enabled(s, Stop) && Apply(s, Stop).queue == s.queue
    ensures w < |s.workers| && s.workers[w].Checking? ==>
              && Enabled(s, Check(w))
              && var t := Apply(s, Check(w));
                 var next := |s.started|;
                 if next >= |s.submitted| then t.workers[w] == if s.shutdown.NotCalled? then Parked else Exited
                 else t.started == s.started + [s.submitted[next]] && t.workers[w] == Running(s.submitted[next], false)
  {
    InvInit(threads);
    RunKeepsInv(Init(threads), steps, s);
    StartedInOrder(threads, steps, s);
  }

  // The join in the destructor returns

  // A step of a worker. What outside callers do does not count.
  predicate WorkerStep(step: Step) {
    step.SubmitFrom? || step.NotifyFrom? || step.Check? || step.Finish?
  }

  function Submissions(steps: seq<Step>): nat {
    if steps == [] then 0 else (if steps[0].SubmitFrom? then 1 else 0) + Submissions(steps[1..])
  }

  // Bounds the worker steps that are still to come if no more jobs are submitted.
  function Work(s: State): nat {
    2 * |s.queue| + Count(s.workers, IsChecking) + 2 * Count(s.workers, IsRunning) + Count(s.workers, IsOwing)
  }

  lemma WorkerStepWorks(s: State, step: Step)
    requires Inv(s) && s.shutdown.Joining? && Enabled(s, step) && WorkerStep(step)
    ensures Apply(s, step).shutdown.Joining?
    ensures Work(Apply(s, step)) + 1 <= Work(s) + (if step.SubmitFrom? then 4 else 0)
  {
    var t := Apply(s, step);
    if step.NotifyFrom? {
      WakeCounts(s.workers, step.target);
    }
    CountsUpdate(s.workers, step.w, t.workers[step.w]);
  }

  /** After notify_all, a run of worker steps in which jobs submit k more jobs is at most
      Work + 4 * k steps long ... */
  lemma {:induction false} JoinIsBounded(s: State, steps: seq<Step>, t: State)
    requires Inv(s) && s.shutdown.Joining? && Reaches(s, steps, t)
    requires forall i :: 0 <= i < |steps| ==> WorkerStep(steps[i])
    ensures |steps| + Work(t) <= Work(s) + 4 * Submissions(steps)
    ensures Inv(t) && t.shutdown.Joining?
    decreases |steps|
  {
    if steps != [] {
      WorkerStepWorks(s, steps[0]);
      StepKeepsInv(s, steps[0]);
      JoinIsBounded(Apply(s, steps[0]), steps[1..], t);
    }
  }

  /** ... and it can stop only when every worker has exited: until then some worker has a
      step to take that submits nothing. So join returns once the jobs stop submitting. */
  lemma JoinNeverStalls(threads: nat, steps: seq<Step>, s: State)
    requires Reaches(Init(threads), steps, s) && s.shutdown.Joining?
    requires exists w :: 0 <= w < |s.workers| && !s.workers[w].Exited?
    ensures exists step :: Enabled(s, step) && WorkerStep(step) && !step.SubmitFrom?
  {
    InvInit(threads);
    RunKeepsInv(Init(threads), steps, s);
    CountWitness(s.workers, IsParked);
    var w :| 0 <= w < |s.workers| && !s.workers[w].Exited?;
    assert !Is(s.workers[w], IsParked);
    var step := if s.workers[w].Checking? then Check(w)
                else if s.workers[w].owes then NotifyFrom(w, 0) else Finish(w);
    assert Enabled(s, step);
  }
}
