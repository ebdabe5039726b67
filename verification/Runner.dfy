/**
 The repair loop of Runner::run_task in src/eval/runner.cpp. How source is found in a reply, what
 compiling and testing it gives, and how results are put into words are arbitrary functions.
 */
module Repairs {
  import opened Conversations
  import opened Retry
  import opened Types
  import opened Wrappers

  datatype Verdict = Pass | CompileError | TestFailure | Timeout | Crash | NoCode | ApiError | HarnessError

  datatype Try = Try(round: nat, outcome: Verdict, detail: string)

  // What Runner::evaluate can report.
  type Tested = v: Verdict | !v.NoCode? && !v.ApiError? witness Pass

  datatype Evaluation = Evaluation(outcome: Tested, detail: string)

  datatype Harness = Harness(
    repairRounds: nat,
    prompt: string,
    extract: string -> Option<string>,
    evaluate: (string, nat) -> Evaluation,
    apiDetail: Error -> string,
    noCodeDetail: GenerateResponse -> string,
    repair: Try -> string)

  // The session that run_task opens: no tools, and the default number of tool rounds.
  function ChatOptions(systemPrompt: string): Options {
    Options(Some(systemPrompt), 8, None)
  }

  function TextOf(r: GenerateResponse): string {
    if r.candidates == [] then "" else ContentText(r.candidates[0].content.parts)
  }

  // What a round makes of the model's reply.
  function TryOf(h: Harness, round: nat, reply: Reply): Try {
    match reply
    case Failure(e) => Try(round, ApiError, h.apiDetail(e))
    case Success(r) =>
      match h.extract(TextOf(r))
      case None => Try(round, NoCode, h.noCodeDetail(r))
      case Some(source) =>
        var e := h.evaluate(source, round);
        Try(round, e.outcome, e.detail)
  }

  // Nothing is repaired after these.
  predicate Final(outcome: Verdict) {
    outcome.Pass? || outcome.HarnessError? || outcome.ApiError?
  }

  // What the loop uses of its chat session.
  type Sends = (Session, string) -> (Session, Reply)

  // The loop, from some round on: the session it leaves and the attempts it adds.
  function Repair(h: Harness, send: Sends, s: Session, message: string, round: nat): (Session, seq<Try>)
    decreases h.repairRounds + 1 - round
  {
    if round > h.repairRounds then (s, [])
    else
      var (t, reply) := send(s, message);
      var a := TryOf(h, round, reply);
      if Final(a.outcome) then (t, [a])
      else
        var (u, rest) := Repair(h, send, t, h.repair(a), round + 1);
        (u, [a] + rest)
  }

  function SendsOf(o: Options, script: Script): Sends {
    (s: Session, message: string) => Send(o, script, s, message)
  }

  // A send without tools: one request, which repeats the history and adds the message.
  predicate OneTurn(script: Script, s: Session, message: string, t: Session, reply: Reply) {
    && |t.requests| == |s.requests| + 1 && s.requests <= t.requests
    && t.requests[|s.requests|].contents == s.history + [UserText(message)]
    && reply == Concluded(script(|s.requests|))
    && (reply.Success? ==>
          && reply.value.candidates != []
          && t.history == s.history + [UserText(message), ModelTurn(reply.value)])
  }

  ghost predicate TurnByTurn(send: Sends, script: Script) {
    forall s, message :: OneTurn(script, s, message, send(s, message).0, send(s, message).1)
  }

  lemma SendsTurnByTurn(o: Options, script: Script)
    requires o.tools.None? && o.maxToolRounds >= 0
    ensures TurnByTurn(SendsOf(o, script), script)
  {
    hide Send;
    forall s, message
      ensures OneTurn(script, s, message, Send(o, script, s, message).0, Send(o, script, s, message).1)
    {
      SendWithoutTools(o, script, s, message);
    }
  }

  // At the start of a round: every earlier round has made a request, and has added two turns.
  predicate AtRound(s: Session, round: nat) {
    |s.requests| == round && |s.history| == 2 * round
  }

  // The request of round i + 1 repeats the one of round i, and adds the model's reply to that and
  // the report of the failure.
  predicate Continues(h: Harness, script: Script, earlier: Request, later: Request, i: nat, a: Try) {
    && script(i).Success? && script(i).value.candidates != []
    && later.contents == earlier.contents + [ModelTurn(script(i).value), UserText(h.repair(a))]
  }

  /** Only the last attempt can be final, and repairing stops early only after a final one. */
  lemma {:induction false} RepairShape(h: Harness, send: Sends, s: Session, message: string, round: nat)
    requires round <= h.repairRounds
    ensures var tries := Repair(h, send, s, message, round).1;
      && 1 <= |tries| <= h.repairRounds + 1 - round
      && (forall k :: 0 <= k < |tries| - 1 ==> !Final(tries[k].outcome))
      && (|tries| <= h.repairRounds - round ==> Final(tries[|tries| - 1].outcome))
    decreases h.repairRounds - round
  {
    var (t, reply) := send(s, message);
    var a := TryOf(h, round, reply);
    if !Final(a.outcome) && round < h.repairRounds {
      RepairShape(h, send, t, h.repair(a), round + 1);
    }
  }

  lemma NextRound(h: Harness, script: Script, send: Sends, s: Session, message: string, round: nat)
    requires TurnByTurn(send, script) && AtRound(s, round)
    ensures var (t, reply) := send(s, message);
      && OneTurn(script, s, message, t, reply)
      && (!Final(TryOf(h, round, reply).outcome) ==> AtRound(t, round + 1))
  {
  }

  // The attempts from some round on judge the answers to the requests from there on.
  ghost predicate Judged(h: Harness, script: Script, tries: seq<Try>, round: nat) {
    forall k :: 0 <= k < |tries| ==> tries[k] == TryOf(h, round + k, Concluded(script(round + k)))
  }

  lemma JudgedMore(h: Harness, script: Script, a: Try, rest: seq<Try>, round: nat)
    requires a == TryOf(h, round, Concluded(script(round))) && Judged(h, script, rest, round + 1)
    ensures Judged(h, script, [a] + rest, round)
  {
    var tries := [a] + rest;
    forall k | 0 <= k < |tries|
      ensures tries[k] == TryOf(h, round + k, Concluded(script(round + k)))
    {
      if k > 0 {
        assert tries[k] == rest[k - 1] == TryOf(h, round + 1 + (k - 1), Concluded(script(round + 1 + (k - 1))));
      }
    }
  }

  /** There is one request per attempt, and attempt k judges the model's answer to request k. */
  lemma {:induction false} RepairTries(h: Harness, script: Script, send: Sends, s: Session, message: string, round: nat)
    requires TurnByTurn(send, script) && AtRound(s, round)
    ensures var (t, tries) := Repair(h, send, s, message, round);
      && s.requests <= t.requests && |t.requests| == round + |tries|
      && Judged(h, script, tries, round)
    decreases h.repairRounds + 1 - round
  {
    hide TryOf, TurnByTurn, Judged;
    if round > h.repairRounds {
      NothingJudged(h, script, round);
    } else {
      NextRound(h, script, send, s, message, round);
      var (t, reply) := send(s, message);
      var a := TryOf(h, round, reply);
      NothingJudged(h, script, round + 1);
      JudgedMore(h, script, a, [], round);
      assert [a] + [] == [a];
      if !Final(a.outcome) {
        RepairTries(h, script, send, t, h.repair(a), round + 1);
        JudgedMore(h, script, a, Repair(h, send, t, h.repair(a), round + 1).1, round);
      }
    }
  }

  lemma NothingJudged(h: Harness, script: Script, round: nat)
    ensures Judged(h, script, [], round)
  {
  }

  lemma FirstRequest(h: Harness, script: Script, send: Sends, s: Session, message: string, round: nat)
    requires TurnByTurn(send, script) && AtRound(s, round) && round <= h.repairRounds
    ensures var t := Repair(h, send, s, message, round).0;
      |t.requests| > round && t.requests[round].contents == s.history + [UserText(message)]
  {
    NextRound(h, script, send, s, message, round);
    var (t, reply) := send(s, message);
    var a := TryOf(h, round, reply);
    if !Final(a.outcome) {
      RepairTries(h, script, send, t, h.repair(a), round + 1);
    }
  }

  /** Request number i has 2i + 1 turns, and each request continues the one before. */
  lemma {:induction false} RepairRequests(h: Harness, script: Script, send: Sends, s: Session, message: string,
                                          round: nat, i: nat)
    requires TurnByTurn(send, script) && AtRound(s, round) && round <= i
    ensures var (t, tries) := Repair(h, send, s, message, round);
      && |t.requests| == round + |tries|
      && (i < |t.requests| ==> |t.requests[i].contents| == 2 * i + 1)
      && (i < |t.requests| - 1 ==> Continues(h, script, t.requests[i], t.requests[i + 1], i, tries[i - round]))
    decreases h.repairRounds + 1 - round
  {
    hide TryOf, TurnByTurn, Judged;
    RepairTries(h, script, send, s, message, round);
    if round <= h.repairRounds {
      FirstRequest(h, script, send, s, message, round);
      NextRound(h, script, send, s, message, round);
      var (t, reply) := send(s, message);
      var a := TryOf(h, round, reply);
      if !Final(a.outcome) {
        if i == round {
          if round < h.repairRounds {
            FirstRequest(h, script, send, t, h.repair(a), round + 1);
            NotFinal(h, round, reply);
            SecondRequest(script, s, message, t, reply, h.repair(a));
          }
        } else {
          RepairRequests(h, script, send, t, h.repair(a), round + 1, i);
        }
      }
    }
  }

  lemma NotFinal(h: Harness, round: nat, reply: Reply)
    ensures !Final(TryOf(h, round, reply).outcome) ==> reply.Success?
  {
  }

  lemma SecondRequest(script: Script, s: Session, message: string, t: Session, reply: Reply, next: string)
    requires OneTurn(script, s, message, t, reply) && reply.Success?
    ensures t.history + [UserText(next)] == (s.history + [UserText(message)]) + [ModelTurn(reply.value), UserText(next)]
  {
  }
}

/**
 Runner::run_task.
 */
module TaskRunner {
  import opened Conversations
  import opened Repairs
  import opened Types
  import opened Wrappers

  import Chat

  datatype TaskResult = TaskResult(outcome: Verdict, attempts: seq<Try>, usage: Usage)

  // What run_task finds: whether its files can be written, whether it is to test the reference
  // and whether there is one, and whether there is a client.
  datatype Setup = Setup(prepared: bool, useReference: bool, reference: Option<string>, hasClient: bool)

  predicate AsksModel(setup: Setup) {
    setup.prepared && !setup.useReference && setup.hasClient
  }

  // Every attempt but the last has failed in a way that can be repaired.
  predicate Repaired(tries: seq<Try>) {
    && tries != []
    && (forall k :: 0 <= k < |tries| ==> tries[k].round == k)
    && forall k :: 0 <= k < |tries| - 1 ==> !Final(tries[k].outcome)
  }

  // The requests are one growing conversation, in which each failure but the last is reported.
  predicate OneConversation(h: Harness, script: Script, requests: seq<Request>, tries: seq<Try>) {
    && |requests| == |tries|
    && (forall i :: 0 <= i < |requests| ==> |requests[i].contents| == 2 * i + 1)
    && (requests != [] ==> requests[0].contents == [UserText(h.prompt)])
    && forall i :: 0 <= i < |requests| - 1 ==> Continues(h, script, requests[i], requests[i + 1], i, tries[i])
  }

  /** The result of a task is that of its last attempt, the only one that can be final. */
  method RunTask(setup: Setup, h: Harness, systemPrompt: string, script: Script)
    returns (result: TaskResult, requests: seq<Request>)
    ensures Repaired(result.attempts)
    ensures result.outcome == result.attempts[|result.attempts| - 1].outcome
    ensures AsksModel(setup) ==>
              && |result.attempts| <= h.repairRounds + 1
              && (Final(result.outcome) || |result.attempts| == h.repairRounds + 1)
              && (forall k :: 0 <= k < |result.attempts| ==> result.attempts[k] == TryOf(h, k, Concluded(script(k))))
              && result.usage == Used(script, 0, |requests|)
    ensures AsksModel(setup) ==> OneConversation(h, script, requests, result.attempts)
    ensures !AsksModel(setup) ==> requests == [] && result.usage == NO_USAGE && |result.attempts| == 1
    ensures !setup.prepared ==>
              result.attempts == [Try(0, HarnessError, "cannot prepare the working directory")]
    ensures setup.prepared && setup.useReference ==>
              match setup.reference
              case None => result.attempts == [Try(0, HarnessError, "task has no reference.hpp")]
              case Some(source) =>
                var e := h.evaluate(source, 0); result.attempts == [Try(0, e.outcome, e.detail)]
    ensures setup.prepared && !setup.useReference && !setup.hasClient ==>
              result.attempts == [Try(0, HarnessError, "no model client configured")]
  {
    var attempts: seq<Try>;
    var usage := NO_USAGE;
    requests := [];
    if !setup.prepared {
      attempts := [Try(0, HarnessError, "cannot prepare the working directory")];
    } else if setup.useReference {
      if setup.reference.None? {
        attempts := [Try(0, HarnessError, "task has no reference.hpp")];
      } else {
        var e := h.evaluate(setup.reference.value, 0);
        attempts := [Try(0, e.outcome, e.detail)];
      }
    } else if !setup.hasClient {
      attempts := [Try(0, HarnessError, "no model client configured")];
    } else {
      attempts, usage, requests := RepairLoop(h, systemPrompt, script);
    }
    result := TaskResult(attempts[|attempts| - 1].outcome, attempts, usage);
  }

  // The loop, in terms of what a send does.
  method RepairLoop(h: Harness, systemPrompt: string, script: Script)
    returns (attempts: seq<Try>, usage: Usage, requests: seq<Request>)
    ensures Repaired(attempts) && |attempts| <= h.repairRounds + 1
    ensures Final(attempts[|attempts| - 1].outcome) || |attempts| == h.repairRounds + 1
    ensures forall k :: 0 <= k < |attempts| ==> attempts[k] == TryOf(h, k, Concluded(script(k)))
    ensures OneConversation(h, script, requests, attempts)
    ensures usage == Used(script, 0, |requests|)
  {
    ghost var send := SendsOf(ChatOptions(systemPrompt), script);
    SendsTurnByTurn(ChatOptions(systemPrompt), script);
    RepairSummary(h, send, script);
    var chat := new Chat.ChatSession(ChatOptions(systemPrompt), script);
    attempts := RepairWith(h, chat);
    usage, requests := chat.usage, chat.requests;
  }

  method RepairWith(h: Harness, chat: Chat.ChatSession) returns (attempts: seq<Try>)
    requires chat.State() == NEW
    modifies chat
    ensures var (t, tries) := Repair(h, SendsOf(chat.options, chat.script), NEW, h.prompt, 0);
      chat.State() == t && attempts == tries
    ensures chat.usage == Used(chat.script, 0, |chat.requests|)
  {
    var message := h.prompt;
    attempts := [];
    ghost var send := SendsOf(chat.options, chat.script);
    ghost var goal := Repair(h, send, chat.State(), message, 0);
    ghost var left := goal;
    Begins(goal);
    hide Repair, TryOf, Used, Send, Leaves, LeftAfter;
    var round := 0;
    while round <= h.repairRounds
      invariant left == Repair(h, send, chat.State(), message, round)
      invariant Leaves(goal, attempts, left)
      invariant chat.usage == Used(chat.script, 0, |chat.requests|)
      decreases h.repairRounds + 1 - round
    {
      ghost var s := chat.State();
      var reply := SendNext(chat, message, send);
      OneMoreTry(h, send, goal, attempts, s, message, round);
      LeftIs(h, send, chat.State(), reply, round);
      left := LeftAfter(h, send, chat.State(), reply, round);
      var attempt := TryOf(h, round, reply);
      attempts := attempts + [attempt];
      if Final(attempt.outcome) {
        break;
      }
      message := h.repair(attempt);
      round := round + 1;
    }
    if round > h.repairRounds {
      NoneLeft(h, send, chat.State(), message, round);
    }
    NothingLeft(goal, attempts, left);
  }

  method SendNext(chat: Chat.ChatSession, message: string, ghost send: Sends) returns (reply: Reply)
    requires send == SendsOf(chat.options, chat.script)
    requires chat.usage == Used(chat.script, 0, |chat.requests|)
    modifies chat
    ensures (chat.State(), reply) == send(old(chat.State()), message)
    ensures chat.usage == Used(chat.script, 0, |chat.requests|)
  {
    UsedSoFar(chat.options, chat.script, chat.State(), message);
    reply := chat.Send(message);
  }

  // The loop began with `goal` ahead of it, has made some attempts and has `left` ahead of it.
  predicate Leaves(goal: (Session, seq<Try>), attempts: seq<Try>, left: (Session, seq<Try>)) {
    goal.0 == left.0 && goal.1 == attempts + left.1
  }

  lemma Begins(goal: (Session, seq<Try>))
    ensures Leaves(goal, [], goal)
  {
  }

  function LeftAfter(h: Harness, send: Sends, t: Session, reply: Reply, round: nat): (Session, seq<Try>) {
    var a := TryOf(h, round, reply);
    if Final(a.outcome) then (t, []) else Repair(h, send, t, h.repair(a), round + 1)
  }

  lemma LeftIs(h: Harness, send: Sends, t: Session, reply: Reply, round: nat)
    ensures var a := TryOf(h, round, reply);
      LeftAfter(h, send, t, reply, round)
      == if Final(a.outcome) then (t, []) else Repair(h, send, t, h.repair(a), round + 1)
  {
  }

  lemma NoneLeft(h: Harness, send: Sends, s: Session, message: string, round: nat)
    requires round > h.repairRounds
    ensures Repair(h, send, s, message, round) == (s, [])
  {
  }

  lemma OneMoreTry(h: Harness, send: Sends, goal: (Session, seq<Try>), attempts: seq<Try>, s: Session,
                   message: string, round: nat)
    requires Leaves(goal, attempts, Repair(h, send, s, message, round)) && round <= h.repairRounds
    ensures var (t, reply) := send(s, message);
      Leaves(goal, attempts + [TryOf(h, round, reply)], LeftAfter(h, send, t, reply, round))
  {
  }

  lemma NothingLeft(goal: (Session, seq<Try>), attempts: seq<Try>, left: (Session, seq<Try>))
    requires Leaves(goal, attempts, left) && left.1 == []
    ensures goal.0 == left.0 && goal.1 == attempts
  {
  }

  lemma UsedSoFar(o: Options, script: Script, s: Session, message: string)
    requires s.usage == Used(script, 0, |s.requests|)
    ensures var t := Send(o, script, s, message).0; t.usage == Used(script, 0, |t.requests|)
  {
    UsageIsNotRolledBack(o, script, s, message);
    UsedDivides(script, 0, |s.requests|, |Send(o, script, s, message).0.requests|);
  }

  /** The whole repair loop, from a new session. */
  lemma RepairSummary(h: Harness, send: Sends, script: Script)
    requires TurnByTurn(send, script)
    ensures var (t, tries) := Repair(h, send, NEW, h.prompt, 0);
      && Repaired(tries) && |tries| <= h.repairRounds + 1
      && (Final(tries[|tries| - 1].outcome) || |tries| == h.repairRounds + 1)
      && (forall k :: 0 <= k < |tries| ==> tries[k] == TryOf(h, k, Concluded(script(k))))
      && OneConversation(h, script, t.requests, tries)
  {
    var (t, tries) := Repair(h, send, NEW, h.prompt, 0);
    RepairShape(h, send, NEW, h.prompt, 0);
    RepairTries(h, script, send, NEW, h.prompt, 0);
    WholeConversation(h, script, send, NEW, t, tries, 0);
  }

  lemma WholeConversation(h: Harness, script: Script, send: Sends, s: Session, t: Session, tries: seq<Try>, round: nat)
    requires TurnByTurn(send, script) && round == 0 && s.history == [] && s.requests == []
    requires (t, tries) == Repair(h, send, s, h.prompt, round)
    ensures OneConversation(h, script, t.requests, tries)
  {
    FirstRequest(h, script, send, s, h.prompt, round);
    RepairRequests(h, script, send, s, h.prompt, round, 0);
    forall i | 0 <= i < |t.requests|
      ensures |t.requests[i].contents| == 2 * i + 1
      ensures i < |t.requests| - 1 ==> Continues(h, script, t.requests[i], t.requests[i + 1], i, tries[i])
    {
      RepairRequests(h, script, send, s, h.prompt, round, i);
    }
  }
}
