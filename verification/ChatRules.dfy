/**
 What tools, chat sessions and the repair loop say and answer, written out: the texts, the roles and the
 parts of every turn, and the codes of every failure.
 */
module ChatRules {
  import opened Conversations
  import opened Retry
  import opened Tools
  import opened Types
  import opened Wrappers

  // Tools

  lemma {:induction false} LookupAt(tools: seq<Tool>, name: string, k: nat)
    requires k < |tools| && tools[k].name == name && forall i :: 0 <= i < k ==> tools[i].name != name
    ensures Lookup(tools, name) == Some(tools[k])
  {
    if k > 0 {
      LookupAt(tools[1..], name, k - 1);
    }
  }

  /** A call is answered by the first tool of its name: with the object that the tool gives, or with any
      other value as "result", or with its error or exception as "error". */
  lemma ToolAnswers(tools: seq<Tool>, call: FunctionCall, k: nat)
    requires k < |tools| && tools[k].name == call.name && forall i :: 0 <= i < k ==> tools[i].name != call.name
    ensures var r, a := Invoked(tools, call), tools[k].handler(call.args);
      && r.name == call.name && r.id == call.id
      && (a.Gave? && a.value.Object? ==> r.response == a.value)
      && (a.Gave? && a.value.Scalar? ==> r.response == Object(map["result" := a.value.text]))
      && (a.Refused? ==> r.response == Object(map["error" := a.message]))
      && (a.Threw? ==> r.response == Object(map["error" := "tool threw: " + a.what]))
  {
    LookupAt(tools, call.name, k);
  }

  lemma UnknownTool(tools: seq<Tool>, call: FunctionCall)
    requires forall i :: 0 <= i < |tools| ==> tools[i].name != call.name
    ensures Invoked(tools, call) ==
            FunctionResponse(call.name, Object(map["error" := "unknown function: " + call.name]), call.id)
  {
    LookupIsFirst(tools, call.name);
  }

  // Requests

  // A request as it is built from the options: with the instruction as a turn of the user, and with the
  // names of the tools in their order.
  predicate IsBuilt(o: Options, r: Request) {
    && r.systemInstruction == (match o.systemInstruction
                               case None => None
                               case Some(text) => Some(Content(User, [Part(Text(text), false, "")])))
    && (o.tools.None? ==> r.tools == [])
    && (o.tools.Some? ==> |r.tools| == |o.tools.value|)
    && (o.tools.Some? ==> forall i :: 0 <= i < |r.tools| ==> r.tools[i] == o.tools.value[i].name)
  }

  // The turn that answers calls: one response for each, in order.
  predicate IsAnswer(o: Options, calls: seq<FunctionCall>, turn: Content) {
    && o.tools.Some? && turn.role == User && |turn.parts| == |calls|
    && forall k :: 0 <= k < |calls| ==>
         turn.parts[k] == Part(Response(Invoked(o.tools.value, calls[k])), false, "")
  }

  // After `earlier` and its answer r, which calls tools, comes `later`.
  ghost predicate Follows(o: Options, earlier: seq<Content>, r: Reply, later: seq<Content>) {
    && r.Success? && r.value.candidates != [] && Calls(r.value.candidates[0].content.parts) != []
    && exists answer ::
         && later == earlier + [Content(Model, r.value.candidates[0].content.parts), answer]
         && IsAnswer(o, Calls(r.value.candidates[0].content.parts), answer)
  }

  ghost predicate IsDialogue(o: Options, script: Script, first: seq<Content>, from: nat, requests: seq<Request>) {
    && from <= |requests|
    && (forall i :: from <= i < |requests| ==> IsBuilt(o, requests[i]))
    && (from < |requests| ==> requests[from].contents == first)
    && forall i :: from <= i && i + 1 < |requests| ==>
         Follows(o, requests[i].contents, script(i), requests[i + 1].contents)
  }

  lemma BuiltIs(o: Options, history: seq<Content>)
    ensures IsBuilt(o, BuildRequest(o, history)) && BuildRequest(o, history).contents == history
  {
  }

  lemma ToolRoundFollows(o: Options, s: Session, r: Reply)
    requires WantsTools(o, r)
    ensures Follows(o, s.history, r, ToolsRun(o, Asked(o, s, r), r).history)
  {
    var parts := r.value.candidates[0].content.parts;
    var answer := Content(User, Responses(o.tools.value, Calls(parts)));
    assert ToolsRun(o, Asked(o, s, r), r).history == s.history + [Content(Model, parts), answer];
    assert IsAnswer(o, Calls(parts), answer);
  }

  lemma {:induction false} RoundsAreDialogue(o: Options, script: Script, s: Session, round: nat)
    ensures var (t, reply) := Rounds(o, script, s, round);
      IsDialogue(o, script, s.history, |s.requests|, t.requests)
    decreases o.maxToolRounds - round
  {
    hide IsBuilt, Follows, BuildRequest, Asked, WantsTools, Concluded;
    if round <= o.maxToolRounds {
      var r, t := script(|s.requests|), Rounds(o, script, s, round).0;
      BuiltIs(o, s.history);
      AskedOnce(o, s, r);
      if WantsTools(o, r) {
        var u := ToolsRun(o, Asked(o, s, r), r);
        ToolRoundFollows(o, s, r);
        RoundsAreDialogue(o, script, u, round + 1);
        RoundsOnlyAppend(o, script, u, round + 1);
        if round + 1 <= o.maxToolRounds {
          OneMore(o, script, s, u, t);
        }
      }
    }
  }

  lemma AskedOnce(o: Options, s: Session, r: Reply)
    ensures Asked(o, s, r).requests == s.requests + [BuildRequest(o, s.history)]
  {
  }

  lemma OneMore(o: Options, script: Script, s: Session, u: Session, t: Session)
    requires u.requests == s.requests + [BuildRequest(o, s.history)] && u.requests <= t.requests
    requires Follows(o, s.history, script(|s.requests|), u.history)
    requires IsDialogue(o, script, u.history, |u.requests|, t.requests)
    ensures IsDialogue(o, script, s.history, |s.requests|, t.requests)
  {
    hide IsBuilt, Follows, BuildRequest;
    BuiltIs(o, s.history);
    assert t.requests[|s.requests|] == u.requests[|s.requests|] == BuildRequest(o, s.history);
  }

  /** The requests of a send: the first ends with the message, and each later one repeats the one before
      and adds the model's turn and the answers to its calls. */
  lemma SendIsDialogue(o: Options, script: Script, s: Session, message: string)
    ensures IsDialogue(o, script, s.history + [Content(User, [Part(Text(message), false, "")])], |s.requests|,
                       Send(o, script, s, message).0.requests)
  {
    RoundsAreDialogue(o, script, s.(history := s.history + [UserText(message)]), 0);
  }

  // Replies

  // What a send returns for the last answer it received.
  predicate IsReply(o: Options, last: Reply, reply: Reply) {
    match last
    case Failure(e) => reply == Failure(e)
    case Success(r) =>
      if r.candidates == [] then reply == Failure(Error(Parse, "response has no candidates", None))
      else if o.tools.Some? && Calls(r.candidates[0].content.parts) != [] then
        reply == Failure(Error(InvalidArgument, "model exceeded max_tool_rounds without answering", None))
      else reply == Success(r)
  }

  // How rounds end in state t with a reply.
  predicate Replies(o: Options, script: Script, t: Session, reply: Reply) {
    && t.requests != []
    && IsReply(o, script(|t.requests| - 1), reply)
    && (reply.Success? ==>
          t.history == t.requests[|t.requests| - 1].contents +
                       [Content(Model, reply.value.candidates[0].content.parts)])
  }

  lemma RoundsUnfold(o: Options, script: Script, s: Session, round: nat)
    ensures round > o.maxToolRounds ==> Rounds(o, script, s, round) == (s, Failure(TOO_MANY_ROUNDS))
    ensures round <= o.maxToolRounds ==>
              var r := script(|s.requests|);
              var t := Asked(o, s, r);
              Rounds(o, script, s, round) ==
              if WantsTools(o, r) then Rounds(o, script, ToolsRun(o, t, r), round + 1) else (t, Concluded(r))
  {
    hide Asked, Concluded, WantsTools, ToolsRun;
  }

  lemma LastReplies(o: Options, script: Script, s: Session)
    requires !WantsTools(o, script(|s.requests|))
    ensures var r := script(|s.requests|); Replies(o, script, Asked(o, s, r), Concluded(r))
  {
  }

  lemma NoReply(o: Options, script: Script, s: Session)
    requires WantsTools(o, script(|s.requests|))
    ensures var r := script(|s.requests|);
      Replies(o, script, ToolsRun(o, Asked(o, s, r), r), Failure(TOO_MANY_ROUNDS))
  {
  }

  lemma {:induction false} RoundsReply(o: Options, script: Script, s: Session, round: nat)
    requires round <= o.maxToolRounds
    ensures var (t, reply) := Rounds(o, script, s, round);
      |s.requests| < |t.requests| && Replies(o, script, t, reply)
    decreases o.maxToolRounds - round
  {
    hide Rounds, Replies, WantsTools, Concluded, BuildRequest;
    var r := script(|s.requests|);
    RoundsUnfold(o, script, s, round);
    if WantsTools(o, r) {
      var u := ToolsRun(o, Asked(o, s, r), r);
      RoundsUnfold(o, script, u, round + 1);
      NoReply(o, script, s);
      if round < o.maxToolRounds {
        RoundsReply(o, script, u, round + 1);
      }
    } else {
      LastReplies(o, script, s);
    }
  }

  /** A send answers with the last response, or with the error that this or its calls amount to; and the
      history then is the last request and the model's turn. */
  lemma SendReplies(o: Options, script: Script, s: Session, message: string)
    requires o.maxToolRounds >= 0
    ensures var (t, reply) := Send(o, script, s, message);
      && |s.requests| < |t.requests|
      && IsReply(o, script(|t.requests| - 1), reply)
      && (reply.Success? ==>
            t.history == t.requests[|t.requests| - 1].contents +
                         [Content(Model, reply.value.candidates[0].content.parts)])
  {
    hide Rounds, IsReply, BuildRequest;
    RoundsReply(o, script, s.(history := s.history + [UserText(message)]), 0);
  }

  /** A model that always calls tools is asked max_tool_rounds + 1 times. */
  lemma ToolRoundsRunOut(o: Options, script: Script, s: Session, message: string)
    requires o.maxToolRounds >= 0 && o.tools.Some?
    requires forall i :: script(i).Success? && script(i).value.candidates != []
                         && Calls(script(i).value.candidates[0].content.parts) != []
    ensures |Send(o, script, s, message).0.requests| == |s.requests| + o.maxToolRounds + 1
  {
    hide Rounds, IsReply;
    SendEnds(o, script, s, message);
    assert forall i :: WantsTools(o, script(i));
  }

  /** One answer is added to the usage field by field. */
  lemma PlainSendCounts(o: Options, script: Script, s: Session, message: string)
    requires o.tools.None? && o.maxToolRounds >= 0 && script(|s.requests|).Success?
    ensures var u, t := script(|s.requests|).value.usage, Send(o, script, s, message).0;
      && |t.requests| == |s.requests| + 1
      && t.usage.prompt == s.usage.prompt + u.prompt && t.usage.candidates == s.usage.candidates + u.candidates
      && t.usage.thoughts == s.usage.thoughts + u.thoughts && t.usage.total == s.usage.total + u.total
  {
  }
}

/**
 What an attempt of the repair loop is judged to be.
 */
module RepairRules {
  import opened Conversations
  import opened Repairs
  import opened Types
  import opened Wrappers

  predicate CanBeRepaired(v: Verdict) {
    v == CompileError || v == TestFailure || v == Verdict.Timeout || v == Crash || v == NoCode
  }

  // Attempt number `round` and the answer it judges.
  predicate IsJudged(h: Harness, round: nat, answer: Reply, a: Try) {
    match answer
    case Failure(e) => a == Try(round, ApiError, h.apiDetail(e))
    case Success(r) =>
      r.candidates != [] &&
      match h.extract(ContentText(r.candidates[0].content.parts))
      case None => a == Try(round, NoCode, h.noCodeDetail(r))
      case Some(source) =>
        var e := h.evaluate(source, round);
        a.round == round && a.outcome == e.outcome && a.detail == e.detail
  }

  lemma TryIsJudged(h: Harness, round: nat, answer: Reply)
    requires answer.Success? ==> answer.value.candidates != []
    ensures IsJudged(h, round, answer, TryOf(h, round, answer))
  {
  }

  /** The attempts of the whole loop: number k judges answer k; all but the last can be repaired, and so can
      the last when no rounds are left, and otherwise it passes or is an error of the harness or the client. */
  lemma AttemptsAre(h: Harness, script: Script, send: Sends)
    requires TurnByTurn(send, script)
    ensures var (t, tries) := Repair(h, send, NEW, h.prompt, 0);
      && 1 <= |tries| <= h.repairRounds + 1
      && (forall k :: 0 <= k < |tries| ==> IsJudged(h, k, Concluded(script(k)), tries[k]))
      && (forall k :: 0 <= k < |tries| - 1 ==> CanBeRepaired(tries[k].outcome))
      && (|tries| <= h.repairRounds ==>
            var v := tries[|tries| - 1].outcome; v == Pass || v == HarnessError || v == ApiError)
  {
    hide IsJudged, CanBeRepaired, Repair, TryOf, Final, Judged;
    RepairShape(h, send, NEW, h.prompt, 0);
    RepairTries(h, script, send, NEW, h.prompt, 0);
    var tries := Repair(h, send, NEW, h.prompt, 0).1;
    forall k | 0 <= k < |tries|
      ensures IsJudged(h, k, Concluded(script(k)), tries[k])
      ensures k < |tries| - 1 ==> CanBeRepaired(tries[k].outcome)
    {
      JudgedAt(h, script, tries, k);
      TryIsJudged(h, k, Concluded(script(k)));
      FinalIs(tries[k].outcome);
    }
    FinalIs(tries[|tries| - 1].outcome);
  }

  /** Every request of the repair loop carries the system prompt and no tools. */
  lemma {:induction false} RequestsCarryPrompt(h: Harness, systemPrompt: string, script: Script, s: Session,
                                               message: string, round: nat, i: nat)
    ensures var t := Repair(h, SendsOf(ChatOptions(systemPrompt), script), s, message, round).0;
      |s.requests| <= i < |t.requests| ==>
        && t.requests[i].systemInstruction == Some(Content(User, [Part(Text(systemPrompt), false, "")]))
        && t.requests[i].tools == []
    ensures var t := Repair(h, SendsOf(ChatOptions(systemPrompt), script), s, message, round).0;
      s.requests <= t.requests
    decreases h.repairRounds + 1 - round
  {
    hide Send, TryOf, Final;
    if round <= h.repairRounds {
      var (t, reply) := Send(ChatOptions(systemPrompt), script, s, message);
      OneRequest(systemPrompt, script, s, message);
      var a := TryOf(h, round, reply);
      if !Final(a.outcome) {
        RequestsCarryPrompt(h, systemPrompt, script, t, h.repair(a), round + 1, i);
      }
    }
  }

  lemma OneRequest(systemPrompt: string, script: Script, s: Session, message: string)
    ensures var t := Send(ChatOptions(systemPrompt), script, s, message).0;
      && |t.requests| == |s.requests| + 1 && s.requests <= t.requests
      && t.requests[|s.requests|].systemInstruction == Some(Content(User, [Part(Text(systemPrompt), false, "")]))
      && t.requests[|s.requests|].tools == []
  {
    SendWithoutTools(ChatOptions(systemPrompt), script, s, message);
  }

  lemma JudgedAt(h: Harness, script: Script, tries: seq<Try>, k: nat)
    requires Judged(h, script, tries, 0) && k < |tries|
    ensures tries[k] == TryOf(h, k, Concluded(script(k)))
  {
    hide TryOf, Concluded;
    assert tries[k] == TryOf(h, 0 + k, Concluded(script(0 + k)));
  }

  lemma FinalIs(v: Verdict)
    ensures Final(v) <==> v == Pass || v == HarnessError || v == ApiError
    ensures Final(v) <==> !CanBeRepaired(v)
  {
  }
}
