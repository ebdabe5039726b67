/**
 ToolRegistry::invoke of src/tools.cpp.
 */
module Tools {
  import opened Types
  import opened Wrappers

  // What a handler does with its arguments: give a value, give an error, or throw.
  datatype Answer = Gave(value: Json) | Refused(message: string) | Threw(what: string)

  datatype Tool = Tool(name: string, handler: Json -> Answer)

  function Declarations(tools: seq<Tool>): seq<string> {
    seq(|tools|, i requires 0 <= i < |tools| => tools[i].name)
  }

  function Single(key: string, text: string): Json {
    Object(map[key := text])
  }

  // Results that are not objects are wrapped, and so are errors.
  function Wrapped(a: Answer): Json {
    match a
    case Gave(value) => if value.Object? then value else Single("result", value.text)
    case Refused(message) => Single("error", message)
    case Threw(what) => Single("error", "tool threw: " + what)
  }

  // The tool a call reaches: the first of that name.
  function Lookup(tools: seq<Tool>, name: string): Option<Tool> {
    if tools == [] then None else if tools[0].name == name then Some(tools[0]) else Lookup(tools[1..], name)
  }

  function Invoked(tools: seq<Tool>, call: FunctionCall): FunctionResponse {
    var response :=
      match Lookup(tools, call.name)
      case Some(tool) => Wrapped(tool.handler(call.args))
      case None => Single("error", "unknown function: " + call.name);
    FunctionResponse(call.name, response, call.id)
  }

  method Invoke(tools: seq<Tool>, call: FunctionCall) returns (r: FunctionResponse)
    ensures r.name == call.name && r.id == call.id && r.response.Object?
    ensures r == Invoked(tools, call)
  {
    for i := 0 to |tools|
      invariant Lookup(tools[i..], call.name) == Lookup(tools, call.name)
    {
      if tools[i].name == call.name {
        var answer := tools[i].handler(call.args);
        return FunctionResponse(call.name, Wrapped(answer), call.id);
      }
    }
    r := FunctionResponse(call.name, Single("error", "unknown function: " + call.name), call.id);
  }

  /** A call reaches the first tool of its name, and none exactly if no tool has that name. */
  lemma {:induction false} LookupIsFirst(tools: seq<Tool>, name: string)
    ensures Lookup(tools, name).None? <==> forall i :: 0 <= i < |tools| ==> tools[i].name != name
    ensures Lookup(tools, name).Some? ==>
              exists k :: 0 <= k < |tools| && tools[k] == Lookup(tools, name).value && tools[k].name == name
                          && forall i :: 0 <= i < k ==> tools[i].name != name
  {
    if tools != [] && tools[0].name != name {
      LookupIsFirst(tools[1..], name);
      if Lookup(tools[1..], name).Some? {
        var k :| 0 <= k < |tools[1..]| && tools[1..][k] == Lookup(tools, name).value && tools[1..][k].name == name
                 && forall i :: 0 <= i < k ==> tools[1..][i].name != name;
        assert tools[k + 1] == Lookup(tools, name).value;
        assert forall i :: 0 < i < k + 1 ==> tools[i] == tools[1..][i - 1];
      }
    }
  }
}

/**
 What a chat session does with a message, as functions of the session's state. The model on the
 other side of the client is arbitrary: it answers request number i of a session with script(i).
 */
module Conversations {
  import opened Retry
  import opened Tools
  import opened Types
  import opened Wrappers

  type Reply = Result<GenerateResponse, Error>

  type Script = nat -> Reply

  // tools is None for a session without a registry.
  datatype Options = Options(systemInstruction: Option<string>, maxToolRounds: int, tools: Option<seq<Tool>>)

  datatype Request = Request(contents: seq<Content>, systemInstruction: Option<Content>, tools: seq<string>)

  // requests are those sent so far.
  datatype Session = Session(history: seq<Content>, usage: Usage, requests: seq<Request>)

  const NEW := Session([], NO_USAGE, [])
  const NO_CANDIDATES := Error(Parse, "response has no candidates", None)
  const TOO_MANY_ROUNDS := Error(InvalidArgument, "model exceeded max_tool_rounds without answering", None)

  function UserText(text: string): Content {
    Content(User, [Part(Text(text), false, "")])
  }

  function BuildRequest(o: Options, history: seq<Content>): Request {
    Request(
      history,
      match o.systemInstruction case None => None case Some(text) => Some(UserText(text)),
      match o.tools case None => [] case Some(tools) => Declarations(tools))
  }

  function Responses(tools: seq<Tool>, calls: seq<FunctionCall>): seq<Part> {
    seq(|calls|, k requires 0 <= k < |calls| => Part(Response(Invoked(tools, calls[k])), false, ""))
  }

  function ModelTurn(r: GenerateResponse): Content
    requires r.candidates != []
  {
    r.candidates[0].content.(role := Model)
  }

  // A response that has the session run tools and ask again.
  predicate WantsTools(o: Options, r: Reply) {
    r.Success? && r.value.candidates != [] && o.tools.Some? && FunctionCalls(r.value) != []
  }

  // A response as the session returns it when no tools are to be run.
  function Concluded(r: Reply): Reply {
    if r.Success? && r.value.candidates == [] then Failure(NO_CANDIDATES) else r
  }

  // After one request and its response, before tools are run.
  function Asked(o: Options, s: Session, r: Reply): Session {
    Session(
      if r.Success? && r.value.candidates != [] then s.history + [ModelTurn(r.value)] else s.history,
      if r.Success? then AddUsage(s.usage, r.value.usage) else s.usage,
      s.requests + [BuildRequest(o, s.history)])
  }

  function ToolsRun(o: Options, s: Session, r: Reply): Session
    requires WantsTools(o, r)
  {
    s.(history := s.history + [Content(User, Responses(o.tools.value, FunctionCalls(r.value)))])
  }

  // The loop of `send`, from some round on.
  function Rounds(o: Options, script: Script, s: Session, round: nat): (Session, Reply)
    decreases o.maxToolRounds - round
  {
    if round > o.maxToolRounds then (s, Failure(TOO_MANY_ROUNDS))
    else
      var r := script(|s.requests|);
      var t := Asked(o, s, r);
      if WantsTools(o, r) then Rounds(o, script, ToolsRun(o, t, r), round + 1) else (t, Concluded(r))
  }

  function Send(o: Options, script: Script, s: Session, message: string): (Session, Reply) {
    var (t, reply) := Rounds(o, script, s.(history := s.history + [UserText(message)]), 0);
    (if reply.Failure? then t.(history := RolledBack(t.history, |s.history|)) else t, reply)
  }

  // Truncation to a checkpoint.
  function RolledBack(history: seq<Content>, checkpoint: nat): seq<Content> {
    if checkpoint <= |history| then history[..checkpoint] else history
  }

  // Turns take turns.
  predicate Alternates(history: seq<Content>) {
    forall i :: 0 <= i < |history| ==> (history[i].role.User? <==> i % 2 == 0)
  }

  // Each response answers the call in its place, by name and id, with what the tool gave.
  predicate Answers(o: Options, calls: seq<FunctionCall>, turn: Content) {
    && o.tools.Some? && |turn.parts| == |calls|
    && forall k :: 0 <= k < |calls| ==>
         && turn.parts[k].value.Response?
         && turn.parts[k].value.response.name == calls[k].name
         && turn.parts[k].value.response.id == calls[k].id
         && turn.parts[k].value.response == Invoked(o.tools.value, calls[k])
  }

  // Does turn i, if it is a model turn with calls, have its answers in the next turn?
  predicate AnsweredAt(o: Options, history: seq<Content>, i: nat)
    requires i < |history|
  {
    history[i].role.Model? && Calls(history[i].parts) != [] && o.tools.Some? ==>
      i + 1 < |history| && Answers(o, Calls(history[i].parts), history[i + 1])
  }

  predicate Answered(o: Options, history: seq<Content>) {
    forall i :: 0 <= i < |history| ==> AnsweredAt(o, history, i)
  }

  predicate WellFormed(o: Options, history: seq<Content>) {
    Alternates(history) && Answered(o, history) && |history| % 2 == 0
  }

  // Within a send: a well-formed history and a turn of the user.
  predicate Open(o: Options, history: seq<Content>) {
    Alternates(history) && Answered(o, history) && |history| % 2 == 1
  }

  // Adding a model turn, and its answers if it has calls.

  lemma AnsweredMore(o: Options, history: seq<Content>, turns: seq<Content>)
    requires Answered(o, history) && Alternates(history) && |history| % 2 == 1 && turns != []
    requires AnsweredAt(o, history + turns, |history|)
    requires |turns| <= 2 && (|turns| == 2 ==> turns[1].role.User?)
    ensures Answered(o, history + turns)
  {
    var h := history + turns;
    forall i | 0 <= i < |h|
      ensures AnsweredAt(o, h, i)
    {
      if i < |history| {
        assert AnsweredAt(o, history, i);
      }
    }
  }

  lemma ResponsesAnswer(o: Options, calls: seq<FunctionCall>)
    requires o.tools.Some?
    ensures Answers(o, calls, Content(User, Responses(o.tools.value, calls)))
  {
  }

  lemma TwoMoreTurns(o: Options, history: seq<Content>, turn: Content, answers: Content)
    requires Open(o, history) && turn.role.Model? && answers.role.User? && Answers(o, Calls(turn.parts), answers)
    ensures Open(o, history + [turn, answers])
  {
    assert (history + [turn, answers])[|history| + 1] == answers;
    AnsweredMore(o, history, [turn, answers]);
  }

  lemma ToolTurnKeepsOpen(o: Options, s: Session, r: Reply)
    requires Open(o, s.history) && WantsTools(o, r)
    ensures Open(o, ToolsRun(o, Asked(o, s, r), r).history)
  {
    var turn, calls := ModelTurn(r.value), FunctionCalls(r.value);
    var answers := Content(User, Responses(o.tools.value, calls));
    ResponsesAnswer(o, calls);
    TwoMoreTurns(o, s.history, turn, answers);
    assert ToolsRun(o, Asked(o, s, r), r).history == s.history + [turn, answers];
  }

  lemma LastTurnCloses(o: Options, s: Session, r: Reply)
    requires Open(o, s.history) && !WantsTools(o, r) && Concluded(r).Success?
    ensures WellFormed(o, Asked(o, s, r).history)
  {
    assert AnsweredAt(o, Asked(o, s, r).history, |s.history|);
    AnsweredMore(o, s.history, [ModelTurn(r.value)]);
  }

  lemma {:induction false} RoundsOnlyAppend(o: Options, script: Script, s: Session, round: nat)
    ensures s.history <= Rounds(o, script, s, round).0.history
    ensures s.requests <= Rounds(o, script, s, round).0.requests
    decreases o.maxToolRounds - round
  {
    if round <= o.maxToolRounds {
      var r := script(|s.requests|);
      if WantsTools(o, r) {
        RoundsOnlyAppend(o, script, ToolsRun(o, Asked(o, s, r), r), round + 1);
      }
    }
  }

  lemma {:induction false} RoundsKeepTurns(o: Options, script: Script, s: Session, round: nat)
    requires Open(o, s.history)
    ensures var (t, reply) := Rounds(o, script, s, round); reply.Success? ==> WellFormed(o, t.history)
    decreases o.maxToolRounds - round
  {
    if round <= o.maxToolRounds {
      var r := script(|s.requests|);
      if WantsTools(o, r) {
        ToolTurnKeepsOpen(o, s, r);
        RoundsKeepTurns(o, script, ToolsRun(o, Asked(o, s, r), r), round + 1);
      } else if Concluded(r).Success? {
        LastTurnCloses(o, s, r);
      }
    }
  }

  /** A failed send leaves the history as it was. */
  lemma FailedSendRestores(o: Options, script: Script, s: Session, message: string)
    ensures var (t, reply) := Send(o, script, s, message);
      if reply.Failure? then t.history == s.history else s.history + [UserText(message)] <= t.history
  {
    RoundsOnlyAppend(o, script, s.(history := s.history + [UserText(message)]), 0);
  }

  /** A send keeps the transcript well formed, whether it succeeds or fails. */
  lemma SendKeepsTurns(o: Options, script: Script, s: Session, message: string)
    requires WellFormed(o, s.history)
    ensures WellFormed(o, Send(o, script, s, message).0.history)
  {
    var h := s.history + [UserText(message)];
    FailedSendRestores(o, script, s, message);
    forall i | 0 <= i < |h|
      ensures AnsweredAt(o, h, i)
    {
      assert i < |s.history| ==> AnsweredAt(o, s.history, i);
    }
    RoundsKeepTurns(o, script, s.(history := h), 0);
  }

  datatype Action = Message(text: string) | Reset

  // A run of a session.
  function Run(o: Options, script: Script, actions: seq<Action>): Session {
    if actions == [] then NEW
    else
      var s := Run(o, script, actions[..|actions| - 1]);
      match actions[|actions| - 1]
      case Message(text) => Send(o, script, s, text).0
      case Reset => s.(history := [], usage := NO_USAGE)
  }

  /**
   After any run from a fresh session, user and model alternate, the last turn is the model's, and
   every model turn with calls is followed by responses that match them one for one.
   */
  lemma {:induction false} RunKeepsTurns(o: Options, script: Script, actions: seq<Action>)
    ensures WellFormed(o, Run(o, script, actions).history)
  {
    if actions != [] {
      RunKeepsTurns(o, script, actions[..|actions| - 1]);
      var s := Run(o, script, actions[..|actions| - 1]);
      if actions[|actions| - 1].Message? {
        SendKeepsTurns(o, script, s, actions[|actions| - 1].text);
      }
    }
  }

  /** A reset forgets the history and the usage and keeps the number of requests made. */
  lemma ResetForgets(o: Options, script: Script, actions: seq<Action>)
    ensures var s, t := Run(o, script, actions), Run(o, script, actions + [Reset]);
      t == Session([], Usage(0, 0, 0, 0), s.requests)
  {
    assert (actions + [Reset])[..|actions|] == actions;
  }

  function UsageOf(r: Reply): Usage {
    if r.Success? then r.value.usage else NO_USAGE
  }

  // What the responses numbered from..to used.
  function Used(script: Script, from: nat, to: nat): Usage
    decreases to - from
  {
    if from >= to then NO_USAGE else AddUsage(UsageOf(script(from)), Used(script, from + 1, to))
  }

  lemma UsedFirst(script: Script, from: nat, to: nat)
    requires from < to
    ensures Used(script, from, to) == AddUsage(UsageOf(script(from)), Used(script, from + 1, to))
  {
  }

  lemma UsedNone(script: Script, from: nat, u: Usage)
    ensures Used(script, from, from) == NO_USAGE && AddUsage(u, NO_USAGE) == u
  {
  }

  lemma AddUsageAssociates(a: Usage, b: Usage, c: Usage)
    ensures AddUsage(AddUsage(a, b), c) == AddUsage(a, AddUsage(b, c))
  {
  }

  // What is used from .. to is what is used before mid and what is used after it.
  predicate Divides(script: Script, from: nat, mid: nat, to: nat) {
    Used(script, from, to) == AddUsage(Used(script, from, mid), Used(script, mid, to))
  }

  lemma DividesAtStart(script: Script, from: nat, mid: nat, to: nat)
    requires from == mid <= to
    ensures Divides(script, from, mid, to)
  {
  }

  lemma DividesLater(script: Script, from: nat, mid: nat, to: nat)
    requires from < mid <= to && Divides(script, from + 1, mid, to)
    ensures Divides(script, from, mid, to)
  {
    hide Used, AddUsage, UsageOf;
    UsedFirst(script, from, mid);
    UsedFirst(script, from, to);
    AddUsageAssociates(UsageOf(script(from)), Used(script, from + 1, mid), Used(script, mid, to));
  }

  lemma {:induction false} UsedDivides(script: Script, from: nat, mid: nat, to: nat)
    requires from <= mid <= to
    ensures Divides(script, from, mid, to)
    decreases mid - from
  {
    hide Divides, Used;
    if from == mid {
      DividesAtStart(script, from, mid, to);
    } else {
      UsedDivides(script, from + 1, mid, to);
      DividesLater(script, from, mid, to);
    }
  }

  lemma AskedUses(o: Options, s: Session, r: Reply)
    ensures Asked(o, s, r).usage == AddUsage(s.usage, UsageOf(r)) && |Asked(o, s, r).requests| == |s.requests| + 1
  {
  }

  lemma {:induction false} RoundsCountUsage(o: Options, script: Script, s: Session, round: nat)
    ensures var t := Rounds(o, script, s, round).0;
      |s.requests| <= |t.requests| && t.usage == AddUsage(s.usage, Used(script, |s.requests|, |t.requests|))
    decreases o.maxToolRounds - round
  {
    hide Used, AddUsage, UsageOf, Asked, WantsTools, Concluded;
    var from := |s.requests|;
    if round > o.maxToolRounds {
      UsedNone(script, from, s.usage);
    } else {
      var r, to := script(from), |Rounds(o, script, s, round).0.requests|;
      AskedUses(o, s, r);
      if WantsTools(o, r) {
        RoundsCountUsage(o, script, ToolsRun(o, Asked(o, s, r), r), round + 1);
        AddUsageAssociates(s.usage, UsageOf(r), Used(script, from + 1, to));
      } else {
        UsedNone(script, from + 1, UsageOf(r));
      }
      UsedFirst(script, from, to);
    }
  }

  /** Usage counts every response received, also those of a send that failed. */
  lemma UsageIsNotRolledBack(o: Options, script: Script, s: Session, message: string)
    ensures var t := Send(o, script, s, message).0;
      |s.requests| <= |t.requests| && t.usage == AddUsage(s.usage, Used(script, |s.requests|, |t.requests|))
  {
    RoundsCountUsage(o, script, s.(history := s.history + [UserText(message)]), 0);
  }

  // Responses number from .. to all want tools.
  predicate AllWantTools(o: Options, script: Script, from: nat, to: nat) {
    forall j: nat :: from <= j < to ==> WantsTools(o, script(j))
  }

  function RoundsLeft(o: Options, round: nat): nat {
    if round > o.maxToolRounds then 0 else o.maxToolRounds + 1 - round
  }

  // How many of the next `left` responses want tools, before one does not.
  function ToolRounds(o: Options, script: Script, from: nat, left: nat): (k: nat)
    ensures k <= left
    decreases left
  {
    if left == 0 || !WantsTools(o, script(from)) then 0 else 1 + ToolRounds(o, script, from + 1, left - 1)
  }

  lemma {:induction false} ToolRoundsAre(o: Options, script: Script, from: nat, left: nat)
    ensures var k := ToolRounds(o, script, from, left);
      AllWantTools(o, script, from, from + k) && (k < left ==> !WantsTools(o, script(from + k)))
    decreases left
  {
    if left > 0 && WantsTools(o, script(from)) {
      var k := ToolRounds(o, script, from + 1, left - 1);
      ToolRoundsAre(o, script, from + 1, left - 1);
      assert ToolRounds(o, script, from, left) == k + 1 && from + 1 + k == from + (k + 1);
      OneMoreWants(o, script, from, from + 1 + k);
    }
  }

  lemma OneMoreWants(o: Options, script: Script, from: nat, to: nat)
    requires WantsTools(o, script(from)) && AllWantTools(o, script, from + 1, to)
    ensures AllWantTools(o, script, from, to)
  {
  }

  // How `send` ends when the next request is number `from` and there may be `left` requests: after
  // `sent` requests in all, with a reply to the last of them or a failure.
  predicate Ends(o: Options, script: Script, from: nat, left: nat, sent: nat, reply: Reply) {
    var k := ToolRounds(o, script, from, left);
    if k < left then sent == from + k + 1 && reply == Concluded(script(from + k))
    else sent == from + left && reply == Failure(TOO_MANY_ROUNDS)
  }

  lemma EndsLater(o: Options, script: Script, from: nat, left: nat, sent: nat, reply: Reply)
    requires left > 0 && WantsTools(o, script(from)) && Ends(o, script, from + 1, left - 1, sent, reply)
    ensures Ends(o, script, from, left, sent, reply)
  {
  }

  lemma EndsHere(o: Options, script: Script, from: nat, left: nat)
    ensures Ends(o, script, from, 0, from, Failure(TOO_MANY_ROUNDS))
    ensures left > 0 && !WantsTools(o, script(from)) ==> Ends(o, script, from, left, from + 1, Concluded(script(from)))
  {
  }

  lemma {:induction false} RoundsEnd(o: Options, script: Script, s: Session, round: nat)
    ensures var (t, reply) := Rounds(o, script, s, round);
      Ends(o, script, |s.requests|, RoundsLeft(o, round), |t.requests|, reply)
    decreases o.maxToolRounds - round
  {
    hide Ends, WantsTools, Asked, Concluded;
    EndsHere(o, script, |s.requests|, RoundsLeft(o, round));
    if round <= o.maxToolRounds {
      var from := |s.requests|;
      var r := script(from);
      AskedUses(o, s, r);
      if WantsTools(o, r) {
        var (t, reply) := Rounds(o, script, s, round);
        RoundsEnd(o, script, ToolsRun(o, Asked(o, s, r), r), round + 1);
        EndsLater(o, script, from, RoundsLeft(o, round), |t.requests|, reply);
      }
    }
  }

  /**
   A send makes requests until one is answered without calls, but never more than
   max_tool_rounds + 1: then it fails. A negative maximum makes it fail without a request.
   */
  lemma SendEnds(o: Options, script: Script, s: Session, message: string)
    ensures var from, left := |s.requests|, RoundsLeft(o, 0);
      var k := ToolRounds(o, script, from, left);
      && AllWantTools(o, script, from, from + k)
      && (k < left ==> !WantsTools(o, script(from + k)))
    ensures var (t, reply) := Send(o, script, s, message);
      Ends(o, script, |s.requests|, RoundsLeft(o, 0), |t.requests|, reply)
  {
    hide Ends, Rounds, WantsTools, AllWantTools;
    ToolRoundsAre(o, script, |s.requests|, RoundsLeft(o, 0));
    RoundsEnd(o, script, s.(history := s.history + [UserText(message)]), 0);
  }

  /** Every request carries a history that ends with a turn of the user. */
  lemma {:induction false} RequestsEndWithUser(o: Options, script: Script, s: Session, round: nat, i: nat)
    requires Open(o, s.history) && |s.requests| <= i < |Rounds(o, script, s, round).0.requests|
    ensures var c := Rounds(o, script, s, round).0.requests[i].contents; s.history <= c && Open(o, c)
    decreases o.maxToolRounds - round
  {
    if round <= o.maxToolRounds {
      var r := script(|s.requests|);
      var t := Asked(o, s, r);
      if WantsTools(o, r) {
        ToolTurnKeepsOpen(o, s, r);
        RoundsOnlyAppend(o, script, ToolsRun(o, t, r), round + 1);
        assert t.requests[|s.requests|].contents == s.history;
        if i > |s.requests| {
          RequestsEndWithUser(o, script, ToolsRun(o, t, r), round + 1, i);
        }
      }
    }
  }

  /** Without tools a send makes one request, with one more turn than the history. */
  lemma SendWithoutTools(o: Options, script: Script, s: Session, message: string)
    requires o.tools.None? && o.maxToolRounds >= 0
    ensures var (t, reply) := Send(o, script, s, message);
      && t.requests == s.requests + [BuildRequest(o, s.history + [UserText(message)])]
      && reply == Concluded(script(|s.requests|))
      && (reply.Success? ==>
            && reply.value.candidates != []
            && t.history == s.history + [UserText(message), ModelTurn(reply.value)])
  {
  }
}

/**
 The ChatSession of src/chat.cpp.
 */
module Chat {
  import opened Tools
  import opened Types
  import opened Wrappers

  import C = Conversations

  class ChatSession {
    const options: C.Options
    // The client and the model behind it.
    const script: C.Script
    var history: seq<Content>
    var usage: Usage
    // The requests that the client has been given.
    var requests: seq<C.Request>

    constructor (options: C.Options, script: C.Script)
      ensures this.options == options && this.script == script && State() == C.NEW
    {
      this.options, this.script := options, script;
      history, usage, requests := [], NO_USAGE, [];
    }

    function State(): C.Session
      reads this
    {
      C.Session(history, usage, requests)
    }

    method Reset()
      modifies this`history, this`usage
      ensures history == [] && usage == NO_USAGE
    {
      history, usage := [], NO_USAGE;
    }

    method Ask() returns (reply: C.Reply)
      modifies this`requests
      ensures reply == script(|old(requests)|)
      ensures requests == old(requests) + [C.BuildRequest(options, history)]
    {
      var i := |requests|;
      requests := requests + [C.BuildRequest(options, history)];
      reply := script(i);
    }

    method Send(message: string) returns (reply: C.Reply)
      modifies this
      ensures (State(), reply) == C.Send(options, script, old(State()), message)
      ensures reply.Failure? ==> history == old(history)
    {
      C.FailedSendRestores(options, script, State(), message);
      var checkpoint := |history|;
      history := history + [C.UserText(message)];
      reply := RunRounds();
      if reply.Failure? {
        history := C.RolledBack(history, checkpoint);
      }
    }

    // The loop over rounds. A failure is rolled back by Send.
    method RunRounds() returns (reply: C.Reply)
      modifies this
      ensures (State(), reply) == C.Rounds(options, script, old(State()), 0)
    {
      ghost var goal := C.Rounds(options, script, State(), 0);
      var round := 0;
      while round <= options.maxToolRounds
        invariant C.Rounds(options, script, State(), round) == goal
        decreases options.maxToolRounds - round
      {
        ghost var before := State();
        var response := Ask();
        if response.Failure? {
          return response;
        }
        usage := AddUsage(usage, response.value.usage);
        if response.value.candidates == [] {
          return Failure(C.NO_CANDIDATES);
        }
        history := history + [C.ModelTurn(response.value)];
        assert State() == C.Asked(options, before, response);
        var calls := FunctionCalls(response.value);
        if calls == [] || options.tools.None? {
          return response;
        }
        var parts := InvokeAll(options.tools.value, calls);
        history := history + [Content(User, parts)];
        round := round + 1;
      }
      reply := Failure(C.TOO_MANY_ROUNDS);
    }
  }

  method InvokeAll(tools: seq<Tool>, calls: seq<FunctionCall>) returns (parts: seq<Part>)
    ensures parts == C.Responses(tools, calls)
  {
    parts := [];
    for i := 0 to |calls|
      invariant parts == C.Responses(tools, calls)[..i]
    {
      var result := Invoke(tools, calls[i]);
      parts := parts + [Part(Response(result), false, "")];
    }
  }
}
