/**
 Client::stream and the retry loop of src/client.cpp.

 The network is a script: attempt number i receives certain pieces of a body and then ends
 in a certain way. How a payload is parsed into a chunk, and whether the caller's callback
 wants to go on after the chunks it has been shown, are arbitrary functions.
 */
module Streaming {
  import opened EventStream
  import opened LineReading
  import opened Retry
  import opened Strings
  import opened Types
  import opened Wrappers

  // A response as far as check_http looks: its status, and the error its body would be parsed into.
  datatype HttpResponse = HttpResponse(status: int, apiError: Error)

  datatype Attempt = Attempt(pieces: seq<string>, end: Result<HttpResponse, Error>)

  type Script = nat -> Attempt

  datatype Options = Options(
    apiKey: string,
    model: string,
    retry: RetryPolicy,
    factor: nat -> real,
    parse: string -> Result<GenerateResponse, Error>,
    onChunk: Option<seq<GenerateResponse> -> bool>)

  type Reply = Result<GenerateResponse, Error>

  // The variables the event handler of one attempt works on. `shown` is what the callback has
  // been shown, over all attempts.
  datatype Progress = Progress(
    aggregate: GenerateResponse,
    parseError: Option<Error>,
    callerStopped: bool,
    deliveredAny: bool,
    shown: seq<GenerateResponse>)

  const CANCELLED := Error(Cancelled, "request cancelled by caller", None)
  const FRESH := Progress(EMPTY, None, false, false, [])

  function OnEvent(o: Options, p: Progress, data: string): (Progress, bool) {
    if data == "[DONE]" then (p, true)
    else
      match o.parse(data)
      case Failure(e) => (p.(parseError := Some(e)), false)
      case Success(chunk) =>
        var q := p.(aggregate := Merge(p.aggregate, chunk), deliveredAny := true, shown := p.shown + [chunk]);
        if o.onChunk.Some? && !o.onChunk.value(q.shown) then (q.(callerStopped := true), false)
        else (q, true)
  }

  function HandlerOf(o: Options): Handler<Progress> {
    (p, data) => OnEvent(o, p, data)
  }

  function CheckHttp(r: Result<HttpResponse, Error>): Option<Error> {
    match r
    case Failure(e) => Some(e)
    case Success(response) => if response.status < 200 || response.status >= 300 then Some(response.apiError) else None
  }

  // The variables at the start of an attempt.
  function Restart(p: Progress): Progress {
    p.(aggregate := EMPTY, parseError := None, callerStopped := false)
  }

  // One attempt, after attempts that have left p.
  function Try(o: Options, a: Attempt, p: Progress): (Progress, Reply) {
    var f := HandlerOf(o);
    var (s, go) := FeedAll(f, Start(Restart(p)), a.pieces);
    Conclude(o, s, if go then a.end else Failure(CANCELLED))
  }

  // After the transport has returned.
  function Conclude(o: Options, s: State<Progress>, response: Result<HttpResponse, Error>): (Progress, Reply) {
    var p := s.event.h;
    if p.parseError.Some? then (p, Failure(p.parseError.value))
    else if p.callerStopped then (p, Success(p.aggregate))
    else if CheckHttp(response).Some? then (p, Failure(CheckHttp(response).value))
    else
      var q := Finish(HandlerOf(o), s).0.event.h;
      (q, if q.parseError.Some? then Failure(q.parseError.value) else Success(q.aggregate))
  }

  function MaxAttempts(o: Options): nat {
    if o.retry.maxAttempts < 1 then 1 else o.retry.maxAttempts
  }

  datatype Outcome = Outcome(reply: Reply, shown: seq<GenerateResponse>, attempts: nat, sleeps: seq<int>)

  predicate TriesAgain(o: Options, i: nat, p: Progress, reply: Reply) {
    reply.Failure? && reply.error.Retryable() && i + 1 < MaxAttempts(o) && !p.deliveredAny
  }

  // What with_retry is given to call: attempt number i, after attempts that have left p.
  type Tries = (nat, Progress) -> (Progress, Reply)

  // with_retry, from attempt number i on.
  function RetryFrom(o: Options, tries: Tries, i: nat, p: Progress): Outcome
    decreases MaxAttempts(o) - i
  {
    var (q, reply) := tries(i, p);
    if TriesAgain(o, i, q, reply) then
      var rest := RetryFrom(o, tries, i + 1, q);
      rest.(sleeps := [DelayFor(o.retry, i, reply.error, o.factor(i))] + rest.sleeps)
    else Outcome(reply, q.shown, i + 1, [])
  }

  function TriesOf(o: Options, script: Script): Tries {
    (i: nat, p: Progress) => Try(o, script(i), p)
  }

  function CheckBlocked(r: Reply): Reply {
    if r.Success? && r.value.candidates == [] && r.value.blockReason.Some? then
      Failure(Error(Blocked, "prompt blocked: " + r.value.blockReason.value, None))
    else r
  }

  function Validate(o: Options, contents: seq<Content>): Option<Error> {
    if o.apiKey == "" then Some(Error(Config, "API key is empty", None))
    else if o.model == "" then Some(Error(Config, "model name is empty", None))
    else if contents == [] then Some(Error(InvalidArgument, "request has no contents", None))
    else None
  }

  function Stream(o: Options, script: Script, contents: seq<Content>): Outcome {
    if Validate(o, contents).Some? then Outcome(Failure(Validate(o, contents).value), [], 0, [])
    else
      var r := RetryFrom(o, TriesOf(o, script), 0, FRESH);
      r.(reply := CheckBlocked(r.reply))
  }

  // One attempt

  // What holds of the variables while an attempt runs.
  predicate Consistent(p: Progress, before: seq<GenerateResponse>) {
    && before <= p.shown
    && p.aggregate == MergeAll(EMPTY, p.shown[|before|..])
    && p.deliveredAny == (p.shown != [])
  }

  lemma EventKeepsConsistent(o: Options, p: Progress, before: seq<GenerateResponse>, data: string)
    requires Consistent(p, before)
    ensures Consistent(OnEvent(o, p, data).0, before)
  {
    hide Merge, MergeAll;
    var q := OnEvent(o, p, data).0;
    if q.shown != p.shown {
      var chunk := q.shown[|p.shown|];
      assert q.shown[|before|..] == p.shown[|before|..] + [chunk];
      MergeAllAppend(EMPTY, p.shown[|before|..], chunk);
    }
  }

  lemma LineKeepsConsistent(o: Options, e: Event<Progress>, line: string, before: seq<GenerateResponse>)
    requires Consistent(e.h, before)
    ensures Consistent(ProcessLine(HandlerOf(o), e, line).0.h, before)
  {
    EventKeepsConsistent(o, e.h, before, e.data);
  }

  lemma ScanKeepsConsistent(o: Options, buffer: string, start: nat, e: Event<Progress>, before: seq<GenerateResponse>)
    requires start <= |buffer| && Consistent(e.h, before)
    ensures Consistent(Scan(LineReader(HandlerOf(o)), buffer, start, e).e.h, before)
  {
    var r := LineReader(HandlerOf(o));
    var consistent := (x: Event<Progress>) => Consistent(x.h, before);
    forall x, line | consistent(x)
      ensures consistent(r(x, line).0)
    {
      LineKeepsConsistent(o, x, line, before);
    }
    ScanKeeps(r, consistent, consistent, buffer, start, e);
  }

  lemma FinishKeepsConsistent(o: Options, s: State<Progress>, before: seq<GenerateResponse>)
    requires Consistent(s.event.h, before)
    ensures Consistent(Finish(HandlerOf(o), s).0.event.h, before)
  {
    EventKeepsConsistent(o, s.event.h, before, s.event.data);
    if s.buffer != "" {
      var (e, go) := ProcessLine(HandlerOf(o), s.event, StripCr(s.buffer));
      LineKeepsConsistent(o, s.event, StripCr(s.buffer), before);
      EventKeepsConsistent(o, e.h, before, e.data);
    }
  }

  lemma ConcludeIsFold(o: Options, s: State<Progress>, response: Result<HttpResponse, Error>,
                       before: seq<GenerateResponse>)
    requires Consistent(s.event.h, before)
    ensures var (q, reply) := Conclude(o, s, response);
      Consistent(q, before) && (reply.Success? ==> reply.value == q.aggregate)
  {
    FinishKeepsConsistent(o, s, before);
  }

  lemma FeedAllKeepsConsistent(o: Options, p: Progress, pieces: seq<string>, before: seq<GenerateResponse>)
    requires Consistent(p, before)
    ensures Consistent(FeedAll(HandlerOf(o), Start(p), pieces).0.event.h, before)
  {
    var s := Start(p);
    PiecesDoNotMatter(HandlerOf(o), s, pieces);
    ScanKeepsConsistent(o, s.buffer + Concat(pieces), 0, s.event, before);
  }

  /** The caller's reply is the fold of exactly the chunks that this attempt has shown, and
      an attempt counts as having delivered once anything has been shown. */
  lemma TryIsFold(o: Options, a: Attempt, p: Progress)
    requires p.deliveredAny == (p.shown != [])
    ensures var (q, reply) := Try(o, a, p);
      && Consistent(q, p.shown)
      && (reply.Success? ==> reply.value == MergeAll(EMPTY, q.shown[|p.shown|..]))
  {
    FeedAllKeepsConsistent(o, Restart(p), a.pieces, p.shown);
    var (t, go) := FeedAll(HandlerOf(o), Start(Restart(p)), a.pieces);
    ConcludeIsFold(o, t, if go then a.end else Failure(CANCELLED), p.shown);
  }

  /** How the body was cut into pieces does not matter to an attempt: not to what is shown,
      nor to the reply, also when the caller stops or a payload cannot be parsed. */
  lemma TryIgnoresCutting(o: Options, a: Attempt, b: Attempt, p: Progress)
    requires Concat(a.pieces) == Concat(b.pieces) && a.end == b.end
    ensures Try(o, a, p) == Try(o, b, p)
  {
    var s := Start(Restart(p));
    PiecesDoNotMatter(HandlerOf(o), s, a.pieces);
    PiecesDoNotMatter(HandlerOf(o), s, b.pieces);
    FeedFlags(o, s, a.pieces);
    FeedFlags(o, s, b.pieces);
  }

  // The parser says stop only after a parse error or when the caller has stopped, and as long
  // as it says go neither has happened.
  predicate Flagged(before: Progress, after: Progress, go: bool) {
    if go then after.parseError == before.parseError && after.callerStopped == before.callerStopped
    else after.parseError.Some? || after.callerStopped
  }

  lemma LineFlags(o: Options, e: Event<Progress>, line: string)
    ensures var (e', go) := ProcessLine(HandlerOf(o), e, line); Flagged(e.h, e'.h, go)
  {
  }

  lemma ScanFlags(o: Options, buffer: string, start: nat, e: Event<Progress>)
    requires start <= |buffer|
    ensures var d := Scan(LineReader(HandlerOf(o)), buffer, start, e); Flagged(e.h, d.e.h, d.go)
  {
    var r := LineReader(HandlerOf(o));
    var going := (x: Event<Progress>) => Flagged(e.h, x.h, true);
    var stopped := (x: Event<Progress>) => Flagged(e.h, x.h, false);
    forall x, line | going(x)
      ensures var (y, go) := r(x, line); if go then going(y) else stopped(y)
    {
      LineFlags(o, x, line);
    }
    ScanKeeps(r, going, stopped, buffer, start, e);
  }

  lemma FeedFlags(o: Options, s: State<Progress>, pieces: seq<string>)
    requires Find(s.buffer, '\n', 0) == |s.buffer|
    ensures var (t, go) := FeedAll(HandlerOf(o), s, pieces); Flagged(s.event.h, t.event.h, go)
  {
    PiecesDoNotMatter(HandlerOf(o), s, pieces);
    ScanFlags(o, s.buffer + Concat(pieces), 0, s.event);
  }

  // The chunks that these payloads are parsed into.
  ghost predicate ParsesInto(o: Options, payloads: seq<string>, chunks: seq<GenerateResponse>)
    decreases |payloads|
  {
    if payloads == [] then chunks == []
    else if payloads[0] == "[DONE]" then ParsesInto(o, payloads[1..], chunks)
    else chunks != [] && o.parse(payloads[0]) == Success(chunks[0]) && ParsesInto(o, payloads[1..], chunks[1..])
  }

  lemma EventShows(o: Options, p: Progress, data: string, chunk: GenerateResponse)
    requires data != "[DONE]" && o.parse(data) == Success(chunk)
    requires o.onChunk.None? || forall shown :: o.onChunk.value(shown)
    ensures var (q, go) := OnEvent(o, p, data);
      && go && q.shown == p.shown + [chunk] && q.parseError == p.parseError && q.callerStopped == p.callerStopped
  {
    hide Merge;
  }

  lemma AndTheRest(shown: seq<GenerateResponse>, chunks: seq<GenerateResponse>)
    requires chunks != []
    ensures shown + [chunks[0]] + chunks[1..] == shown + chunks
  {
  }

  lemma {:induction false} FoldShows(o: Options, p: Progress, payloads: seq<string>, chunks: seq<GenerateResponse>)
    requires ParsesInto(o, payloads, chunks)
    requires o.onChunk.None? || forall shown :: o.onChunk.value(shown)
    ensures var (q, go) := Fold(HandlerOf(o), p, payloads);
      go && q.shown == p.shown + chunks && q.parseError == p.parseError && q.callerStopped == p.callerStopped
    decreases |payloads|
  {
    if payloads != [] {
      var (q, go) := OnEvent(o, p, payloads[0]);
      if payloads[0] == "[DONE]" {
        FoldShows(o, q, payloads[1..], chunks);
      } else {
        hide OnEvent;
        EventShows(o, p, payloads[0], chunks[0]);
        FoldShows(o, q, payloads[1..], chunks[1..]);
        AndTheRest(p.shown, chunks);
      }
    }
  }

  /** A body that arrives whole, in any pieces, whose payloads all parse, and whose caller does
      not stop, is shown chunk by chunk and returned as the merge of its chunks. */
  lemma WholeBodyIsDelivered(o: Options, a: Attempt, chunks: seq<GenerateResponse>)
    requires a.end.Success? && CheckHttp(a.end).None?
    requires ParsesInto(o, Payloads(Concat(a.pieces)), chunks)
    requires o.onChunk.None? || forall shown :: o.onChunk.value(shown)
    ensures var (q, reply) := Try(o, a, FRESH);
      q.shown == chunks && reply == Success(MergeAll(EMPTY, chunks))
  {
    var f := HandlerOf(o);
    BodyIsFold(f, FRESH, a.pieces);
    FoldShows(o, FRESH, Payloads(Concat(a.pieces)), chunks);
    FeedFlags(o, Start(FRESH), a.pieces);
    TryIsFold(o, a, FRESH);
    assert [] + chunks == chunks && chunks[0..] == chunks;
  }

  // All attempts

  // Attempts that do not depend on earlier ones as long as these have shown nothing.
  ghost predicate Independent(tries: Tries) {
    forall i, p :: Restart(p) == FRESH ==>
      && tries(i, p) == tries(i, FRESH)
      && (!tries(i, p).0.deliveredAny ==> Restart(tries(i, p).0) == FRESH)
      && tries(i, p).0.deliveredAny == (tries(i, p).0.shown != [])
  }

  // An attempt that may be followed by another: it has shown nothing.
  predicate Failed(tries: Tries, i: nat) {
    var (q, reply) := tries(i, FRESH);
    q.shown == [] && reply.Failure? && reply.error.Retryable()
  }

  /** Every attempt but the last showed nothing and failed in a way worth retrying. What the
      caller sees is what the last attempt alone would have shown and replied, and trying
      stopped there for one of four reasons. */
  lemma {:induction false} OnlyTheLastAttemptShows(o: Options, tries: Tries, i: nat, p: Progress)
    requires Independent(tries) && Restart(p) == FRESH && i < MaxAttempts(o)
    ensures var r := RetryFrom(o, tries, i, p);
      && i < r.attempts <= MaxAttempts(o)
      && |r.sleeps| == r.attempts - 1 - i
      && (forall j :: i <= j < r.attempts - 1 ==> Failed(tries, j))
      && (r.shown, r.reply) == (tries(r.attempts - 1, FRESH).0.shown, tries(r.attempts - 1, FRESH).1)
      && (r.reply.Success? || !r.reply.error.Retryable() || r.attempts == MaxAttempts(o) || r.shown != [])
    decreases MaxAttempts(o) - i
  {
    var (q, reply) := tries(i, p);
    if TriesAgain(o, i, q, reply) {
      OnlyTheLastAttemptShows(o, tries, i + 1, q);
    }
  }

  lemma TriesAreIndependent(o: Options, script: Script)
    ensures Independent(TriesOf(o, script))
  {
    forall i, p | Restart(p) == FRESH
      ensures Try(o, script(i), p) == Try(o, script(i), FRESH)
      ensures !Try(o, script(i), p).0.deliveredAny ==> Restart(Try(o, script(i), p).0) == FRESH
      ensures Try(o, script(i), p).0.deliveredAny == (Try(o, script(i), p).0.shown != [])
    {
      TryIsFold(o, script(i), p);
    }
  }

  /** The guarantees of a call, over every script: at most max(1, max_attempts) attempts, with
      one sleep between neighbours; no
      chunk is ever shown twice, since all come from the last attempt; and a response that is
      returned is the merge of exactly the chunks that were shown. */
  lemma StreamGuarantees(o: Options, script: Script, contents: seq<Content>)
    ensures var r := Stream(o, script, contents);
      && r.attempts <= MaxAttempts(o)
      && |r.sleeps| == (if r.attempts == 0 then 0 else r.attempts - 1)
      && (r.attempts > 0 ==> r.shown == Try(o, script(r.attempts - 1), FRESH).0.shown)
      && (r.attempts == 0 ==> r.shown == [] && r.reply.Failure?)
      && (r.reply.Success? ==> r.reply.value == MergeAll(EMPTY, r.shown))
  {
    if Validate(o, contents).None? {
      TriesAreIndependent(o, script);
      OnlyTheLastAttemptShows(o, TriesOf(o, script), 0, FRESH);
      var r := RetryFrom(o, TriesOf(o, script), 0, FRESH);
      TryIsFold(o, script(r.attempts - 1), FRESH);
      assert r.shown[0..] == r.shown;
    }
  }

  lemma {:induction false} RetryDependsOnTries(o: Options, tries: Tries, other: Tries, i: nat, p: Progress)
    requires forall j, q :: tries(j, q) == other(j, q)
    ensures RetryFrom(o, tries, i, p) == RetryFrom(o, other, i, p)
    decreases MaxAttempts(o) - i
  {
    var (q, reply) := tries(i, p);
    if TriesAgain(o, i, q, reply) {
      RetryDependsOnTries(o, tries, other, i + 1, q);
    }
  }

  /** End to end: two networks that deliver the same bodies cut differently are the same to the
      caller, in chunks shown, reply, number of attempts and sleeps. */
  lemma StreamIgnoresCutting(o: Options, script: Script, other: Script, contents: seq<Content>)
    requires forall j :: Concat(script(j).pieces) == Concat(other(j).pieces) && script(j).end == other(j).end
    ensures Stream(o, script, contents) == Stream(o, other, contents)
  {
    forall j, q
      ensures Try(o, script(j), q) == Try(o, other(j), q)
    {
      TryIgnoresCutting(o, script(j), other(j), q);
    }
    RetryDependsOnTries(o, TriesOf(o, script), TriesOf(o, other), 0, FRESH);
  }

  lemma {:induction false} SleepsBounded(o: Options, tries: Tries, i: nat, p: Progress, k: nat)
    requires o.retry.NonNegative() && forall j :: o.retry.MayDraw(o.factor(j))
    requires k < |RetryFrom(o, tries, i, p).sleeps|
    ensures RetryFrom(o, tries, i, p).sleeps[k] as real <= MaxDelay(o.retry)
    decreases MaxAttempts(o) - i
  {
    var (q, reply) := tries(i, p);
    if TriesAgain(o, i, q, reply) {
      DelayBound(o.retry, i, reply.error, o.factor(i));
      if k > 0 {
        SleepsBounded(o, tries, i + 1, q, k - 1);
      }
    }
  }

  /** All the sleeping of a call together is at most max_backoff * (1 + jitter) per retry. */
  lemma SleepBound(o: Options, script: Script, contents: seq<Content>)
    requires o.retry.NonNegative() && forall j :: o.retry.MayDraw(o.factor(j))
    ensures AtMostEach(Stream(o, script, contents).sleeps, MaxDelay(o.retry))
  {
    var sleeps := Stream(o, script, contents).sleeps;
    forall k | 0 <= k < |sleeps|
      ensures sleeps[k] as real <= MaxDelay(o.retry)
    {
      SleepsBounded(o, TriesOf(o, script), 0, FRESH, k);
    }
    SumAtMost(sleeps, MaxDelay(o.retry));
  }
}

/**
 The client, whose method runs the loops of the source.
 */
module Clients {
  import ES = EventStream
  import S = Streaming
  import SseParsing
  import opened Retry
  import opened Types
  import opened Wrappers

  class Client {
    const options: S.Options
    var requests: nat
    var attempts: nat
    var retries: nat
    var slept: seq<int>

    constructor (options: S.Options)
      ensures this.options == options && requests == attempts == retries == 0 && slept == []
    {
      this.options := options;
      requests, attempts, retries, slept := 0, 0, 0, [];
    }

    method Stream(script: S.Script, contents: seq<Content>) returns (reply: S.Reply, shown: seq<GenerateResponse>)
      modifies this
      ensures var r := S.Stream(options, script, contents);
        && reply == r.reply && shown == r.shown
        && requests == old(requests) + 1
        && attempts == old(attempts) + r.attempts
        && retries == old(retries) + |r.sleeps|
        && slept == old(slept) + r.sleeps
    {
      requests := requests + 1;
      var invalid := S.Validate(options, contents);
      if invalid.Some? {
        return Failure(invalid.value), [];
      }
      reply, shown := WithRetry(script);
      reply := S.CheckBlocked(reply);
    }

    method WithRetry(script: S.Script) returns (reply: S.Reply, shown: seq<GenerateResponse>)
      modifies this`attempts, this`retries, this`slept
      ensures var r := S.RetryFrom(options, S.TriesOf(options, script), 0, S.FRESH);
        && reply == r.reply && shown == r.shown
        && attempts == old(attempts) + r.attempts
        && retries == old(retries) + |r.sleeps|
        && slept == old(slept) + r.sleeps
    {
      hide S.RetryFrom;
      var maxAttempts := S.MaxAttempts(options);
      var progress := S.FRESH;
      ghost var tries := S.TriesOf(options, script);
      ghost var goal := S.RetryFrom(options, tries, 0, progress);
      ghost var left := goal;
      ghost var sleeps: seq<int> := [];
      var i := 0;
      while true
        invariant i < maxAttempts
        invariant left == S.RetryFrom(options, tries, i, progress) && GoesOn(goal, sleeps, left)
        invariant slept == old(slept) + sleeps
        invariant attempts == old(attempts) + i
        invariant retries == old(retries) + |sleeps|
        decreases maxAttempts - i
      {
        attempts := attempts + 1;
        OneMoreAttempt(options, tries, i, progress, goal, sleeps);
        progress, reply := Attempt(script, i, progress);
        if reply.Success? || !reply.error.Retryable() || i + 1 >= maxAttempts || progress.deliveredAny {
          return reply, progress.shown;
        }
        var delay := Sleep(i, reply.error);
        left := S.RetryFrom(options, tries, i + 1, progress);
        sleeps := sleeps + [delay];
        i := i + 1;
      }
    }

    method Sleep(i: nat, error: Error) returns (delay: int)
      modifies this`retries, this`slept
      ensures delay == DelayFor(options.retry, i, error, options.factor(i))
      ensures retries == old(retries) + 1 && slept == old(slept) + [delay]
    {
      delay := DelayFor(options.retry, i, error, options.factor(i));
      retries := retries + 1;
      slept := slept + [delay];
    }

    method Attempt(script: S.Script, number: nat, progress: S.Progress) returns (after: S.Progress, reply: S.Reply)
      ensures (after, reply) == S.TriesOf(options, script)(number, progress)
    {
      var a := script(number);
      var parser := new SseParsing.SseParser(S.HandlerOf(options), S.Restart(progress));
      // The transport: pieces are passed on until the callback asks to abort.
      var response := a.end;
      ghost var goal := ES.FeedAll(parser.handler, parser.View(), a.pieces);
      var go := true;
      var i := 0;
      while i < |a.pieces| && go
        invariant i <= |a.pieces|
        invariant goal == if go then ES.FeedAll(parser.handler, parser.View(), a.pieces[i..])
                          else (parser.View(), false)
      {
        go := parser.Feed(a.pieces[i]);
        assert a.pieces[i..][1..] == a.pieces[i + 1..];
        i := i + 1;
      }
      if !go {
        response := Failure(S.CANCELLED);
      }
      if parser.h.parseError.Some? {
        return parser.h, Failure(parser.h.parseError.value);
      }
      if parser.h.callerStopped {
        return parser.h, Success(parser.h.aggregate);
      }
      var bad := S.CheckHttp(response);
      if bad.Some? {
        return parser.h, Failure(bad.value);
      }
      var _ := parser.Finish();
      if parser.h.parseError.Some? {
        return parser.h, Failure(parser.h.parseError.value);
      }
      return parser.h, Success(parser.h.aggregate);
    }
  }

  // The loop began with `goal` ahead of it, has slept so often and has `rest` ahead of it.
  predicate GoesOn(goal: S.Outcome, sleeps: seq<int>, rest: S.Outcome) {
    goal == rest.(sleeps := sleeps + rest.sleeps)
  }

  lemma OneMoreAttempt(o: S.Options, tries: S.Tries, i: nat, p: S.Progress, goal: S.Outcome, sleeps: seq<int>)
    requires i < S.MaxAttempts(o) && GoesOn(goal, sleeps, S.RetryFrom(o, tries, i, p))
    ensures var (q, reply) := tries(i, p);
      if S.TriesAgain(o, i, q, reply) then
        var delay := DelayFor(o.retry, i, reply.error, o.factor(i));
        GoesOn(goal, sleeps + [delay], S.RetryFrom(o, tries, i + 1, q))
      else goal == S.Outcome(reply, q.shown, i + 1, sleeps)
  {
    var (q, reply) := tries(i, p);
    if S.TriesAgain(o, i, q, reply) {
      var delay := DelayFor(o.retry, i, reply.error, o.factor(i));
      var rest := S.RetryFrom(o, tries, i + 1, q);
      assert sleeps + ([delay] + rest.sleeps) == (sleeps + [delay]) + rest.sleeps;
    } else {
      assert sleeps + [] == sleeps;
    }
  }
}
