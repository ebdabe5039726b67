/**
 What a call of Client::stream comes to, case by case: by the status of the response, by the errors that
 are worth another attempt, and by what the caller and the payload parser say.
 */
module StreamOutcomes {
  import opened EventStream
  import opened LineReading
  import opened Retry
  import opened Streaming
  import opened Strings
  import opened Types
  import opened Wrappers

  predicate IsOk(status: int) {
    status == 200 || (200 < status && status < 300)
  }

  /** An attempt whose payload cannot be parsed fails with that error; one that the caller stops returns
      what there is; any other fails with the transport's error, or with the server's if the status is
      not from 200 to 299, and else returns what there is. */
  lemma AttemptReplies(o: Options, a: Attempt, p: Progress)
    ensures var (q, reply) := Try(o, a, p);
      && (q.parseError.Some? ==> reply == Failure(q.parseError.value))
      && (q.parseError.None? && q.callerStopped ==> reply == Success(q.aggregate))
      && (q.parseError.None? && !q.callerStopped ==>
            match a.end
            case Failure(e) => reply == Failure(e)
            case Success(r) => reply == if IsOk(r.status) then Success(q.aggregate) else Failure(r.apiError))
  {
    var s := Start(Restart(p));
    FeedFlags(o, s, a.pieces);
    var (t, go) := FeedAll(HandlerOf(o), s, a.pieces);
    FinishFlags(o, t);
  }

  // Finishing leaves a parse error or a stop if there was one, or brings one, or neither.
  lemma FinishFlags(o: Options, s: State<Progress>)
    ensures var p, q := s.event.h, Finish(HandlerOf(o), s).0.event.h;
      p.callerStopped ==> q.callerStopped
  {
  }

  /** A response comes back only from an attempt that the caller stopped, or whose status was from 200
      to 299. */
  lemma SuccessNeedsStatus(o: Options, script: Script, contents: seq<Content>)
    requires Stream(o, script, contents).reply.Success?
    ensures var r := Stream(o, script, contents);
      && r.attempts > 0
      && var a := script(r.attempts - 1);
         || Try(o, a, FRESH).0.callerStopped
         || (a.end.Success? && 200 <= a.end.value.status <= 299)
  {
    hide Try, RetryFrom;
    TriesAreIndependent(o, script);
    OnlyTheLastAttemptShows(o, TriesOf(o, script), 0, FRESH);
    var r := RetryFrom(o, TriesOf(o, script), 0, FRESH);
    AttemptReplies(o, script(r.attempts - 1), FRESH);
  }

  /** A body without payloads makes an empty response. */
  lemma NothingReceived(o: Options, a: Attempt)
    requires Payloads(Concat(a.pieces)) == [] && a.end.Success? && 200 <= a.end.value.status <= 299
    ensures var (q, reply) := Try(o, a, FRESH);
      q.shown == [] && reply == Success(GenerateResponse([], Usage(0, 0, 0, 0), "", "", None))
  {
    BodyIsFold(HandlerOf(o), FRESH, a.pieces);
    FeedFlags(o, Start(FRESH), a.pieces);
    hide Payloads;
  }

  // No event ends in the body.
  predicate NoEvent(a: Attempt) {
    Events(Lines(Concat(a.pieces), 0), []) == []
  }

  // The error of an attempt that brings no event and a failure, or a status not from 200 to 299.
  function ErrorOf(a: Attempt): Option<Error> {
    match a.end
    case Failure(e) => Some(e)
    case Success(r) => if r.status < 200 || r.status > 299 then Some(r.apiError) else None
  }

  predicate WorthRetrying(code: ErrorCode) {
    code == Server || code == RateLimited || code == ErrorCode.Timeout || code == Transport
  }

  lemma AttemptFails(o: Options, a: Attempt, p: Progress)
    requires NoEvent(a) && ErrorOf(a).Some?
    ensures Try(o, a, p) == (Restart(p), Failure(ErrorOf(a).value))
  {
    FeedingIsFold(HandlerOf(o), Restart(p), a.pieces);
  }

  /** If every answer is an error that is worth retrying and brings no event, all attempts are made, and
      the call fails with the error of the last. */
  lemma AllAttemptsFail(o: Options, script: Script, contents: seq<Content>)
    requires o.apiKey != "" && o.model != "" && contents != []
    requires forall i :: NoEvent(script(i)) && ErrorOf(script(i)).Some? && WorthRetrying(ErrorOf(script(i)).value.code)
    ensures var r, n := Stream(o, script, contents), if o.retry.maxAttempts < 1 then 1 else o.retry.maxAttempts;
      r.attempts == n && r.shown == [] && r.reply == Failure(ErrorOf(script(n - 1)).value)
  {
    RetriesToTheEnd(o, script, 0, FRESH);
  }

  lemma {:induction false} RetriesToTheEnd(o: Options, script: Script, i: nat, p: Progress)
    requires forall j :: NoEvent(script(j)) && ErrorOf(script(j)).Some? && WorthRetrying(ErrorOf(script(j)).value.code)
    requires i < MaxAttempts(o) && !p.deliveredAny && p.shown == []
    ensures var r := RetryFrom(o, TriesOf(o, script), i, p);
      r.attempts == MaxAttempts(o) && r.shown == [] && r.reply == Failure(ErrorOf(script(MaxAttempts(o) - 1)).value)
    decreases MaxAttempts(o) - i
  {
    hide Try, NoEvent, ErrorOf, DelayFor;
    AttemptFails(o, script(i), p);
    if i + 1 < MaxAttempts(o) {
      RetriesToTheEnd(o, script, i + 1, Restart(p));
    }
  }

  /** An error that is not worth retrying ends the call at once. */
  lemma FirstAttemptFails(o: Options, script: Script, contents: seq<Content>)
    requires o.apiKey != "" && o.model != "" && contents != []
    requires NoEvent(script(0)) && ErrorOf(script(0)).Some? && !WorthRetrying(ErrorOf(script(0)).value.code)
    ensures Stream(o, script, contents) == Outcome(Failure(ErrorOf(script(0)).value), [], 1, [])
  {
    hide Try, NoEvent, ErrorOf, DelayFor;
    AttemptFails(o, script(0), FRESH);
  }

  /** A call that cannot be made fails without an attempt. */
  lemma InvalidCallFails(o: Options, script: Script, contents: seq<Content>)
    ensures var none := e => Outcome(Failure(e), [], 0, []);
      var r := Stream(o, script, contents);
      && (o.apiKey == "" ==> r == none(Error(Config, "API key is empty", None)))
      && (o.apiKey != "" && o.model == "" ==> r == none(Error(Config, "model name is empty", None)))
      && (o.apiKey != "" && o.model != "" && contents == [] ==>
            r == none(Error(InvalidArgument, "request has no contents", None)))
      && (o.apiKey != "" && o.model != "" && contents != [] ==> r.attempts > 0)
  {
    if o.apiKey != "" && o.model != "" && contents != [] {
      TriesAreIndependent(o, script);
      OnlyTheLastAttemptShows(o, TriesOf(o, script), 0, FRESH);
    }
  }

  /** A prompt that was blocked is an error, and nothing else changes a response. */
  lemma BlockedIsError(o: Options, script: Script, contents: seq<Content>)
    requires o.apiKey != "" && o.model != "" && contents != []
    ensures var r := Stream(o, script, contents);
      && r.attempts > 0
      && var last := Try(o, script(r.attempts - 1), FRESH).1;
         r.reply == match last
                    case Failure(e) => Failure(e)
                    case Success(v) =>
                      if v.candidates == [] && v.blockReason.Some?
                      then Failure(Error(Blocked, "prompt blocked: " + v.blockReason.value, None))
                      else Success(v)
  {
    TriesAreIndependent(o, script);
    OnlyTheLastAttemptShows(o, TriesOf(o, script), 0, FRESH);
  }

  // Bodies

  lemma {:induction false} FoldAppends<H>(f: Handler<H>, h: H, a: seq<string>, b: seq<string>)
    ensures Fold(f, h, a + b) == if Fold(f, h, a).1 then Fold(f, Fold(f, h, a).0, b) else Fold(f, h, a)
    decreases |a|
  {
    if a == [] {
      assert a + b == b;
    } else {
      assert (a + b)[1..] == a[1..] + b;
      if f(h, a[0]).1 {
        FoldAppends(f, f(h, a[0]).0, a[1..], b);
      }
    }
  }

  /** A payload that cannot be parsed ends the attempt: the chunks before it have been shown, and its error
      is the reply, whatever the status. */
  lemma ParseErrorEnds(o: Options, a: Attempt, before: seq<string>, bad: string, after: seq<string>,
                       chunks: seq<GenerateResponse>, e: Error)
    requires Events(Lines(Concat(a.pieces), 0), []) == before + [bad] + after
    requires ParsesInto(o, before, chunks) && bad != "[DONE]" && o.parse(bad) == Failure(e)
    requires o.onChunk.None? || forall shown :: o.onChunk.value(shown)
    ensures var (q, reply) := Try(o, a, FRESH); q.shown == chunks && reply == Failure(e)
  {
    var f := HandlerOf(o);
    FeedingIsFold(f, FRESH, a.pieces);
    FoldShows(o, FRESH, before, chunks);
    var q := Fold(f, FRESH, before).0;
    assert before + [bad] + after == before + ([bad] + after);
    assert ([bad] + after)[0] == bad;
    FoldAppends(f, FRESH, before, [bad] + after);
    assert [] + chunks == chunks;
  }

  /** A caller that says stop is shown nothing more, and gets the merge of what it has been shown. */
  lemma CallerStops(o: Options, a: Attempt, before: seq<string>, last: string, after: seq<string>,
                    chunks: seq<GenerateResponse>, chunk: GenerateResponse)
    requires Events(Lines(Concat(a.pieces), 0), []) == before + [last] + after
    requires ParsesInto(o, before, chunks) && last != "[DONE]" && o.parse(last) == Success(chunk)
    requires o.onChunk.Some? && forall shown :: o.onChunk.value(shown) <==> shown != chunks + [chunk]
    ensures var (q, reply) := Try(o, a, FRESH);
      q.shown == chunks + [chunk] && reply == Success(MergeAll(EMPTY, chunks + [chunk]))
  {
    hide Events, Lines, ParsesInto, MergeAll, Merge, FeedAll;
    var f := HandlerOf(o);
    FeedingIsFold(f, FRESH, a.pieces);
    ShowsUntil(o, FRESH, before, chunks, chunk);
    assert before + [last] + after == before + ([last] + after);
    assert ([last] + after)[0] == last;
    FoldAppends(f, FRESH, before, [last] + after);
    assert [] + chunks == chunks;
    TryIsFold(o, a, FRESH);
    assert (chunks + [chunk])[0..] == chunks + [chunk];
  }

  // As FoldShows, for a caller that stops only after one chunk more.
  lemma {:induction false} ShowsUntil(o: Options, p: Progress, payloads: seq<string>, chunks: seq<GenerateResponse>,
                                      chunk: GenerateResponse)
    requires ParsesInto(o, payloads, chunks)
    requires o.onChunk.Some? && forall shown :: o.onChunk.value(shown) <==> shown != p.shown + chunks + [chunk]
    ensures var (q, go) := Fold(HandlerOf(o), p, payloads);
      go && q.shown == p.shown + chunks && q.parseError == p.parseError && q.callerStopped == p.callerStopped
    decreases |payloads|
  {
    if payloads != [] {
      var (q, go) := OnEvent(o, p, payloads[0]);
      if payloads[0] == "[DONE]" {
        ShowsUntil(o, q, payloads[1..], chunks, chunk);
      } else {
        assert |q.shown| == |p.shown| + 1 < |p.shown + chunks + [chunk]|;
        assert p.shown + [chunks[0]] + chunks[1..] + [chunk] == p.shown + chunks + [chunk];
        hide Merge;
        AndTheRest(p.shown, chunks);
        ShowsUntil(o, q, payloads[1..], chunks[1..], chunk);
      }
    }
  }
}
