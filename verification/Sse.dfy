/**
 Taking a text apart into lines while it arrives in pieces. What handles a line is an arbitrary
 function that changes a state of its own, of type E, and says whether to go on.
 */
module LineReading {
  import opened Strings

  type Reader<!E> = (E, string) -> (E, bool)

  // Where the unhandled rest of the buffer begins, the reader's state, and whether to go on.
  datatype Scanned<E> = Scanned(pos: nat, e: E, go: bool)

  function StripCr(line: string): string {
    if line != "" && line[|line| - 1] == '\r' then line[..|line| - 1] else line
  }

  // Handles the complete lines in the buffer from `start` on, until one says stop.
  function Scan<E>(r: Reader<E>, buffer: string, start: nat, e: E): (s: Scanned<E>)
    requires start <= |buffer|
    ensures start <= s.pos <= |buffer|
    decreases |buffer| - start
  {
    var n := Find(buffer, '\n', start);
    if n == |buffer| then Scanned(start, e, true)
    else
      var (e', go) := r(e, StripCr(Until(buffer, '\n', start)));
      if go then Scan(r, buffer, n + 1, e') else Scanned(n + 1, e', false)
  }

  lemma {:induction false} Shifted(s: string, c: char, from: nat, k: nat)
    requires k <= from <= |s|
    ensures Find(s[k..], c, from - k) == Find(s, c, from) - k
    ensures Until(s[k..], c, from - k) == Until(s, c, from)
    decreases |s| - from
  {
    if from < |s| && s[from] != c {
      Shifted(s, c, from + 1, k);
    }
  }

  lemma {:induction false} InLonger(s: string, more: string, c: char, from: nat)
    requires from <= |s| && Find(s, c, from) < |s|
    ensures Find(s + more, c, from) == Find(s, c, from)
    ensures Until(s + more, c, from) == Until(s, c, from)
    decreases |s| - from
  {
    if s[from] != c {
      InLonger(s, more, c, from + 1);
    }
  }

  lemma Suffixes(s: string, more: string, p: nat, q: nat)
    requires p <= |s| && p <= q <= |s + more|
    ensures s[p..] + more == (s + more)[p..]
    ensures (s + more)[p..][q - p..] == (s + more)[q..]
  {
  }

  // Removing what is before `start` does not matter.
  lemma {:induction false} ScanShifted<E>(r: Reader<E>, buffer: string, start: nat, e: E, k: nat)
    requires k <= start <= |buffer|
    ensures var s := Scan(r, buffer, start, e);
      k <= s.pos && Scan(r, buffer[k..], start - k, e) == s.(pos := s.pos - k)
    decreases |buffer| - start
  {
    var n := Find(buffer, '\n', start);
    Shifted(buffer, '\n', start, k);
    if n < |buffer| {
      var (e', go) := r(e, StripCr(Until(buffer, '\n', start)));
      if go {
        ScanShifted(r, buffer, n + 1, e', k);
      }
    }
  }

  /** Scanning a longer buffer is scanning the shorter one and going on from there. */
  lemma {:induction false} ScanLonger<E>(r: Reader<E>, buffer: string, more: string, start: nat, e: E)
    requires start <= |buffer|
    ensures var s := Scan(r, buffer, start, e);
      Scan(r, buffer + more, start, e) == if s.go then Scan(r, buffer + more, s.pos, s.e) else s
    decreases |buffer| - start
  {
    hide Find, Until, StripCr;
    var n := Find(buffer, '\n', start);
    if n < |buffer| {
      InLonger(buffer, more, '\n', start);
      var (e', go) := r(e, StripCr(Until(buffer, '\n', start)));
      if go {
        ScanLonger(r, buffer, more, n + 1, e');
      }
    }
  }

  // The same, with what has been handled removed in between.
  lemma ScanRest<E>(r: Reader<E>, buffer: string, more: string, e: E)
    ensures var s, all := Scan(r, buffer, 0, e), Scan(r, buffer + more, 0, e);
      if s.go then
        var rest := buffer[s.pos..] + more;
        && s.pos <= all.pos && Scan(r, rest, 0, s.e) == all.(pos := all.pos - s.pos)
        && rest[all.pos - s.pos..] == (buffer + more)[all.pos..]
      else all == s
  {
    ScanLonger(r, buffer, more, 0, e);
    var s := Scan(r, buffer, 0, e);
    if s.go {
      ScanShifted(r, buffer + more, s.pos, s.e, s.pos);
      Suffixes(buffer, more, s.pos, Scan(r, buffer + more, s.pos, s.e).pos);
    }
  }

  lemma {:induction false} ScanLeavesNoLine<E>(r: Reader<E>, buffer: string, start: nat, e: E)
    requires start <= |buffer|
    ensures var s := Scan(r, buffer, start, e); s.go ==> Find(buffer, '\n', s.pos) == |buffer|
    decreases |buffer| - start
  {
    var n := Find(buffer, '\n', start);
    if n < |buffer| {
      var (e', go) := r(e, StripCr(Until(buffer, '\n', start)));
      if go {
        ScanLeavesNoLine(r, buffer, n + 1, e');
      }
    }
  }

  // A line keeps what holds while scanning goes on, or leaves what holds when it stops.
  ghost predicate KeptBy<E(!new)>(r: Reader<E>, going: E -> bool, stopped: E -> bool) {
    forall e, line :: going(e) ==> var (e', go) := r(e, line); if go then going(e') else stopped(e')
  }

  lemma {:induction false} ScanKeeps<E(!new)>(r: Reader<E>, going: E -> bool, stopped: E -> bool,
                                              buffer: string, start: nat, e: E)
    requires start <= |buffer| && going(e) && KeptBy(r, going, stopped)
    ensures var s := Scan(r, buffer, start, e); if s.go then going(s.e) else stopped(s.e)
    decreases |buffer| - start
  {
    var n := Find(buffer, '\n', start);
    if n < |buffer| {
      var (e', go) := r(e, StripCr(Until(buffer, '\n', start)));
      if go {
        ScanKeeps(r, going, stopped, buffer, n + 1, e');
      }
    }
  }

  // The complete lines of a body from `start` on, without any buffering.
  function Lines(body: string, start: nat): seq<string>
    requires start <= |body|
    decreases |body| - start
  {
    var n := Find(body, '\n', start);
    if n == |body| then [] else [StripCr(Until(body, '\n', start))] + Lines(body, n + 1)
  }

  // Hands the items to f, one by one, until it says stop.
  function Fold<E>(f: Reader<E>, e: E, items: seq<string>): (E, bool)
    decreases |items|
  {
    if items == [] then (e, true)
    else
      var (e', go) := f(e, items[0]);
      if go then Fold(f, e', items[1..]) else (e', false)
  }

  lemma {:induction false} ScanIsFold<E>(r: Reader<E>, buffer: string, start: nat, e: E)
    requires start <= |buffer|
    ensures var s := Scan(r, buffer, start, e); (s.e, s.go) == Fold(r, e, Lines(buffer, start))
    decreases |buffer| - start
  {
    var n := Find(buffer, '\n', start);
    if n < |buffer| {
      var line := StripCr(Until(buffer, '\n', start));
      assert Lines(buffer, start)[1..] == Lines(buffer, n + 1);
      var (e', go) := r(e, line);
      if go {
        ScanIsFold(r, buffer, n + 1, e');
      }
    }
  }
}

/**
 SseParser of src/sse.cpp, the incremental reader of text/event-stream bodies: what its
 operations compute, what a body means, and that the two agree.

 The event handler is an arbitrary function that changes a state of its own, of type H, and
 says whether to go on; in the program it is a closure over the caller's variables.
 */
module EventStream {
  import opened LineReading
  import opened Strings

  type Handler<!H> = (H, string) -> (H, bool)

  // The event that is being collected, and the state of the handler.
  datatype Event<H> = Event(data: string, hasData: bool, h: H)

  // What an SseParser<H> holds.
  datatype State<H> = State(buffer: string, event: Event<H>)

  datatype Field = Data(value: string) | Other

  // name == "data"
  predicate IsData(name: string) {
    |name| == 4 && name[0] == 'd' && name[1] == 'a' && name[2] == 't' && name[3] == 'a'
  }

  // The value of a data line.
  function Value(line: string): Field {
    var colon := Find(line, ':', 0);
    if !IsData(line[..colon]) then Other
    else if colon == |line| then Data("")
    else
      var value := line[colon + 1..];
      Data(if value != "" && value[0] == ' ' then value[1..] else value)
  }

  function Dispatch<H>(f: Handler<H>, e: Event<H>): (Event<H>, bool) {
    if !e.hasData then (e, true)
    else
      var (h, go) := f(e.h, e.data);
      (Event("", false, h), go)
  }

  function ProcessLine<H>(f: Handler<H>, e: Event<H>, line: string): (Event<H>, bool) {
    if line == "" then Dispatch(f, e)
    else if line[0] == ':' then (e, true)
    else
      match Value(line)
      case Data(value) => (Event((if e.hasData then e.data + "\n" else e.data) + value, true, e.h), true)
      case Other => (e, true)
  }

  function LineReader<H>(f: Handler<H>): Reader<Event<H>> {
    (e: Event<H>, line: string) => ProcessLine(f, e, line)
  }

  function Feed<H>(f: Handler<H>, s: State<H>, bytes: string): (State<H>, bool) {
    var buffer := s.buffer + bytes;
    var d := Scan(LineReader(f), buffer, 0, s.event);
    (State(buffer[d.pos..], d.e), d.go)
  }

  function Finish<H>(f: Handler<H>, s: State<H>): (State<H>, bool) {
    if s.buffer == "" then
      var (e, go) := Dispatch(f, s.event);
      (State("", e), go)
    else
      var (e, go) := ProcessLine(f, s.event, StripCr(s.buffer));
      var (e', go') := if go then Dispatch(f, e) else (e, false);
      (State("", e'), go')
  }

  // Feeds piece after piece until one call says stop.
  function FeedAll<H>(f: Handler<H>, s: State<H>, pieces: seq<string>): (State<H>, bool)
    decreases |pieces|
  {
    if pieces == [] then (s, true)
    else
      var (t, go) := Feed(f, s, pieces[0]);
      if go then FeedAll(f, t, pieces[1..]) else (t, false)
  }

  // What a body means: a blank line ends an event, whose payload is the data values of its
  // lines, one per line.

  function Values(line: string): seq<string> {
    if line == "" || line[0] == ':' || Value(line).Other? then [] else [Value(line).value]
  }

  // The payloads of the events that end in these lines, after `values` seen since the last event.
  function Events(lines: seq<string>, values: seq<string>): seq<string>
    decreases |lines|
  {
    if lines == [] then []
    else if lines[0] != "" then Events(lines[1..], values + Values(lines[0]))
    else (if values == [] then [] else [Join(values, '\n')]) + Events(lines[1..], [])
  }

  // The payloads of a whole body. The end of the body also ends a line and an event.
  function Payloads(body: string): seq<string> {
    Events(Lines(body + "\n\n", 0), [])
  }

  lemma FeedLonger<H>(f: Handler<H>, s: State<H>, bytes: string, more: string)
    ensures var (t, go) := Feed(f, s, bytes);
      var (u, go') := Feed(f, s, bytes + more);
      if go then (u, go') == Feed(f, t, more) else u.event == t.event && !go'
  {
    hide Scan;
    var buffer := s.buffer + bytes;
    assert s.buffer + (bytes + more) == buffer + more;
    ScanRest(LineReader(f), buffer, more, s.event);
  }

  lemma FeedLeavesNoLine<H>(f: Handler<H>, s: State<H>, bytes: string)
    ensures var (t, go) := Feed(f, s, bytes); go ==> Find(t.buffer, '\n', 0) == |t.buffer|
  {
    var buffer := s.buffer + bytes;
    var d := Scan(LineReader(f), buffer, 0, s.event);
    ScanLeavesNoLine(LineReader(f), buffer, 0, s.event);
    Shifted(buffer, '\n', d.pos, d.pos);
  }

  lemma FeedNothing<H>(f: Handler<H>, s: State<H>)
    requires Find(s.buffer, '\n', 0) == |s.buffer|
    ensures Feed(f, s, "") == (s, true)
  {
    assert s.buffer + "" == s.buffer && s.buffer[0..] == s.buffer;
  }

  /** Feeding piece after piece is feeding everything at once: the handler ends in the same
      state and says stop or go alike, and if it says go the parsers are in the same state. */
  lemma {:induction false} PiecesDoNotMatter<H>(f: Handler<H>, s: State<H>, pieces: seq<string>)
    requires Find(s.buffer, '\n', 0) == |s.buffer|
    ensures var (t, go) := FeedAll(f, s, pieces);
      var (u, go') := Feed(f, s, Concat(pieces));
      && go == go' && t.event == u.event
      && (go ==> t == u && Find(t.buffer, '\n', 0) == |t.buffer|)
    decreases |pieces|
  {
    if pieces == [] {
      FeedNothing(f, s);
    } else {
      var (t, go) := Feed(f, s, pieces[0]);
      FeedLonger(f, s, pieces[0], Concat(pieces[1..]));
      if go {
        FeedLeavesNoLine(f, s, pieces[0]);
        PiecesDoNotMatter(f, t, pieces[1..]);
      }
    }
  }

  // `data_` and `has_data_` stand for these values.
  predicate Holds<H>(e: Event<H>, values: seq<string>) {
    e.hasData == (values != []) && e.data == Join(values, '\n')
  }

  lemma LineCollects<H>(f: Handler<H>, e: Event<H>, line: string, values: seq<string>)
    requires Holds(e, values) && line != ""
    ensures var (e', go) := ProcessLine(f, e, line); go && e'.h == e.h && Holds(e', values + Values(line))
  {
    if Values(line) != [] {
      JoinAppend(values, Values(line)[0], '\n');
    } else {
      assert values + [] == values;
    }
  }

  lemma {:induction false} LinesFold<H>(f: Handler<H>, e: Event<H>, lines: seq<string>, values: seq<string>)
    requires Holds(e, values)
    ensures var (e', go) := Fold(LineReader(f), e, lines); (e'.h, go) == Fold(f, e.h, Events(lines, values))
    decreases |lines|
  {
    if lines != [] {
      var (e', go) := ProcessLine(f, e, lines[0]);
      if lines[0] != "" {
        LineCollects(f, e, lines[0], values);
        LinesFold(f, e', lines[1..], values + Values(lines[0]));
      } else {
        var events := Events(lines, values);
        if values != [] {
          assert events[0] == e.data && events[1..] == Events(lines[1..], []);
        } else {
          assert events == Events(lines[1..], []);
        }
        if go {
          LinesFold(f, e', lines[1..], []);
        }
      }
    }
  }

  /** finish() shows the handler what feeding two newlines would. */
  lemma FinishIsTwoNewlines<H>(f: Handler<H>, s: State<H>)
    requires Find(s.buffer, '\n', 0) == |s.buffer| && Clean(s.event)
    ensures var (t, go) := Finish(f, s); var (u, go') := Feed(f, s, "\n\n"); t.event.h == u.event.h && go == go'
  {
    var n, r := |s.buffer|, LineReader(f);
    var b := s.buffer + "\n\n";
    NoneBefore(s.buffer, '\n', 0);
    FindIs(b, '\n', 0, n);
    UntilIsSlice(b, '\n', 0);
    assert b[0..n] == s.buffer;
    var (e, go) := ProcessLine(f, s.event, StripCr(s.buffer));
    assert Scan(r, b, 0, s.event) == if go then Scan(r, b, n + 1, e) else Scanned(n + 1, e, false);
    LastNewline(f, b, n + 1, e);
  }

  lemma LastNewline<H>(f: Handler<H>, b: string, n: nat, e: Event<H>)
    requires |b| == n + 1 && b[n] == '\n'
    ensures var (e', go) := Dispatch(f, e); Scan(LineReader(f), b, n, e) == Scanned(n + 1, e', go)
  {
  }

  predicate Clean<H>(e: Event<H>) {
    e.hasData || e.data == ""
  }

  lemma LineKeepsClean<H>(f: Handler<H>, e: Event<H>, line: string)
    requires Clean(e)
    ensures Clean(ProcessLine(f, e, line).0)
  {
  }

  lemma ScanKeepsClean<H(!new)>(f: Handler<H>, buffer: string, start: nat, e: Event<H>)
    requires start <= |buffer| && Clean(e)
    ensures Clean(Scan(LineReader(f), buffer, start, e).e)
  {
    var clean := (x: Event<H>) => Clean(x);
    forall x, line | clean(x)
      ensures clean(LineReader(f)(x, line).0)
    {
      LineKeepsClean(f, x, line);
    }
    ScanKeeps(LineReader(f), clean, clean, buffer, start, e);
  }

  function Start<H>(h: H): State<H> {
    State("", Event("", false, h))
  }

  // Feeding alone hands over the events that end in the body.
  lemma FeedingIsFold<H>(f: Handler<H>, h: H, pieces: seq<string>)
    ensures var (t, go) := FeedAll(f, Start(h), pieces);
      (t.event.h, go) == Fold(f, h, Events(Lines(Concat(pieces), 0), []))
  {
    var s, body := Start(h), Concat(pieces);
    PiecesDoNotMatter(f, s, pieces);
    assert s.buffer + body == body;
    ScanIsFold(LineReader(f), body, 0, s.event);
    LinesFold(f, s.event, Lines(body, 0), []);
  }

  /** The parser as a whole: however a body is cut into pieces, feeding them and finishing
      hands the handler the payloads of the body, in order, until it says stop. */
  lemma BodyIsFold<H(!new)>(f: Handler<H>, h: H, pieces: seq<string>)
    ensures var (t, go) := FeedAll(f, Start(h), pieces);
      var (u, go') := if go then Finish(f, t) else (t, false);
      (u.event.h, go') == Fold(f, h, Payloads(Concat(pieces)))
  {
    var s, body := Start(h), Concat(pieces);
    PiecesDoNotMatter(f, s, pieces);
    FeedLonger(f, s, body, "\n\n");
    assert s.buffer + (body + "\n\n") == body + "\n\n" && s.buffer + body == body;
    ScanIsFold(LineReader(f), body + "\n\n", 0, s.event);
    LinesFold(f, s.event, Lines(body + "\n\n", 0), []);
    var (t, go) := FeedAll(f, s, pieces);
    if go {
      ScanKeepsClean(f, body, 0, s.event);
      FinishIsTwoNewlines(f, t);
    }
  }
}

/**
 The class, whose operations do with its fields what the functions above say.
 */
module SseParsing {
  import ES = EventStream
  import opened LineReading
  import opened Strings

  class SseParser<H> {
    const handler: ES.Handler<H>
    var h: H
    var buffer: string
    var data: string
    var hasData: bool

    constructor (handler: ES.Handler<H>, h: H)
      ensures this.handler == handler && View() == ES.Start(h)
    {
      this.handler, this.h := handler, h;
      buffer, data, hasData := "", "", false;
    }

    ghost function Collected(): ES.Event<H>
      reads this`data, this`hasData, this`h
    {
      ES.Event(data, hasData, h)
    }

    ghost function View(): ES.State<H>
      reads this
    {
      ES.State(buffer, Collected())
    }

    method Feed(bytes: string) returns (go: bool)
      modifies this
      ensures (View(), go) == ES.Feed(handler, old(View()), bytes)
    {
      buffer := buffer + bytes;
      var start: nat;
      start, go := ScanLines();
      buffer := buffer[start..];
    }

    // The loop over the complete lines.
    method ScanLines() returns (start: nat, go: bool)
      modifies this`data, this`hasData, this`h
      ensures Scanned(start, Collected(), go) == Scan(ES.LineReader(handler), buffer, 0, old(Collected()))
    {
      start, go := 0, true;
      ghost var goal := Scan(ES.LineReader(handler), buffer, 0, Collected());
      while go
        invariant start <= |buffer|
        invariant goal == if go then Scan(ES.LineReader(handler), buffer, start, Collected())
                          else Scanned(start, Collected(), false)
        decreases |buffer| - start
      {
        var newline := Find(buffer, '\n', start);
        if newline == |buffer| {
          break;
        }
        UntilIsSlice(buffer, '\n', start);
        var line := WithoutCr(buffer[start..newline]);
        go := ProcessLine(line);
        start := newline + 1;
      }
    }

    method WithoutCr(bytes: string) returns (line: string)
      ensures line == StripCr(bytes)
    {
      line := bytes;
      if line != "" && line[|line| - 1] == '\r' {
        line := line[..|line| - 1];
      }
    }

    method Finish() returns (go: bool)
      modifies this
      ensures (View(), go) == ES.Finish(handler, old(View()))
    {
      if buffer != "" {
        var rest := WithoutCr(buffer);
        buffer := "";
        go := ProcessLine(rest);
        if !go {
          return;
        }
      }
      go := Dispatch();
    }

    method ProcessLine(line: string) returns (go: bool)
      modifies this`data, this`hasData, this`h
      ensures (Collected(), go) == ES.ProcessLine(handler, old(Collected()), line)
    {
      if line == "" {
        go := Dispatch();
        return;
      }
      if line[0] == ':' {
        return true;
      }
      var field, value := line, "";
      var colon := Find(line, ':', 0);
      if colon != |line| {
        field, value := line[..colon], line[colon + 1..];
        if value != "" && value[0] == ' ' {
          value := value[1..];
        }
      } else {
        assert line[..colon] == line;
      }
      if ES.IsData(field) {
        if hasData {
          data := data + "\n";
        }
        data := data + value;
        hasData := true;
      }
      return true;
    }

    method Dispatch() returns (go: bool)
      modifies this`data, this`hasData, this`h
      ensures (Collected(), go) == ES.Dispatch(handler, old(Collected()))
    {
      if !hasData {
        return true;
      }
      var event := data;
      data := "";
      hasData := false;
      var (h', more) := handler(h, event);
      h := h';
      return more;
    }
  }
}
