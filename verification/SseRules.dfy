/**
 What an event stream says, written out: lines of data, comments and other fields, ended by LF or CRLF, and
 blank lines between events (section 9.2.6 of the WHATWG HTML standard, without lone CR and byte order mark).
 */
module SseRules {
  import opened EventStream
  import opened LineReading
  import opened Strings

  datatype Written =
    | Data(value: string)
    | DataUnspaced(value: string)
    | DataNamed
    | Comment(text: string)
    | Field(name: string, value: string)

  predicate NoBreak(s: string) {
    forall i :: 0 <= i < |s| ==> s[i] != '\n' && s[i] != '\r'
  }

  predicate IsLine(w: Written) {
    match w
    case Data(v) => NoBreak(v)
    case DataUnspaced(v) => NoBreak(v) && (v != "" ==> v[0] != ' ')
    case DataNamed => true
    case Comment(t) => NoBreak(t)
    case Field(n, v) => n != "" && n != "data" && NoBreak(n) && NoBreak(v) && forall i :: 0 <= i < |n| ==> n[i] != ':'
  }

  function TextOf(w: Written): string {
    match w
    case Data(v) => "data: " + v
    case DataUnspaced(v) => "data:" + v
    case DataNamed => "data"
    case Comment(t) => ":" + t
    case Field(n, v) => n + ":" + v
  }

  function ValuesOf(w: Written): seq<string> {
    match w
    case Data(v) => [v]
    case DataUnspaced(v) => [v]
    case DataNamed => [""]
    case _ => []
  }

  function LineEnd(crlf: bool): string {
    if crlf then "\r\n" else "\n"
  }

  // Lines, and a blank one after them.

  function TextOfLines(ws: seq<Written>, crlf: bool): string {
    if ws == [] then LineEnd(crlf) else TextOf(ws[0]) + LineEnd(crlf) + TextOfLines(ws[1..], crlf)
  }

  function AllValues(ws: seq<Written>): seq<string> {
    if ws == [] then [] else ValuesOf(ws[0]) + AllValues(ws[1..])
  }

  function TextOfEvents(events: seq<seq<Written>>, crlf: bool): string {
    if events == [] then "" else TextOfLines(events[0], crlf) + TextOfEvents(events[1..], crlf)
  }

  // One payload for each event with data: its values, with line feeds between them.
  function AllPayloads(events: seq<seq<Written>>): seq<string> {
    if events == [] then []
    else
      (if AllValues(events[0]) == [] then [] else [Join(AllValues(events[0]), '\n')]) + AllPayloads(events[1..])
  }

  predicate AllLines(events: seq<seq<Written>>) {
    forall i :: 0 <= i < |events| ==> forall j :: 0 <= j < |events[i]| ==> IsLine(events[i][j])
  }

  // Lines one by one

  lemma {:induction false} LinesShifted(s: string, k: nat, from: nat)
    requires k <= from <= |s|
    ensures Lines(s[k..], from - k) == Lines(s, from)
    decreases |s| - from
  {
    hide Find, Until, StripCr, Lines;
    Shifted(s, '\n', from, k);
    LinesStep(s, from);
    LinesStep(s[k..], from - k);
    var n := Find(s, '\n', from);
    if n < |s| {
      LinesShifted(s, k, n + 1);
    }
  }

  lemma LinesStep(body: string, start: nat)
    requires start <= |body|
    ensures var n := Find(body, '\n', start);
      Lines(body, start) ==
      if n == |body| then [] else [StripCr(Until(body, '\n', start))] + Lines(body, n + 1)
  {
    hide Find, Until, StripCr;
  }

  lemma FirstLine(line: string, crlf: bool, rest: string)
    requires NoBreak(line)
    ensures Lines(line + LineEnd(crlf) + rest, 0) == [line] + Lines(rest, 0)
  {
    var s := line + LineEnd(crlf) + rest;
    var n := |line + LineEnd(crlf)| - 1;
    LineIsUntil(line, crlf, rest);
    LinesShifted(s, n + 1, n + 1);
    assert s[n + 1..] == rest;
  }

  lemma LineIsUntil(line: string, crlf: bool, rest: string)
    requires NoBreak(line)
    ensures var s, n := line + LineEnd(crlf) + rest, |line + LineEnd(crlf)| - 1;
      n < |s| && Find(s, '\n', 0) == n && StripCr(Until(s, '\n', 0)) == line
  {
    var s, n := line + LineEnd(crlf) + rest, |line + LineEnd(crlf)| - 1;
    FindIs(s, '\n', 0, n);
    UntilIsSlice(s, '\n', 0);
    if crlf {
      assert s[0..n] == line + "\r";
    } else {
      assert s[0..n] == line;
    }
  }

  lemma ValuesAre(w: Written)
    requires IsLine(w)
    ensures TextOf(w) != "" && NoBreak(TextOf(w)) && Values(TextOf(w)) == ValuesOf(w)
  {
    var line := TextOf(w);
    match w
    case Data(v) =>
      FindIs(line, ':', 0, 4);
      assert line[5..] == " " + v && (" " + v)[1..] == v;
    case DataUnspaced(v) =>
      FindIs(line, ':', 0, 4);
      assert line[5..] == v;
    case DataNamed => FindIs(line, ':', 0, 4);
    case Comment(_) =>
    case Field(n, v) => FieldHasNoValue(n, v);
  }

  lemma FieldHasNoValue(name: string, value: string)
    requires IsLine(Field(name, value))
    ensures TextOf(Field(name, value)) != "" && NoBreak(TextOf(Field(name, value)))
    ensures Values(TextOf(Field(name, value))) == []
  {
    var line := TextOf(Field(name, value));
    FindIs(line, ':', 0, |name|);
    assert line[..|name|] == name;
    DataIs(name);
  }

  lemma DataIs(name: string)
    ensures IsData(name) <==> name == "data"
  {
  }

  // The payload of an event with these values, if it has one.
  function Payload(values: seq<string>): seq<string> {
    if values == [] then [] else [Join(values, '\n')]
  }

  lemma BlankLine(crlf: bool, rest: string, values: seq<string>)
    ensures Events(Lines(LineEnd(crlf) + rest, 0), values) == Payload(values) + Events(Lines(rest, 0), [])
  {
    assert "" + LineEnd(crlf) + rest == LineEnd(crlf) + rest;
    FirstLine("", crlf, rest);
    hide Lines, Join, LineEnd;
    assert ([""] + Lines(rest, 0))[1..] == Lines(rest, 0);
  }

  lemma OneMoreLine(w: Written, crlf: bool, more: string, values: seq<string>)
    requires IsLine(w)
    ensures Events(Lines(TextOf(w) + LineEnd(crlf) + more, 0), values) == Events(Lines(more, 0), values + ValuesOf(w))
  {
    hide Lines, Events, LineEnd, ValuesOf, Values, TextOf, IsLine;
    ValuesAre(w);
    FirstLine(TextOf(w), crlf, more);
    NextLine(TextOf(w), Lines(more, 0), values);
  }

  lemma TextGrows(ws: seq<Written>, crlf: bool, rest: string)
    requires ws != []
    ensures TextOfLines(ws, crlf) + rest == TextOf(ws[0]) + LineEnd(crlf) + (TextOfLines(ws[1..], crlf) + rest)
  {
  }

  lemma ValuesGrow(ws: seq<Written>, values: seq<string>)
    requires ws != []
    ensures values + AllValues(ws) == values + ValuesOf(ws[0]) + AllValues(ws[1..])
  {
  }

  lemma {:induction false} LinesOfEvent(ws: seq<Written>, crlf: bool, rest: string, values: seq<string>)
    requires forall j :: 0 <= j < |ws| ==> IsLine(ws[j])
    ensures Events(Lines(TextOfLines(ws, crlf) + rest, 0), values)
         == Payload(values + AllValues(ws)) + Events(Lines(rest, 0), [])
    decreases |ws|
  {
    hide Lines, Events, Payload, TextOf, ValuesOf, LineEnd, IsLine;
    if ws == [] {
      BlankLine(crlf, rest, values);
      assert values + [] == values;
    } else {
      TextGrows(ws, crlf, rest);
      ValuesGrow(ws, values);
      OneMoreLine(ws[0], crlf, TextOfLines(ws[1..], crlf) + rest, values);
      LinesOfEvent(ws[1..], crlf, rest, values + ValuesOf(ws[0]));
    }
  }

  lemma NextLine(line: string, lines: seq<string>, values: seq<string>)
    requires line != ""
    ensures Events([line] + lines, values) == Events(lines, values + Values(line))
  {
    assert ([line] + lines)[1..] == lines;
  }

  /** The handler is given, for each event with data, its data lines, with line feeds between them: one
      space after the colon is not part of a line, and comments and other fields count for nothing. */
  lemma {:induction false} EventsAreWritten(events: seq<seq<Written>>, crlf: bool)
    requires AllLines(events)
    ensures Events(Lines(TextOfEvents(events, crlf), 0), []) == AllPayloads(events)
    decreases |events|
  {
    if events != [] {
      hide Lines, Events, TextOfLines, AllValues, IsLine;
      LinesOfEvent(events[0], crlf, TextOfEvents(events[1..], crlf), []);
      assert [] + AllValues(events[0]) == AllValues(events[0]);
      EventsAreWritten(events[1..], crlf);
    }
  }

  /** A parser that is fed such a body, in any pieces, hands over exactly these payloads. */
  lemma ParserReadsWritten<H(!new)>(f: Handler<H>, h: H, pieces: seq<string>, events: seq<seq<Written>>, crlf: bool)
    requires AllLines(events) && Concat(pieces) == TextOfEvents(events, crlf)
    ensures var (t, go) := FeedAll(f, Start(h), pieces); (t.event.h, go) == Fold(f, h, AllPayloads(events))
  {
    EventsAreWritten(events, crlf);
    FeedingIsFold(f, h, pieces);
  }
}
