/**
 How run_process in src/eval/process.cpp captures a child's output: up to a cap, and with the first
 occurrence of a start marker taken out, found by a windowed search as the output arrives.
 */
module MarkerCapture {
  import opened Sequences
  import opened Strings
  import opened Wrappers

  predicate OccursAt(s: string, m: string, i: nat) {
    i + |m| <= |s| && s[i..i + |m|] == m
  }

  ghost predicate Occurs(s: string, m: string) {
    exists i: nat :: OccursAt(s, m, i)
  }

  // The first occurrence at or after `from`.
  function FindIn(s: string, m: string, from: nat): (r: Option<nat>)
    ensures r.Some? ==> from <= r.value && OccursAt(s, m, r.value)
    ensures r.None? ==> forall i: nat :: from <= i ==> !OccursAt(s, m, i)
    ensures r.Some? ==> forall i: nat :: from <= i < r.value ==> !OccursAt(s, m, i)
    decreases |s| - from
  {
    if from > |s| then None
    else if OccursAt(s, m, from) then Some(from)
    else if from == |s| then None
    else FindIn(s, m, from + 1)
  }

  function Erase(s: string, at: nat, n: nat): string
    requires at + n <= |s|
  {
    s[..at] + s[at + n..]
  }

  // The whole-string definition: s without its first occurrence of m, if it has one.
  function WithoutFirst(s: string, m: string): string {
    match FindIn(s, m, 0)
    case None => s
    case Some(at) => Erase(s, at, |m|)
  }

  datatype Options = Options(marker: string, maxBytes: nat)

  // started: the marker has been seen.
  datatype Capture = Capture(output: string, truncated: bool, started: bool)

  const NOTHING := Capture("", false, false)

  // The output with what there is room for of the bytes read.
  function Appended(o: Options, output: string, bytes: string): string {
    output + First(bytes, if |output| < o.maxBytes then o.maxBytes - |output| else 0)
  }

  // Where an occurrence that the last read completed can begin at the earliest.
  function WindowStart(before: nat, marker: string): nat {
    if before >= |marker| then before - |marker| else 0
  }

  function Received(o: Options, c: Capture, bytes: string): Capture {
    var output := Appended(o, c.output, bytes);
    Capture(output, c.truncated || |output| < |c.output| + |bytes|, c.started)
  }

  // The search after a read, before which there were so many bytes.
  function Searched(o: Options, c: Capture, before: nat): Capture {
    if o.marker == "" || c.started then c
    else
      match FindIn(c.output, o.marker, WindowStart(before, o.marker))
      case None => c
      case Some(at) => c.(output := Erase(c.output, at, |o.marker|), started := true)
  }

  // After one read.
  function OnRead(o: Options, c: Capture, bytes: string): Capture {
    Searched(o, Received(o, c, bytes), |c.output|)
  }

  function Captured(o: Options, pieces: seq<string>): Capture {
    if pieces == [] then NOTHING else OnRead(o, Captured(o, pieces[..|pieces| - 1]), pieces[|pieces| - 1])
  }

  // The stream as far as it counts: the read that brings the marker into the output may also
  // overflow it, and then loses the bytes beyond the cap. Other bytes that are dropped would not
  // fit in the end either.
  function Kept(o: Options, pieces: seq<string>): string {
    if pieces == [] then ""
    else
      var front, bytes := pieces[..|pieces| - 1], pieces[|pieces| - 1];
      var all := Kept(o, front) + bytes;
      if Captured(o, pieces).started && !Captured(o, front).started then First(all, o.maxBytes) else all
  }

  // How the capture shows the stream.
  ghost predicate Shows(o: Options, c: Capture, kept: string) {
    if c.started then
      && o.marker != "" && Occurs(First(kept, o.maxBytes), o.marker)
      && c.output == First(WithoutFirst(kept, o.marker), o.maxBytes)
    else
      && c.output == First(kept, o.maxBytes)
      && (o.marker != "" ==> !Occurs(c.output, o.marker))
  }

  lemma AppendedIsFirst(o: Options, s: string, bytes: string)
    ensures Appended(o, First(s, o.maxBytes), bytes) == First(s + bytes, o.maxBytes)
  {
  }

  // Old occurrences remain, and a new one ends in the new part.
  lemma OccursInPrefix(s: string, t: string, m: string, i: nat)
    requires s <= t && i + |m| <= |s|
    ensures OccursAt(s, m, i) <==> OccursAt(t, m, i)
  {
  }

  lemma FindIs(s: string, m: string, from: nat, at: nat)
    requires from <= at && OccursAt(s, m, at) && forall i: nat :: from <= i < at ==> !OccursAt(s, m, i)
    ensures FindIn(s, m, from) == Some(at)
  {
  }

  /** The windowed search finds what a search of the whole output would find. */
  lemma WindowMissesNothing(was: string, now: string, m: string)
    requires m != "" && was <= now && !Occurs(was, m)
    ensures FindIn(now, m, WindowStart(|was|, m)) == FindIn(now, m, 0)
  {
    var from := WindowStart(|was|, m);
    forall i: nat | i < from
      ensures !OccursAt(now, m, i)
    {
      OccursInPrefix(was, now, m, i);
    }
    match FindIn(now, m, from)
    case Some(at) => FindIs(now, m, 0, at);
    case None =>
      assert forall i: nat :: !OccursAt(now, m, i);
  }

  lemma FirstFoundInPrefix(s: string, t: string, m: string, at: nat)
    requires s <= t && FindIn(s, m, 0) == Some(at)
    ensures FindIn(t, m, 0) == Some(at)
  {
    forall i: nat | i <= at
      ensures OccursAt(t, m, i) <==> OccursAt(s, m, i)
    {
      OccursInPrefix(s, t, m, i);
    }
    FindIs(t, m, 0, at);
  }

  lemma EraseInFront(s: string, t: string, at: nat, n: nat)
    requires at + n <= |s|
    ensures Erase(s + t, at, n) == Erase(s, at, n) + t
  {
  }

  lemma StartedShows(o: Options, c: Capture, kept: string, bytes: string)
    requires c.started && Shows(o, c, kept)
    ensures Shows(o, OnRead(o, c, bytes), kept + bytes)
  {
    var all := kept + bytes;
    var prefix := First(kept, o.maxBytes);
    var at := FindIn(prefix, o.marker, 0).value;
    FirstFoundInPrefix(prefix, kept, o.marker, at);
    FirstFoundInPrefix(prefix, all, o.marker, at);
    EraseInFront(kept, bytes, at, |o.marker|);
    AppendedIsFirst(o, WithoutFirst(kept, o.marker), bytes);
    OccursInPrefix(prefix, First(all, o.maxBytes), o.marker, at);
  }

  lemma FoundShows(o: Options, c: Capture, kept: string, bytes: string)
    requires !c.started && Shows(o, c, kept) && OnRead(o, c, bytes).started
    ensures Shows(o, OnRead(o, c, bytes), First(kept + bytes, o.maxBytes))
  {
    var output := First(kept + bytes, o.maxBytes);
    AppendedIsFirst(o, kept, bytes);
    WindowMissesNothing(c.output, output, o.marker);
  }

  lemma NotFoundShows(o: Options, c: Capture, kept: string, bytes: string)
    requires !c.started && Shows(o, c, kept) && !OnRead(o, c, bytes).started
    ensures Shows(o, OnRead(o, c, bytes), kept + bytes)
  {
    AppendedIsFirst(o, kept, bytes);
    if o.marker != "" {
      WindowMissesNothing(c.output, First(kept + bytes, o.maxBytes), o.marker);
    }
  }

  /**
   However the output arrives: until the marker has been seen the capture is the stream up to the
   cap, which does not contain the marker; from then on it is, up to the cap, the kept stream
   without its first marker.
   */
  lemma {:induction false} CaptureShowsStream(o: Options, pieces: seq<string>)
    ensures Shows(o, Captured(o, pieces), Kept(o, pieces))
  {
    if pieces == [] {
      if i: nat :| OccursAt("", o.marker, i) {
        assert o.marker == "";
      }
    } else {
      var front, bytes := pieces[..|pieces| - 1], pieces[|pieces| - 1];
      CaptureShowsStream(o, front);
      var c := Captured(o, front);
      if c.started {
        StartedShows(o, c, Kept(o, front), bytes);
      } else if OnRead(o, c, bytes).started {
        FoundShows(o, c, Kept(o, front), bytes);
      } else {
        NotFoundShows(o, c, Kept(o, front), bytes);
      }
    }
  }

  /** The capture never exceeds the cap. */
  lemma {:induction false} CaptureIsCapped(o: Options, pieces: seq<string>)
    ensures |Captured(o, pieces).output| <= o.maxBytes
  {
    CaptureShowsStream(o, pieces);
  }

  lemma {:induction false} ConcatSplits(pieces: seq<string>, last: string)
    ensures Concat(pieces + [last]) == Concat(pieces) + last
  {
    if pieces != [] {
      assert (pieces + [last])[1..] == pieces[1..] + [last];
      ConcatSplits(pieces[1..], last);
    }
  }

  lemma {:induction false} AllKept(o: Options, pieces: seq<string>)
    requires |Concat(pieces)| <= o.maxBytes
    ensures Kept(o, pieces) == Concat(pieces) && !Captured(o, pieces).truncated
  {
    if pieces != [] {
      hide OnRead, Shows;
      var front, bytes := pieces[..|pieces| - 1], pieces[|pieces| - 1];
      assert pieces == front + [bytes];
      ConcatSplits(front, bytes);
      AllKept(o, front);
      CaptureShowsStream(o, front);
      ShowsBounded(o, Captured(o, front), Kept(o, front));
      NothingLost(o, Captured(o, front), bytes);
    }
  }

  lemma ShowsBounded(o: Options, c: Capture, kept: string)
    requires Shows(o, c, kept)
    ensures |c.output| <= |kept|
  {
  }

  lemma NothingLost(o: Options, c: Capture, bytes: string)
    requires |c.output| + |bytes| <= o.maxBytes
    ensures OnRead(o, c, bytes).truncated == c.truncated
  {
    hide FindIn;
  }

  /**
   An output that fits is captured whole, however it is cut into pieces: without its first marker,
   if it contains one, and unchanged otherwise.
   */
  lemma CaptureIsExact(o: Options, pieces: seq<string>)
    requires |Concat(pieces)| <= o.maxBytes
    ensures var c, all := Captured(o, pieces), Concat(pieces);
      && !c.truncated
      && (c.started <==> o.marker != "" && Occurs(all, o.marker))
      && c.output == if o.marker == "" then all else WithoutFirst(all, o.marker)
  {
    AllKept(o, pieces);
    CaptureShowsStream(o, pieces);
    NeverStarted(o, pieces);
  }

  lemma {:induction false} NeverStarted(o: Options, pieces: seq<string>)
    ensures o.marker == "" ==> !Captured(o, pieces).started
  {
    if pieces != [] {
      NeverStarted(o, pieces[..|pieces| - 1]);
    }
  }

  /** The capture is marked as truncated exactly when bytes of the output other than its marker are missing
      from it. */
  lemma {:induction false} TruncatedIffLost(o: Options, pieces: seq<string>)
    ensures var c := Captured(o, pieces);
      var shown := |c.output| + if c.started then |o.marker| else 0;
      shown <= |Concat(pieces)| && (c.truncated <==> shown < |Concat(pieces)|)
  {
    if pieces != [] {
      var front, bytes := pieces[..|pieces| - 1], pieces[|pieces| - 1];
      assert pieces == front + [bytes];
      ConcatSplits(front, bytes);
      TruncatedIffLost(o, front);
      ReadCounts(o, Captured(o, front), bytes);
    }
  }

  // How many bytes a read adds to what is shown, and when it loses some.
  lemma ReadCounts(o: Options, c: Capture, bytes: string)
    ensures var d := OnRead(o, c, bytes);
      var was, now := |c.output| + if c.started then |o.marker| else 0,
                      |d.output| + if d.started then |o.marker| else 0;
      now <= was + |bytes| && (d.truncated <==> c.truncated || now < was + |bytes|)
  {
    hide FindIn;
  }

  // With room for three bytes, and "ab" as the marker.
  const SMALL := Options("ab", 3)

  lemma MarkerSeen(bytes: string)
    requires First(bytes, 3) == "xab"
    ensures OnRead(SMALL, NOTHING, bytes) == Capture("x", |bytes| > 3, true)
  {
    FoundInSmall();
    hide FindIn, Erase, First;
    assert [] + First(bytes, 3) == First(bytes, 3);
    FirstIsShorter(bytes, 3);
  }

  lemma FoundInSmall()
    ensures FindIn("xab", "ab", 0) == Some(1) && Erase("xab", 1, 2) == "x"
  {
    assert "xab"[0..2][0] != "ab"[0];
    FindIs("xab", "ab", 0, 1);
  }

  lemma FirstIsShorter(s: string, n: nat)
    ensures |First(s, n)| < |s| <==> |s| > n
  {
  }

  lemma CapturedMore(o: Options, pieces: seq<string>, last: string)
    ensures Captured(o, pieces + [last]) == OnRead(o, Captured(o, pieces), last)
  {
  }

  lemma CapturedTwo(o: Options, first: string, second: string)
    ensures Captured(o, [first, second]) == OnRead(o, OnRead(o, NOTHING, first), second)
  {
    CapturedMore(o, [], first);
    CapturedMore(o, [first], second);
    assert [] + [first] == [first] && [first] + [second] == [first, second];
  }

  /** An output that does not fit can be captured differently when it is read differently, each time with room
      for 16384 bytes at a time. */
  lemma CuttingCanMatter()
    ensures IsRead("xabZQ", ["xabZ", "Q"], 16_384) && IsRead("xabZQ", ["xab", "ZQ"], 16_384)
    ensures Captured(SMALL, ["xabZ", "Q"]).output == "xQ"
    ensures Captured(SMALL, ["xab", "ZQ"]).output == "xZQ"
  {
    assert First("xabZ", 3) == "xab" && First("xab", 3) == "xab";
    MarkerSeen("xabZ");
    MarkerSeen("xab");
    AfterMarker(true, "Q");
    AfterMarker(false, "ZQ");
    assert "x" + "Q" == "xQ" && "x" + "ZQ" == "xZQ";
    hide OnRead, Captured, Concat;
    CapturedTwo(SMALL, "xabZ", "Q");
    CapturedTwo(SMALL, "xab", "ZQ");
    IsReadTwo("xabZ", "Q", 16_384);
    IsReadTwo("xab", "ZQ", 16_384);
    assert "xabZ" + "Q" == "xabZQ" == "xab" + "ZQ";
  }

  lemma AfterMarker(truncated: bool, bytes: string)
    requires |bytes| <= 2
    ensures OnRead(SMALL, Capture("x", truncated, true), bytes).output == "x" + bytes
  {
  }

  lemma IsReadTwo(a: string, b: string, n: nat)
    requires 0 < |a| <= n && 0 < |b| <= n
    ensures IsRead(a + b, [a, b], n)
  {
    assert Concat([b]) == b + Concat([]);
    assert [a, b][1..] == [b];
  }

  // Losing bytes changes nothing below the cap.
  lemma {:induction false} KeptBelowCap(o: Options, pieces: seq<string>)
    ensures First(Kept(o, pieces), o.maxBytes) == First(Concat(pieces), o.maxBytes)
    ensures Kept(o, pieces) == Concat(pieces) || |Kept(o, pieces)| >= o.maxBytes
  {
    if pieces != [] {
      var front, bytes := pieces[..|pieces| - 1], pieces[|pieces| - 1];
      assert pieces == front + [bytes];
      ConcatSplits(front, bytes);
      KeptBelowCap(o, front);
      SameBelow(Kept(o, front), Concat(front), bytes, o.maxBytes);
    }
  }

  lemma SameBelow(s: string, t: string, more: string, n: nat)
    requires First(s, n) == First(t, n) && (s == t || |s| >= n)
    ensures First(s + more, n) == First(t + more, n)
    ensures First(First(s + more, n), n) == First(s + more, n)
    ensures First(s + more, n) == t + more || |First(s + more, n)| >= n
  {
  }

  lemma CaptureWithoutMarker(o: Options, pieces: seq<string>)
    requires o.marker == "" || !Occurs(First(Concat(pieces), o.maxBytes), o.marker)
    ensures Captured(o, pieces).output == First(Concat(pieces), o.maxBytes)
  {
    CaptureShowsStream(o, pieces);
    KeptBelowCap(o, pieces);
    NeverStarted(o, pieces);
  }

  // Reads

  // The stream is read in these pieces, with room for n bytes at a time.
  ghost predicate IsRead(all: string, pieces: seq<string>, n: nat) {
    Concat(pieces) == all && forall i :: 0 <= i < |pieces| ==> 0 < |pieces[i]| <= n
  }

  // How much of the stream has been read when the marker has been seen.
  function SeenEnd(o: Options, pieces: seq<string>): nat {
    if pieces == [] then 0
    else
      var front := pieces[..|pieces| - 1];
      if Captured(o, front).started then SeenEnd(o, front) else |Concat(pieces)|
  }

  // The stream without what the read that ends at `end` loses.
  function Lossy(all: string, cap: nat, end: nat): string
    requires end <= |all|
  {
    First(all[..end], cap) + all[end..]
  }

  // Where the first marker ends, if the stream contains one.
  function MarkerEnd(o: Options, all: string): Option<nat> {
    match FindIn(all, o.marker, 0)
    case None => None
    case Some(at) => Some(at + |o.marker|)
  }

  // The first marker lies before the cap, and a read of at most n bytes that ends at `end` can be the first to show it.
  ghost predicate SeenBy(o: Options, all: string, n: nat, end: nat) {
    && o.marker != ""
    && MarkerEnd(o, all).Some?
    && MarkerEnd(o, all).value <= o.maxBytes
    && MarkerEnd(o, all).value <= end <= |all|
    && end < MarkerEnd(o, all).value + n
  }

  lemma LossyGrows(all: string, more: string, cap: nat, end: nat)
    requires end <= |all|
    ensures Lossy(all + more, cap, end) == Lossy(all, cap, end) + more
  {
    assert (all + more)[..end] == all[..end] && (all + more)[end..] == all[end..] + more;
  }

  /** What is lost depends only on where the read ends that shows the marker; and it ends less than a
      read after the marker. */
  lemma {:induction false} KeptIsLossy(o: Options, all: string, pieces: seq<string>, n: nat)
    requires IsRead(all, pieces, n)
    ensures !Captured(o, pieces).started ==> Kept(o, pieces) == all
    ensures Captured(o, pieces).started ==>
              && SeenBy(o, all, n, SeenEnd(o, pieces))
              && Kept(o, pieces) == Lossy(all, o.maxBytes, SeenEnd(o, pieces))
    decreases |pieces|
  {
    hide OnRead, Lossy, SeenBy;
    if pieces != [] {
      var front, bytes := pieces[..|pieces| - 1], pieces[|pieces| - 1];
      assert pieces == front + [bytes];
      ConcatSplits(front, bytes);
      KeptIsLossy(o, Concat(front), front, n);
      if Captured(o, front).started {
        StaysStarted(o, Captured(o, front), bytes);
        StillSeen(o, Concat(front), bytes, n, SeenEnd(o, front));
      } else if Captured(o, pieces).started {
        SeenNow(o, all, front, bytes, n);
      }
    }
  }

  lemma StaysStarted(o: Options, c: Capture, bytes: string)
    ensures c.started ==> OnRead(o, c, bytes).started
  {
  }

  lemma StillSeen(o: Options, was: string, bytes: string, n: nat, end: nat)
    requires SeenBy(o, was, n, end)
    ensures SeenBy(o, was + bytes, n, end)
    ensures Lossy(was + bytes, o.maxBytes, end) == Lossy(was, o.maxBytes, end) + bytes
  {
    FirstFoundInPrefix(was, was + bytes, o.marker, FindIn(was, o.marker, 0).value);
    LossyGrows(was, bytes, o.maxBytes, end);
  }

  // The marker is not in what had been read before.
  lemma SeenNow(o: Options, all: string, front: seq<string>, bytes: string, n: nat)
    requires all == Concat(front) + bytes && |bytes| <= n && Kept(o, front) == Concat(front)
    requires !Captured(o, front).started && Captured(o, front + [bytes]).started
    requires Kept(o, front + [bytes]) == First(all, o.maxBytes)
    ensures SeenBy(o, all, n, |all|)
    ensures Kept(o, front + [bytes]) == Lossy(all, o.maxBytes, |all|)
  {
    hide Captured, Kept, OnRead;
    var was, prefix := First(Concat(front), o.maxBytes), First(all, o.maxBytes);
    CaptureShowsStream(o, front);
    CaptureShowsStream(o, front + [bytes]);
    assert prefix == First(prefix, o.maxBytes);
    var at := FindIn(prefix, o.marker, 0).value;
    FirstFoundInPrefix(prefix, all, o.marker, at);
    if at + |o.marker| <= |was| {
      OccursInPrefix(was, prefix, o.marker, at);
    }
    assert all[..|all|] == all;
  }

  // What is captured of a stream that overflows, if the marker is seen by a read that ends at `end`.
  function Overflowing(o: Options, all: string, at: nat, end: nat): string
    requires at + |o.marker| <= o.maxBytes < |all| && end <= |all|
  {
    Erase(all[..o.maxBytes], at, |o.marker|) + First(all[if end < o.maxBytes then o.maxBytes else end..], |o.marker|)
  }

  lemma LossyIs(all: string, cap: nat, end: nat)
    requires cap < |all| && end <= |all|
    ensures Lossy(all, cap, end) == all[..cap] + all[if end < cap then cap else end..]
  {
    if end <= cap {
      assert all[..end] + all[end..] == all == all[..cap] + all[cap..];
    } else {
      assert all[..end][..cap] == all[..cap];
    }
  }

  lemma FirstOfLonger(front: string, rest: string, n: nat)
    requires |front| <= n
    ensures First(front + rest, n) == front + First(rest, n - |front|)
  {
  }

  lemma FoundInFront(s: string, m: string, n: nat, at: nat)
    requires n <= |s| && FindIn(s, m, 0) == Some(at) && at + |m| <= n
    ensures FindIn(s[..n], m, 0) == Some(at)
  {
    hide OccursAt;
    forall i: nat | i <= at
      ensures OccursAt(s[..n], m, i) <==> OccursAt(s, m, i)
    {
      OccursInPrefix(s[..n], s, m, i);
    }
    FindIs(s[..n], m, 0, at);
  }

  // s is what there is room for, with a marker in it.
  lemma WithoutFirstOf(s: string, rest: string, m: string, at: nat)
    requires FindIn(s, m, 0) == Some(at)
    ensures at + |m| <= |s|
    ensures First(WithoutFirst(s + rest, m), |s|) == Erase(s, at, |m|) + First(rest, |m|)
  {
    hide First;
    FirstFoundInPrefix(s, s + rest, m, at);
    EraseInFront(s, rest, at, |m|);
    FirstOfLonger(Erase(s, at, |m|), rest, |s|);
  }

  lemma LossyOutput(o: Options, all: string, at: nat, end: nat)
    requires o.maxBytes < |all| && end <= |all| && FindIn(all, o.marker, 0) == Some(at)
    requires at + |o.marker| <= o.maxBytes
    ensures First(WithoutFirst(Lossy(all, o.maxBytes, end), o.marker), o.maxBytes) == Overflowing(o, all, at, end)
  {
    hide Lossy, First, WithoutFirst, FindIn, Erase;
    LossyIs(all, o.maxBytes, end);
    FoundInFront(all, o.marker, o.maxBytes, at);
    WithoutFirstOf(all[..o.maxBytes], all[if end < o.maxBytes then o.maxBytes else end..], o.marker, at);
  }

  /** What is captured of a stream that does not fit and has its marker before the cap. */
  lemma OverflowIs(o: Options, all: string, pieces: seq<string>, n: nat, at: nat)
    requires IsRead(all, pieces, n) && o.maxBytes < |all| && o.marker != ""
    requires FindIn(all, o.marker, 0) == Some(at) && at + |o.marker| <= o.maxBytes
    ensures SeenBy(o, all, n, SeenEnd(o, pieces))
    ensures Captured(o, pieces).output == Overflowing(o, all, at, SeenEnd(o, pieces))
  {
    hide Captured, Kept, Overflowing, Lossy;
    KeptIsLossy(o, all, pieces, n);
    CaptureShowsStream(o, pieces);
    if !Captured(o, pieces).started {
      OccursInPrefix(First(all, o.maxBytes), all, o.marker, at);
      assert false;
    }
    LossyOutput(o, all, at, SeenEnd(o, pieces));
  }

  // A stream is read so that the read that shows its marker ends at a given place.

  function Chop(s: string, n: nat): (pieces: seq<string>)
    requires n > 0
    ensures IsRead(s, pieces, n)
    decreases |s|
  {
    if s == "" then []
    else if |s| <= n then [s]
    else [s[..n]] + Chop(s[n..], n)
  }

  lemma {:induction false} ConcatAppends(p: seq<string>, q: seq<string>)
    ensures Concat(p + q) == Concat(p) + Concat(q)
  {
    if p == [] {
      assert p + q == q;
    } else {
      assert (p + q)[1..] == p[1..] + q;
      ConcatAppends(p[1..], q);
    }
  }

  lemma SeenEndMore(o: Options, pieces: seq<string>, last: string)
    requires Captured(o, pieces).started
    ensures Captured(o, pieces + [last]).started && SeenEnd(o, pieces + [last]) == SeenEnd(o, pieces)
  {
    CapturedMore(o, pieces, last);
    assert (pieces + [last])[..|pieces|] == pieces;
  }

  lemma {:induction false} SeenEndStays(o: Options, p: seq<string>, q: seq<string>)
    requires Captured(o, p).started
    ensures Captured(o, p + q).started && SeenEnd(o, p + q) == SeenEnd(o, p)
    decreases |q|
  {
    hide Captured, SeenEnd;
    if q == [] {
      assert p + q == p;
    } else {
      assert p + q == (p + [q[0]]) + q[1..];
      SeenEndMore(o, p, q[0]);
      SeenEndStays(o, p + [q[0]], q[1..]);
    }
  }

  // The stream up to `from`, from there to `end`, and the rest.
  function ReadTo(all: string, from: nat, end: nat, n: nat): seq<string>
    requires from <= end <= |all| && n > 0
  {
    Chop(all[..from], n) + [all[from..end]] + Chop(all[end..], n)
  }

  lemma IsReadMore(a: string, p: seq<string>, b: string, q: seq<string>, n: nat)
    requires IsRead(a, p, n) && IsRead(b, q, n)
    ensures IsRead(a + b, p + q, n)
  {
    hide Concat;
    ConcatAppends(p, q);
  }

  lemma ReadToIsRead(all: string, from: nat, end: nat, n: nat)
    requires from < end <= |all| && end - from <= n
    ensures IsRead(all, ReadTo(all, from, end, n), n)
    ensures IsRead(all[..end], Chop(all[..from], n) + [all[from..end]], n)
  {
    hide Chop, IsRead;
    assert IsRead(all[from..end], [all[from..end]], n) by {
      OneRead(all[from..end], n);
    }
    assert all[..from] + all[from..end] == all[..end] && all[..end] + all[end..] == all;
    var p, q := Chop(all[..from], n), Chop(all[end..], n);
    IsReadMore(all[..from], p, all[from..end], [all[from..end]], n);
    IsReadMore(all[..end], p + [all[from..end]], all[end..], q, n);
  }

  lemma OneRead(s: string, n: nat)
    requires 0 < |s| <= n
    ensures IsRead(s, [s], n)
  {
    assert Concat([s]) == s + Concat([]);
  }

  lemma ReadToSees(o: Options, all: string, from: nat, end: nat, n: nat)
    requires SeenBy(o, all, n, end) && from < end && end - from <= n && from < MarkerEnd(o, all).value
    ensures SeenEnd(o, ReadTo(all, from, end, n)) == end
  {
    hide Captured, Kept, Chop;
    var p, mid := Chop(all[..from], n), all[from..end];
    ReadToIsRead(all, from, end, n);
    NotSeen(o, all, all[..from], p, n);
    Seen(o, all, all[..end], p + [mid], n);
    assert (p + [mid])[..|p + [mid]| - 1] == p;
    SeenEndStays(o, p + [mid], Chop(all[end..], n));
  }

  lemma NotSeen(o: Options, all: string, s: string, pieces: seq<string>, n: nat)
    requires s <= all && IsRead(s, pieces, n) && MarkerEnd(o, all).Some? && |s| < MarkerEnd(o, all).value
    ensures !Captured(o, pieces).started
  {
    hide Captured, Kept;
    KeptIsLossy(o, s, pieces, n);
    if Captured(o, pieces).started {
      OccursInPrefix(s, all, o.marker, FindIn(s, o.marker, 0).value);
      assert false;
    }
  }

  lemma Seen(o: Options, all: string, s: string, pieces: seq<string>, n: nat)
    requires s <= all && IsRead(s, pieces, n) && SeenBy(o, all, n, |s|)
    ensures Captured(o, pieces).started
  {
    hide Captured, Kept;
    KeptIsLossy(o, s, pieces, n);
    CaptureShowsStream(o, pieces);
    OccursInPrefix(First(s, o.maxBytes), all, o.marker, FindIn(all, o.marker, 0).value);
  }

  /** Every end that SeenBy allows is the end of such a read, in some way of reading the stream. */
  lemma EveryEndHappens(o: Options, all: string, n: nat, end: nat) returns (pieces: seq<string>)
    requires SeenBy(o, all, n, end)
    ensures IsRead(all, pieces, n) && SeenEnd(o, pieces) == end
  {
    hide SeenEnd, ReadTo;
    var from := if end < n then 0 else end - n;
    ReadToIsRead(all, from, end, n);
    ReadToSees(o, all, from, end, n);
    pieces := ReadTo(all, from, end, n);
  }

  // The read that shows the marker can end beyond the cap, where the stream goes on differently than at the cap.
  ghost predicate Differs(o: Options, all: string, n: nat, end: nat) {
    && SeenBy(o, all, n, end) && o.maxBytes < end
    && First(all[end..], |o.marker|) != First(all[o.maxBytes..], |o.marker|)
  }

  /**
   How a stream is divided into reads of at most n bytes matters exactly if a read can end beyond the
   cap and be the first to show a marker that lies before it, and the bytes that then fill the place
   of the marker are not those at the cap.
   */
  lemma CuttingMattersIff(o: Options, all: string, n: nat)
    requires n > 0
    ensures (exists p, q :: IsRead(all, p, n) && IsRead(all, q, n) && Captured(o, p).output != Captured(o, q).output)
       <==> exists end :: Differs(o, all, n, end)
  {
    hide Captured, Differs, IsRead;
    if p, q :| IsRead(all, p, n) && IsRead(all, q, n) && Captured(o, p).output != Captured(o, q).output {
      DifferentCaptures(o, all, n, p, q);
    }
    if end: nat :| Differs(o, all, n, end) {
      var p, q := DifferentReads(o, all, n, end);
    }
  }

  lemma DifferentReads(o: Options, all: string, n: nat, end: nat) returns (p: seq<string>, q: seq<string>)
    requires Differs(o, all, n, end)
    ensures IsRead(all, p, n) && IsRead(all, q, n) && Captured(o, p).output != Captured(o, q).output
  {
    hide Captured, SeenEnd, IsRead, FindIn;
    var at := FindIn(all, o.marker, 0).value;
    p := EveryEndHappens(o, all, n, end);
    q := EveryEndHappens(o, all, n, at + |o.marker|);
    OverflowIs(o, all, p, n, at);
    OverflowIs(o, all, q, n, at);
    SameFront(Erase(all[..o.maxBytes], at, |o.marker|), First(all[end..], |o.marker|),
              First(all[o.maxBytes..], |o.marker|));
  }

  lemma SameFront(front: string, a: string, b: string)
    requires a != b
    ensures front + a != front + b
  {
    assert (front + a)[|front|..] == a && (front + b)[|front|..] == b;
  }

  lemma DifferentCaptures(o: Options, all: string, n: nat, p: seq<string>, q: seq<string>)
    requires IsRead(all, p, n) && IsRead(all, q, n) && Captured(o, p).output != Captured(o, q).output
    ensures exists end :: Differs(o, all, n, end)
  {
    hide Captured, SeenEnd;
    var prefix := First(all, o.maxBytes);
    if |all| <= o.maxBytes {
      CaptureIsExact(o, p);
      CaptureIsExact(o, q);
    } else if o.marker == "" || !Occurs(prefix, o.marker) {
      CaptureWithoutMarker(o, p);
      CaptureWithoutMarker(o, q);
    } else {
      DifferentOverflows(o, all, n, p, q);
    }
  }

  lemma FoundBefore(s: string, m: string, n: nat) returns (at: nat)
    requires Occurs(First(s, n), m)
    ensures FindIn(s, m, 0) == Some(at) && at + |m| <= n
  {
    at := FindIn(First(s, n), m, 0).value;
    FirstFoundInPrefix(First(s, n), s, m, at);
  }

  lemma DifferentOverflows(o: Options, all: string, n: nat, p: seq<string>, q: seq<string>)
    requires IsRead(all, p, n) && IsRead(all, q, n) && Captured(o, p).output != Captured(o, q).output
    requires o.maxBytes < |all| && o.marker != "" && Occurs(First(all, o.maxBytes), o.marker)
    ensures exists end :: Differs(o, all, n, end)
  {
    hide Captured, SeenEnd, IsRead, First, Erase, Occurs, OccursAt;
    var at := FoundBefore(all, o.marker, o.maxBytes);
    OverflowIs(o, all, p, n, at);
    OverflowIs(o, all, q, n, at);
    assert Differs(o, all, n, SeenEnd(o, p)) || Differs(o, all, n, SeenEnd(o, q));
  }

  /** It does not matter if the marker ends at least a read before the cap. */
  lemma EarlyMarkerIsSafe(o: Options, all: string, p: seq<string>, q: seq<string>, n: nat)
    requires IsRead(all, p, n) && IsRead(all, q, n)
    requires MarkerEnd(o, all).Some? && MarkerEnd(o, all).value + n <= o.maxBytes + 1
    ensures Captured(o, p).output == Captured(o, q).output
  {
    hide Captured, IsRead, FindIn;
    if Captured(o, p).output != Captured(o, q).output {
      DifferentCaptures(o, all, n, p, q);
    }
  }
}

/**
 The reading loop of run_process.
 */
module ProcessOutput {
  import opened MarkerCapture
  import opened Sequences
  import opened Strings

  class ProcessResult {
    var output: string
    var truncated: bool
    var started: bool

    constructor ()
      ensures View() == NOTHING
    {
      output, truncated, started := "", false, false;
    }

    function View(): Capture
      reads this
    {
      Capture(output, truncated, started)
    }

    method OnRead(o: Options, bytes: string)
      modifies this
      ensures View() == MarkerCapture.OnRead(o, old(View()), bytes)
    {
      var before := |output|;
      Append(o, bytes);
      Search(o, before);
    }

    method Append(o: Options, bytes: string)
      modifies this`output, this`truncated
      ensures View() == Received(o, old(View()), bytes)
    {
      var room := o.maxBytes - if |output| < o.maxBytes then |output| else o.maxBytes;
      var take := if |bytes| < room then |bytes| else room;
      output := output + bytes[..take];
      TakenIsFirst(bytes, room);
      if take < |bytes| {
        truncated := true;
      }
    }

    method Search(o: Options, before: nat)
      modifies this`output, this`started
      ensures View() == Searched(o, old(View()), before)
    {
      if o.marker != "" && !started {
        var from := if before >= |o.marker| then before - |o.marker| else 0;
        var at := FindIn(output, o.marker, from);
        if at.Some? {
          started := true;
          output := Erase(output, at.value, |o.marker|);
        }
      }
    }

    /** All that the child writes, in the pieces that the pipe gives. */
    method ReadAll(o: Options, pieces: seq<string>)
      requires View() == NOTHING
      modifies this
      ensures View() == Captured(o, pieces)
      ensures |output| <= o.maxBytes
      ensures |Concat(pieces)| <= o.maxBytes ==>
                output == if o.marker == "" then Concat(pieces) else WithoutFirst(Concat(pieces), o.marker)
    {
      var i := 0;
      while i < |pieces|
        invariant i <= |pieces| && View() == Captured(o, pieces[..i])
      {
        OnRead(o, pieces[i]);
        assert pieces[..i + 1][..i] == pieces[..i];
        i := i + 1;
      }
      assert pieces[..i] == pieces;
      CaptureIsCapped(o, pieces);
      if |Concat(pieces)| <= o.maxBytes {
        CaptureIsExact(o, pieces);
      }
    }
  }

  lemma TakenIsFirst(bytes: string, room: nat)
    ensures First(bytes, room) == bytes[..if |bytes| < room then |bytes| else room]
  {
  }
}
