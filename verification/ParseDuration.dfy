/**
 What Go-style duration strings mean, independently of how they are parsed.
 */
module Durations {
  import opened Arithmetic
  import opened Numerals
  import opened Sequences
  import opened Wrappers

  // 2^63, the magnitude of INT64_MIN.
  const LIMIT := 0x8000_0000_0000_0000
  // Fraction digits beyond this many are dropped.
  const KEPT := 18

  datatype Unit = Nanosecond | Microsecond | MicroSignSecond | MuSecond | Millisecond | Second | Minute | Hour {
    function Name(): string {
      match this
      case Nanosecond => "ns"
      case Microsecond => "us"
      case MicroSignSecond => "\U{C2}\U{B5}s"   // U+00B5 in UTF-8
      case MuSecond => "\U{CE}\U{BC}s"          // U+03BC in UTF-8
      case Millisecond => "ms"
      case Second => "s"
      case Minute => "m"
      case Hour => "h"
    }

    // n of these units, in nanoseconds.
    function Times(n: nat): nat {
      match this
      case Nanosecond => n
      case Microsecond => n * 1_000
      case MicroSignSecond => n * 1_000
      case MuSecond => n * 1_000
      case Millisecond => n * 1_000_000
      case Second => n * 1_000_000_000
      case Minute => n * 60_000_000_000
      case Hour => n * 3_600_000_000_000
    }
  }

  // n without its last digits, that is, n / 10^digits.
  function Drop(n: nat, digits: nat): nat {
    if digits == 0 then n else Drop(n / 10, digits - 1)
  }

  // A number, with or without a decimal point, and its unit.
  datatype Pair = Pair(whole: string, point: bool, fraction: string, unit: Unit) {
    predicate Ok() {
      Digits(whole) && Digits(fraction) && (!point ==> fraction == "") && (whole != "" || fraction != "")
    }

    function Text(): string {
      whole + (if point then "." else "") + fraction + unit.Name()
    }

    function Kept(): string {
      First(fraction, KEPT)
    }

    // What a pair counts for.
    function Value(): nat {
      unit.Times(Number(whole)) + Drop(unit.Times(Number(Kept())), |Kept()|)
    }

    // The exact value, truncated to whole nanoseconds.
    function Exact(): nat {
      Drop(unit.Times(Number(whole + fraction)), |fraction|)
    }
  }

  predicate AllOk(pairs: seq<Pair>) {
    forall i :: 0 <= i < |pairs| ==> pairs[i].Ok()
  }

  function Text(pairs: seq<Pair>): string {
    if pairs == [] then "" else pairs[0].Text() + Text(pairs[1..])
  }

  function Total(pairs: seq<Pair>): nat {
    if pairs == [] then 0 else pairs[0].Value() + Total(pairs[1..])
  }

  datatype Sign = NoSign | PlusSign | MinusSign {
    function Text(): string {
      match this
      case NoSign => ""
      case PlusSign => "+"
      case MinusSign => "-"
    }

    function Apply(n: int): int {
      if MinusSign? then -n else n
    }
  }

  // A signed duration with this value fits a signed 64-bit count.
  predicate Fits(sign: Sign, total: nat) {
    -LIMIT <= sign.Apply(total) < LIMIT
  }

  /** s denotes n nanoseconds: a zero without a unit, or a sign and one or more pairs. */
  ghost predicate Denotes(s: string, n: int) {
    || (n == 0 && exists sign: Sign :: s == sign.Text() + "0")
    || exists sign: Sign, pairs: seq<Pair> :: DenotedBy(s, n, sign, pairs)
  }

  predicate DenotedBy(s: string, n: int, sign: Sign, pairs: seq<Pair>) {
    && pairs != [] && AllOk(pairs) && s == sign.Text() + Text(pairs)
    && Fits(sign, Total(pairs)) && n == sign.Apply(Total(pairs))
  }

  lemma DivideTwice(n: nat, a: nat, p: nat)
    requires 0 < a && 0 < p
    ensures a * p > 0 && n / a / p == n / (a * p)
  {
    var q := n / a;
    var k := q / p;
    Nested(n, a, p, q, n % a, k, q % p);
    DivModUnique(a * p, n, k, a * (q % p) + n % a);
  }

  lemma Nested(n: nat, a: nat, p: nat, q: nat, r: nat, k: nat, t: nat)
    requires n == q * a + r && r < a && q == k * p + t && t < p
    ensures n == k * (a * p) + (a * t + r) && a * t + r < a * p
  {
    Twice(k, p, t, a);
    AtMost(a, t, p);
  }

  lemma Twice(k: nat, p: nat, t: nat, a: nat)
    ensures (k * p + t) * a == k * (a * p) + a * t
  {
    assert (k * p + t) * a == (k * p) * a + t * a;
  }

  lemma AtMost(a: nat, t: nat, p: nat)
    requires t < p
    ensures a * t + a <= a * p
  {
    assert a * (t + 1) == a * t + a;
  }

  lemma {:induction false} DropIsDivision(n: nat, digits: nat)
    ensures Drop(n, digits) == n / Power10(digits)
  {
    if digits > 0 {
      var p := Power10(digits - 1);
      DropIsDivision(n / 10, digits - 1);
      DivideTwice(n, 10, p);
    }
  }

  // Reading pairs back. A string is at most one sequence of pairs.

  function DigitsEnd(s: string, from: nat): (end: nat)
    requires from <= |s|
    ensures from <= end <= |s|
    ensures end < |s| ==> !IsDigit(s[end])
    decreases |s| - from
  {
    if from < |s| && IsDigit(s[from]) then DigitsEnd(s, from + 1) else from
  }

  lemma {:induction false} DigitsEndSound(s: string, from: nat)
    requires from <= |s|
    ensures Digits(s[from..DigitsEnd(s, from)])
    decreases |s| - from
  {
    if from < |s| && IsDigit(s[from]) {
      var end := DigitsEnd(s, from + 1);
      DigitsEndSound(s, from + 1);
      assert s[from..end] == [s[from]] + s[from + 1..end];
    }
  }

  predicate UnitChar(c: char) {
    c != '.' && !IsDigit(c)
  }

  function UnitEnd(s: string, from: nat): (end: nat)
    requires from <= |s|
    ensures from <= end <= |s|
    ensures end < |s| ==> !UnitChar(s[end])
    decreases |s| - from
  {
    if from < |s| && UnitChar(s[from]) then UnitEnd(s, from + 1) else from
  }

  const UNITS := [Nanosecond, Microsecond, MicroSignSecond, MuSecond, Millisecond, Second, Minute, Hour]

  function UnitNamed(name: string): Option<Unit> {
    UnitAmong(name, |UNITS|)
  }

  // The last of the first n units that has this name.
  function UnitAmong(name: string, n: nat): Option<Unit>
    requires n <= |UNITS|
  {
    if n == 0 then None
    else if name == UNITS[n - 1].Name() then Some(UNITS[n - 1])
    else UnitAmong(name, n - 1)
  }

  lemma {:induction false} UnitHasName(name: string, n: nat)
    requires n <= |UNITS| && UnitAmong(name, n).Some?
    ensures UnitAmong(name, n).value.Name() == name
  {
    if name != UNITS[n - 1].Name() {
      UnitHasName(name, n - 1);
    }
  }

  lemma {:induction false} NameFindsUnit(u: Unit, n: nat)
    requires n <= |UNITS| && exists m :: 0 <= m < n && UNITS[m] == u
    ensures UnitAmong(u.Name(), n) == Some(u)
  {
    var last := UNITS[n - 1];
    if last != u {
      assert u.Name() != last.Name() by {
        assert |u.Name()| == |last.Name()| ==> u.Name()[0] != last.Name()[0];
      }
      NameFindsUnit(u, n - 1);
    }
  }

  // The end of the number that s begins with.
  function NumberEnd(s: string): (end: nat)
    ensures end <= |s|
  {
    var i := DigitsEnd(s, 0);
    if i < |s| && s[i] == '.' then DigitsEnd(s, i + 1) else i
  }

  // The pair that s begins with, if any, and what follows.
  function NextPair(s: string): (r: Option<(Pair, string)>)
    ensures r.Some? ==> |r.value.1| < |s|
  {
    var i := DigitsEnd(s, 0);
    var point := i < |s| && s[i] == '.';
    var j := NumberEnd(s);
    var fraction := if point then s[i + 1..j] else "";
    var k := UnitEnd(s, j);
    if (i == 0 && fraction == "") || UnitNamed(s[j..k]).None? then None
    else
      Some((Pair(s[..i], point, fraction, UnitNamed(s[j..k]).value), s[k..]))
  }

  function Decode(s: string): Option<seq<Pair>>
    decreases |s|
  {
    if s == "" then Some([])
    else
      match NextPair(s)
      case None => None
      case Some((p, rest)) =>
        match Decode(rest)
        case None => None
        case Some(ps) => Some([p] + ps)
  }

  function SignOf(s: string): Sign {
    if s != "" && s[0] == '+' then PlusSign else if s != "" && s[0] == '-' then MinusSign else NoSign
  }

  function Body(s: string): string {
    if SignOf(s).NoSign? then s else s[1..]
  }

  // The one value a string denotes, if it denotes any; see MeaningIsDenotation.
  function Meaning(s: string): Option<int> {
    if Body(s) == "0" then Some(0)
    else
      match Decode(Body(s))
      case None => None
      case Some(ps) => if ps != [] && Fits(SignOf(s), Total(ps)) then Some(SignOf(s).Apply(Total(ps))) else None
  }

  lemma Cut(s: string, i: nat, d: nat, j: nat, k: nat)
    requires i <= d <= j <= k <= |s|
    ensures s == s[..i] + s[i..d] + s[d..j] + s[j..k] + s[k..]
  {
  }

  lemma NextPairSound(s: string)
    requires NextPair(s).Some?
    ensures NextPair(s).value.0.Ok() && s == NextPair(s).value.0.Text() + NextPair(s).value.1
  {
    var i, j := DigitsEnd(s, 0), NumberEnd(s);
    var k := UnitEnd(s, j);
    var point := i < |s| && s[i] == '.';
    var d := if point then i + 1 else i;
    UnitHasName(s[j..k], |UNITS|);
    Cut(s, i, d, j, k);
    assert s[i..d] == if point then "." else "";
    DigitsEndSound(s, 0);
    assert s[0..i] == s[..i];
    if point {
      DigitsEndSound(s, d);
    }
  }

  lemma {:induction false} DecodeSound(s: string)
    requires Decode(s).Some?
    ensures AllOk(Decode(s).value) && Text(Decode(s).value) == s
    decreases |s|
  {
    if s != "" {
      NextPairSound(s);
      DecodeSound(NextPair(s).value.1);
    }
  }

  lemma {:induction false} DigitsEndIs(s: string, from: nat, end: nat)
    requires from <= end <= |s| && Digits(s[from..end]) && (end < |s| ==> !IsDigit(s[end]))
    ensures DigitsEnd(s, from) == end
    decreases end - from
  {
    if from < end {
      assert IsDigit(s[from..end][0]);
      assert s[from + 1..end] == s[from..end][1..];
      DigitsEndIs(s, from + 1, end);
    }
  }

  lemma {:induction false} UnitEndIs(s: string, from: nat, end: nat)
    requires from <= end <= |s| && (forall i :: from <= i < end ==> UnitChar(s[i])) && (end < |s| ==> !UnitChar(s[end]))
    ensures UnitEnd(s, from) == end
    decreases end - from
  {
    if from < end {
      UnitEndIs(s, from + 1, end);
    }
  }

  // Nothing, or the beginning of another pair.
  predicate Starts(s: string) {
    s == "" || !UnitChar(s[0])
  }

  lemma Pieces(a: string, b: string, c: string, d: string, e: string)
    ensures var s := a + b + c + d + e;
      && s[..|a|] == a
      && s[|a|..|a| + |b|] == b
      && s[|a| + |b|..|a| + |b| + |c|] == c
      && s[|a| + |b| + |c|..|a| + |b| + |c| + |d|] == d
      && s[|a| + |b| + |c| + |d|..] == e
  {
  }

  lemma NextOfText(p: Pair, rest: string)
    requires p.Ok() && Starts(rest)
    ensures NextPair(p.Text() + rest) == Some((p, rest))
  {
    var dot := if p.point then "." else "";
    var s := p.Text() + rest;
    var i := |p.whole|;
    var j := i + |dot| + |p.fraction|;
    var k := j + |p.unit.Name()|;
    Pieces(p.whole, dot, p.fraction, p.unit.Name(), rest);
    NameIsUnit(s, j, p.unit, k);
    assert s[0..i] == p.whole;
    assert p.point ==> s[i] == s[i..i + 1][0] == '.';
    hide DigitsEnd, UnitEnd, UnitNamed;
    DigitsEndIs(s, 0, i);
    if p.point {
      DigitsEndIs(s, i + 1, j);
    }
  }

  lemma NameIsUnit(s: string, j: nat, u: Unit, k: nat)
    requires j <= k <= |s| && s[j..k] == u.Name() && Starts(s[k..])
    ensures UnitEnd(s, j) == k && UnitNamed(u.Name()) == Some(u) && !IsDigit(s[j]) && s[j] != '.'
  {
    forall i | j <= i < k
      ensures UnitChar(s[i])
    {
      assert s[i] == s[j..k][i - j];
      assert UnitChar(u.Name()[i - j]);
    }
    UnitEndIs(s, j, k);
    assert s[j] == s[j..k][0];
    assert exists m :: 0 <= m < |UNITS| && UNITS[m] == u by {
      assert UNITS[0].Nanosecond? && UNITS[1].Microsecond? && UNITS[2].MicroSignSecond? && UNITS[3].MuSecond?;
      assert UNITS[4].Millisecond? && UNITS[5].Second? && UNITS[6].Minute? && UNITS[7].Hour?;
    }
    NameFindsUnit(u, |UNITS|);
  }

  lemma PairStarts(p: Pair)
    requires p.Ok()
    ensures p.Text() != "" && (IsDigit(p.Text()[0]) || p.Text()[0] == '.')
  {
  }

  lemma {:induction false} DecodeOfText(pairs: seq<Pair>)
    requires AllOk(pairs)
    ensures Decode(Text(pairs)) == Some(pairs) && Starts(Text(pairs))
  {
    if pairs != [] {
      var p, rest := pairs[0], Text(pairs[1..]);
      DecodeOfText(pairs[1..]);
      NextOfText(p, rest);
      PairStarts(p);
      assert Text(pairs) == p.Text() + rest && Text(pairs)[0] == p.Text()[0];
      assert [p] + pairs[1..] == pairs;
    }
  }

  lemma SignSplits(sign: Sign, t: string)
    requires t != "" && t[0] != '+' && t[0] != '-'
    ensures SignOf(sign.Text() + t) == sign && Body(sign.Text() + t) == t
  {
  }

  lemma ZeroIsNoPair()
    ensures Decode("0") == None
  {
    DigitsEndIs("0", 0, 1);
    if UnitNamed("0"[1..]).Some? {
      UnitHasName("0"[1..], |UNITS|);
      assert false;
    }
    assert NextPair("0") == None;
  }

  lemma PairsMean(s: string, n: int, sign: Sign, pairs: seq<Pair>)
    requires DenotedBy(s, n, sign, pairs)
    ensures Meaning(s) == Some(n)
  {
    var t := Text(pairs);
    DecodeOfText(pairs);
    ZeroIsNoPair();
    PairStarts(pairs[0]);
    assert t[0] == pairs[0].Text()[0];
    SignSplits(sign, t);
  }

  lemma ZeroMeans(s: string, sign: Sign)
    requires s == sign.Text() + "0"
    ensures Meaning(s) == Some(0)
  {
  }

  lemma MeaningDenotes(s: string, n: int)
    requires Meaning(s) == Some(n)
    ensures Denotes(s, n)
  {
    SignIsPrefix(s);
    hide Decode, Text, Total, Fits, SignOf, Body;
    var sign := SignOf(s);
    if Body(s) != "0" {
      DecodeSound(Body(s));
      assert DenotedBy(s, n, sign, Decode(Body(s)).value);
    }
  }

  lemma SignIsPrefix(s: string)
    ensures s == SignOf(s).Text() + Body(s)
  {
  }

  /** The grammar is unambiguous: a string denotes at most one value, and Meaning is it. */
  lemma MeaningIsDenotation(s: string, n: int)
    ensures Denotes(s, n) <==> Meaning(s) == Some(n)
  {
    if Denotes(s, n) {
      if sign: Sign :| n == 0 && s == sign.Text() + "0" {
        ZeroMeans(s, sign);
      } else {
        var sign: Sign, pairs: seq<Pair> :| DenotedBy(s, n, sign, pairs);
        PairsMean(s, n, sign, pairs);
      }
    }
    if Meaning(s) == Some(n) {
      MeaningDenotes(s, n);
    }
  }
}

/**
 parse_duration of tasks/parse-duration/reference.hpp, in its own integer widths: that every
 operation below stays in range is part of what is verified.
 */
module DurationParsing {
  import opened Numerals
  import opened Sequences
  import opened Wrappers

  import opened Durations

  newtype u64 = x: int | 0 <= x < 0x1_0000_0000_0000_0000
  newtype u128 = x: int | 0 <= x < 0x1_0000_0000_0000_0000_0000_0000_0000_0000

  const SCALE_LIMIT: u64 := 1_000_000_000_000_000_000

  lemma NumberStep(s: string, from: nat, i: nat)
    requires from <= i < |s|
    ensures Number(s[from..i + 1]) == Number(s[from..i]) * 10 + DigitValue(s[i])
  {
    assert s[from..i + 1][..i - from] == s[from..i];
    assert s[from..i + 1] == s[from..i] + [s[i]];
  }

  lemma {:induction false} NumberGrows(s: string, i: nat, end: nat)
    requires i <= end <= |s|
    ensures Number(s[..i]) <= Number(s[..end])
    decreases end - i
  {
    if i < end {
      assert s[0..i] == s[..i] && s[0..i + 1] == s[..i + 1];
      NumberStep(s, 0, i);
      NumberGrows(s, i + 1, end);
    }
  }

  lemma Power10Of18()
    ensures Power10(KEPT) == SCALE_LIMIT as int
    ensures forall n :: 0 <= n < KEPT ==> Power10(n) < SCALE_LIMIT as int
  {
    assert Power10(6) == 1_000_000;
    assert Power10(12) == 1_000_000_000_000;
  }

  // The loop over the digits before the point.
  method ScanWhole(s: string) returns (inRange: bool, whole: u128, i: nat)
    ensures inRange ==> i == DigitsEnd(s, 0) && whole as int == Number(s[..i]) <= LIMIT
    ensures !inRange ==> Number(s[..DigitsEnd(s, 0)]) > LIMIT
  {
    i, whole := 0, 0;
    while i < |s| && IsDigit(s[i])
      invariant i <= |s| && DigitsEnd(s, i) == DigitsEnd(s, 0)
      invariant whole as int == Number(s[..i]) <= LIMIT
    {
      assert s[0..i] == s[..i] && s[0..i + 1] == s[..i + 1];
      NumberStep(s, 0, i);
      whole := whole * 10 + DigitValue(s[i]) as u128;
      i := i + 1;
      if whole > LIMIT as u128 {
        assert s[0..DigitsEnd(s, 0)] == s[..DigitsEnd(s, 0)];
        NumberGrows(s, i, DigitsEnd(s, 0));
        return false, whole, i;
      }
    }
    inRange := true;
  }

  // One more digit counts until there are eighteen.
  lemma KeptGrows(s: string, from: nat, j: nat)
    requires from <= j < |s|
    ensures var kept, next := First(s[from..j], KEPT), First(s[from..j + 1], KEPT);
      if Power10(|kept|) < SCALE_LIMIT as int then
        && Number(next) == Number(kept) * 10 + DigitValue(s[j])
        && Power10(|next|) == Power10(|kept|) * 10 <= SCALE_LIMIT as int
      else next == kept
  {
    Power10Of18();
    hide Power10, Number;
    NumberStep(s, from, j);
    assert s[from..j + 1] == s[from..j] + [s[j]];
    if j - from < KEPT {
      NextPower(j - from);
      assert Power10(j - from + 1) <= SCALE_LIMIT as int;
    }
  }

  lemma NextPower(n: nat)
    ensures Power10(n + 1) == 10 * Power10(n)
  {
  }

  // The loop over the digits after the point.
  method ScanFraction(s: string, from: nat) returns (frac: u64, scale: u64, j: nat)
    requires from <= |s|
    ensures j == DigitsEnd(s, from)
    ensures var kept := First(s[from..j], KEPT);
      frac as int == Number(kept) && scale as int == Power10(|kept|)
    ensures frac < scale <= SCALE_LIMIT
  {
    j, frac, scale := from, 0, 1;
    NoFraction();
    assert s[from..from] == "";
    hide First, Number, Power10;
    while j < |s| && IsDigit(s[j])
      invariant from <= j <= |s| && DigitsEnd(s, j) == DigitsEnd(s, from)
      invariant var kept := First(s[from..j], KEPT);
        frac as int == Number(kept) && scale as int == Power10(|kept|)
      invariant frac < scale <= SCALE_LIMIT
    {
      KeptGrows(s, from, j);
      if scale < SCALE_LIMIT {
        frac := frac * 10 + DigitValue(s[j]) as u64;
        scale := scale * 10;
      }
      j := j + 1;
    }
  }

  // The loop over the unit's name.
  method ScanUnit(s: string, from: nat) returns (u: nat)
    requires from <= |s|
    ensures u == UnitEnd(s, from)
  {
    u := from;
    while u < |s| && s[u] != '.' && !IsDigit(s[u])
      invariant from <= u <= |s| && UnitEnd(s, u) == UnitEnd(s, from)
    {
      u := u + 1;
    }
  }

  // What a string of pairs comes to.
  function Worth(s: string): Option<nat>
    decreases |s|
  {
    if s == "" then Some(0)
    else
      match NextPair(s)
      case None => None
      case Some((p, rest)) =>
        Plus(p.Value(), Worth(rest))
  }

  lemma {:induction false} WorthIsTotal(s: string)
    ensures Worth(s) == match Decode(s) case None => None case Some(ps) => Some(Total(ps))
    decreases |s|
  {
    if s != "" && NextPair(s).Some? {
      var rest := NextPair(s).value.1;
      WorthIsTotal(rest);
      if Decode(rest).Some? {
        TotalCons(NextPair(s).value.0, Decode(rest).value);
      }
    }
  }

  lemma TotalCons(p: Pair, ps: seq<Pair>)
    ensures Total([p] + ps) == p.Value() + Total(ps)
  {
  }

  // What the worth of the rest makes of a total so far.
  function ResultFrom(sign: Sign, total: nat, worth: Option<nat>): Option<int> {
    match worth
    case None => None
    case Some(n) => if Fits(sign, total + n) then Some(sign.Apply(total + n)) else None
  }

  function Plus(v: nat, worth: Option<nat>): Option<nat> {
    match worth
    case None => None
    case Some(n) => Some(v + n)
  }

  predicate TooMuch(worth: Option<nat>) {
    worth.None? || worth.value > LIMIT
  }

  lemma Round(sign: Sign, total: nat, v: nat, worth: Option<nat>)
    ensures ResultFrom(sign, total, Plus(v, worth)) == ResultFrom(sign, total + v, worth)
    ensures total + v > LIMIT ==> ResultFrom(sign, total + v, worth) == None
    ensures TooMuch(worth) ==> ResultFrom(sign, total, worth) == None
  {
  }

  lemma AtTheEnd(sign: Sign, total: nat)
    requires total <= LIMIT
    ensures ResultFrom(sign, total, Worth(""))
         == if !sign.MinusSign? && total == LIMIT then None else Some(sign.Apply(total))
  {
  }

  // The value of the pair that s begins with, and what follows it.
  method ParsePair(s: string) returns (value: Option<u128>, rest: string)
    ensures value.Some? ==>
              && NextPair(s).Some? && NextPair(s).value.1 == rest
              && NextPair(s).value.0.Value() == value.value as int
              && value.value <= LIMIT as u128 * 4_000_000_000_000
    ensures value.None? ==> NextPair(s).None? || NextPair(s).value.0.Value() > LIMIT
  {
    hide Number, Power10, Drop, DigitsEnd, UnitEnd, UnitNamed, First;
    var inRange, whole, i := ScanWhole(s);
    if !inRange {
      BigWhole(s);
      return None, "";
    }
    var anyDigit := i > 0;
    var frac: u64, scale: u64 := 0, 1;
    var j := i;
    if i < |s| && s[i] == '.' {
      frac, scale, j := ScanFraction(s, i + 1);
      anyDigit := anyDigit || j > i + 1;
    }
    if !anyDigit {
      return None, "";
    }
    var u := ScanUnit(s, j);
    var unit := UnitNamed(s[j..u]);
    if unit.None? {
      return None, "";
    }
    NextPairIs(s, j, u);
    NoFraction();
    ghost var p := NextPair(s).value.0;
    assert p.whole == s[..i] && p.unit == unit.value;
    assert Number(p.Kept()) == frac as int && Power10(|p.Kept()|) == scale as int;
    var v := Combine(whole, frac, scale, |p.Kept()|, unit.value);
    return Some(v), s[u..];
  }

  lemma NoFraction()
    ensures First("", KEPT) == "" && Number("") == 0 && Power10(0) == 1
  {
  }

  // One round of the outer loop, seen from what is left to parse.
  method ParseNext(s: string) returns (value: Option<u128>, rest: string)
    requires s != ""
    ensures value.Some? ==> |rest| < |s| && Worth(s) == Plus(value.value as int, Worth(rest))
    ensures value.Some? ==> value.value <= LIMIT as u128 * 4_000_000_000_000
    ensures value.None? ==> TooMuch(Worth(s))
  {
    value, rest := ParsePair(s);
  }

  // What the scanned parts of a pair make.
  lemma NextPairIs(s: string, j: nat, u: nat)
    requires j == NumberEnd(s) && u == UnitEnd(s, j)
    requires DigitsEnd(s, 0) > 0 || j > DigitsEnd(s, 0) + 1
    requires UnitNamed(s[j..u]).Some?
    ensures var i := DigitsEnd(s, 0);
      var point := i < |s| && s[i] == '.';
      NextPair(s) == Some((Pair(s[..i], point, if point then s[i + 1..j] else "", UnitNamed(s[j..u]).value), s[u..]))
  {
  }

  // The value of a pair. The multiplications do not overflow 128 bits.
  method Combine(whole: u128, frac: u64, scale: u64, ghost digits: nat, unit: Unit) returns (v: u128)
    requires whole <= LIMIT as u128 && frac < scale <= SCALE_LIMIT && scale as int == Power10(digits)
    ensures v as int == unit.Times(whole as int) + Drop(unit.Times(frac as int), digits)
    ensures v <= LIMIT as u128 * 4_000_000_000_000
  {
    var ns := unit.Times(1) as u128;
    UnitTimes(unit, whole as int);
    UnitTimes(unit, frac as int);
    var product := frac as u128 * ns;
    DropIsDivision(product as int, digits);
    DropBelow(product as int, digits);
    v := whole * ns + product / scale as u128;
  }

  lemma UnitTimes(unit: Unit, n: nat)
    ensures n * unit.Times(1) == unit.Times(n) <= n * 3_600_000_000_000
  {
  }

  lemma {:induction false} DropBelow(n: nat, digits: nat)
    ensures Drop(n, digits) <= n
  {
    if digits > 0 {
      DropBelow(n / 10, digits - 1);
    }
  }

  // A whole part beyond the limit puts the pair beyond the limit, whatever follows.
  lemma BigWhole(s: string)
    requires Number(s[..DigitsEnd(s, 0)]) > LIMIT
    ensures NextPair(s).Some? ==> NextPair(s).value.0.Value() > LIMIT
  {
  }

  /** parse_duration: the nanoseconds that the text denotes, or nothing if it denotes none. */
  method ParseDuration(text: string) returns (r: Option<int>)
    ensures forall n :: r == Some(n) <==> Denotes(text, n)
  {
    forall n
      ensures Denotes(text, n) <==> Meaning(text) == Some(n)
    {
      MeaningIsDenotation(text, n);
    }
    r := ParseMeaning(text);
  }

  method ParseMeaning(text: string) returns (r: Option<int>)
    ensures r == Meaning(text)
  {
    var s, negative := text, false;
    if s != "" && (s[0] == '+' || s[0] == '-') {
      negative := s[0] == '-';
      s := s[1..];
    }
    if s == "0" {
      return Some(0);
    }
    if s == "" {
      return None;
    }
    WorthIsTotal(s);
    r := ParseBody(s, negative);
  }

  method ParseBody(body: string, negative: bool) returns (r: Option<int>)
    ensures r == ResultFrom(if negative then MinusSign else NoSign, 0, Worth(body))
  {
    hide Worth, NextPair, ResultFrom, Fits;
    ghost var sign := if negative then MinusSign else NoSign;
    var s := body;
    var total: u128 := 0;
    while s != ""
      invariant total <= LIMIT as u128
      invariant ResultFrom(sign, total as int, Worth(s)) == ResultFrom(sign, 0, Worth(body))
      decreases |s|
    {
      var value, rest := ParseNext(s);
      if value.None? {
        Round(sign, total as int, 0, Worth(s));
        return None;
      }
      Round(sign, total as int, value.value as int, Worth(rest));
      s := rest;
      total := total + value.value;
      if total > LIMIT as u128 {
        return None;
      }
    }
    AtTheEnd(sign, total as int);
    if !negative && total == LIMIT as u128 {
      return None;
    }
    return Some(if negative then -(total as int) else total as int);
  }
}

/**
 How close a pair's value is to the number it writes: digits past the eighteenth are dropped, which
 is exact for units up to a second but can cost a nanosecond for minutes and hours.
 */
module DurationExactness {
  import opened Arithmetic
  import opened Numerals
  import opened Wrappers

  import opened Durations

  const SCALE := 1_000_000_000_000_000_000

  // u of (w + (f + g/m)/s) is x/n, and k is u of w and q.
  predicate Written(s: nat, m: nat, u: nat, w: nat, f: nat, g: nat, q: nat, r: nat, n: nat, x: nat, k: nat) {
    && 0 < m && g < m && 0 < u <= s && u * f == q * s + r && r < s
    && n == s * m && x == u * ((w * s + f) * m + g) && k == u * w + q
  }

  // What is left over k.
  function Low(m: nat, u: nat, r: nat, g: nat): nat {
    r * m + u * g
  }

  // Rounded down, x/n is k or one more.
  lemma Truncation(s: nat, m: nat, u: nat, w: nat, f: nat, g: nat, q: nat, r: nat, n: nat, x: nat, k: nat)
    requires Written(s, m, u, w, f, g, q, r, n, x, k)
    ensures n > 0 && k <= x / n <= k + 1
    ensures x / n == k <==> Low(m, u, r, g) < n
  {
    hide Written, Low;
    BelowTwo(s, m, u, w, f, g, q, r, n, x, k);
    Equation(s, m, u, w, f, g, q, r, n, x, k);
    Rounding(n, x, k, Low(m, u, r, g));
  }

  lemma BelowTwo(s: nat, m: nat, u: nat, w: nat, f: nat, g: nat, q: nat, r: nat, n: nat, x: nat, k: nat)
    requires Written(s, m, u, w, f, g, q, r, n, x, k)
    ensures 0 < n && Low(m, u, r, g) < 2 * n
  {
    Carry(s, m, u, r, g);
  }

  lemma Equation(s: nat, m: nat, u: nat, w: nat, f: nat, g: nat, q: nat, r: nat, n: nat, x: nat, k: nat)
    requires Written(s, m, u, w, f, g, q, r, n, x, k)
    ensures x == k * n + Low(m, u, r, g)
  {
    Regroup(s, m, u, w, f, g, q, r);
    Product(k, u * w + q, n, s * m);
  }

  lemma Product(a: nat, b: nat, c: nat, d: nat)
    requires a == b && c == d
    ensures a * c == b * d
  {
  }

  lemma Rounding(n: nat, x: nat, k: nat, low: nat)
    requires 0 < n && x == k * n + low && low < 2 * n
    ensures k <= x / n <= k + 1 && (x / n == k <==> low < n)
  {
    if low < n {
      DivModUnique(n, x, k, low);
    } else {
      assert (k + 1) * n == k * n + n;
      DivModUnique(n, x, k + 1, low - n);
    }
  }

  lemma Regroup(s: nat, m: nat, u: nat, w: nat, f: nat, g: nat, q: nat, r: nat)
    requires u * f == q * s + r
    ensures u * ((w * s + f) * m + g) == (u * w + q) * (s * m) + (r * m + u * g)
  {
    var a, b := w * s, w * s * m;
    assert (a + f) * m == b + f * m;
    assert u * (b + f * m + g) == u * b + u * (f * m) + u * g;
    assert u * (f * m) == (u * f) * m == q * s * m + r * m;
    assert u * b == (u * w) * (s * m) by {
      Reassociate(u, w, s, m);
    }
    Distribute(u * w, q, s, m);
  }

  lemma Reassociate(u: nat, w: nat, s: nat, m: nat)
    ensures u * (w * s * m) == (u * w) * (s * m)
  {
    assert w * s * m == w * (s * m);
    Associate(u, w, s * m);
  }

  lemma Associate(a: nat, b: nat, c: nat)
    ensures a * (b * c) == (a * b) * c
  {
  }

  lemma Distribute(a: nat, q: nat, s: nat, m: nat)
    ensures (a + q) * (s * m) == a * (s * m) + q * s * m
  {
    Associate(q, s, m);
  }

  lemma Carry(s: nat, m: nat, u: nat, r: nat, g: nat)
    requires 0 < m && g < m && 0 < u <= s && r < s
    ensures s * m > 0 && r * m + u * g < 2 * (s * m)
  {
  }

  function PerUnit(p: Pair): nat {
    p.unit.Times(1)
  }

  // The digits past the eighteenth, and what they stand for one of.
  function Lost(p: Pair): string
    requires |p.fraction| > KEPT
  {
    p.fraction[KEPT..]
  }

  function Places(p: Pair): nat
    requires |p.fraction| > KEPT
  {
    Power10(|p.fraction| - KEPT)
  }

  // The dropped digits do not complete another nanosecond.
  predicate NothingCarries(p: Pair) {
    |p.fraction| > KEPT ==>
      (PerUnit(p) * Number(p.Kept()) % SCALE) * Places(p) + PerUnit(p) * Number(Lost(p)) < SCALE * Places(p)
  }

  lemma PowerOfKept()
    ensures Power10(KEPT) == SCALE
  {
    assert Power10(6) == 1_000_000;
    assert Power10(12) == 1_000_000_000_000;
  }

  lemma TimesIsProduct(unit: Unit, n: nat)
    ensures unit.Times(n) == unit.Times(1) * n
    ensures 0 < unit.Times(1) <= SCALE
  {
  }

  lemma ValueIs(p: Pair)
    ensures p.Value() == PerUnit(p) * Number(p.whole) + PerUnit(p) * Number(p.Kept()) / Power10(|p.Kept()|)
  {
    TimesIsProduct(p.unit, Number(p.whole));
    TimesIsProduct(p.unit, Number(p.Kept()));
    DropIsDivision(PerUnit(p) * Number(p.Kept()), |p.Kept()|);
  }

  lemma ExactIs(p: Pair)
    ensures p.Exact()
         == PerUnit(p) * (Number(p.whole) * Power10(|p.fraction|) + Number(p.fraction)) / Power10(|p.fraction|)
  {
    var n := Number(p.whole + p.fraction);
    NumberOfConcat(p.whole, p.fraction);
    TimesIsProduct(p.unit, n);
    DropIsDivision(PerUnit(p) * n, |p.fraction|);
  }

  lemma ShortNumbers(s: nat, u: nat, w: nat, f: nat, q: nat, r: nat)
    requires u * f == q * s + r && r < s
    ensures u * (w * s + f) / s == u * w + q
  {
    assert (w * s + f) * 1 + 0 == w * s + f && s * 1 == s;
    Regroup(s, 1, u, w, f, 0, q, r);
    Rounding(s, u * (w * s + f), u * w + q, r);
  }

  lemma ShortValues(s: nat, u: nat, w: nat, f: nat, value: nat, exact: nat)
    requires 0 < s && value == u * w + u * f / s && exact == u * (w * s + f) / s
    ensures value == exact
  {
    Divide(u * f, s);
    ShortNumbers(s, u, w, f, u * f / s, u * f % s);
  }

  lemma ShortFractionIsExact(p: Pair)
    requires |p.fraction| <= KEPT
    ensures p.Value() == p.Exact()
  {
    ValueIs(p);
    ExactIs(p);
    ShortValues(Power10(|p.fraction|), PerUnit(p), Number(p.whole), Number(p.fraction), p.Value(), p.Exact());
  }

  lemma Divide(x: nat, s: nat)
    requires 0 < s
    ensures x == (x / s) * s + x % s && 0 <= x % s < s
  {
  }

  lemma LongNumbers(u: nat, w: nat, f: nat, g: nat, m: nat, n: nat, fraction: nat, value: nat, exact: nat)
    requires 0 < m && g < m && 0 < u <= SCALE && n == SCALE * m && fraction == f * m + g
    requires value == u * w + u * f / SCALE && exact == u * (w * n + fraction) / n
    ensures value <= exact <= value + 1
    ensures value == exact <==> (u * f % SCALE) * m + u * g < n
  {
    Regrouped(w, f, g, m);
    Truncation(SCALE, m, u, w, f, g, u * f / SCALE, u * f % SCALE, n, u * (w * n + fraction), value);
  }

  lemma FractionIs(p: Pair)
    requires |p.fraction| > KEPT
    ensures Number(p.fraction) == Number(p.Kept()) * Places(p) + Number(Lost(p)) && Number(Lost(p)) < Places(p)
    ensures Power10(|p.fraction|) == SCALE * Places(p) && |p.Kept()| == KEPT
  {
    hide Number, Power10;
    PowerOfKept();
    assert p.fraction == p.Kept() + Lost(p);
    NumberOfConcat(p.Kept(), Lost(p));
    NumberIsShort(Lost(p));
    Power10Splits(KEPT, |p.fraction| - KEPT);
  }

  lemma LongFraction(p: Pair)
    requires |p.fraction| > KEPT
    ensures p.Value() <= p.Exact() <= p.Value() + 1
    ensures p.Value() == p.Exact() <==> NothingCarries(p)
  {
    var n, kept := Power10(|p.fraction|), Number(p.Kept());
    ValueIs(p);
    ExactIs(p);
    PowerOfKept();
    TimesIsProduct(p.unit, 1);
    FractionIs(p);
    hide Number, Power10, Drop, Places, Lost;
    LongNumbers(PerUnit(p), Number(p.whole), kept, Number(Lost(p)), Places(p), n, Number(p.fraction), p.Value(),
                p.Exact());
  }

  lemma Regrouped(w: nat, f: nat, g: nat, m: nat)
    ensures (w * SCALE + f) * m + g == w * (SCALE * m) + (f * m + g)
  {
  }

  /**
   A pair's value is the number it writes rounded down to whole nanoseconds, or one nanosecond less;
   it is less exactly when the digits past the eighteenth would have carried.
   */
  lemma PairExactness(p: Pair)
    ensures p.Value() <= p.Exact() <= p.Value() + 1
    ensures p.Value() == p.Exact() <==> NothingCarries(p)
  {
    if |p.fraction| > KEPT {
      LongFraction(p);
    } else {
      ShortFractionIsExact(p);
    }
  }

  /** For units up to a second the dropped digits never carry. */
  lemma FineUnitsAreExact(p: Pair)
    requires !p.unit.Minute? && !p.unit.Hour?
    ensures p.Value() == p.Exact()
  {
    PairExactness(p);
    if |p.fraction| > KEPT {
      NumberIsShort(Lost(p));
      var c := SCALE / PerUnit(p);
      FineRemainder(PerUnit(p), c, Number(p.Kept()));
      NoCarry(PerUnit(p), PerUnit(p) * Number(p.Kept()) % SCALE, Places(p), Number(Lost(p)));
    }
  }

  lemma FineRemainder(u: nat, c: nat, f: nat)
    requires 0 < u && c > 0 && u * c == SCALE
    ensures u * f % SCALE == u * (f % c) <= SCALE - u
  {
    assert f == (f / c) * c + f % c;
    assert u * f == (f / c) * SCALE + u * (f % c);
    assert u * (f % c) <= u * (c - 1) == SCALE - u;
    DivModUnique(SCALE, u * f, f / c, u * (f % c));
  }

  lemma NoCarry(u: nat, r: nat, m: nat, g: nat)
    requires 0 < u && r <= SCALE - u && g < m
    ensures r * m + u * g < SCALE * m
  {
    assert r * m <= (SCALE - u) * m;
    assert u * g < u * m;
  }

  lemma {:induction false} ZerosAreZero(s: string)
    requires forall i :: 0 <= i < |s| ==> s[i] == '0'
    ensures Number(s) == 0
  {
    if s != "" {
      ZerosAreZero(s[..|s| - 1]);
    }
  }

  lemma SevenDigits()
    ensures Number("277777") == 277777 && Number("2777778") == 2777778
  {
    SixDigits();
    hide Number;
    Append("277777", '8');
    assert "277777" + ['8'] == "2777778";
  }

  lemma SixDigits()
    ensures Number("277777") == 277777
  {
    ThreeDigits();
    hide Number;
    Append("277", '7');
    Append("2777", '7');
    Append("27777", '7');
    assert "277" + ['7'] == "2777" && "2777" + ['7'] == "27777" && "27777" + ['7'] == "277777";
  }

  lemma ThreeDigits()
    ensures Number("277") == 277
  {
    assert Number("") == 0;
    hide Number;
    Append("", '2');
    Append("2", '7');
    Append("27", '7');
    assert "" + ['2'] == "2" && "2" + ['7'] == "27" && "27" + ['7'] == "277";
  }

  const LOSES := Pair("", true, "0000000000002777778", Hour)

  lemma FractionOfLoses()
    ensures |LOSES.fraction| == KEPT + 1 && Number(LOSES.fraction) == 2777778
  {
    SevenDigits();
    ZerosAreZero("000000000000");
    NumberOfConcat("000000000000", "2777778");
    assert LOSES.fraction == "000000000000" + "2777778";
  }

  lemma LosesExactly()
    ensures LOSES.Exact() == 1
  {
    FractionOfLoses();
    ExactIs(LOSES);
    PowerOfKept();
    Power10Splits(1, KEPT);
    assert Number(LOSES.whole) == 0;
  }

  lemma KeptOfLoses()
    ensures |LOSES.Kept()| == KEPT && Number(LOSES.Kept()) == 277777
  {
    SevenDigits();
    ZerosAreZero("000000000000");
    NumberOfConcat("000000000000", "277777");
    assert LOSES.Kept() == "000000000000" + "277777";
  }

  lemma LosesCounts()
    ensures LOSES.Value() == 0
  {
    KeptOfLoses();
    ValueIs(LOSES);
    PowerOfKept();
  }

  /** .0000000000002777778h is a nanosecond, and counts for none. */
  lemma HoursCanLose()
    ensures LOSES.Exact() == 1 && LOSES.Value() == 0
    ensures Meaning(".0000000000002777778h") == Some(0)
  {
    LosesExactly();
    LosesCounts();
    LosesIsText();
    hide Meaning, LOSES.Text, LOSES.Value;
    assert Text([LOSES]) == LOSES.Text() + Text([]);
    assert Total([LOSES]) == LOSES.Value() + Total([]);
    assert NoSign.Text() + Text([LOSES]) == ".0000000000002777778h";
    PairsMean(".0000000000002777778h", 0, NoSign, [LOSES]);
  }

  lemma LosesIsText()
    ensures LOSES.Ok() && LOSES.Text() == ".0000000000002777778h"
  {
    assert LOSES.Text() == "" + "." + "0000000000002777778" + "h";
  }
}
