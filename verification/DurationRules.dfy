/**
 What tasks/parse-duration/reference.hpp accepts and returns, in characters and numbers: the names of the
 units, what each is worth, signs, fractions and the range.
 */
module DurationRules {
  import opened Numerals
  import opened Sequences
  import opened Wrappers

  import opened Durations

  // A number and the name of its unit, as written.
  datatype Written = Written(whole: string, point: bool, fraction: string, name: string)

  predicate OnlyDigits(s: string) {
    forall i :: 0 <= i < |s| ==> '0' <= s[i] <= '9'
  }

  // Nanoseconds per unit, or 0 if there is no such unit. The micro sign is U+00B5 or U+03BC in UTF-8.
  function NanosPer(name: string): nat {
    if name == "ns" then 1
    else if name == "us" then 1_000
    else if name == ['\U{C2}', '\U{B5}', 's'] then 1_000
    else if name == ['\U{CE}', '\U{BC}', 's'] then 1_000
    else if name == "ms" then 1_000_000
    else if name == "s" then 1_000_000_000
    else if name == "m" then 60_000_000_000
    else if name == "h" then 3_600_000_000_000
    else 0
  }

  predicate Grammatical(w: Written) {
    && OnlyDigits(w.whole) && OnlyDigits(w.fraction) && |w.whole| + |w.fraction| > 0
    && (w.fraction != "" ==> w.point)
    && NanosPer(w.name) > 0
  }

  function TextOf(w: Written): string {
    w.whole + (if w.point then "." else "") + w.fraction + w.name
  }

  function Times(k: nat, n: nat): nat {
    k * n
  }

  // n / p of k, rounded down.
  function Part(k: nat, n: nat, p: nat): nat
    requires p > 0
  {
    k * n / p
  }

  // At most 18 digits of the fraction count, and what is below a nanosecond is dropped.
  function NanosOf(w: Written): nat {
    var kept := if |w.fraction| <= 18 then w.fraction else w.fraction[..18];
    Times(NanosPer(w.name), Number(w.whole)) + Part(NanosPer(w.name), Number(kept), Power10(|kept|))
  }

  function AllText(ws: seq<Written>): string {
    if ws == [] then "" else TextOf(ws[0]) + AllText(ws[1..])
  }

  function AllNanos(ws: seq<Written>): nat {
    if ws == [] then 0 else NanosOf(ws[0]) + AllNanos(ws[1..])
  }

  predicate AllGrammatical(ws: seq<Written>) {
    forall i :: 0 <= i < |ws| ==> Grammatical(ws[i])
  }

  predicate InRange(n: int) {
    -9_223_372_036_854_775_808 <= n <= 9_223_372_036_854_775_807
  }

  // s is a sign, if any, and these numbers with units, and comes to n.
  predicate ComesTo(s: string, n: int, sign: string, ws: seq<Written>) {
    && (sign == "" || sign == "+" || sign == "-")
    && ws != [] && AllGrammatical(ws) && s == sign + AllText(ws)
    && n == (if sign == "-" then 0 - AllNanos(ws) else AllNanos(ws)) && InRange(n)
  }

  // Units

  function UnitOf(name: string): Unit {
    if name == "ns" then Nanosecond
    else if name == "us" then Microsecond
    else if name == ['\U{C2}', '\U{B5}', 's'] then MicroSignSecond
    else if name == ['\U{CE}', '\U{BC}', 's'] then MuSecond
    else if name == "ms" then Millisecond
    else if name == "s" then Second
    else if name == "m" then Minute
    else Hour
  }

  lemma UnitIsNamed(name: string)
    requires NanosPer(name) > 0
    ensures UnitOf(name).Name() == name
  {
  }

  lemma NameIsWorth(u: Unit, n: nat)
    ensures NanosPer(u.Name()) > 0 && u.Times(n) == NanosPer(u.Name()) * n
  {
    match u
    case Nanosecond => assert u.Name()[0] == 'n';
    case Microsecond => assert u.Name()[0] == 'u';
    case MicroSignSecond => assert u.Name()[0] == '\U{C2}';
    case MuSecond => assert u.Name()[0] == '\U{CE}';
    case Millisecond => assert u.Name()[0] == 'm' && |u.Name()| == 2;
    case Second => assert u.Name()[0] == 's';
    case Minute => assert u.Name()[0] == 'm' && |u.Name()| == 1;
    case Hour => assert u.Name()[0] == 'h';
  }

  // Pairs and what is written

  function PairOf(w: Written): Pair {
    Pair(w.whole, w.point, w.fraction, UnitOf(w.name))
  }

  function WrittenOf(p: Pair): Written {
    Written(p.whole, p.point, p.fraction, p.unit.Name())
  }

  lemma FirstEighteen(f: string)
    ensures First(f, KEPT) == if |f| <= 18 then f else f[..18]
  {
  }

  lemma PairIsWritten(p: Pair)
    ensures p.Ok() <==> Grammatical(WrittenOf(p))
    ensures p.Text() == TextOf(WrittenOf(p))
    ensures p.Value() == NanosOf(WrittenOf(p))
  {
    NameIsWorth(p.unit, 0);
    PairIsWorth(p);
    hide Number, Power10, NanosPer, Drop, Pair.Value, NanosOf;
  }

  lemma PairIsWorth(p: Pair)
    ensures p.Value() == NanosOf(WrittenOf(p))
  {
    NameIsWorth(p.unit, Number(p.whole));
    NameIsWorth(p.unit, Number(p.Kept()));
    DropIsDivision(p.unit.Times(Number(p.Kept())), |p.Kept()|);
    FirstEighteen(p.fraction);
    hide Number, Power10, NanosPer, Drop, Unit.Name, Unit.Times;
  }

  lemma WrittenIsPair(w: Written)
    requires NanosPer(w.name) > 0
    ensures WrittenOf(PairOf(w)) == w
  {
    UnitIsNamed(w.name);
  }

  function PairsOf(ws: seq<Written>): seq<Pair> {
    seq(|ws|, i requires 0 <= i < |ws| => PairOf(ws[i]))
  }

  function WrittensOf(ps: seq<Pair>): seq<Written> {
    seq(|ps|, i requires 0 <= i < |ps| => WrittenOf(ps[i]))
  }

  lemma {:induction false} PairsAreWritten(ps: seq<Pair>)
    ensures AllOk(ps) <==> AllGrammatical(WrittensOf(ps))
    ensures Text(ps) == AllText(WrittensOf(ps)) && Total(ps) == AllNanos(WrittensOf(ps))
  {
    forall i | 0 <= i < |ps|
      ensures ps[i].Ok() <==> Grammatical(WrittensOf(ps)[i])
    {
      PairIsWritten(ps[i]);
    }
    if ps != [] {
      hide TextOf, NanosOf, Grammatical, NanosPer;
      PairIsWritten(ps[0]);
      assert WrittensOf(ps)[1..] == WrittensOf(ps[1..]);
      PairsAreWritten(ps[1..]);
    }
  }

  lemma WrittensArePairs(ws: seq<Written>)
    requires AllGrammatical(ws)
    ensures WrittensOf(PairsOf(ws)) == ws
  {
    forall i | 0 <= i < |ws|
      ensures WrittenOf(PairOf(ws[i])) == ws[i]
    {
      WrittenIsPair(ws[i]);
    }
  }

  lemma ComesToIsDenoted(s: string, n: int, sign: Sign, ps: seq<Pair>)
    ensures DenotedBy(s, n, sign, ps) <==> ComesTo(s, n, sign.Text(), WrittensOf(ps))
  {
    PairsAreWritten(ps);
    hide Text, Total, AllText, AllNanos, AllOk, AllGrammatical;
  }

  lemma SignsAre(sign: string)
    ensures (sign == "" || sign == "+" || sign == "-") <==> exists g: Sign :: g.Text() == sign
  {
    assert NoSign.Text() == "" && PlusSign.Text() == "+" && MinusSign.Text() == "-";
  }

  /** What is parsed, and to what: a zero with or without a sign, or numbers with units. */
  lemma ParsesExactly(s: string, n: int)
    ensures Meaning(s) == Some(n)
       <==> || (n == 0 && (s == "0" || s == "+0" || s == "-0"))
            || exists sign, ws :: ComesTo(s, n, sign, ws)
  {
    hide Meaning, DenotedBy, ComesTo;
    MeaningIsDenotation(s, n);
    assert NoSign.Text() + "0" == "0" && PlusSign.Text() + "0" == "+0" && MinusSign.Text() + "0" == "-0";
    if sign: Sign, ps: seq<Pair> :| DenotedBy(s, n, sign, ps) {
      ComesToIsDenoted(s, n, sign, ps);
    }
    if sign: string, ws: seq<Written> :| ComesTo(s, n, sign, ws) {
      ComesToDenotes(s, n, sign, ws);
    }
  }

  lemma ComesToDenotes(s: string, n: int, sign: string, ws: seq<Written>)
    requires ComesTo(s, n, sign, ws)
    ensures Denotes(s, n)
  {
    SignsAre(sign);
    var g: Sign :| g.Text() == sign;
    WrittensArePairs(ws);
    ComesToIsDenoted(s, n, g, PairsOf(ws));
    hide DenotedBy;
    assert DenotedBy(s, n, g, PairsOf(ws));
  }

  /** One number and its unit. */
  lemma OneUnit(d: string, name: string)
    requires d != "" && OnlyDigits(d) && NanosPer(name) > 0
    ensures Meaning(d + name) == if Times(NanosPer(name), Number(d)) < 0x8000_0000_0000_0000
                                 then Some(Times(NanosPer(name), Number(d))) else None
  {
    var w := Written(d, false, "", name);
    BareText(d, name);
    BareNanos(d, name);
    hide Meaning, TextOf, NanosOf, NanosPer, Number, Times;
    OneWritten(w);
  }

  lemma BareText(d: string, name: string)
    ensures TextOf(Written(d, false, "", name)) == d + name
  {
    assert d + "" + "" == d;
  }

  lemma BareNanos(d: string, name: string)
    ensures NanosOf(Written(d, false, "", name)) == Times(NanosPer(name), Number(d))
  {
    NothingKept(NanosPer(name));
    hide Number, Power10, NanosPer, Part, Times;
  }

  lemma NothingKept(k: nat)
    ensures Part(k, Number(""), Power10(0)) == 0
  {
    assert Number("") == 0 && Power10(0) == 1 && k * 0 == 0;
  }

  lemma OneWritten(w: Written)
    requires Grammatical(w)
    ensures Meaning(TextOf(w)) == if NanosOf(w) < 0x8000_0000_0000_0000 then Some(NanosOf(w)) else None
  {
    var p := PairOf(w);
    WrittenIsPair(w);
    PairIsWritten(p);
    hide Grammatical, NanosOf, TextOf, NanosPer, UnitOf;
    OnePair(p);
  }

  lemma OnePair(p: Pair)
    requires p.Ok()
    ensures Meaning(p.Text()) == if p.Value() < 0x8000_0000_0000_0000 then Some(p.Value()) else None
  {
    PairStarts(p);
    OneInList(p);
    DecodeOfText([p]);
    hide p.Text, p.Ok, p.Value, Decode;
    PlainBody(p.Text());
    ZeroIsNoPair();
  }

  lemma OneInList(p: Pair)
    ensures Text([p]) == p.Text() && Total([p]) == p.Value()
  {
    hide p.Text, p.Value;
    assert Text([p]) == p.Text() + Text([]) == p.Text();
  }

  lemma PlainBody(s: string)
    requires s != "" && s[0] != '+' && s[0] != '-'
    ensures SignOf(s) == NoSign && Body(s) == s
  {
  }

  /** Each unit, with what it is worth. */
  lemma UnitsAre(d: string)
    requires d != "" && OnlyDigits(d) && Number(d) * 3_600_000_000_000 < 0x8000_0000_0000_0000
    ensures Meaning(d + "ns") == Some(Number(d))
    ensures Meaning(d + "us") == Some(Number(d) * 1_000)
    ensures Meaning(d + "\U{C2}\U{B5}s") == Some(Number(d) * 1_000)
    ensures Meaning(d + "\U{CE}\U{BC}s") == Some(Number(d) * 1_000)
    ensures Meaning(d + "ms") == Some(Number(d) * 1_000_000)
    ensures Meaning(d + "s") == Some(Number(d) * 1_000_000_000)
    ensures Meaning(d + "m") == Some(Number(d) * 60_000_000_000)
    ensures Meaning(d + "h") == Some(Number(d) * 3_600_000_000_000)
  {
    hide Meaning, Number;
    NamesAre();
    hide NanosPer;
    OneUnit(d, "ns");
    OneUnit(d, "us");
    OneUnit(d, "\U{C2}\U{B5}s");
    OneUnit(d, "\U{CE}\U{BC}s");
    OneUnit(d, "ms");
    OneUnit(d, "s");
    OneUnit(d, "m");
    OneUnit(d, "h");
  }

  lemma NamesAre()
    ensures NanosPer("ns") == 1 && NanosPer("us") == 1_000
    ensures NanosPer("\U{C2}\U{B5}s") == 1_000 && NanosPer("\U{CE}\U{BC}s") == 1_000
    ensures NanosPer("ms") == 1_000_000 && NanosPer("s") == 1_000_000_000
    ensures NanosPer("m") == 60_000_000_000 && NanosPer("h") == 3_600_000_000_000
  {
    NameIsWorth(Nanosecond, 1);
    NameIsWorth(Microsecond, 1);
    NameIsWorth(MicroSignSecond, 1);
    NameIsWorth(MuSecond, 1);
    NameIsWorth(Millisecond, 1);
    NameIsWorth(Second, 1);
    NameIsWorth(Minute, 1);
    NameIsWorth(Hour, 1);
  }

  /** A number with a fraction and its unit. */
  lemma OneFraction(d: string, f: string, name: string)
    requires OnlyDigits(d) && OnlyDigits(f) && |d| + |f| > 0 && |f| <= 18 && NanosPer(name) > 0
    ensures var n := Times(NanosPer(name), Number(d)) + Part(NanosPer(name), Number(f), Power10(|f|));
      Meaning(d + "." + f + name) == if n < 0x8000_0000_0000_0000 then Some(n) else None
  {
    hide Meaning, NanosPer, Number, Power10, Part, Times, OnlyDigits;
    OneWritten(Written(d, true, f, name));
  }

  /** A fraction of a minute. */
  lemma FractionOfMinute(d: string, f: string)
    requires OnlyDigits(d) && OnlyDigits(f) && |d| + |f| > 0 && |f| <= 18
    requires (Number(d) + 1) * 60_000_000_000 < 0x8000_0000_0000_0000
    ensures Meaning(d + "." + f + "m")
         == Some(60_000_000_000 * Number(d) + Part(60_000_000_000, Number(f), Power10(|f|)))
  {
    NamesAre();
    NumberIsShort(f);
    hide Meaning, NanosPer, Number, Power10, Part, OnlyDigits;
    OneFraction(d, f, "m");
    PartBelow(60_000_000_000, Number(f), Power10(|f|));
  }

  lemma PartBelow(k: nat, n: nat, p: nat)
    requires n < p
    ensures Part(k, n, p) <= k
  {
    var q, rest := k * n / p, k * n % p;
    assert k * n == q * p + rest;
    if q > k {
      Further(k, q, p);
      Further(n, p, k);
    }
  }

  lemma Further(a: nat, b: nat, c: nat)
    requires a < b
    ensures a * c + c <= b * c
  {
    assert b * c == a * c + (b - a) * c;
    assert (b - a - 1) * c >= 0;
  }

  /** An hour and a half, and a negative duration. */
  lemma DocumentedExamples()
    ensures Meaning("1h30m") == Some(5_400_000_000_000)
    ensures Meaning("-2m3.5s") == Some(-123_500_000_000)
  {
    hide Meaning, Number, Power10, NanosPer;
    SmallNumbers();
    NamesAre();
    TwoComeTo("1h30m", "", Written("1", false, "", "h"), Written("30", false, "", "m"));
    TwoComeTo("-2m3.5s", "-", Written("2", false, "", "m"), Written("3", true, "5", "s"));
  }

  lemma SmallNumbers()
    ensures Number("") == 0 && Number("1") == 1 && Number("2") == 2 && Number("3") == 3 && Number("5") == 5
    ensures Number("30") == 30 && Power10(0) == 1 && Power10(1) == 10
  {
    assert "3" + ['0'] == "30";
    Append("3", '0');
  }

  lemma TwoComeTo(s: string, sign: string, v: Written, w: Written)
    requires Grammatical(v) && Grammatical(w) && (sign == "" || sign == "-") && s == sign + TextOf(v) + TextOf(w)
    requires NanosOf(v) + NanosOf(w) < 0x8000_0000_0000_0000
    ensures Meaning(s) == Some(if sign == "-" then -(NanosOf(v) + NanosOf(w)) else NanosOf(v) + NanosOf(w))
  {
    hide Meaning, Grammatical, TextOf, NanosOf, NanosPer;
    var n := NanosOf(v) + NanosOf(w);
    assert [v, w][1..] == [w] && [w][1..] == [];
    assert AllText([w]) == TextOf(w) + "" && AllText([v, w]) == TextOf(v) + AllText([w]);
    assert AllNanos([w]) == NanosOf(w) + 0 && AllNanos([v, w]) == NanosOf(v) + AllNanos([w]);
    assert s == sign + AllText([v, w]);
    assert ComesTo(s, if sign == "-" then -n else n, sign, [v, w]);
    ParsesExactly(s, if sign == "-" then -n else n);
  }
}
