/**
 The text of semantic versions (sections 2, 9 and 10 of Semantic Versioning 2.0.0).
 */
module SemanticVersions {
  import opened Numerals
  import opened Strings
  import opened Wrappers

  predicate IsIdentChar(c: char) {
    IsDigit(c) || 'a' <= c <= 'z' || 'A' <= c <= 'Z' || c == '-'
  }

  predicate AllDigits(s: string) {
    s != "" && forall i :: 0 <= i < |s| ==> IsDigit(s[i])
  }

  // No leading zeros.
  predicate ValidNumber(s: string) {
    AllDigits(s) && (|s| == 1 || s[0] != '0')
  }

  predicate ValidIdent(s: string) {
    s != "" && forall i :: 0 <= i < |s| ==> IsIdentChar(s[i])
  }

  datatype Kind = Core | PreRelease | Build

  predicate Valid(kind: Kind, s: string) {
    match kind
    case Core => ValidNumber(s)
    case PreRelease => ValidIdent(s) && (AllDigits(s) ==> ValidNumber(s))
    case Build => ValidIdent(s)
  }

  predicate AllValid(kind: Kind, parts: seq<string>) {
    forall i :: 0 <= i < |parts| ==> Valid(kind, parts[i])
  }

  // What precedence depends on. Build metadata does not count.
  datatype Version = Version(core: seq<string>, pre: seq<string>)

  predicate WellFormed(v: Version, build: seq<string>) {
    |v.core| == 3 && AllValid(Core, v.core) && AllValid(PreRelease, v.pre) && AllValid(Build, build)
  }

  function Tail(mark: char, parts: seq<string>): string {
    if parts == [] then "" else [mark] + Join(parts, '.')
  }

  function Text(v: Version, build: seq<string>): string {
    Join(v.core, '.') + Tail('-', v.pre) + Tail('+', build)
  }

  /** s is the text of version v, with some build metadata or none. */
  ghost predicate Denotes(s: string, v: Version) {
    exists build :: WellFormed(v, build) && s == Text(v, build)
  }

  function SplitFrom(s: string, sep: char, from: nat): (parts: seq<string>)
    requires from <= |s|
    ensures parts != []
    decreases |s| - from
  {
    var i := Find(s, sep, from);
    if i == |s| then [Until(s, sep, from)] else [Until(s, sep, from)] + SplitFrom(s, sep, i + 1)
  }

  function Split(s: string, sep: char): (parts: seq<string>)
    ensures parts != []
  {
    SplitFrom(s, sep, 0)
  }

  // What is before the mark, and the parts after it; no parts if there is no mark.
  function Cut(s: string, mark: char): (string, seq<string>) {
    var i := Find(s, mark, 0);
    if i == |s| then (s, []) else (s[..i], Split(s[i + 1..], '.'))
  }

  // The version that s is, if it is one; see ParseIsGrammar.
  function Parse(s: string): Option<Version> {
    var (rest, build) := Cut(s, '+');
    var (core, pre) := Cut(rest, '-');
    var v := Version(Split(core, '.'), pre);
    if WellFormed(v, build) then Some(v) else None
  }

  predicate Lacks(s: string, c: char) {
    forall i :: 0 <= i < |s| ==> s[i] != c
  }

  predicate AllLack(parts: seq<string>, c: char) {
    forall i :: 0 <= i < |parts| ==> Lacks(parts[i], c)
  }

  lemma {:induction false} JoinOfSplitFrom(s: string, sep: char, from: nat)
    requires from <= |s|
    ensures Join(SplitFrom(s, sep, from), sep) == s[from..]
    decreases |s| - from
  {
    var i := Find(s, sep, from);
    UntilIsSlice(s, sep, from);
    if i < |s| {
      JoinOfSplitFrom(s, sep, i + 1);
      assert SplitFrom(s, sep, from)[1..] == SplitFrom(s, sep, i + 1);
      Middle(s, from, i);
    } else {
      assert s[from..i] == s[from..];
    }
  }

  lemma Middle(s: string, from: nat, i: nat)
    requires from <= i < |s|
    ensures s[from..] == s[from..i] + [s[i]] + s[i + 1..]
  {
  }

  lemma JoinOfSplit(s: string, sep: char)
    ensures Join(Split(s, sep), sep) == s
  {
    JoinOfSplitFrom(s, sep, 0);
    assert s[0..] == s;
  }

  lemma {:induction false} SplitOfJoinFrom(s: string, parts: seq<string>, sep: char, from: nat)
    requires parts != [] && AllLack(parts, sep) && from <= |s| && s[from..] == Join(parts, sep)
    ensures SplitFrom(s, sep, from) == parts
    decreases |parts|
  {
    hide Find, Until, Lacks;
    if |parts| == 1 {
      OnlyPart(s, parts[0], sep, from);
      assert parts == [parts[0]];
    } else {
      FirstPart(s, parts[0], sep, Join(parts[1..], sep), from);
      SplitOfJoinFrom(s, parts[1..], sep, from + |parts[0]| + 1);
      assert parts == [parts[0]] + parts[1..];
    }
  }

  lemma {:induction false} OnlyPart(s: string, part: string, sep: char, from: nat)
    requires from <= |s| && s[from..] == part && Lacks(part, sep)
    ensures Find(s, sep, from) == |s| && Until(s, sep, from) == part
  {
    forall i | from <= i < |s|
      ensures s[i] != sep
    {
      assert s[i] == s[from..][i - from];
    }
    FindIs(s, sep, from, |s|);
    UntilIsSlice(s, sep, from);
  }

  lemma FirstPart(s: string, part: string, sep: char, rest: string, from: nat)
    requires from <= |s| && s[from..] == part + [sep] + rest && Lacks(part, sep)
    ensures var next := from + |part|;
      next < |s| && Find(s, sep, from) == next && Until(s, sep, from) == part && s[next + 1..] == rest
  {
    var t := s[from..];
    var next := from + |part|;
    forall i | from <= i < next
      ensures s[i] != sep
    {
      assert s[i] == t[i - from] == part[i - from];
    }
    assert s[next] == t[|part|] == sep;
    assert s[from..next] == t[..|part|] && s[next + 1..] == t[|part| + 1..];
    FindIs(s, sep, from, next);
    UntilIsSlice(s, sep, from);
  }

  lemma SplitOfJoin(parts: seq<string>, sep: char)
    requires parts != [] && AllLack(parts, sep)
    ensures Split(Join(parts, sep), sep) == parts
  {
    var s := Join(parts, sep);
    assert s[0..] == s;
    SplitOfJoinFrom(s, parts, sep, 0);
  }

  lemma {:induction false} JoinLacks(parts: seq<string>, c: char)
    requires c != '.' && AllLack(parts, c)
    ensures Lacks(Join(parts, '.'), c)
  {
    if |parts| > 1 {
      JoinLacks(parts[1..], c);
    }
  }

  // Marks do not occur where they would be taken for others.
  lemma ValidLacks(kind: Kind, parts: seq<string>, c: char)
    requires AllValid(kind, parts) && !IsDigit(c) && (kind.Core? || !IsIdentChar(c))
    ensures AllLack(parts, c)
  {
  }

  lemma TailOfCut(s: string, mark: char)
    ensures s == Cut(s, mark).0 + Tail(mark, Cut(s, mark).1)
  {
    var i := Find(s, mark, 0);
    if i < |s| {
      JoinOfSplit(s[i + 1..], '.');
      assert s == s[..i] + ([mark] + s[i + 1..]);
    }
  }

  lemma CutOfTail(head: string, mark: char, parts: seq<string>)
    requires Lacks(head, mark) && AllLack(parts, '.')
    ensures Cut(head + Tail(mark, parts), mark) == (head, parts)
  {
    var s := head + Tail(mark, parts);
    FindIs(s, mark, 0, |head|);
    if parts != [] {
      assert s[..|head|] == head && s[|head| + 1..] == Join(parts, '.');
      SplitOfJoin(parts, '.');
    } else {
      assert s == head;
    }
  }

  lemma ParseSound(s: string)
    requires Parse(s).Some?
    ensures Denotes(s, Parse(s).value)
  {
    var (rest, build) := Cut(s, '+');
    var (core, pre) := Cut(rest, '-');
    TailOfCut(s, '+');
    TailOfCut(rest, '-');
    JoinOfSplit(core, '.');
    assert s == Text(Parse(s).value, build);
  }

  lemma ParseComplete(v: Version, build: seq<string>)
    requires WellFormed(v, build)
    ensures Parse(Text(v, build)) == Some(v)
  {
    var core := Join(v.core, '.');
    ValidLacks(Core, v.core, '.');
    ValidLacks(Core, v.core, '-');
    ValidLacks(Core, v.core, '+');
    ValidLacks(PreRelease, v.pre, '.');
    ValidLacks(PreRelease, v.pre, '+');
    ValidLacks(Build, build, '.');
    JoinLacks(v.core, '-');
    JoinLacks(v.core, '+');
    JoinLacks(v.pre, '+');
    CutOfTail(core + Tail('-', v.pre), '+', build);
    CutOfTail(core, '-', v.pre);
    SplitOfJoin(v.core, '.');
  }

  /** Parse accepts exactly the version grammar, and a string denotes at most one version. */
  lemma ParseIsGrammar(s: string, v: Version)
    ensures Denotes(s, v) <==> Parse(s) == Some(v)
  {
    if Denotes(s, v) {
      var build :| WellFormed(v, build) && s == Text(v, build);
      ParseComplete(v, build);
    }
    if Parse(s) == Some(v) {
      ParseSound(s);
    }
  }
}

/**
 The precedence of versions (section 11 of Semantic Versioning 2.0.0).
 */
module Precedence {
  import opened Numerals
  import opened SemanticVersions

  function Sign(n: int): int {
    if n < 0 then -1 else if n > 0 then 1 else 0
  }

  // Byte by byte, a prefix before what it is a prefix of.
  function CompareText(a: string, b: string): int {
    if a == "" && b == "" then 0
    else if a == "" then -1
    else if b == "" then 1
    else if a[0] != b[0] then (if a[0] < b[0] then -1 else 1)
    else CompareText(a[1..], b[1..])
  }

  // Longer means larger; see NumbersCompare.
  function CompareNumbers(a: string, b: string): int {
    if |a| != |b| then (if |a| < |b| then -1 else 1) else CompareText(a, b)
  }

  function CompareIdent(x: string, y: string): int {
    if AllDigits(x) && AllDigits(y) then CompareNumbers(x, y)
    else if AllDigits(x) then -1
    else if AllDigits(y) then 1
    else CompareText(x, y)
  }

  function CompareLists(xs: seq<string>, ys: seq<string>): int
    decreases |xs|
  {
    if xs == [] && ys == [] then 0
    else if xs == [] then -1
    else if ys == [] then 1
    else if CompareIdent(xs[0], ys[0]) != 0 then CompareIdent(xs[0], ys[0])
    else CompareLists(xs[1..], ys[1..])
  }

  function ComparePre(a: seq<string>, b: seq<string>): int {
    if a == [] && b == [] then 0
    else if a == [] then 1
    else if b == [] then -1
    else CompareLists(a, b)
  }

  function Compare(a: Version, b: Version): int {
    if CompareLists(a.core, b.core) != 0 then CompareLists(a.core, b.core) else ComparePre(a.pre, b.pre)
  }

  // The laws of an order, for each comparison in turn.

  lemma {:induction false} TextLaws(a: string, b: string)
    ensures CompareText(a, b) == -CompareText(b, a)
    ensures CompareText(a, b) == 0 <==> a == b
    ensures -1 <= CompareText(a, b) <= 1
    decreases |a|
  {
    if a != "" && b != "" && a[0] == b[0] {
      TextLaws(a[1..], b[1..]);
      assert a == [a[0]] + a[1..] && b == [b[0]] + b[1..];
    }
  }

  lemma {:induction false} TextTransitive(a: string, b: string, c: string)
    requires CompareText(a, b) < 0 && CompareText(b, c) < 0
    ensures CompareText(a, c) < 0
    decreases |a|
  {
    if a != "" && a[0] == b[0] && b[0] == c[0] {
      TextTransitive(a[1..], b[1..], c[1..]);
    }
  }

  lemma IdentLaws(x: string, y: string)
    ensures CompareIdent(x, y) == -CompareIdent(y, x)
    ensures CompareIdent(x, y) == 0 <==> x == y
    ensures -1 <= CompareIdent(x, y) <= 1
  {
    TextLaws(x, y);
  }

  lemma IdentTransitive(x: string, y: string, z: string)
    requires CompareIdent(x, y) < 0 && CompareIdent(y, z) < 0
    ensures CompareIdent(x, z) < 0
  {
    if CompareText(x, y) < 0 && CompareText(y, z) < 0 {
      TextTransitive(x, y, z);
    }
  }

  lemma {:induction false} ListLaws(xs: seq<string>, ys: seq<string>)
    ensures CompareLists(xs, ys) == -CompareLists(ys, xs)
    ensures CompareLists(xs, ys) == 0 <==> xs == ys
    ensures -1 <= CompareLists(xs, ys) <= 1
    decreases |xs|
  {
    if xs != [] && ys != [] {
      IdentLaws(xs[0], ys[0]);
      if xs[0] == ys[0] {
        ListLaws(xs[1..], ys[1..]);
        assert xs == [xs[0]] + xs[1..] && ys == [ys[0]] + ys[1..];
      }
    }
  }

  lemma {:induction false} ListTransitive(xs: seq<string>, ys: seq<string>, zs: seq<string>)
    requires CompareLists(xs, ys) < 0 && CompareLists(ys, zs) < 0
    ensures CompareLists(xs, zs) < 0
    decreases |xs|
  {
    if xs != [] {
      IdentLaws(xs[0], ys[0]);
      IdentLaws(ys[0], zs[0]);
      if xs[0] == ys[0] && ys[0] == zs[0] {
        ListTransitive(xs[1..], ys[1..], zs[1..]);
      } else if xs[0] != ys[0] && ys[0] != zs[0] {
        IdentTransitive(xs[0], ys[0], zs[0]);
      }
    }
  }

  // xs and ys first differ at i, and there xs is before ys, or has ended.
  predicate BeforeAt(xs: seq<string>, ys: seq<string>, i: nat) {
    i <= |xs| && i < |ys| && xs[..i] == ys[..i] && (i == |xs| || CompareIdent(xs[i], ys[i]) < 0)
  }

  /** One list precedes another exactly if it does so at the first difference. */
  lemma {:induction false} ListBefore(xs: seq<string>, ys: seq<string>)
    ensures CompareLists(xs, ys) < 0 <==> exists i: nat :: BeforeAt(xs, ys, i)
    decreases |xs|
  {
    if xs == [] {
      assert ys != [] ==> BeforeAt(xs, ys, 0);
    } else if ys != [] {
      IdentLaws(xs[0], ys[0]);
      if xs[0] != ys[0] {
        assert CompareIdent(xs[0], ys[0]) < 0 ==> BeforeAt(xs, ys, 0);
        assert forall i: nat :: BeforeAt(xs, ys, i) && i > 0 ==> xs[..i][0] == ys[..i][0];
      } else {
        ListBefore(xs[1..], ys[1..]);
        LaterDifference(xs, ys);
      }
    }
  }

  lemma LaterDifference(xs: seq<string>, ys: seq<string>)
    requires xs != [] && ys != [] && xs[0] == ys[0] && CompareIdent(xs[0], ys[0]) == 0
    ensures (exists i: nat :: BeforeAt(xs, ys, i)) <==> exists i: nat :: BeforeAt(xs[1..], ys[1..], i)
  {
    if i: nat :| BeforeAt(xs, ys, i) {
      assert xs[1..][..i - 1] == xs[..i][1..] && ys[1..][..i - 1] == ys[..i][1..];
      assert BeforeAt(xs[1..], ys[1..], i - 1);
    }
    if i: nat :| BeforeAt(xs[1..], ys[1..], i) {
      assert xs[..i + 1] == [xs[0]] + xs[1..][..i] && ys[..i + 1] == [ys[0]] + ys[1..][..i];
      assert BeforeAt(xs, ys, i + 1);
    }
  }

  /** Precedence is antisymmetric in sign, and 0 exactly between equal versions. */
  lemma CompareLaws(a: Version, b: Version)
    ensures Compare(a, b) == -Compare(b, a)
    ensures Compare(a, b) == 0 <==> a == b
    ensures -1 <= Compare(a, b) <= 1
  {
    ListLaws(a.core, b.core);
    ListLaws(a.pre, b.pre);
  }

  /** Precedence is transitive, strictly when either step is strict. */
  lemma CompareTransitive(a: Version, b: Version, c: Version)
    requires Compare(a, b) <= 0 && Compare(b, c) <= 0
    ensures Compare(a, c) <= 0
    ensures Compare(a, b) < 0 || Compare(b, c) < 0 ==> Compare(a, c) < 0
  {
    CompareLaws(a, b);
    CompareLaws(b, c);
    if Compare(a, b) < 0 && Compare(b, c) < 0 {
      ListLaws(a.core, b.core);
      ListLaws(b.core, c.core);
      if CompareLists(a.core, b.core) < 0 && CompareLists(b.core, c.core) < 0 {
        ListTransitive(a.core, b.core, c.core);
      } else if a.core == b.core == c.core {
        ListLaws(a.core, a.core);
        if a.pre != [] && b.pre != [] && c.pre != [] {
          ListTransitive(a.pre, b.pre, c.pre);
        }
      }
    }
  }

  lemma NumberOfCons(c: char, s: string)
    ensures Number([c] + s) == DigitValue(c) * Power10(|s|) + Number(s)
  {
    NumberOfConcat([c], s);
    OneDigit(c);
  }

  lemma OneDigit(c: char)
    ensures Number([c]) == DigitValue(c)
  {
  }

  lemma {:induction false} SameLengthNumbers(a: string, b: string)
    requires |a| == |b| && Digits(a) && Digits(b)
    ensures CompareText(a, b) == Sign(Number(a) - Number(b))
  {
    if a != "" {
      SameLengthNumbers(a[1..], b[1..]);
      hide Number, Power10;
      assert a == [a[0]] + a[1..] && b == [b[0]] + b[1..];
      NumberOfCons(a[0], a[1..]);
      NumberOfCons(b[0], b[1..]);
      NumberIsShort(a[1..]);
      NumberIsShort(b[1..]);
      if a[0] != b[0] {
        LeadingDigit(DigitValue(a[0]), DigitValue(b[0]), Power10(|a| - 1), Number(a[1..]), Number(b[1..]));
      }
    }
  }

  lemma LeadingDigit(d: nat, e: nat, p: nat, x: nat, y: nat)
    requires x < p && y < p && d != e
    ensures Sign(d * p + x - (e * p + y)) == Sign(d - e)
  {
    if d < e {
      Further(d, e, p);
    } else {
      Further(e, d, p);
    }
  }

  lemma Further(d: nat, e: nat, p: nat)
    requires d < e
    ensures d * p + p <= e * p
  {
    assert e * p == d * p + (e - d) * p;
    assert (e - d - 1) * p >= 0;
  }

  lemma {:induction false} ShorterNumber(a: string, b: string)
    requires |a| < |b| && ValidNumber(a) && ValidNumber(b)
    ensures Number(a) < Number(b)
  {
    NumberIsShort(a);
    assert b == [b[0]] + b[1..];
    NumberOfCons(b[0], b[1..]);
    Further(0, DigitValue(b[0]), Power10(|b| - 1));
    Power10Grows(|a|, |b| - 1);
  }

  lemma {:induction false} Power10Grows(a: nat, b: nat)
    requires a <= b
    ensures Power10(a) <= Power10(b)
  {
    if a < b {
      Power10Grows(a, b - 1);
    }
  }

  /** Without leading zeros, comparing digit strings is comparing the numbers they write. */
  lemma NumbersCompare(a: string, b: string)
    requires ValidNumber(a) && ValidNumber(b)
    ensures CompareNumbers(a, b) == Sign(Number(a) - Number(b))
  {
    if |a| < |b| {
      ShorterNumber(a, b);
    } else if |b| < |a| {
      ShorterNumber(b, a);
    } else {
      SameLengthNumbers(a, b);
    }
  }
}

/**
 The functions of tasks/semver-compare/reference.hpp.
 */
module SemverCompare {
  import opened Numerals
  import opened Strings
  import opened Wrappers

  import opened Precedence
  import opened SemanticVersions

  method IsAllDigits(s: string) returns (r: bool)
    ensures r == AllDigits(s)
  {
    if s == "" {
      return false;
    }
    for i := 0 to |s|
      invariant forall k :: 0 <= k < i ==> IsDigit(s[k])
    {
      if !IsDigit(s[i]) {
        return false;
      }
    }
    return true;
  }

  method IsValidNumber(s: string) returns (r: bool)
    ensures r == ValidNumber(s)
  {
    var digits := IsAllDigits(s);
    return digits && (|s| == 1 || s[0] != '0');
  }

  method IsValidIdent(s: string) returns (r: bool)
    ensures r == ValidIdent(s)
  {
    if s == "" {
      return false;
    }
    for i := 0 to |s|
      invariant forall k :: 0 <= k < i ==> IsIdentChar(s[k])
    {
      if !IsIdentChar(s[i]) {
        return false;
      }
    }
    return true;
  }

  method SplitAll(s: string, sep: char) returns (parts: seq<string>)
    ensures parts == Split(s, sep)
  {
    SplitOntoIs([], s, sep, 0);
    assert [] + Split(s, sep) == Split(s, sep);
    parts := [];
    var start := 0;
    while true
      invariant start <= |s| && SplitOnto(parts, s, sep, start) == Split(s, sep)
      decreases |s| - start
    {
      var pos := Find(s, sep, start);
      UntilIsSlice(s, sep, start);
      parts := parts + [s[start..pos]];
      if pos == |s| {
        return;
      }
      start := pos + 1;
    }
  }

  // The parts so far, and those from `from` on.
  function SplitOnto(parts: seq<string>, s: string, sep: char, from: nat): seq<string>
    requires from <= |s|
    decreases |s| - from
  {
    var i := Find(s, sep, from);
    var more := parts + [Until(s, sep, from)];
    if i == |s| then more else SplitOnto(more, s, sep, i + 1)
  }

  lemma {:induction false} SplitOntoIs(parts: seq<string>, s: string, sep: char, from: nat)
    requires from <= |s|
    ensures SplitOnto(parts, s, sep, from) == parts + SplitFrom(s, sep, from)
    decreases |s| - from
  {
    var i, part := Find(s, sep, from), Until(s, sep, from);
    if i < |s| {
      SplitOntoIs(parts + [part], s, sep, i + 1);
      assert (parts + [part]) + SplitFrom(s, sep, i + 1) == parts + ([part] + SplitFrom(s, sep, i + 1));
    }
  }

  method ParseVersion(text: string) returns (r: Option<Version>)
    ensures r == Parse(text)
  {
    var v := text;
    var plus := Find(v, '+', 0);
    if plus < |v| {
      var build := SplitAll(v[plus + 1..], '.');
      var ok := IsValidBuild(build);
      if !ok {
        return None;
      }
      v := v[..plus];
    }
    r := ParseRest(v);
  }

  method IsValidBuild(build: seq<string>) returns (ok: bool)
    ensures ok == AllValid(Build, build)
  {
    for i := 0 to |build|
      invariant forall k :: 0 <= k < i ==> Valid(Build, build[k])
    {
      ok := IsValidIdent(build[i]);
      if !ok {
        assert !Valid(Build, build[i]);
        return false;
      }
    }
    return true;
  }

  // The version without its build metadata.
  method ParseRest(text: string) returns (r: Option<Version>)
    ensures r == var (core, pre) := Cut(text, '-');
                 var v := Version(Split(core, '.'), pre);
                 if WellFormed(v, []) then Some(v) else None
  {
    var v := text;
    var pre: seq<string> := [];
    var dash := Find(v, '-', 0);
    if dash < |v| {
      var ids := SplitAll(v[dash + 1..], '.');
      for i := 0 to |ids|
        invariant pre == ids[..i] && AllValid(PreRelease, ids[..i])
      {
        var ok := ValidPre(ids[i]);
        if !ok {
          assert !Valid(PreRelease, ids[i]);
          return None;
        }
        pre := pre + [ids[i]];
      }
      assert ids[..|ids|] == ids;
      v := v[..dash];
    }
    var core := SplitAll(v, '.');
    if |core| != 3 {
      return None;
    }
    for i := 0 to 3
      invariant forall k :: 0 <= k < i ==> Valid(Core, core[k])
    {
      var ok := IsValidNumber(core[i]);
      if !ok {
        assert !Valid(Core, core[i]);
        return None;
      }
    }
    return Some(Version(core, pre));
  }

  method ValidPre(id: string) returns (r: bool)
    ensures r == Valid(PreRelease, id)
  {
    var ident := IsValidIdent(id);
    if !ident {
      return false;
    }
    var digits := IsAllDigits(id);
    var number := IsValidNumber(id);
    return !digits || number;
  }

  method CompareIds(x: string, y: string) returns (c: int)
    ensures c == CompareIdent(x, y)
  {
    var xn := IsAllDigits(x);
    var yn := IsAllDigits(y);
    c := if xn && yn then CompareNumbers(x, y) else if xn then -1 else if yn then 1 else CompareText(x, y);
  }

  /** compare_semver: the precedence of two texts that are versions, and nothing for any other. */
  method CompareSemver(a: string, b: string) returns (r: Option<int>)
    ensures r.Some? ==> exists v, w :: Denotes(a, v) && Denotes(b, w) && r.value == Compare(v, w)
    ensures r.None? <==> (forall v :: !Denotes(a, v)) || (forall w :: !Denotes(b, w))
  {
    forall v
      ensures (Denotes(a, v) <==> Parse(a) == Some(v)) && (Denotes(b, v) <==> Parse(b) == Some(v))
    {
      ParseIsGrammar(a, v);
      ParseIsGrammar(b, v);
    }
    var va := ParseVersion(a);
    var vb := ParseVersion(b);
    if va.None? || vb.None? {
      return None;
    }
    var c := CompareVersions(va.value, vb.value);
    assert Denotes(a, va.value) && Denotes(b, vb.value);
    return Some(c);
  }

  method CompareVersions(va: Version, vb: Version) returns (c: int)
    requires |va.core| == |vb.core| == 3 && AllValid(Core, va.core) && AllValid(Core, vb.core)
    ensures c == Compare(va, vb)
  {
    for i := 0 to 3
      invariant CompareLists(va.core[i..], vb.core[i..]) == CompareLists(va.core, vb.core)
    {
      assert Valid(Core, va.core[i]) && Valid(Core, vb.core[i]);
      assert CompareIdent(va.core[i], vb.core[i]) == CompareNumbers(va.core[i], vb.core[i]);
      c := CompareNumbers(va.core[i], vb.core[i]);
      if c != 0 {
        return c;
      }
    }
    if va.pre == [] || vb.pre == [] {
      return if va.pre == [] && vb.pre == [] then 0 else if va.pre == [] then 1 else -1;
    }
    c := ComparePreLists(va.pre, vb.pre);
  }

  method ComparePreLists(xs: seq<string>, ys: seq<string>) returns (c: int)
    ensures c == CompareLists(xs, ys)
  {
    var n := if |xs| < |ys| then |xs| else |ys|;
    for i := 0 to n
      invariant CompareLists(xs[i..], ys[i..]) == CompareLists(xs, ys)
    {
      c := CompareIds(xs[i], ys[i]);
      if c != 0 {
        return c;
      }
    }
    return if |xs| == |ys| then 0 else if |xs| < |ys| then -1 else 1;
  }
}
