/**
 The rules of versions in terms of characters and numbers only: what is a version (sections 2, 9 and 10 of
 Semantic Versioning 2.0.0) and which of two comes first (section 11).
 */
module SemverRules {
  import opened Numerals
  import opened Precedence
  import opened SemanticVersions
  import opened Strings
  import opened Wrappers

  // Characters

  predicate OnlyDigits(s: string) {
    forall i :: 0 <= i < |s| ==> '0' <= s[i] <= '9'
  }

  predicate OnlyDigitsLettersHyphens(s: string) {
    forall i :: 0 <= i < |s| ==>
      '0' <= s[i] <= '9' || 'A' <= s[i] <= 'Z' || 'a' <= s[i] <= 'z' || s[i] == '-'
  }

  predicate NoLeadingZero(s: string) {
    s == "0" || (s != "" && s[0] != '0')
  }

  predicate CoreRule(s: string) {
    OnlyDigits(s) && NoLeadingZero(s)
  }

  predicate PreRule(s: string) {
    s != "" && OnlyDigitsLettersHyphens(s) && (OnlyDigits(s) ==> NoLeadingZero(s))
  }

  predicate BuildRule(s: string) {
    s != "" && OnlyDigitsLettersHyphens(s)
  }

  // s is written as the three numbers, the pre-release and the build identifiers.
  predicate Spells(s: string, major: string, minor: string, patch: string, pre: seq<string>, build: seq<string>) {
    && CoreRule(major) && CoreRule(minor) && CoreRule(patch)
    && (forall i :: 0 <= i < |pre| ==> PreRule(pre[i]))
    && (forall i :: 0 <= i < |build| ==> BuildRule(build[i]))
    && s == major + "." + minor + "." + patch
            + (if pre == [] then "" else "-" + Join(pre, '.'))
            + (if build == [] then "" else "+" + Join(build, '.'))
  }

  lemma KindsAreRules(s: string)
    ensures Valid(Core, s) <==> CoreRule(s)
    ensures Valid(PreRelease, s) <==> PreRule(s)
    ensures Valid(Build, s) <==> BuildRule(s)
  {
    assert s == "0" <==> |s| == 1 && s[0] == '0';
  }

  lemma JoinThree(a: string, b: string, c: string)
    ensures Join([a, b, c], '.') == a + "." + b + "." + c
  {
    assert [a, b, c][1..] == [b, c] && [b, c][1..] == [c];
    assert Join([b, c], '.') == b + "." + c;
  }

  lemma SpellsIsText(s: string, v: Version, build: seq<string>)
    requires |v.core| == 3
    ensures Spells(s, v.core[0], v.core[1], v.core[2], v.pre, build) <==> WellFormed(v, build) && s == Text(v, build)
  {
    forall part: string
      ensures Valid(Core, part) <==> CoreRule(part)
      ensures Valid(PreRelease, part) <==> PreRule(part)
      ensures Valid(Build, part) <==> BuildRule(part)
    {
      KindsAreRules(part);
    }
    hide Valid, CoreRule, PreRule, BuildRule, Join;
    assert v.core == [v.core[0], v.core[1], v.core[2]];
    JoinThree(v.core[0], v.core[1], v.core[2]);
  }

  /** What parse accepts, character by character: three numbers without leading zeros, then perhaps
      pre-release and build identifiers. The numbers and the pre-release identifiers are the version. */
  lemma ParseIsSpelling(s: string, major: string, minor: string, patch: string, pre: seq<string>)
    ensures Parse(s) == Some(Version([major, minor, patch], pre))
       <==> exists build :: Spells(s, major, minor, patch, pre, build)
  {
    hide Parse, Spells, WellFormed, Text;
    var v := Version([major, minor, patch], pre);
    ParseIsGrammar(s, v);
    forall build
      ensures Spells(s, major, minor, patch, pre, build) <==> WellFormed(v, build) && s == Text(v, build)
    {
      SpellsIsText(s, v, build);
    }
  }

  // Which of two comes first

  // At the first difference a has the smaller byte, or has ended.
  ghost predicate BytesBefore(a: string, b: string) {
    exists i: nat :: DifferAt(a, b, i) && (i == |a| || a[i] < b[i])
  }

  // Two lists agree up to i, where the second goes on.
  predicate DifferAt<T(==)>(a: seq<T>, b: seq<T>, i: nat) {
    i <= |a| && i < |b| && a[..i] == b[..i]
  }

  ghost predicate IdentifierBefore(x: string, y: string) {
    if OnlyDigits(x) && OnlyDigits(y) then Number(x) < Number(y)
    else OnlyDigits(x) || (!OnlyDigits(y) && BytesBefore(x, y))
  }

  ghost predicate PreReleaseBefore(xs: seq<string>, ys: seq<string>) {
    exists i: nat :: DifferAt(xs, ys, i) && (i == |xs| || IdentifierBefore(xs[i], ys[i]))
  }

  ghost predicate CoreBefore(xs: seq<string>, ys: seq<string>)
    requires |xs| == |ys| == 3
  {
    exists i: nat :: i < 3 && xs[..i] == ys[..i] && Number(xs[i]) < Number(ys[i])
  }

  ghost predicate VersionBefore(a: Version, b: Version)
    requires |a.core| == |b.core| == 3
  {
    || CoreBefore(a.core, b.core)
    || (a.core == b.core && a.pre != [] && b.pre == [])
    || (a.core == b.core && a.pre != [] && b.pre != [] && PreReleaseBefore(a.pre, b.pre))
  }

  lemma {:induction false} TextIsBytes(a: string, b: string)
    ensures CompareText(a, b) < 0 <==> BytesBefore(a, b)
    decreases |a|
  {
    if a == "" {
      assert b != "" ==> DifferAt(a, b, 0);
    } else if b != "" {
      if a[0] != b[0] {
        assert DifferAt(a, b, 0);
        forall i: nat
          ensures DifferAt(a, b, i) ==> i == 0
        {
          FirstIsSame(a, b, i);
        }
      } else {
        TextIsBytes(a[1..], b[1..]);
        BytesLater(a, b);
      }
    }
  }

  lemma FirstIsSame<T>(a: seq<T>, b: seq<T>, i: nat)
    ensures DifferAt(a, b, i) && i > 0 ==> a[0] == b[0]
  {
    assert DifferAt(a, b, i) && i > 0 ==> a[0] == a[..i][0] && b[0] == b[..i][0];
  }

  lemma DifferLater<T>(a: seq<T>, b: seq<T>, i: nat)
    requires a != [] && b != [] && a[0] == b[0] && i > 0
    ensures DifferAt(a, b, i) <==> DifferAt(a[1..], b[1..], i - 1)
  {
    if i <= |a| && i < |b| {
      assert a[..i] == [a[0]] + a[1..][..i - 1] && b[..i] == [b[0]] + b[1..][..i - 1];
      assert a[..i][1..] == a[1..][..i - 1] && b[..i][1..] == b[1..][..i - 1];
    }
  }

  lemma BytesLater(a: string, b: string)
    requires a != "" && b != "" && a[0] == b[0]
    ensures BytesBefore(a, b) <==> BytesBefore(a[1..], b[1..])
  {
    if i: nat :| DifferAt(a, b, i) && (i == |a| || a[i] < b[i]) {
      DifferLater(a, b, i);
    }
    if i: nat :| DifferAt(a[1..], b[1..], i) && (i == |a[1..]| || a[1..][i] < b[1..][i]) {
      DifferLater(a, b, i + 1);
    }
  }

  lemma DigitsAre(s: string)
    ensures AllDigits(s) <==> s != "" && OnlyDigits(s)
  {
  }

  lemma IdentifiersCompare(x: string, y: string)
    requires Valid(PreRelease, x) && Valid(PreRelease, y)
    ensures CompareIdent(x, y) < 0 <==> IdentifierBefore(x, y)
  {
    DigitsAre(x);
    DigitsAre(y);
    TextIsBytes(x, y);
    hide OnlyDigits, AllDigits, CompareText, CompareNumbers, BytesBefore, Number;
    if AllDigits(x) && AllDigits(y) {
      NumbersCompare(x, y);
    }
  }

  lemma PreReleasesCompare(xs: seq<string>, ys: seq<string>)
    requires AllValid(PreRelease, xs) && AllValid(PreRelease, ys)
    ensures CompareLists(xs, ys) < 0 <==> PreReleaseBefore(xs, ys)
  {
    ListBefore(xs, ys);
    hide CompareLists, IdentifierBefore, CompareIdent, Valid;
    forall i: nat
      ensures BeforeAt(xs, ys, i) <==> DifferAt(xs, ys, i) && (i == |xs| || IdentifierBefore(xs[i], ys[i]))
    {
      if DifferAt(xs, ys, i) && i < |xs| {
        IdentifiersCompare(xs[i], ys[i]);
      }
    }
  }

  lemma CoresCompare(xs: seq<string>, ys: seq<string>)
    requires |xs| == |ys| == 3 && AllValid(Core, xs) && AllValid(Core, ys)
    ensures CompareLists(xs, ys) < 0 <==> CoreBefore(xs, ys)
  {
    ListBefore(xs, ys);
    hide CompareLists, CompareIdent, Valid, Number;
    forall i: nat
      ensures BeforeAt(xs, ys, i) <==> i < 3 && xs[..i] == ys[..i] && Number(xs[i]) < Number(ys[i])
    {
      if i < 3 {
        CoreNumbersCompare(xs[i], ys[i]);
      }
    }
  }

  lemma CoreNumbersCompare(x: string, y: string)
    requires Valid(Core, x) && Valid(Core, y)
    ensures CompareIdent(x, y) < 0 <==> Number(x) < Number(y)
  {
    NumbersCompare(x, y);
  }

  /** A version comes before another exactly if its core does at the first number that differs, or the
      cores are the same and it has a pre-release and the other none, or its pre-release does at the
      first identifier that differs: numbers by value, before any other identifier, those by their bytes,
      and a list before what it begins. */
  lemma CompareIsRule(a: Version, b: Version, buildA: seq<string>, buildB: seq<string>)
    requires WellFormed(a, buildA) && WellFormed(b, buildB)
    ensures Compare(a, b) < 0 <==> VersionBefore(a, b)
    ensures Compare(a, b) > 0 <==> VersionBefore(b, a)
  {
    hide CompareLists, AllValid, CoreBefore, PreReleaseBefore;
    CoresCompare(a.core, b.core);
    CoresCompare(b.core, a.core);
    PreReleasesCompare(a.pre, b.pre);
    PreReleasesCompare(b.pre, a.pre);
    ListLaws(a.core, b.core);
    ListLaws(a.pre, b.pre);
    ListLaws(b.pre, a.pre);
  }

  /** A pre-release comes before its release. */
  lemma PreReleaseIsBefore()
    ensures Parse("1.0.0-alpha") == Some(Version(["1", "0", "0"], ["alpha"]))
    ensures Parse("1.0.0") == Some(Version(["1", "0", "0"], []))
    ensures Compare(Version(["1", "0", "0"], ["alpha"]), Version(["1", "0", "0"], [])) == -1
  {
    hide Parse, Compare, WellFormed;
    assert Join(["alpha"], '.') == "alpha";
    assert "1" + "." + "0" + "." + "0" + ("-" + "alpha") + "" == "1.0.0-alpha";
    assert "1" + "." + "0" + "." + "0" + "" + "" == "1.0.0";
    var a, b := Version(["1", "0", "0"], ["alpha"]), Version(["1", "0", "0"], []);
    assert Spells("1.0.0-alpha", "1", "0", "0", ["alpha"], []);
    assert Spells("1.0.0", "1", "0", "0", [], []);
    ParseIsSpelling("1.0.0-alpha", "1", "0", "0", ["alpha"]);
    ParseIsSpelling("1.0.0", "1", "0", "0", []);
    SpellsIsText("1.0.0-alpha", a, []);
    SpellsIsText("1.0.0", b, []);
    CompareIsRule(a, b, [], []);
    CompareLaws(a, b);
  }
}
