/**
 Searching and taking apart strings. Strings are byte strings: a char stands for a byte.
 */
module Strings {

  // The first position of c at or after `from`, or |s| if there is none.
  function Find(s: string, c: char, from: nat): (r: nat)
    requires from <= |s|
    ensures from <= r <= |s| && (r < |s| ==> s[r] == c)
    decreases |s| - from
  {
    if from == |s| || s[from] == c then from else Find(s, c, from + 1)
  }

  // What is before that position.
  function Until(s: string, c: char, from: nat): string
    requires from <= |s|
    decreases |s| - from
  {
    if from == |s| || s[from] == c then "" else [s[from]] + Until(s, c, from + 1)
  }

  lemma {:induction false} UntilIsSlice(s: string, c: char, from: nat)
    requires from <= |s|
    ensures Until(s, c, from) == s[from..Find(s, c, from)]
    decreases |s| - from
  {
    if from < |s| && s[from] != c {
      UntilIsSlice(s, c, from + 1);
      assert s[from..Find(s, c, from)] == [s[from]] + s[from + 1..Find(s, c, from)];
    }
  }

  // That Find finds the first one.
  lemma {:induction false} NoneBefore(s: string, c: char, from: nat)
    requires from <= |s|
    ensures forall i :: from <= i < Find(s, c, from) ==> s[i] != c
    decreases |s| - from
  {
    if from < |s| && s[from] != c {
      NoneBefore(s, c, from + 1);
    }
  }

  lemma {:induction false} FindIs(s: string, c: char, from: nat, r: nat)
    requires from <= r <= |s| && (r < |s| ==> s[r] == c)
    requires forall i :: from <= i < r ==> s[i] != c
    ensures Find(s, c, from) == r
    decreases r - from
  {
    if from < r {
      FindIs(s, c, from + 1, r);
    }
  }

  function Concat(pieces: seq<string>): string {
    if pieces == [] then "" else pieces[0] + Concat(pieces[1..])
  }

  // The parts with a separator between neighbours.
  function Join(parts: seq<string>, sep: char): string {
    if parts == [] then ""
    else if |parts| == 1 then parts[0]
    else parts[0] + [sep] + Join(parts[1..], sep)
  }

  lemma {:induction false} JoinAppend(parts: seq<string>, last: string, sep: char)
    ensures Join(parts + [last], sep) == if parts == [] then last else Join(parts, sep) + [sep] + last
  {
    if |parts| > 0 {
      assert (parts + [last])[1..] == parts[1..] + [last];
      JoinAppend(parts[1..], last, sep);
    }
  }
}
