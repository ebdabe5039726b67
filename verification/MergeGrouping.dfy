/**
 Merging in groups: whether a client that merges partial aggregates gets what merging chunk after
 chunk gives. It does, except where a thought signature that arrives late keeps text apart.
 */
module MergeGrouping {
  import opened Types

  // Parts

  // An unsigned text q, and after it text of the same kind up to one that is signed, some of it not empty.
  predicate SignedLate(q: Part, later: seq<Part>)
    requires q.value.Text? && q.signature == ""
    decreases |later|
  {
    && later != []
    && later[0].value.Text?
    && later[0].thought == q.thought
    && if later[0].signature != "" then q.value.text != "" else SignedLate(Glue(q, later[0]), later[1..])
  }

  // A signed text, then an unsigned one of the same kind which is signed late: the unsigned text
  // belongs to the first signature if it is merged with what was before, and else to the second.
  predicate Torn(before: Part, q: Part, later: seq<Part>) {
    Glues(before, q) && before.signature != "" && q.signature == "" && SignedLate(q, later)
  }

  lemma {:induction false} AppendOnto(front: seq<Part>, q: Part, c: seq<Part>)
    ensures AppendParts(front + [q], c) == front + AppendParts([q], c)
    decreases |c|
  {
    if c == [] {
    } else if Glues(q, c[0]) {
      var g := Glue(q, c[0]);
      assert AppendPart(front + [q], c[0]) == front + [g];
      assert AppendPart([q], c[0]) == [g];
      AppendOnto(front, g, c[1..]);
    } else {
      assert AppendPart([q], c[0]) == [q] + [c[0]];
      assert AppendPart(front + [q], c[0]) == (front + [q]) + [c[0]];
      AppendOnto([q], c[0], c[1..]);
      AppendOnto(front + [q], c[0], c[1..]);
    }
  }

  lemma CompactTail(first: Part, rest: seq<Part>)
    requires Compact([first] + rest)
    ensures Compact(rest) && (rest != [] ==> !Glues(first, rest[0]))
  {
    var all := [first] + rest;
    forall i | 0 <= i < |rest| - 1
      ensures !Glues(rest[i], rest[i + 1])
    {
      assert !Glues(all[i + 1], all[i + 2]);
    }
    if rest != [] {
      assert !Glues(all[0], all[1]);
    }
  }

  lemma {:induction false} AppendCompact(front: seq<Part>, l: Part, t: seq<Part>)
    requires Compact([l] + t)
    ensures AppendParts(front + [l], t) == front + [l] + t
    decreases |t|
  {
    if t != [] {
      CompactTail(l, t);
      assert t == [t[0]] + t[1..];
      assert AppendPart(front + [l], t[0]) == front + [l] + [t[0]];
      AppendCompact(front + [l], t[0], t[1..]);
    }
  }

  // Gluing c onto q leaves its kind, and the signature if it has one.
  lemma {:induction false} FirstGrows(q: Part, c: seq<Part>)
    ensures var t := AppendParts([q], c);
      && t != [] && Compact(t) && t[0].value.Text? == q.value.Text? && t[0].thought == q.thought
      && (q.signature != "" ==> t[0].signature == q.signature)
    decreases |c|
  {
    AppendKeepsCompact([q], c);
    if c != [] {
      if Glues(q, c[0]) {
        assert AppendPart([q], c[0]) == [Glue(q, c[0])];
        FirstGrows(Glue(q, c[0]), c[1..]);
      } else {
        assert AppendPart([q], c[0]) == [q] + [c[0]];
        AppendOnto([q], c[0], c[1..]);
      }
    }
  }

  // What does not glue to m when it arrives does not glue to it when it has grown either.
  lemma ApartStaysApart(front: seq<Part>, m: Part, p: Part, c: seq<Part>)
    requires !Glues(m, p)
    ensures AppendParts(AppendPart(front + [m], p), c) == AppendParts(front + [m], AppendParts([p], c))
  {
    var u := AppendParts([p], c);
    FirstGrows(p, c);
    AppendOnto(front + [m], p, c);
    assert Compact([m] + u) by {
      assert !Glues(m, u[0]);
    }
    AppendCompact(front, m, u);
  }

  lemma {:induction false} GroupingThree(l: Part, q: Part, c: seq<Part>)
    ensures AppendParts(AppendPart([l], q), c) == AppendParts([l], AppendParts([q], c)) <==> !Torn(l, q, c)
    decreases |c|
  {
    if c == [] {
    } else if !Glues(q, c[0]) {
      GroupingApart(l, q, c);
    } else {
      var g := Glue(q, c[0]);
      assert AppendPart([q], c[0]) == [g];
      GroupingThree(l, g, c[1..]);
      if Glues(l, q) && l.signature != "" && c[0].signature != "" {
        GroupingLate(l, q, c);
      } else {
        GlueTwice(l, q, c[0]);
      }
    }
  }

  lemma GroupingApart(l: Part, q: Part, c: seq<Part>)
    requires c != [] && !Glues(q, c[0])
    ensures AppendParts(AppendPart([l], q), c) == AppendParts([l], AppendParts([q], c)) && !Torn(l, q, c)
  {
    var u := AppendParts([c[0]], c[1..]);
    assert AppendPart([q], c[0]) == [q] + [c[0]];
    AppendOnto([q], c[0], c[1..]);
    assert ([q] + u)[1..] == u;
    if Glues(l, q) {
      assert AppendPart([l], q) == [] + [Glue(l, q)];
      ApartStaysApart([], Glue(l, q), c[0], c[1..]);
    } else {
      assert AppendPart([l], q) == [l] + [q];
      ApartStaysApart([l], q, c[0], c[1..]);
    }
  }

  lemma GroupingLate(l: Part, q: Part, c: seq<Part>)
    requires c != [] && Glues(l, q) && Glues(q, c[0]) && l.signature != "" && c[0].signature != ""
    requires AppendParts(AppendPart([l], Glue(q, c[0])), c[1..])
          == AppendParts([l], AppendParts([Glue(q, c[0])], c[1..]))
    ensures AppendParts(AppendPart([l], q), c) == AppendParts([l], AppendParts([q], c)) <==> !Torn(l, q, c)
  {
    var g, lq := Glue(q, c[0]), Glue(l, q);
    assert AppendPart([q], c[0]) == [g];
    assert AppendPart([l], g) == [l] + [g];
    assert AppendPart([l], q) == [lq];
    assert AppendPart([lq], c[0]) == [lq] + [c[0]];
    AppendOnto([l], g, c[1..]);
    AppendOnto([lq], c[0], c[1..]);
    if q.value.text == "" {
      assert lq.value.text == l.value.text && g.value.text == c[0].value.text;
      assert lq == l && g == c[0];
    } else {
      assert |lq.value.text| != |l.value.text|;
      assert ([lq] + AppendParts([c[0]], c[1..]))[0] != ([l] + AppendParts([g], c[1..]))[0];
    }
  }

  lemma GlueTwice(l: Part, q: Part, p: Part)
    requires Glues(q, p) && !(Glues(l, q) && l.signature != "" && p.signature != "")
    ensures AppendPart([l], Glue(q, p)) == AppendPart(AppendPart([l], q), p)
  {
    if Glues(l, q) {
      assert (l.value.text + q.value.text) + p.value.text == l.value.text + (q.value.text + p.value.text);
      assert AppendPart([l], q) == [Glue(l, q)];
      assert AppendPart([l], Glue(q, p)) == [Glue(l, Glue(q, p))];
    } else {
      assert AppendPart([l], q) == [l, q];
      assert AppendPart([l], Glue(q, p)) == [l, Glue(q, p)];
    }
  }

  // Where the parts of a, b and c come out differently if b and c are merged first.
  predicate Differs(a: seq<Part>, b: seq<Part>, c: seq<Part>) {
    if b != [] then TornAfter(AppendParts(a, b[..|b| - 1]), b[|b| - 1], c)
    else c != [] && TornAfter(a, c[0], c[1..])
  }

  predicate TornAfter(parts: seq<Part>, q: Part, later: seq<Part>) {
    parts != [] && Torn(parts[|parts| - 1], q, later)
  }

  lemma AppendNothing(q: Part, c: seq<Part>)
    ensures AppendParts(AppendPart([], q), c) == AppendParts([], AppendParts([q], c))
  {
    var t := AppendParts([q], c);
    FirstGrows(q, c);
    assert t == [t[0]] + t[1..];
    assert AppendPart([], t[0]) == [] + [t[0]];
    assert AppendPart([], q) == [q];
    AppendCompact([], t[0], t[1..]);
  }

  lemma GroupingOne(y: seq<Part>, q: Part, c: seq<Part>)
    ensures AppendParts(AppendPart(y, q), c) == AppendParts(y, AppendParts([q], c)) <==> !TornAfter(y, q, c)
  {
    var t := AppendParts([q], c);
    if y == [] {
      AppendNothing(q, c);
    } else {
      var front, l := y[..|y| - 1], y[|y| - 1];
      assert y == front + [l];
      GroupingThree(l, q, c);
      AppendOnto(front, l, t);
      AppendOnto(front, l, [q] + c);
      AppendOnto([], l, [q] + c);
      assert ([q] + c)[1..] == c;
      Cancel(front, AppendParts(AppendPart([l], q), c), AppendParts([l], t));
    }
  }

  lemma Cancel(front: seq<Part>, a: seq<Part>, b: seq<Part>)
    ensures front + a == front + b <==> a == b
  {
    assert (front + a)[|front|..] == a && (front + b)[|front|..] == b;
  }

  /** Grouping makes no difference to lists of parts exactly if no text is torn. */
  lemma GroupingParts(a: seq<Part>, b: seq<Part>, c: seq<Part>)
    ensures AppendParts(AppendParts(a, b), c) == AppendParts(a, AppendParts(b, c)) <==> !Differs(a, b, c)
  {
    if b != [] {
      var front, q := b[..|b| - 1], b[|b| - 1];
      assert b == front + [q];
      AppendConcat(a, front, [q]);
      AppendOnto(front, q, c);
      AppendConcat(a, front, AppendParts([q], c));
      GroupingOne(AppendParts(a, front), q, c);
    } else if c != [] {
      assert AppendPart([], c[0]) == [c[0]];
      GroupingOne(a, c[0], c[1..]);
    }
  }

  // Candidates

  function Indices(cs: seq<Candidate>): seq<int> {
    if cs == [] then [] else [cs[0].index] + Indices(cs[1..])
  }

  function Add(order: seq<int>, index: int): seq<int> {
    if index in order then order else order + [index]
  }

  function AddAll(order: seq<int>, more: seq<int>): seq<int>
    decreases |more|
  {
    if more == [] then order else AddAll(Add(order, more[0]), more[1..])
  }

  lemma {:induction false} AddAfter(a: seq<int>, b: seq<int>, x: int)
    ensures AddAll(a, Add(b, x)) == Add(AddAll(a, b), x)
    ensures x in a || x in b ==> x in AddAll(a, b)
    decreases |b|
  {
    if b == [] {
      assert Add(b, x) == [x];
    } else {
      AddAfter(Add(a, b[0]), b[1..], x);
      if x == b[0] {
        assert x in Add(a, b[0]);
      } else {
        assert Add(b, x)[1..] == Add(b[1..], x);
      }
    }
  }

  lemma {:induction false} AddAllGroups(a: seq<int>, b: seq<int>, c: seq<int>)
    ensures AddAll(AddAll(a, b), c) == AddAll(a, AddAll(b, c))
    decreases |c|
  {
    if c != [] {
      AddAfter(a, b, c[0]);
      AddAllGroups(a, Add(b, c[0]), c[1..]);
    }
  }

  lemma {:induction false} IndicesAre(cs: seq<Candidate>)
    ensures |Indices(cs)| == |cs| && forall i :: 0 <= i < |cs| ==> Indices(cs)[i] == cs[i].index
  {
    if cs != [] {
      IndicesAre(cs[1..]);
      assert forall i :: 0 < i < |cs| ==> Indices(cs)[i] == Indices(cs[1..])[i - 1];
    }
  }

  lemma OneMergedOrder(cs: seq<Candidate>, incoming: Candidate)
    ensures Indices(MergeCandidate(cs, incoming)) == Add(Indices(cs), incoming.index)
  {
    hide AppendParts, Indices;
    IndicesAre(cs);
    IndicesAre(MergeCandidate(cs, incoming));
  }

  lemma {:induction false} MergedOrder(cs: seq<Candidate>, incoming: seq<Candidate>)
    ensures Indices(MergeCandidates(cs, incoming)) == AddAll(Indices(cs), Indices(incoming))
    decreases |incoming|
  {
    if incoming != [] {
      OneMergedOrder(cs, incoming[0]);
      hide MergeCandidate, Add;
      MergedOrder(MergeCandidate(cs, incoming[0]), incoming[1..]);
      assert Indices(incoming)[1..] == Indices(incoming[1..]);
    }
  }

  lemma {:induction false} MergedRole(cs: seq<Candidate>, incoming: seq<Candidate>, index: int)
    ensures RoleAt(MergeCandidates(cs, incoming), index) == RoleAt(cs, index)
    decreases |incoming|
  {
    if incoming != [] {
      MergedAt(cs, incoming[0], index);
      MergedRole(MergeCandidate(cs, incoming[0]), incoming[1..], index);
    }
  }

  // What a response has and brings for an index

  predicate Names(cs: seq<Candidate>, index: int) {
    exists i :: 0 <= i < |cs| && cs[i].index == index
  }

  predicate NamesOnce(cs: seq<Candidate>, index: int) {
    forall i, j :: 0 <= i < j < |cs| ==> cs[i].index != index || cs[j].index != index
  }

  lemma {:induction false} AbsentArrives(cs: seq<Candidate>, index: int)
    requires !Names(cs, index)
    ensures Arriving(cs, index) == [] && Finishing(cs, index) == ""
  {
    if cs != [] {
      assert forall i :: 0 <= i < |cs[1..]| ==> cs[1..][i] == cs[i + 1];
      AbsentArrives(cs[1..], index);
    }
  }

  // A response that names an index at most once brings what it has there.
  lemma {:induction false} OnceArrives(cs: seq<Candidate>, index: int)
    requires NamesOnce(cs, index)
    ensures Arriving(cs, index) == PartsAt(cs, index)
    ensures Finishing(cs, index) == FinishAt(cs, index)
  {
    if cs != [] {
      assert forall i :: 0 <= i < |cs[1..]| ==> cs[1..][i] == cs[i + 1];
      if cs[0].index == index {
        AbsentArrives(cs[1..], index);
      } else {
        OnceArrives(cs[1..], index);
      }
    }
  }

  lemma {:induction false} MergedOnce(cs: seq<Candidate>, incoming: seq<Candidate>, index: int)
    requires NamesOnce(cs, index)
    ensures NamesOnce(MergeCandidates(cs, incoming), index)
    decreases |incoming|
  {
    if incoming != [] {
      MergedOnce(MergeCandidate(cs, incoming[0]), incoming[1..], index);
    }
  }

  lemma {:induction false} ReplacedArrives(cs: seq<Candidate>, k: nat, c: Candidate, index: int)
    requires k < |cs| && cs[k].index == c.index != index
    ensures Arriving(cs[k := c], index) == Arriving(cs, index) && Finishing(cs[k := c], index) == Finishing(cs, index)
  {
    if k > 0 {
      assert cs[k := c][1..] == cs[1..][k - 1 := c];
      ReplacedArrives(cs[1..], k - 1, c, index);
    } else {
      assert cs[k := c][1..] == cs[1..];
    }
  }

  lemma {:induction false} AddedArrives(cs: seq<Candidate>, c: Candidate, index: int)
    requires c.index != index
    ensures Arriving(cs + [c], index) == Arriving(cs, index) && Finishing(cs + [c], index) == Finishing(cs, index)
  {
    if cs != [] {
      assert (cs + [c])[1..] == cs[1..] + [c];
      AddedArrives(cs[1..], c, index);
    }
  }

  lemma OtherArrives(cs: seq<Candidate>, incoming: Candidate, index: int)
    requires incoming.index != index
    ensures Arriving(MergeCandidate(cs, incoming), index) == Arriving(cs, index)
    ensures Finishing(MergeCandidate(cs, incoming), index) == Finishing(cs, index)
  {
    hide AppendParts, Arriving, Finishing;
    var all, k := WithCandidate(cs, incoming.index), Position(cs, incoming.index);
    AddedArrives(cs, Candidate(Content(Model, []), "", incoming.index), index);
    ReplacedArrives(all, k, MergeCandidate(cs, incoming)[k], index);
  }

  lemma {:induction false} OthersArrive(cs: seq<Candidate>, incoming: seq<Candidate>, index: int)
    requires !Names(incoming, index)
    ensures Arriving(MergeCandidates(cs, incoming), index) == Arriving(cs, index)
    ensures Finishing(MergeCandidates(cs, incoming), index) == Finishing(cs, index)
    decreases |incoming|
  {
    if incoming != [] {
      hide MergeCandidate, Arriving, Finishing;
      assert incoming[0].index != index;
      OtherArrives(cs, incoming[0], index);
      assert forall i :: 0 <= i < |incoming[1..]| ==> incoming[1..][i] == incoming[i + 1];
      OthersArrive(MergeCandidate(cs, incoming[0]), incoming[1..], index);
    }
  }

  // What b brings after c has been merged into it.
  lemma MergedArrives(b: seq<Candidate>, c: seq<Candidate>, index: int)
    requires NamesOnce(b, index) || !Names(c, index)
    ensures var bc := MergeCandidates(b, c);
      && Arriving(bc, index) == AppendParts(Arriving(b, index), Arriving(c, index))
      && Finishing(bc, index) == if Finishing(c, index) != "" then Finishing(c, index) else Finishing(b, index)
  {
    if !Names(c, index) {
      OthersArrive(b, c, index);
      AbsentArrives(c, index);
    } else {
      hide MergeCandidates, Arriving, Finishing, NamesOnce;
      MergedOnce(b, c, index);
      OnceArrives(b, index);
      OnceArrives(MergeCandidates(b, c), index);
      MergedPartsAt(b, c, index);
      FinishedAt(b, c, index);
    }
  }

  // The candidates of a list

  lemma {:induction false} PositionStays(cs: seq<Candidate>, incoming: seq<Candidate>, index: int)
    requires Position(cs, index) < |cs|
    ensures Position(MergeCandidates(cs, incoming), index) == Position(cs, index)
    decreases |incoming|
  {
    if incoming != [] {
      hide AppendParts;
      PositionIs(MergeCandidate(cs, incoming[0]), index, Position(cs, index));
      PositionStays(MergeCandidate(cs, incoming[0]), incoming[1..], index);
    }
  }

  // Merging touches and adds only candidates that are the first of their index.
  lemma {:induction false} OnlyFirstChange(cs: seq<Candidate>, incoming: seq<Candidate>, i: nat)
    ensures |cs| <= |MergeCandidates(cs, incoming)|
    ensures i < |cs| && Position(cs, cs[i].index) < i ==> MergeCandidates(cs, incoming)[i] == cs[i]
    ensures var all := MergeCandidates(cs, incoming); |cs| <= i < |all| ==> Position(all, all[i].index) == i
    decreases |incoming|
  {
    if incoming != [] {
      hide AppendParts;
      var after := MergeCandidate(cs, incoming[0]);
      OnlyFirstChange(after, incoming[1..], i);
      if i < |cs| {
        PositionIs(after, cs[i].index, Position(cs, cs[i].index));
      } else if i == |cs| < |after| {
        PositionIs(after, after[i].index, i);
        PositionStays(after, incoming[1..], after[i].index);
        IndexStays(after, incoming[1..], i);
      }
    }
  }

  lemma {:induction false} IndexStays(cs: seq<Candidate>, incoming: seq<Candidate>, i: nat)
    requires i < |cs|
    ensures i < |MergeCandidates(cs, incoming)| && MergeCandidates(cs, incoming)[i].index == cs[i].index
    decreases |incoming|
  {
    if incoming != [] {
      hide AppendParts;
      IndexStays(MergeCandidate(cs, incoming[0]), incoming[1..], i);
    }
  }

  // Two results of merging into a are the same if they agree in order and at every index.
  lemma CandidatesAre(a: seq<Candidate>, b: seq<Candidate>, c: seq<Candidate>)
    requires var one, other := MergeCandidates(a, b), MergeCandidates(a, c);
      && Indices(one) == Indices(other)
      && (forall index :: PartsAt(one, index) == PartsAt(other, index))
      && (forall index :: FinishAt(one, index) == FinishAt(other, index))
      && (forall index :: RoleAt(one, index) == RoleAt(other, index))
    ensures MergeCandidates(a, b) == MergeCandidates(a, c)
  {
    hide MergeCandidates, Indices;
    var one, other := MergeCandidates(a, b), MergeCandidates(a, c);
    IndicesAre(one);
    IndicesAre(other);
    forall i | 0 <= i < |one|
      ensures one[i] == other[i]
    {
      SamePosition(one, other, one[i].index);
      OnlyFirstChange(a, b, i);
      OnlyFirstChange(a, c, i);
      if Position(one, one[i].index) == i {
        assert PartsAt(one, one[i].index) == PartsAt(other, one[i].index);
        assert FinishAt(one, one[i].index) == FinishAt(other, one[i].index);
        assert RoleAt(one, one[i].index) == RoleAt(other, one[i].index);
      } else {
        NotFirst(a, b, i);
      }
    }
  }

  lemma SamePosition(one: seq<Candidate>, other: seq<Candidate>, index: int)
    requires |one| == |other| && forall i :: 0 <= i < |one| ==> one[i].index == other[i].index
    ensures Position(one, index) == Position(other, index)
  {
    PositionIs(other, index, Position(one, index));
  }

  // A candidate that is not the first of its index was there before.
  lemma NotFirst(a: seq<Candidate>, b: seq<Candidate>, i: nat)
    requires i < |MergeCandidates(a, b)|
    requires Position(MergeCandidates(a, b), MergeCandidates(a, b)[i].index) != i
    ensures i < |a| && Position(a, a[i].index) < i
  {
    hide MergeCandidates;
    OnlyFirstChange(a, b, i);
    IndexStays(a, b, i);
    PositionStays(a, b, a[i].index);
  }

  // At one index: roles and finish reasons never differ, and parts as said above.
  lemma GroupingAt(a: seq<Candidate>, b: seq<Candidate>, c: seq<Candidate>, index: int)
    requires NamesOnce(b, index) || !Names(c, index)
    ensures var one, other := MergeCandidates(MergeCandidates(a, b), c), MergeCandidates(a, MergeCandidates(b, c));
      && FinishAt(one, index) == FinishAt(other, index)
      && RoleAt(one, index) == RoleAt(other, index)
      && (PartsAt(one, index) == PartsAt(other, index)
          <==> !Differs(PartsAt(a, index), Arriving(b, index), Arriving(c, index)))
  {
    hide MergeCandidates, Arriving, Finishing, AppendParts, Differs, NamesOnce, Names;
    var bc := MergeCandidates(b, c);
    MergedArrives(b, c, index);
    FinishedAt(a, b, index);
    FinishedAt(MergeCandidates(a, b), c, index);
    FinishedAt(a, bc, index);
    MergedRole(a, b, index);
    MergedRole(MergeCandidates(a, b), c, index);
    MergedRole(a, bc, index);
    MergedPartsAt(a, b, index);
    MergedPartsAt(MergeCandidates(a, b), c, index);
    MergedPartsAt(a, bc, index);
    GroupingParts(PartsAt(a, index), Arriving(b, index), Arriving(c, index));
  }

  // c brings nothing for an index that b names twice.
  ghost predicate Apart(b: seq<Candidate>, c: seq<Candidate>) {
    forall index :: NamesOnce(b, index) || !Names(c, index)
  }

  ghost predicate NoneDiffers(a: seq<Candidate>, b: seq<Candidate>, c: seq<Candidate>) {
    forall index :: !Differs(PartsAt(a, index), Arriving(b, index), Arriving(c, index))
  }

  lemma {:induction false} MergedTwice(a: seq<Candidate>, b: seq<Candidate>, c: seq<Candidate>)
    ensures MergeCandidates(MergeCandidates(a, b), c) == MergeCandidates(a, b + c)
    decreases |b|
  {
    if b == [] {
      assert b + c == c;
    } else {
      assert (b + c)[1..] == b[1..] + c;
      MergedTwice(MergeCandidate(a, b[0]), b[1..], c);
    }
  }

  lemma GroupingCandidates(a: seq<Candidate>, b: seq<Candidate>, c: seq<Candidate>)
    requires Apart(b, c)
    ensures MergeCandidates(MergeCandidates(a, b), c) == MergeCandidates(a, MergeCandidates(b, c))
       <==> NoneDiffers(a, b, c)
  {
    hide MergeCandidates, Arriving, NamesOnce, Names, Differs;
    var one, other := MergeCandidates(MergeCandidates(a, b), c), MergeCandidates(a, MergeCandidates(b, c));
    forall index
      ensures FinishAt(one, index) == FinishAt(other, index) && RoleAt(one, index) == RoleAt(other, index)
      ensures PartsAt(one, index) == PartsAt(other, index)
         <==> !Differs(PartsAt(a, index), Arriving(b, index), Arriving(c, index))
    {
      GroupingAt(a, b, c, index);
    }
    GroupingOrder(a, b, c);
    if NoneDiffers(a, b, c) {
      MergedTwice(a, b, c);
      CandidatesAre(a, b + c, MergeCandidates(b, c));
    }
  }

  lemma GroupingOrder(a: seq<Candidate>, b: seq<Candidate>, c: seq<Candidate>)
    ensures Indices(MergeCandidates(MergeCandidates(a, b), c)) == Indices(MergeCandidates(a, MergeCandidates(b, c)))
  {
    hide MergeCandidates, Indices, AddAll;
    MergedOrder(a, b);
    MergedOrder(MergeCandidates(a, b), c);
    MergedOrder(b, c);
    MergedOrder(a, MergeCandidates(b, c));
    AddAllGroups(Indices(a), Indices(b), Indices(c));
  }

  /** Merging two responses first and then merging the result into any response is the same as merging
      them one after the other exactly if a late signature tears text at no index. The second of them
      brings nothing for an index that the first names twice: see TwiceNamedReorders. */
  lemma GroupingIff(a: GenerateResponse, b: GenerateResponse, c: GenerateResponse)
    requires Apart(b.candidates, c.candidates)
    ensures Merge(Merge(a, b), c) == Merge(a, Merge(b, c)) <==> NoneDiffers(a.candidates, b.candidates, c.candidates)
  {
    hide MergeCandidates, NoneDiffers, Apart;
    GroupingCandidates(a.candidates, b.candidates, c.candidates);
  }

  // A candidate of index 0 with one part.
  function Says(text: string): Candidate {
    Candidate(Content(Model, [Part(Text(text), false, "")]), "", 0)
  }

  lemma {:induction false} SaysMore(s: string, more: string, rest: seq<Candidate>)
    ensures MergeCandidates([Says(s)] + rest, [Says(more)]) == [Says(s + more)] + rest
  {
    var cs := [Says(s)] + rest;
    assert Position(cs, 0) == 0;
    assert AppendParts([Part(Text(s), false, "")], [Part(Text(more), false, "")]) == [Part(Text(s + more), false, "")];
    assert MergeCandidate(cs, Says(more)) == [Says(s + more)] + rest;
    assert [Says(more)][1..] == [];
  }

  /** If the first of two responses names an index twice, merging them first can change the order of the
      text: what the second brings goes to the first of the two candidates. */
  lemma TwiceNamedReorders()
    ensures var b, c := [Says("b"), Says("d")], [Says("c")];
      && MergeCandidates(MergeCandidates([Says("a")], b), c) == [Says("abdc")]
      && MergeCandidates([Says("a")], MergeCandidates(b, c)) == [Says("abcd")]
  {
    hide MergeCandidates, Says;
    SaysTwo("a", "b", "d");
    SaysMore("abd", "c", []);
    SaysMore("b", "c", [Says("d")]);
    assert [Says("b")] + [Says("d")] == [Says("b"), Says("d")] && [Says("bc")] + [Says("d")] == [Says("bc"), Says("d")];
    SaysTwo("a", "bc", "d");
    assert [Says("abd")] + [] == [Says("abd")] && [Says("abdc")] + [] == [Says("abdc")];
    assert "abd" + "c" == "abdc" && "b" + "c" == "bc" && "a" + "b" + "d" == "abd" && "a" + "bc" + "d" == "abcd";
  }

  lemma SaysTwo(s: string, t: string, u: string)
    ensures MergeCandidates([Says(s)], [Says(t), Says(u)]) == [Says(s + t + u)]
  {
    MergedTwice([Says(s)], [Says(t)], [Says(u)]);
    assert [Says(t)] + [Says(u)] == [Says(t), Says(u)];
    hide MergeCandidates, Says;
    assert [Says(s)] + [] == [Says(s)] && [Says(s + t)] + [] == [Says(s + t)];
    assert [Says(s + t + u)] + [] == [Says(s + t + u)];
    SaysMore(s, t, []);
    SaysMore(s + t, u, []);
  }

  /** Text between two signatures goes with the first if merged in order, and else with the second. */
  lemma SignatureCanTear()
    ensures var a, b, c := [Part(Text("a"), true, "x")], [Part(Text("b"), true, "")], [Part(Text("c"), true, "y")];
      && AppendParts(AppendParts(a, b), c) == [Part(Text("ab"), true, "x"), Part(Text("c"), true, "y")]
      && AppendParts(a, AppendParts(b, c)) == [Part(Text("a"), true, "x"), Part(Text("bc"), true, "y")]
  {
    var a, b, c := Part(Text("a"), true, "x"), Part(Text("b"), true, ""), Part(Text("c"), true, "y");
    assert "a" + "b" == "ab" && "b" + "c" == "bc";
    assert AppendPart([a], b) == [Glue(a, b)] && AppendPart([b], c) == [Glue(b, c)];
    assert AppendPart([Glue(a, b)], c) == [Glue(a, b), c] && AppendPart([a], Glue(b, c)) == [a, Glue(b, c)];
  }
}
