/**
 The message types of include/gemini/types.hpp, and how src/types.cpp folds the chunks of a
 streamed response into one.
 */
module Types {
  import opened Wrappers

  // What a JSON value looks like inside matters nowhere but at its top level.
  datatype Json = Object(members: map<string, string>) | Scalar(text: string)

  datatype Role = User | Model

  datatype FunctionCall = FunctionCall(name: string, args: Json, id: string)

  datatype FunctionResponse = FunctionResponse(name: string, response: Json, id: string)

  datatype Value = Text(text: string) | Call(call: FunctionCall) | Response(response: FunctionResponse)

  datatype Part = Part(value: Value, thought: bool, signature: string)

  datatype Content = Content(role: Role, parts: seq<Part>)

  datatype Usage = Usage(prompt: int, candidates: int, thoughts: int, total: int)

  datatype Candidate = Candidate(content: Content, finishReason: string, index: int)

  datatype GenerateResponse = GenerateResponse(
    candidates: seq<Candidate>,
    usage: Usage,
    modelVersion: string,
    responseId: string,
    blockReason: Option<string>)

  const NO_USAGE := Usage(0, 0, 0, 0)
  const EMPTY := GenerateResponse([], NO_USAGE, "", "", None)

  function AddUsage(a: Usage, b: Usage): Usage {
    Usage(a.prompt + b.prompt, a.candidates + b.candidates, a.thoughts + b.thoughts, a.total + b.total)
  }

  // Content::text: all text that is not thought.
  function ContentText(parts: seq<Part>): string {
    if parts == [] then ""
    else (if parts[0].value.Text? && !parts[0].thought then parts[0].value.text else "") + ContentText(parts[1..])
  }

  function Calls(parts: seq<Part>): seq<FunctionCall> {
    if parts == [] then []
    else (if parts[0].value.Call? then [parts[0].value.call] else []) + Calls(parts[1..])
  }

  function FunctionCalls(r: GenerateResponse): seq<FunctionCall> {
    if r.candidates == [] then [] else Calls(r.candidates[0].content.parts)
  }

  // append_part and merge

  // Whether b is glued to a when it arrives right after it.
  predicate Glues(a: Part, b: Part) {
    a.value.Text? && b.value.Text? && a.thought == b.thought && (a.signature == "" || b.signature == "")
  }

  function Glue(a: Part, b: Part): Part
    requires Glues(a, b)
  {
    Part(Text(a.value.text + b.value.text), a.thought, if a.signature == "" then b.signature else a.signature)
  }

  function AppendPart(parts: seq<Part>, incoming: Part): seq<Part> {
    if parts != [] && Glues(parts[|parts| - 1], incoming) then
      parts[|parts| - 1 := Glue(parts[|parts| - 1], incoming)]
    else parts + [incoming]
  }

  function AppendParts(parts: seq<Part>, incoming: seq<Part>): seq<Part>
    decreases |incoming|
  {
    if incoming == [] then parts else AppendParts(AppendPart(parts, incoming[0]), incoming[1..])
  }

  // The place of the candidate with this index, or |cs|.
  function Position(cs: seq<Candidate>, index: int): (k: nat)
    ensures k <= |cs| && (k < |cs| ==> cs[k].index == index)
    ensures forall i :: 0 <= i < k ==> cs[i].index != index
  {
    if cs == [] || cs[0].index == index then 0 else 1 + Position(cs[1..], index)
  }

  lemma PositionIs(cs: seq<Candidate>, index: int, k: nat)
    requires k <= |cs| && (k < |cs| ==> cs[k].index == index)
    requires forall i :: 0 <= i < k ==> cs[i].index != index
    ensures Position(cs, index) == k
  {
  }

  function WithCandidate(cs: seq<Candidate>, index: int): seq<Candidate> {
    if Position(cs, index) < |cs| then cs else cs + [Candidate(Content(Model, []), "", index)]
  }

  function MergeCandidate(cs: seq<Candidate>, incoming: Candidate): seq<Candidate> {
    var all := WithCandidate(cs, incoming.index);
    var k := Position(cs, incoming.index);
    var c := all[k];
    all[k := c.(content := c.content.(parts := AppendParts(c.content.parts, incoming.content.parts)),
                finishReason := if incoming.finishReason != "" then incoming.finishReason else c.finishReason)]
  }

  function MergeCandidates(cs: seq<Candidate>, incoming: seq<Candidate>): seq<Candidate>
    decreases |incoming|
  {
    if incoming == [] then cs else MergeCandidates(MergeCandidate(cs, incoming[0]), incoming[1..])
  }

  function Merge(r: GenerateResponse, chunk: GenerateResponse): GenerateResponse {
    GenerateResponse(
      MergeCandidates(r.candidates, chunk.candidates),
      if chunk.usage.total != 0 || chunk.usage.prompt != 0 then chunk.usage else r.usage,
      if chunk.modelVersion != "" then chunk.modelVersion else r.modelVersion,
      if chunk.responseId != "" then chunk.responseId else r.responseId,
      if chunk.blockReason.Some? then chunk.blockReason else r.blockReason)
  }

  // Chunk after chunk, starting from r.
  function MergeAll(r: GenerateResponse, chunks: seq<GenerateResponse>): GenerateResponse
    decreases |chunks|
  {
    if chunks == [] then r else MergeAll(Merge(r, chunks[0]), chunks[1..])
  }

  // What a list of parts says, whichever way its text is divided into parts

  datatype Atom = Char(thought: bool, c: char) | Item(thought: bool, value: Value)

  function PartAtoms(p: Part): seq<Atom> {
    if p.value.Text? then seq(|p.value.text|, i requires 0 <= i < |p.value.text| => Char(p.thought, p.value.text[i]))
    else [Item(p.thought, p.value)]
  }

  function Atoms(parts: seq<Part>): seq<Atom> {
    if parts == [] then [] else PartAtoms(parts[0]) + Atoms(parts[1..])
  }

  function Signatures(parts: seq<Part>): seq<string> {
    if parts == [] then []
    else SignatureOf(parts[0]) + Signatures(parts[1..])
  }

  function PartsAt(cs: seq<Candidate>, index: int): seq<Part> {
    var k := Position(cs, index);
    if k < |cs| then cs[k].content.parts else []
  }

  function FinishAt(cs: seq<Candidate>, index: int): string {
    var k := Position(cs, index);
    if k < |cs| then cs[k].finishReason else ""
  }

  function RoleAt(cs: seq<Candidate>, index: int): Role {
    var k := Position(cs, index);
    if k < |cs| then cs[k].content.role else Model
  }

  // All parts that arrive for an index, in the candidates of a chunk and in a list of chunks.

  function Arriving(cs: seq<Candidate>, index: int): seq<Part> {
    if cs == [] then []
    else (if cs[0].index == index then cs[0].content.parts else []) + Arriving(cs[1..], index)
  }

  function ArrivingIn(chunks: seq<GenerateResponse>, index: int): seq<Part> {
    if chunks == [] then [] else Arriving(chunks[0].candidates, index) + ArrivingIn(chunks[1..], index)
  }

  lemma {:induction false} AtomsConcat(a: seq<Part>, b: seq<Part>)
    ensures Atoms(a + b) == Atoms(a) + Atoms(b)
  {
    if a == [] {
      assert a + b == b;
    } else {
      assert (a + b)[1..] == a[1..] + b;
      AtomsConcat(a[1..], b);
    }
  }

  lemma {:induction false} SignaturesConcat(a: seq<Part>, b: seq<Part>)
    ensures Signatures(a + b) == Signatures(a) + Signatures(b)
  {
    if a == [] {
      assert a + b == b;
    } else {
      assert (a + b)[1..] == a[1..] + b;
      SignaturesConcat(a[1..], b);
    }
  }

  lemma Reassociate<A>(whole: seq<A>, a: seq<A>, b: seq<A>, c: seq<A>, bc: seq<A>)
    requires whole == (a + b) + c && bc == b + c
    ensures whole == a + bc
  {
  }

  function SignatureOf(p: Part): seq<string> {
    if p.signature != "" then [p.signature] else []
  }

  lemma AppendConserves(parts: seq<Part>, incoming: Part)
    ensures Atoms(AppendPart(parts, incoming)) == Atoms(parts) + PartAtoms(incoming)
    ensures Signatures(AppendPart(parts, incoming)) == Signatures(parts) + SignatureOf(incoming)
  {
    hide Atoms, Signatures;
    if parts != [] && Glues(parts[|parts| - 1], incoming) {
      var front, last := parts[..|parts| - 1], parts[|parts| - 1];
      var glued := Glue(last, incoming);
      assert parts == front + [last] && AppendPart(parts, incoming) == front + [glued];
      AppendLast(front, last);
      AppendLast(front, glued);
      Reassociate(Atoms(parts) + PartAtoms(incoming), Atoms(front), PartAtoms(last), PartAtoms(incoming),
                  PartAtoms(glued));
      Reassociate(Signatures(parts) + SignatureOf(incoming), Signatures(front), SignatureOf(last),
                  SignatureOf(incoming), SignatureOf(glued));
    } else {
      AppendLast(parts, incoming);
    }
  }

  lemma AppendLast(parts: seq<Part>, p: Part)
    ensures Atoms(parts + [p]) == Atoms(parts) + PartAtoms(p)
    ensures Signatures(parts + [p]) == Signatures(parts) + SignatureOf(p)
  {
    AtomsConcat(parts, [p]);
    SignaturesConcat(parts, [p]);
    assert Atoms([p]) == PartAtoms(p) + [];
  }

  lemma {:induction false} AppendAllConserves(parts: seq<Part>, incoming: seq<Part>)
    ensures Atoms(AppendParts(parts, incoming)) == Atoms(parts) + Atoms(incoming)
    ensures Signatures(AppendParts(parts, incoming)) == Signatures(parts) + Signatures(incoming)
    decreases |incoming|
  {
    if incoming != [] {
      AppendConserves(parts, incoming[0]);
      AppendAllConserves(AppendPart(parts, incoming[0]), incoming[1..]);
    }
  }

  // Where each index is after a candidate has been merged.
  lemma MergedAt(cs: seq<Candidate>, incoming: Candidate, index: int)
    ensures PartsAt(MergeCandidate(cs, incoming), index)
         == if index == incoming.index then AppendParts(PartsAt(cs, index), incoming.content.parts)
            else PartsAt(cs, index)
    ensures FinishAt(MergeCandidate(cs, incoming), index)
         == if index == incoming.index && incoming.finishReason != "" then incoming.finishReason
            else FinishAt(cs, index)
    ensures RoleAt(MergeCandidate(cs, incoming), index) == RoleAt(cs, index)
  {
    var after := MergeCandidate(cs, incoming);
    var all := WithCandidate(cs, incoming.index);
    assert forall i :: 0 <= i < |all| ==> after[i].index == all[i].index;
    assert forall i :: 0 <= i < |cs| ==> all[i] == cs[i];
    var k := Position(cs, index);
    PositionIs(after, index, if k < |cs| || index == incoming.index then k else |after|);
  }

  lemma {:induction false} AppendConcat(a: seq<Part>, u: seq<Part>, v: seq<Part>)
    ensures AppendParts(a, u + v) == AppendParts(AppendParts(a, u), v)
    decreases |u|
  {
    if u == [] {
      assert u + v == v;
    } else {
      assert (u + v)[1..] == u[1..] + v;
      AppendConcat(AppendPart(a, u[0]), u[1..], v);
    }
  }

  /** What merging does to an index depends only on what there is and what arrives for that index. */
  lemma {:induction false} MergedPartsAt(cs: seq<Candidate>, incoming: seq<Candidate>, index: int)
    ensures PartsAt(MergeCandidates(cs, incoming), index) == AppendParts(PartsAt(cs, index), Arriving(incoming, index))
    decreases |incoming|
  {
    if incoming != [] {
      MergedAt(cs, incoming[0], index);
      MergedPartsAt(MergeCandidate(cs, incoming[0]), incoming[1..], index);
      var first := if incoming[0].index == index then incoming[0].content.parts else [];
      AppendConcat(PartsAt(cs, index), first, Arriving(incoming[1..], index));
    }
  }

  lemma CandidatesConserve(cs: seq<Candidate>, incoming: seq<Candidate>, index: int)
    ensures Atoms(PartsAt(MergeCandidates(cs, incoming), index))
         == Atoms(PartsAt(cs, index)) + Atoms(Arriving(incoming, index))
    ensures Signatures(PartsAt(MergeCandidates(cs, incoming), index))
         == Signatures(PartsAt(cs, index)) + Signatures(Arriving(incoming, index))
  {
    MergedPartsAt(cs, incoming, index);
    AppendAllConserves(PartsAt(cs, index), Arriving(incoming, index));
  }

  /** Merging loses and reorders nothing: for each candidate index by itself, the characters
      (each marked as thought or not), the calls and the responses that arrived are there, in
      order of arrival, and so are the thought signatures. */
  lemma {:induction false} MergeConserves(r: GenerateResponse, chunks: seq<GenerateResponse>, index: int)
    ensures Atoms(PartsAt(MergeAll(r, chunks).candidates, index))
         == Atoms(PartsAt(r.candidates, index)) + Atoms(ArrivingIn(chunks, index))
    ensures Signatures(PartsAt(MergeAll(r, chunks).candidates, index))
         == Signatures(PartsAt(r.candidates, index)) + Signatures(ArrivingIn(chunks, index))
    decreases |chunks|
  {
    if chunks != [] {
      var here := PartsAt(r.candidates, index);
      var first, rest := Arriving(chunks[0].candidates, index), ArrivingIn(chunks[1..], index);
      var whole := PartsAt(MergeAll(r, chunks).candidates, index);
      CandidatesConserve(r.candidates, chunks[0].candidates, index);
      MergeConserves(Merge(r, chunks[0]), chunks[1..], index);
      AtomsConcat(first, rest);
      SignaturesConcat(first, rest);
      Reassociate(Atoms(whole), Atoms(here), Atoms(first), Atoms(rest), Atoms(first + rest));
      Reassociate(Signatures(whole), Signatures(here), Signatures(first), Signatures(rest), Signatures(first + rest));
    }
  }

  // What can be read off the atoms.

  function Visible(atoms: seq<Atom>): string {
    if atoms == [] then ""
    else (if atoms[0].Char? && !atoms[0].thought then [atoms[0].c] else "") + Visible(atoms[1..])
  }

  function CallAtoms(atoms: seq<Atom>): seq<FunctionCall> {
    if atoms == [] then []
    else (if atoms[0].Item? && atoms[0].value.Call? then [atoms[0].value.call] else []) + CallAtoms(atoms[1..])
  }

  lemma {:induction false} VisibleConcat(a: seq<Atom>, b: seq<Atom>)
    ensures Visible(a + b) == Visible(a) + Visible(b)
  {
    if a == [] {
      assert a + b == b;
    } else {
      assert (a + b)[1..] == a[1..] + b;
      VisibleConcat(a[1..], b);
    }
  }

  lemma {:induction false} CallAtomsConcat(a: seq<Atom>, b: seq<Atom>)
    ensures CallAtoms(a + b) == CallAtoms(a) + CallAtoms(b)
  {
    if a == [] {
      assert a + b == b;
    } else {
      assert (a + b)[1..] == a[1..] + b;
      CallAtomsConcat(a[1..], b);
    }
  }

  lemma {:induction false} ReadText(text: string, thought: bool)
    ensures var atoms := PartAtoms(Part(Text(text), thought, ""));
      Visible(atoms) == (if thought then "" else text) && CallAtoms(atoms) == []
  {
    if text != "" {
      var atoms := PartAtoms(Part(Text(text), thought, ""));
      assert atoms[1..] == PartAtoms(Part(Text(text[1..]), thought, ""));
      assert text == [text[0]] + text[1..];
      ReadText(text[1..], thought);
    }
  }

  lemma {:induction false} ReadAtoms(parts: seq<Part>)
    ensures Visible(Atoms(parts)) == ContentText(parts)
    ensures CallAtoms(Atoms(parts)) == Calls(parts)
  {
    if parts != [] {
      VisibleConcat(PartAtoms(parts[0]), Atoms(parts[1..]));
      CallAtomsConcat(PartAtoms(parts[0]), Atoms(parts[1..]));
      ReadAtoms(parts[1..]);
      if parts[0].value.Text? {
        assert PartAtoms(parts[0]) == PartAtoms(Part(parts[0].value, parts[0].thought, ""));
        ReadText(parts[0].value.text, parts[0].thought);
      } else {
        assert PartAtoms(parts[0])[1..] == [];
      }
    }
  }

  lemma NothingYet(index: int)
    ensures Atoms(PartsAt(EMPTY.candidates, index)) == []
  {
  }

  /** The text and the function calls of an aggregate are those of the chunks, one after the other. */
  lemma AggregateReads(chunks: seq<GenerateResponse>, index: int)
    ensures ContentText(PartsAt(MergeAll(EMPTY, chunks).candidates, index)) == ContentText(ArrivingIn(chunks, index))
    ensures Calls(PartsAt(MergeAll(EMPTY, chunks).candidates, index)) == Calls(ArrivingIn(chunks, index))
  {
    NothingYet(index);
    hide Atoms, MergeAll, ArrivingIn, ContentText, Calls, Visible, CallAtoms;
    MergeConserves(EMPTY, chunks, index);
    ReadAtoms(PartsAt(MergeAll(EMPTY, chunks).candidates, index));
    ReadAtoms(ArrivingIn(chunks, index));
    assert [] + Atoms(ArrivingIn(chunks, index)) == Atoms(ArrivingIn(chunks, index));
  }

  // The shape of an aggregate

  ghost predicate Compact(parts: seq<Part>) {
    forall i :: 0 <= i < |parts| - 1 ==> !Glues(parts[i], parts[i + 1])
  }

  ghost predicate Unique(cs: seq<Candidate>) {
    forall i, j :: 0 <= i < j < |cs| ==> cs[i].index != cs[j].index
  }

  ghost predicate Tidy(cs: seq<Candidate>) {
    && Unique(cs)
    && (forall i :: 0 <= i < |cs| ==> Compact(cs[i].content.parts))
  }

  lemma {:induction false} AppendKeepsCompact(parts: seq<Part>, incoming: seq<Part>)
    requires Compact(parts)
    ensures Compact(AppendParts(parts, incoming))
    decreases |incoming|
  {
    if incoming != [] {
      AppendKeepsCompact(AppendPart(parts, incoming[0]), incoming[1..]);
    }
  }

  lemma {:induction false} MergeKeepsTidy(cs: seq<Candidate>, incoming: seq<Candidate>)
    requires Tidy(cs)
    ensures Tidy(MergeCandidates(cs, incoming))
    decreases |incoming|
  {
    if incoming != [] {
      var k := Position(cs, incoming[0].index);
      AppendKeepsCompact(WithCandidate(cs, incoming[0].index)[k].content.parts, incoming[0].content.parts);
      MergeKeepsTidy(MergeCandidate(cs, incoming[0]), incoming[1..]);
    }
  }

  /** An aggregate has one candidate per index, and no two neighbouring parts that could still
      be glued together. */
  lemma {:induction false} AggregateIsTidy(r: GenerateResponse, chunks: seq<GenerateResponse>)
    requires Tidy(r.candidates)
    ensures Tidy(MergeAll(r, chunks).candidates)
    decreases |chunks|
  {
    if chunks != [] {
      MergeKeepsTidy(r.candidates, chunks[0].candidates);
      AggregateIsTidy(Merge(r, chunks[0]), chunks[1..]);
    }
  }

  // What the latest chunk that has it decides

  ghost predicate IsLast(chunks: seq<GenerateResponse>, k: nat, has: GenerateResponse -> bool)
    requires k < |chunks|
  {
    has(chunks[k]) && forall i :: k < i < |chunks| ==> !has(chunks[i])
  }

  ghost predicate NoneHas(chunks: seq<GenerateResponse>, has: GenerateResponse -> bool) {
    forall i :: 0 <= i < |chunks| ==> !has(chunks[i])
  }

  const HAS_USAGE := (r: GenerateResponse) => r.usage.total != 0 || r.usage.prompt != 0
  const HAS_VERSION := (r: GenerateResponse) => r.modelVersion != ""
  const HAS_ID := (r: GenerateResponse) => r.responseId != ""
  const HAS_BLOCK := (r: GenerateResponse) => r.blockReason.Some?

  /** Usage, which is cumulative in a stream, and the version, id and block reason are those of the
      last chunk that has any. */
  lemma {:induction false} LatestWins(r: GenerateResponse, chunks: seq<GenerateResponse>, k: nat)
    requires k < |chunks|
    ensures IsLast(chunks, k, HAS_USAGE) ==> MergeAll(r, chunks).usage == chunks[k].usage
    ensures IsLast(chunks, k, HAS_VERSION) ==> MergeAll(r, chunks).modelVersion == chunks[k].modelVersion
    ensures IsLast(chunks, k, HAS_ID) ==> MergeAll(r, chunks).responseId == chunks[k].responseId
    ensures IsLast(chunks, k, HAS_BLOCK) ==> MergeAll(r, chunks).blockReason == chunks[k].blockReason
    decreases |chunks|
  {
    LastOfRest(chunks, k, HAS_USAGE);
    LastOfRest(chunks, k, HAS_VERSION);
    LastOfRest(chunks, k, HAS_ID);
    LastOfRest(chunks, k, HAS_BLOCK);
    hide IsLast, NoneHas, MergeCandidates;
    if k > 0 {
      LatestWins(Merge(r, chunks[0]), chunks[1..], k - 1);
    } else {
      WithoutStays(Merge(r, chunks[0]), chunks[1..]);
    }
  }

  lemma LastOfRest(chunks: seq<GenerateResponse>, k: nat, has: GenerateResponse -> bool)
    requires k < |chunks|
    ensures IsLast(chunks, k, has) ==> has(chunks[k])
    ensures IsLast(chunks, k, has) ==> if k > 0 then IsLast(chunks[1..], k - 1, has) else NoneHas(chunks[1..], has)
  {
  }

  lemma {:induction false} WithoutStays(r: GenerateResponse, chunks: seq<GenerateResponse>)
    ensures NoneHas(chunks, HAS_USAGE) ==> MergeAll(r, chunks).usage == r.usage
    ensures NoneHas(chunks, HAS_VERSION) ==> MergeAll(r, chunks).modelVersion == r.modelVersion
    ensures NoneHas(chunks, HAS_ID) ==> MergeAll(r, chunks).responseId == r.responseId
    ensures NoneHas(chunks, HAS_BLOCK) ==> MergeAll(r, chunks).blockReason == r.blockReason
    decreases |chunks|
  {
    if chunks != [] {
      WithoutStays(Merge(r, chunks[0]), chunks[1..]);
    }
  }

  // The last finish reason that a chunk has for an index.
  function Finishing(cs: seq<Candidate>, index: int): string {
    if cs == [] then ""
    else
      var later := Finishing(cs[1..], index);
      if later == "" && cs[0].index == index then cs[0].finishReason else later
  }

  lemma {:induction false} FinishedAt(cs: seq<Candidate>, incoming: seq<Candidate>, index: int)
    ensures FinishAt(MergeCandidates(cs, incoming), index)
         == if Finishing(incoming, index) != "" then Finishing(incoming, index) else FinishAt(cs, index)
    decreases |incoming|
  {
    if incoming != [] {
      MergedAt(cs, incoming[0], index);
      FinishedAt(MergeCandidate(cs, incoming[0]), incoming[1..], index);
    }
  }

  /** The finish reason of an index is the last one that arrives for it. */
  lemma {:induction false} FinishIsLatest(r: GenerateResponse, chunks: seq<GenerateResponse>, index: int, k: nat)
    requires k < |chunks| && Finishing(chunks[k].candidates, index) != ""
    requires forall i :: k < i < |chunks| ==> Finishing(chunks[i].candidates, index) == ""
    ensures FinishAt(MergeAll(r, chunks).candidates, index) == Finishing(chunks[k].candidates, index)
    decreases |chunks|
  {
    FinishedAt(r.candidates, chunks[0].candidates, index);
    if k > 0 {
      FinishIsLatest(Merge(r, chunks[0]), chunks[1..], index, k - 1);
    } else {
      FinishStays(Merge(r, chunks[0]), chunks[1..], index);
    }
  }

  lemma {:induction false} FinishStays(r: GenerateResponse, chunks: seq<GenerateResponse>, index: int)
    requires forall i :: 0 <= i < |chunks| ==> Finishing(chunks[i].candidates, index) == ""
    ensures FinishAt(MergeAll(r, chunks).candidates, index) == FinishAt(r.candidates, index)
    decreases |chunks|
  {
    if chunks != [] {
      FinishedAt(r.candidates, chunks[0].candidates, index);
      FinishStays(Merge(r, chunks[0]), chunks[1..], index);
    }
  }

  lemma {:induction false} MergeAllAppend(r: GenerateResponse, chunks: seq<GenerateResponse>, last: GenerateResponse)
    ensures MergeAll(r, chunks + [last]) == Merge(MergeAll(r, chunks), last)
    decreases |chunks|
  {
    if chunks != [] {
      assert (chunks + [last])[1..] == chunks[1..] + [last];
      MergeAllAppend(Merge(r, chunks[0]), chunks[1..], last);
    }
  }
}

/**
 The response that merge changes in place.
 */
module Aggregates {
  import opened Types
  import opened Wrappers

  class Aggregate {
    var candidates: seq<Candidate>
    var usage: Usage
    var modelVersion: string
    var responseId: string
    var blockReason: Option<string>

    constructor ()
      ensures View() == EMPTY
    {
      candidates, usage := [], NO_USAGE;
      modelVersion, responseId, blockReason := "", "", None;
    }

    ghost function View(): GenerateResponse
      reads this
    {
      GenerateResponse(candidates, usage, modelVersion, responseId, blockReason)
    }

    method Merge(chunk: GenerateResponse)
      modifies this
      ensures View() == Types.Merge(old(View()), chunk)
    {
      MergeIn(chunk.candidates);
      if chunk.usage.total != 0 || chunk.usage.prompt != 0 {
        usage := chunk.usage;
      }
      if chunk.modelVersion != "" {
        modelVersion := chunk.modelVersion;
      }
      if chunk.responseId != "" {
        responseId := chunk.responseId;
      }
      if chunk.blockReason.Some? {
        blockReason := chunk.blockReason;
      }
    }

    // The loop over the candidates of a chunk.
    method MergeIn(incoming: seq<Candidate>)
      modifies this`candidates
      ensures candidates == MergeCandidates(old(candidates), incoming)
    {
      for i := 0 to |incoming|
        invariant MergeCandidates(candidates, incoming[i..]) == MergeCandidates(old(candidates), incoming)
      {
        hide MergeCandidate;
        MergeOne(incoming[i]);
        assert incoming[i..][1..] == incoming[i + 1..];
      }
    }

    method MergeOne(incoming: Candidate)
      modifies this`candidates
      ensures candidates == MergeCandidate(old(candidates), incoming)
    {
      var it := 0;
      while it < |candidates| && candidates[it].index != incoming.index
        invariant it <= |candidates|
        invariant forall i :: 0 <= i < it ==> candidates[i].index != incoming.index
      {
        it := it + 1;
      }
      PositionIs(candidates, incoming.index, it);
      if it == |candidates| {
        candidates := candidates + [Candidate(Content(Model, []), "", incoming.index)];
      }
      ghost var all := candidates;
      var c := candidates[it];
      var parts := c.content.parts;
      for p := 0 to |incoming.content.parts|
        invariant candidates == all
        invariant AppendParts(parts, incoming.content.parts[p..])
               == AppendParts(c.content.parts, incoming.content.parts)
      {
        parts := AppendTo(parts, incoming.content.parts[p]);
        assert incoming.content.parts[p..][1..] == incoming.content.parts[p + 1..];
      }
      c := c.(content := c.content.(parts := parts));
      if incoming.finishReason != "" {
        c := c.(finishReason := incoming.finishReason);
      }
      candidates := candidates[it := c];
    }

    static method AppendTo(parts: seq<Part>, incoming: Part) returns (r: seq<Part>)
      ensures r == AppendPart(parts, incoming)
    {
      if incoming.value.Text? && parts != [] {
        var last := parts[|parts| - 1];
        if last.value.Text? && last.thought == incoming.thought
           && (last.signature == "" || incoming.signature == "") {
          last := last.(value := Text(last.value.text + incoming.value.text));
          if last.signature == "" {
            last := last.(signature := incoming.signature);
          }
          return parts[|parts| - 1 := last];
        }
      }
      return parts + [incoming];
    }
  }
}
