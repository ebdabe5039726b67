/**
 The text of a tree, written with parentheses only where precedence and associativity need them, and with
 any blanks before its tokens and at its end, is parsed to exactly the value of the tree.
 */
module ExpressionRoundTrip {
  import opened ExpressionCompleteness
  import opened ExpressionGrammar
  import opened ExpressionParsing
  import opened ExpressionSoundness
  import opened ExpressionTrees
  import opened ExpressionUnambiguity

  // What stands before token number k.
  type Gaps = nat -> string

  predicate IsGap(s: string) {
    forall i :: 0 <= i < |s| ==> s[i] == ' ' || s[i] == '\t'
  }

  ghost predicate AreGaps(gap: Gaps) {
    forall k :: IsGap(gap(k))
  }

  function NoGap(): Gaps {
    k => ""
  }

  // How many tokens a tree is written with.

  function Tokens(t: Tree, level: nat): nat
    decreases t, 1
  {
    if Level(t) < level then 2 + BareTokens(t) else BareTokens(t)
  }

  function BareTokens(t: Tree): nat
    decreases t, 0
  {
    match t
    case Call(_, arg) => 3 + Tokens(arg, 0)
    case Neg(x) => 1 + Tokens(x, 2)
    case Plus(x) => 1 + Tokens(x, 2)
    case Bin(op, l, r) => Tokens(l, LeftLevel(op)) + 1 + Tokens(r, RightLevel(op))
    case _ => 1
  }

  // As Print and Text of a tree, with gaps; its first token is number k.

  function Spaced(t: Tree, level: nat, gap: Gaps, k: nat): string
    decreases t, 1
  {
    if Level(t) < level then gap(k) + "(" + BareSpaced(t, gap, k + 1) + gap(k + 1 + BareTokens(t)) + ")"
    else BareSpaced(t, gap, k)
  }

  function BareSpaced(t: Tree, gap: Gaps, k: nat): string
    decreases t, 0
  {
    match t
    case Num(token) => gap(k) + token
    case Pi => gap(k) + "pi"
    case E => gap(k) + "e"
    case Call(name, arg) =>
      gap(k) + name + gap(k + 1) + "(" + Spaced(arg, 0, gap, k + 2) + gap(k + 2 + Tokens(arg, 0)) + ")"
    case Neg(x) => gap(k) + "-" + Spaced(x, 2, gap, k + 1)
    case Plus(x) => gap(k) + "+" + Spaced(x, 2, gap, k + 1)
    case Bin(op, l, r) =>
      var mid := k + Tokens(l, LeftLevel(op));
      Spaced(l, LeftLevel(op), gap, k) + gap(mid) + [Symbol(op)] + Spaced(r, RightLevel(op), gap, mid + 1)
  }

  // The whole text.
  function Written(t: Tree, gap: Gaps): string {
    Spaced(t, 0, gap, 0) + gap(Tokens(t, 0))
  }

  // The node of a tree that is written like this from pos on.

  function NodeOf(t: Tree, level: nat, gap: Gaps, k: nat, pos: nat): Node
    decreases t, 1
  {
    if Level(t) < level then
      var open := pos + |gap(k)|;
      Group(open, Bare(t, gap, k + 1, open + 1),
            open + 1 + |BareSpaced(t, gap, k + 1)| + |gap(k + 1 + BareTokens(t))|)
    else Bare(t, gap, k, pos)
  }

  function Bare(t: Tree, gap: Gaps, k: nat, pos: nat): Node
    decreases t, 0
  {
    var at := pos + |gap(k)|;
    match t
    case Num(token) => Numeral(at, token)
    case Pi => Constant(at, true)
    case E => Constant(at, false)
    case Call(name, arg) =>
      var open := at + |name| + |gap(k + 1)|;
      Application(at, name, open, NodeOf(arg, 0, gap, k + 2, open + 1),
                  open + 1 + |Spaced(arg, 0, gap, k + 2)| + |gap(k + 2 + Tokens(arg, 0))|)
    case Neg(x) => Signed(at, true, NodeOf(x, 2, gap, k + 1, at + 1))
    case Plus(x) => Signed(at, false, NodeOf(x, 2, gap, k + 1, at + 1))
    case Bin(op, l, r) =>
      var mid := k + Tokens(l, LeftLevel(op));
      var sign := pos + |Spaced(l, LeftLevel(op), gap, k)| + |gap(mid)|;
      Binary(NodeOf(l, LeftLevel(op), gap, k, pos), sign, op, NodeOf(r, RightLevel(op), gap, mid + 1, sign + 1))
  }

  // How deep the parser nests on the text of a tree.
  function Need(t: Tree): nat {
    NeedExpr(NodeOf(t, 0, NoGap(), 0, 0))
  }

  // Pieces of text

  // A gap and a token.
  lemma GapStands(text: string, pos: nat, gap: string, token: string)
    requires At(text, pos, gap + token) && IsGap(gap)
    ensures Blank(text, pos, pos + |gap|) && At(text, pos + |gap|, token)
  {
    AtConcat(text, pos, gap, token);
    forall i | pos <= i < pos + |gap|
      ensures In(text[i], Space)
    {
      assert text[pos + (i - pos)] == gap[i - pos];
    }
  }

  lemma MarkStands(text: string, pos: nat, gap: string, c: char)
    requires At(text, pos, gap + [c]) && IsGap(gap)
    ensures Mark(text, pos, pos + |gap|, c)
  {
    GapStands(text, pos, gap, [c]);
    assert text[pos + |gap| + 0] == [c][0];
  }

  // gap c inner gap' c'
  lemma EnclosedStands(text: string, pos: nat, gap: string, open: char, inner: string, gap': string, close: char)
    requires At(text, pos, gap + [open] + inner + gap' + [close]) && IsGap(gap) && IsGap(gap')
    ensures var at := pos + |gap|;
      && Mark(text, pos, at, open) && At(text, at + 1, inner)
      && Mark(text, at + 1 + |inner|, at + 1 + |inner| + |gap'|, close)
  {
    hide At, Mark, IsGap;
    var front := gap + [open];
    assert gap + [open] + inner + gap' + [close] == front + (inner + (gap' + [close]));
    AtConcat(text, pos, front, inner + (gap' + [close]));
    MarkStands(text, pos, gap, open);
    AtConcat(text, pos + |front|, inner, gap' + [close]);
    MarkStands(text, pos + |front| + |inner|, gap', close);
  }

  // left gap c right
  lemma BetweenStands(text: string, pos: nat, left: string, gap: string, c: char, right: string)
    requires At(text, pos, left + gap + [c] + right) && IsGap(gap)
    ensures At(text, pos, left) && Mark(text, pos + |left|, pos + |left| + |gap|, c)
    ensures At(text, pos + |left| + |gap| + 1, right)
  {
    hide At, Mark, IsGap;
    assert left + gap + [c] + right == left + ((gap + [c]) + right);
    AtConcat(text, pos, left, (gap + [c]) + right);
    AtConcat(text, pos + |left|, gap + [c], right);
    MarkStands(text, pos + |left|, gap, c);
  }

  // w is the node of a tree that takes `length` characters from pos on.
  ghost predicate Places(text: string, w: Node, t: Tree, level: nat, pos: nat, length: nat) {
    Reads(text, w, pos) && End(w) == pos + length && TreeOf(w) == t && Strength(w) >= level
  }

  lemma {:induction false} Placed(text: string, t: Tree, level: nat, gap: Gaps, k: nat, pos: nat)
    requires WellFormed(t) && AreGaps(gap) && At(text, pos, Spaced(t, level, gap, k)) && level <= 4
    ensures Places(text, NodeOf(t, level, gap, k, pos), t, level, pos, |Spaced(t, level, gap, k)|)
    decreases t, 2
  {
    hide At, Reads, BareSpaced, Bare, WellFormed, IsGap, Mark;
    if Level(t) < level {
      var inner, last := BareSpaced(t, gap, k + 1), k + 1 + BareTokens(t);
      EnclosedStands(text, pos, gap(k), '(', inner, gap(last), ')');
      BarePlaced(text, t, gap, k + 1, pos + |gap(k)| + 1);
      GroupPlaced(text, Bare(t, gap, k + 1, pos + |gap(k)| + 1), t, level, pos, |gap(k)|, |inner|, |gap(last)|);
    } else {
      BarePlaced(text, t, gap, k, pos);
    }
  }

  lemma GroupPlaced(text: string, inner: Node, t: Tree, level: nat, pos: nat, g: nat, n: nat, h: nat)
    requires Places(text, inner, t, Level(t), pos + g + 1, n) && level <= 4
    requires Mark(text, pos, pos + g, '(') && Mark(text, pos + g + 1 + n, pos + g + 1 + n + h, ')')
    ensures Places(text, Group(pos + g, inner, pos + g + 1 + n + h), t, level, pos, g + 1 + n + h + 1)
  {
    hide At, IsNumber, IsName, Mark;
  }

  lemma {:induction false} BarePlaced(text: string, t: Tree, gap: Gaps, k: nat, pos: nat)
    requires WellFormed(t) && AreGaps(gap) && At(text, pos, BareSpaced(t, gap, k))
    ensures Places(text, Bare(t, gap, k, pos), t, Level(t), pos, |BareSpaced(t, gap, k)|)
    decreases t, 1
  {
    hide At, Places, BareSpaced, Bare, WellFormed, AreGaps;
    match t
    case Call(_, _) => CallPlaced(text, t, gap, k, pos);
    case Neg(x) => SignedPlaced(text, t, gap, k, pos);
    case Plus(x) => SignedPlaced(text, t, gap, k, pos);
    case Bin(_, _, _) => OperandsPlaced(text, t, gap, k, pos);
    case _ => AtomPlaced(text, t, gap, k, pos);
  }

  lemma AtomPlaced(text: string, t: Tree, gap: Gaps, k: nat, pos: nat)
    requires WellFormed(t) && AreGaps(gap) && (t.Num? || t.Pi? || t.E?) && At(text, pos, BareSpaced(t, gap, k))
    ensures Places(text, Bare(t, gap, k, pos), t, 4, pos, |BareSpaced(t, gap, k)|)
  {
    hide At, Blank, IsNumber, IsGap;
    GapStands(text, pos, gap(k), match t case Num(token) => token case Pi => "pi" case _ => "e");
  }

  // Texts and nodes by the form of the tree

  lemma CallParts(t: Tree, gap: Gaps, k: nat, pos: nat)
    requires t.Call?
    ensures var at := pos + |gap(k)|;
      var open, arg, last := at + |t.name| + |gap(k + 1)|, Spaced(t.arg, 0, gap, k + 2), k + 2 + Tokens(t.arg, 0);
      && BareSpaced(t, gap, k) == gap(k) + t.name + gap(k + 1) + "(" + arg + gap(last) + ")"
      && Bare(t, gap, k, pos) ==
         Application(at, t.name, open, NodeOf(t.arg, 0, gap, k + 2, open + 1), open + 1 + |arg| + |gap(last)|)
  {
    hide Spaced, NodeOf, Tokens;
  }

  lemma SignedParts(t: Tree, gap: Gaps, k: nat, pos: nat)
    requires t.Neg? || t.Plus?
    ensures BareSpaced(t, gap, k) == gap(k) + [if t.Neg? then '-' else '+'] + Spaced(t.operand, 2, gap, k + 1)
    ensures var at := pos + |gap(k)|;
      Bare(t, gap, k, pos) == Signed(at, t.Neg?, NodeOf(t.operand, 2, gap, k + 1, at + 1))
  {
    hide Spaced, NodeOf, Tokens;
  }

  lemma BinaryParts(t: Tree, gap: Gaps, k: nat, pos: nat)
    requires t.Bin?
    ensures var mid := k + Tokens(t.left, LeftLevel(t.op));
      var l, r := Spaced(t.left, LeftLevel(t.op), gap, k), Spaced(t.right, RightLevel(t.op), gap, mid + 1);
      var at := pos + |l| + |gap(mid)|;
      && BareSpaced(t, gap, k) == l + gap(mid) + [Symbol(t.op)] + r
      && Bare(t, gap, k, pos) ==
         Binary(NodeOf(t.left, LeftLevel(t.op), gap, k, pos), at, t.op,
                NodeOf(t.right, RightLevel(t.op), gap, mid + 1, at + 1))
  {
    hide Spaced, NodeOf, Tokens, LeftLevel, RightLevel, Symbol;
  }

  lemma CallIsFormed(t: Tree)
    requires WellFormed(t) && t.Call?
    ensures IsName(t.name) && WellFormed(t.arg)
  {
  }

  lemma OperandIsFormed(t: Tree)
    requires WellFormed(t) && (t.Neg? || t.Plus?)
    ensures WellFormed(t.operand)
  {
  }

  lemma OperandsAreFormed(t: Tree)
    requires WellFormed(t) && t.Bin?
    ensures WellFormed(t.left) && WellFormed(t.right) && LeftLevel(t.op) <= 4 && RightLevel(t.op) <= 4
  {
  }

  lemma {:induction false} CallPlaced(text: string, t: Tree, gap: Gaps, k: nat, pos: nat)
    requires WellFormed(t) && AreGaps(gap) && t.Call? && At(text, pos, BareSpaced(t, gap, k))
    ensures Places(text, Bare(t, gap, k, pos), t, 4, pos, |BareSpaced(t, gap, k)|)
    decreases t, 0
  {
    hide At, Places, Spaced, IsName, IsGap, Blank, Mark, BareSpaced, Bare, NodeOf, Tokens, WellFormed;
    CallParts(t, gap, k, pos);
    CallIsFormed(t);
    var at := pos + |gap(k)|;
    var open, arg, last := at + |t.name| + |gap(k + 1)|, Spaced(t.arg, 0, gap, k + 2), k + 2 + Tokens(t.arg, 0);
    CallStands(text, pos, gap(k), t.name, gap(k + 1), arg, gap(last));
    Placed(text, t.arg, 0, gap, k + 2, open + 1);
    ApplicationPlaced(text, NodeOf(t.arg, 0, gap, k + 2, open + 1), t, pos, at, open, |arg|,
                      open + 1 + |arg| + |gap(last)|);
  }

  // gap name gap' ( arg gap'' )
  lemma CallStands(text: string, pos: nat, gap: string, name: string, gap': string, arg: string, gap'': string)
    requires At(text, pos, gap + name + gap' + "(" + arg + gap'' + ")") && IsGap(gap) && IsGap(gap') && IsGap(gap'')
    ensures var at := pos + |gap|; var end := at + |name|; var open := end + |gap'|;
      && Blank(text, pos, at) && At(text, at, name) && Mark(text, end, open, '(') && At(text, open + 1, arg)
      && Mark(text, open + 1 + |arg|, open + 1 + |arg| + |gap''|, ')')
  {
    hide At, Mark, Blank, IsGap;
    var rest := gap' + ['('] + arg + gap'' + [')'];
    assert gap + name + gap' + "(" + arg + gap'' + ")" == (gap + name) + rest;
    AtConcat(text, pos, gap + name, rest);
    GapStands(text, pos, gap, name);
    EnclosedStands(text, pos + |gap + name|, gap', '(', arg, gap'', ')');
  }

  lemma ApplicationPlaced(text: string, arg: Node, t: Tree, pos: nat, at: nat, open: nat, n: nat, close: nat)
    requires t.Call? && IsName(t.name) && Blank(text, pos, at) && At(text, at, t.name)
    requires Mark(text, at + |t.name|, open, '(') && Places(text, arg, t.arg, 0, open + 1, n)
    requires Mark(text, open + 1 + n, close, ')') && pos <= close
    ensures Places(text, Application(at, t.name, open, arg, close), t, 4, pos, close + 1 - pos)
  {
    hide At, IsNumber, IsName, Mark, Blank;
  }

  lemma {:induction false} SignedPlaced(text: string, t: Tree, gap: Gaps, k: nat, pos: nat)
    requires WellFormed(t) && AreGaps(gap) && (t.Neg? || t.Plus?) && At(text, pos, BareSpaced(t, gap, k))
    ensures Places(text, Bare(t, gap, k, pos), t, 2, pos, |BareSpaced(t, gap, k)|)
    decreases t, 0
  {
    hide At, Places, Spaced, IsGap, Mark, BareSpaced, Bare, NodeOf, Tokens, WellFormed;
    SignedParts(t, gap, k, pos);
    OperandIsFormed(t);
    var c, operand := if t.Neg? then '-' else '+', Spaced(t.operand, 2, gap, k + 1);
    assert gap(k) + [c] + operand == "" + gap(k) + [c] + operand;
    BetweenStands(text, pos, "", gap(k), c, operand);
    Placed(text, t.operand, 2, gap, k + 1, pos + |gap(k)| + 1);
    SignPlaced(text, NodeOf(t.operand, 2, gap, k + 1, pos + |gap(k)| + 1), t, pos, |gap(k)|, |operand|);
  }

  lemma SignPlaced(text: string, operand: Node, t: Tree, pos: nat, g: nat, n: nat)
    requires (t.Neg? || t.Plus?) && Places(text, operand, t.operand, 2, pos + g + 1, n)
    requires Mark(text, pos, pos + g, if t.Neg? then '-' else '+')
    ensures Places(text, Signed(pos + g, t.Neg?, operand), t, 2, pos, g + 1 + n)
  {
    hide At, IsNumber, IsName, Mark;
  }

  lemma {:induction false} OperandsPlaced(text: string, t: Tree, gap: Gaps, k: nat, pos: nat)
    requires WellFormed(t) && AreGaps(gap) && t.Bin? && At(text, pos, BareSpaced(t, gap, k))
    ensures Places(text, Bare(t, gap, k, pos), t, Level(t), pos, |BareSpaced(t, gap, k)|)
    decreases t, 0
  {
    hide At, Places, Spaced, IsGap, Mark, BareSpaced, Bare, NodeOf, Tokens, WellFormed, LeftLevel, RightLevel, Symbol;
    BinaryParts(t, gap, k, pos);
    OperandsAreFormed(t);
    var mid := k + Tokens(t.left, LeftLevel(t.op));
    var l, r := Spaced(t.left, LeftLevel(t.op), gap, k), Spaced(t.right, RightLevel(t.op), gap, mid + 1);
    var at := pos + |l| + |gap(mid)|;
    BetweenStands(text, pos, l, gap(mid), Symbol(t.op), r);
    Placed(text, t.left, LeftLevel(t.op), gap, k, pos);
    Placed(text, t.right, RightLevel(t.op), gap, mid + 1, at + 1);
    BinaryPlaced(text, NodeOf(t.left, LeftLevel(t.op), gap, k, pos),
                 NodeOf(t.right, RightLevel(t.op), gap, mid + 1, at + 1), t, pos, |l|, at, |r|);
  }

  lemma BinaryPlaced(text: string, left: Node, right: Node, t: Tree, pos: nat, l: nat, at: nat, r: nat)
    requires t.Bin? && Places(text, left, t.left, LeftLevel(t.op), pos, l) && pos <= at
    requires Mark(text, pos + l, at, Symbol(t.op))
    requires Places(text, right, t.right, RightLevel(t.op), at + 1, r)
    ensures Places(text, Binary(left, at, t.op, right), t, Level(t), pos, at + 1 + r - pos)
  {
    hide At, IsNumber, IsName, Mark;
  }

  lemma GapIsBlank(text: string, from: nat, gap: string)
    requires At(text, from, gap) && IsGap(gap)
    ensures Blank(text, from, from + |gap|)
  {
    assert gap + "" == gap;
    GapStands(text, from, gap, "");
  }

  lemma SpacedIsWritten(t: Tree, gap: Gaps)
    requires WellFormed(t) && AreGaps(gap)
    ensures IsWritten(Written(t, gap), NodeOf(t, 0, gap, 0, 0)) && TreeOf(NodeOf(t, 0, gap, 0, 0)) == t
  {
    var text, body, last := Written(t, gap), Spaced(t, 0, gap, 0), gap(Tokens(t, 0));
    assert At(text, 0, body) && At(text, |body|, last);
    hide At, Spaced, NodeOf, Blank, Reads, IsGap;
    Placed(text, t, 0, gap, 0, 0);
    GapIsBlank(text, |body|, last);
  }

  // Blanks make no difference to how deep the parser nests

  predicate SameNeeds(w: Node, u: Node) {
    && Strength(w) == Strength(u) && w.Signed? == u.Signed?
    && NeedSum(w) == NeedSum(u) && NeedTerm(w) == NeedTerm(u) && NeedUnary(w) == NeedUnary(u)
    && NeedPower(w) == NeedPower(u) && NeedPrimary(w) == NeedPrimary(u)
  }

  // One step of each measure.
  lemma NeedsUnfold(w: Node)
    ensures NeedSum(w) == if Strength(w) == 0 then Max(NeedSum(w.left), NeedTerm(w.right)) else NeedTerm(w)
    ensures NeedTerm(w) == if Strength(w) == 1 then Max(NeedTerm(w.left), NeedUnary(w.right)) else NeedUnary(w)
    ensures NeedUnary(w) == 1 + if w.Signed? then NeedUnary(w.operand) else NeedPower(w)
    ensures NeedPower(w) == if Strength(w) == 3 then Max(NeedPrimary(w.left), NeedUnary(w.right)) else NeedPrimary(w)
    ensures w.Application? ==> NeedPrimary(w) == 1 + NeedSum(w.arg)
    ensures w.Group? ==> NeedPrimary(w) == 1 + NeedSum(w.inner)
    ensures !w.Application? && !w.Group? ==> NeedPrimary(w) == 0
  {
  }

  lemma AtomNeeds(w: Node, u: Node)
    requires Strength(w) == Strength(u) == 4 && !w.Application? && !w.Group? && !u.Application? && !u.Group?
    ensures SameNeeds(w, u)
  {
    hide NeedSum, NeedTerm, NeedUnary, NeedPower, NeedPrimary;
    NeedsUnfold(w);
    NeedsUnfold(u);
  }

  lemma {:induction false} NeedsAgree(t: Tree, level: nat, gap: Gaps, k: nat, pos: nat, gap': Gaps, k': nat, pos': nat)
    ensures SameNeeds(NodeOf(t, level, gap, k, pos), NodeOf(t, level, gap', k', pos'))
    decreases t, 1
  {
    hide SameNeeds, BareSpaced, Bare, BareTokens;
    if Level(t) < level {
      var open, open' := pos + |gap(k)|, pos' + |gap'(k')|;
      BareNeedsAgree(t, gap, k + 1, open + 1, gap', k' + 1, open' + 1);
      GroupNeeds(Bare(t, gap, k + 1, open + 1), Bare(t, gap', k' + 1, open' + 1), NodeOf(t, level, gap, k, pos),
                 NodeOf(t, level, gap', k', pos'));
    } else {
      BareNeedsAgree(t, gap, k, pos, gap', k', pos');
    }
  }

  lemma {:induction false} BareNeedsAgree(t: Tree, gap: Gaps, k: nat, pos: nat, gap': Gaps, k': nat, pos': nat)
    ensures SameNeeds(Bare(t, gap, k, pos), Bare(t, gap', k', pos'))
    decreases t, 0
  {
    hide Spaced, NodeOf, Tokens, SameNeeds;
    var w, u := Bare(t, gap, k, pos), Bare(t, gap', k', pos');
    match t
    case Call(name, arg) =>
      NeedsAgree(arg, 0, gap, k + 2, w.open + 1, gap', k' + 2, u.open + 1);
      ApplicationNeeds(w, u);
    case Neg(x) =>
      NeedsAgree(x, 2, gap, k + 1, w.at + 1, gap', k' + 1, u.at + 1);
      SignedNeeds(w, u);
    case Plus(x) =>
      NeedsAgree(x, 2, gap, k + 1, w.at + 1, gap', k' + 1, u.at + 1);
      SignedNeeds(w, u);
    case Bin(op, l, r) =>
      NeedsAgree(l, LeftLevel(op), gap, k, pos, gap', k', pos');
      NeedsAgree(r, RightLevel(op), gap, k + Tokens(l, LeftLevel(op)) + 1, w.at + 1,
                 gap', k' + Tokens(l, LeftLevel(op)) + 1, u.at + 1);
      BinaryNeeds(w, u);
    case _ => AtomNeeds(w, u);
  }

  lemma GroupNeeds(inner: Node, inner': Node, w: Node, u: Node)
    requires w.Group? && u.Group? && w.inner == inner && u.inner == inner' && SameNeeds(inner, inner')
    ensures SameNeeds(w, u)
  {
    hide NeedSum, NeedTerm, NeedUnary, NeedPower, NeedPrimary;
    NeedsUnfold(w);
    NeedsUnfold(u);
  }

  lemma ApplicationNeeds(w: Node, u: Node)
    requires w.Application? && u.Application? && SameNeeds(w.arg, u.arg)
    ensures SameNeeds(w, u)
  {
    hide NeedSum, NeedTerm, NeedUnary, NeedPower, NeedPrimary;
    NeedsUnfold(w);
    NeedsUnfold(u);
  }

  lemma SignedNeeds(w: Node, u: Node)
    requires w.Signed? && u.Signed? && SameNeeds(w.operand, u.operand)
    ensures SameNeeds(w, u)
  {
    hide NeedSum, NeedTerm, NeedUnary, NeedPower, NeedPrimary;
    NeedsUnfold(w);
    NeedsUnfold(u);
  }

  lemma BinaryNeeds(w: Node, u: Node)
    requires w.Binary? && u.Binary? && w.op == u.op && SameNeeds(w.left, u.left) && SameNeeds(w.right, u.right)
    ensures SameNeeds(w, u)
  {
    hide NeedSum, NeedTerm, NeedUnary, NeedPower, NeedPrimary;
    NeedsUnfold(w);
    NeedsUnfold(u);
  }

  /** Blanks before tokens and at the end make no difference. The text of a tree, with any of them, is
      accepted exactly when it is at most 4096 characters long, the tree nests at most 200 deep, no
      operation in it fails and its value is finite; and then the result is its value. */
  lemma SpacedRoundTrip<V>(alg: Algebra<V>, t: Tree, gap: Gaps)
    requires WellFormed(t) && AreGaps(gap)
    ensures var text := Written(t, gap);
      var r := Parser(text, alg).Evaluate();
      if |text| <= 4096 && Need(t) <= 200 && Eval(alg, t).Some? && alg.isFinite(Eval(alg, t).value)
      then r == Ok(Eval(alg, t).value, |text|)
      else r.Fail?
  {
    hide Written, NodeOf, Eval, IsWritten, AreGaps;
    SpacedIsWritten(t, gap);
    NeedsAgree(t, 0, gap, 0, 0, NoGap(), 0, 0);
    WrittenParses(Written(t, gap), alg, NodeOf(t, 0, gap, 0, 0));
  }

  // Without blanks

  lemma {:induction false} SpacedIsPrint(t: Tree, level: nat, k: nat)
    ensures Spaced(t, level, NoGap(), k) == Print(t, level)
    decreases t, 1
  {
    hide BareSpaced, Text;
    BareIsText(t, if Level(t) < level then k + 1 else k);
    assert "" + "(" + Text(t) + "" + ")" == "(" + Text(t) + ")";
  }

  lemma {:induction false} BareIsText(t: Tree, k: nat)
    ensures BareSpaced(t, NoGap(), k) == Text(t)
    decreases t, 0
  {
    hide Spaced, Print;
    match t
    case Call(name, arg) =>
      SpacedIsPrint(arg, 0, k + 2);
      assert "" + name + "" + "(" + Print(arg, 0) + "" + ")" == name + "(" + Print(arg, 0) + ")";
    case Neg(x) =>
      SpacedIsPrint(x, 2, k + 1);
      assert "" + "-" + Print(x, 2) == "-" + Print(x, 2);
    case Plus(x) =>
      SpacedIsPrint(x, 2, k + 1);
      assert "" + "+" + Print(x, 2) == "+" + Print(x, 2);
    case Bin(op, l, r) =>
      SpacedIsPrint(l, LeftLevel(op), k);
      SpacedIsPrint(r, RightLevel(op), k + Tokens(l, LeftLevel(op)) + 1);
      assert Print(l, LeftLevel(op)) + "" + [Symbol(op)] == Print(l, LeftLevel(op)) + [Symbol(op)];
    case Num(token) => assert "" + token == token;
    case Pi => assert "" + "pi" == "pi";
    case E => assert "" + "e" == "e";
  }

  lemma WrittenIsPrint(t: Tree)
    ensures Written(t, NoGap()) == Print(t, 0) && AreGaps(NoGap())
  {
    hide Spaced, Print;
    SpacedIsPrint(t, 0, 0);
    assert Print(t, 0) + "" == Print(t, 0);
  }

  lemma PrintIsWritten(t: Tree)
    requires WellFormed(t)
    ensures IsWritten(Print(t, 0), NodeOf(t, 0, NoGap(), 0, 0)) && TreeOf(NodeOf(t, 0, NoGap(), 0, 0)) == t
  {
    WrittenIsPrint(t);
    SpacedIsWritten(t, NoGap());
  }

  /** The round trip, without blanks. */
  lemma RoundTrip<V>(alg: Algebra<V>, t: Tree)
    requires WellFormed(t)
    ensures var text := Print(t, 0);
      var r := Parser(text, alg).Evaluate();
      if |text| <= 4096 && Need(t) <= 200 && Eval(alg, t).Some? && alg.isFinite(Eval(alg, t).value)
      then r == Ok(Eval(alg, t).value, |text|)
      else r.Fail?
  {
    WrittenIsPrint(t);
    SpacedRoundTrip(alg, t, NoGap());
  }

  lemma {:induction false} SpacedIsLonger(t: Tree, level: nat, gap: Gaps, k: nat)
    ensures |Print(t, level)| <= |Spaced(t, level, gap, k)|
    decreases t, 1
  {
    hide BareSpaced, Text;
    BareIsLonger(t, gap, if Level(t) < level then k + 1 else k);
  }

  lemma {:induction false} BareIsLonger(t: Tree, gap: Gaps, k: nat)
    ensures |Text(t)| <= |BareSpaced(t, gap, k)|
    decreases t, 0
  {
    hide Spaced, Print;
    match t
    case Call(_, arg) => SpacedIsLonger(arg, 0, gap, k + 2);
    case Neg(x) => SpacedIsLonger(x, 2, gap, k + 1);
    case Plus(x) => SpacedIsLonger(x, 2, gap, k + 1);
    case Bin(op, l, r) =>
      SpacedIsLonger(l, LeftLevel(op), gap, k);
      SpacedIsLonger(r, RightLevel(op), gap, k + Tokens(l, LeftLevel(op)) + 1);
    case _ =>
  }

  /** Within the length limit a text with blanks evaluates to what the text without them does. */
  lemma GapsMakeNoDifference<V>(alg: Algebra<V>, t: Tree, gap: Gaps)
    requires WellFormed(t) && AreGaps(gap) && |Written(t, gap)| <= 4096
    ensures var r, plain := Parser(Written(t, gap), alg).Evaluate(), Parser(Print(t, 0), alg).Evaluate();
      if plain.Ok? then r == Ok(plain.value, |Written(t, gap)|) else r.Fail?
  {
    SpacedRoundTrip(alg, t, gap);
    RoundTrip(alg, t);
    SpacedIsLonger(t, 0, gap, 0);
    hide Spaced, Print, Eval, Need, WellFormed;
  }

  /** Precedence and associativity are recovered: different trees are never written alike, also if one
      of them has been given other spaces and more parentheses. */
  lemma TextDeterminesTree(t: Tree, w: Node)
    requires WellFormed(t) && IsWritten(Print(t, 0), w)
    ensures TreeOf(w) == t
  {
    PrintIsWritten(t);
    ReadingIsUnique(Print(t, 0), w, NodeOf(t, 0, NoGap(), 0, 0));
  }

  lemma PrintIsInjective(t: Tree, other: Tree)
    requires WellFormed(t) && WellFormed(other) && Print(t, 0) == Print(other, 0)
    ensures t == other
  {
    PrintIsWritten(other);
    TextDeterminesTree(t, NodeOf(other, 0, NoGap(), 0, 0));
  }
}
