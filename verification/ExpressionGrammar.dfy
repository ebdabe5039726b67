/**
 The grammar of expressions, as a relation between a text, a position in it and a syntax node that
 is written there. It knows nothing of parsing.
 */
module ExpressionGrammar {
  import opened ExpressionTrees

  // at, open and close are the positions of a node's own tokens. Any token may have spaces before it.
  datatype Node =
    | Numeral(at: nat, token: string)
    | Constant(at: nat, isPi: bool)
    | Application(at: nat, name: string, open: nat, arg: Node, close: nat)
    | Group(open: nat, inner: Node, close: nat)
    | Signed(at: nat, minus: bool, operand: Node)
    | Binary(left: Node, at: nat, op: Op, right: Node)

  // Binding strength, from sums at 0 to atoms at 4.
  function Strength(w: Node): nat {
    match w
    case Binary(_, _, Add, _) => 0
    case Binary(_, _, Sub, _) => 0
    case Binary(_, _, Mul, _) => 1
    case Binary(_, _, Div, _) => 1
    case Binary(_, _, Rem, _) => 1
    case Signed(_, _, _) => 2
    case Binary(_, _, Pow, _) => 3
    case _ => 4
  }

  // The position after a node.
  function End(w: Node): nat {
    match w
    case Numeral(at, token) => at + |token|
    case Constant(at, isPi) => at + |ConstantName(isPi)|
    case Application(_, _, _, _, close) => close + 1
    case Group(_, _, close) => close + 1
    case Signed(_, _, operand) => End(operand)
    case Binary(_, _, _, right) => End(right)
  }

  function ConstantName(isPi: bool): string {
    if isPi then "pi" else "e"
  }

  // What a node means. Parentheses and spaces are gone.
  function TreeOf(w: Node): Tree {
    match w
    case Numeral(_, token) => Num(token)
    case Constant(_, isPi) => if isPi then Pi else E
    case Application(_, name, _, arg, _) => Call(name, TreeOf(arg))
    case Group(_, inner, _) => TreeOf(inner)
    case Signed(_, minus, operand) => if minus then Neg(TreeOf(operand)) else Plus(TreeOf(operand))
    case Binary(left, _, op, right) => Bin(op, TreeOf(left), TreeOf(right))
  }

  // s stands at pos.
  ghost predicate At(text: string, pos: nat, s: string) {
    pos + |s| <= |text| && forall i :: 0 <= i < |s| ==> text[pos + i] == s[i]
  }

  // c stands at pos, or after spaces there, at `at`.
  ghost predicate Mark(text: string, pos: nat, at: nat, c: char) {
    Blank(text, pos, at) && at < |text| && text[at] == c
  }

  ghost predicate Blank(text: string, from: nat, to: nat) {
    from <= to <= |text| && forall i :: from <= i < to ==> In(text[i], Space)
  }

  /**
   w is written in the text from pos on:
     sum      := sum ('+' | '-') product | product
     product  := product ('*' | '/' | '%') signed | signed
     signed   := ('+' | '-') signed | power
     power    := atom '^' signed | atom
     atom     := number | 'pi' | 'e' | name '(' sum ')' | '(' sum ')'
   where the levels are those of Strength.
   */
  ghost predicate Reads(text: string, w: Node, pos: nat) {
    match w
    case Numeral(at, token) => Blank(text, pos, at) && IsNumber(token) && At(text, at, token)
    case Constant(at, isPi) => Blank(text, pos, at) && At(text, at, ConstantName(isPi))
    case Application(at, name, open, arg, close) =>
      && Blank(text, pos, at) && IsName(name) && At(text, at, name)
      && Mark(text, at + |name|, open, '(') && Reads(text, arg, open + 1) && Mark(text, End(arg), close, ')')
    case Group(open, inner, close) =>
      Mark(text, pos, open, '(') && Reads(text, inner, open + 1) && Mark(text, End(inner), close, ')')
    case Signed(at, minus, operand) =>
      Mark(text, pos, at, if minus then '-' else '+') && Strength(operand) >= 2 && Reads(text, operand, at + 1)
    case Binary(left, at, op, right) =>
      && Strength(left) >= LeftLevel(op) && Reads(text, left, pos)
      && Mark(text, End(left), at, Symbol(op))
      && Strength(right) >= RightLevel(op) && Reads(text, right, at + 1)
  }

  // The whole text is w, and perhaps spaces.
  ghost predicate IsWritten(text: string, w: Node) {
    Reads(text, w, 0) && Blank(text, End(w), |text|)
  }

  // How many nested expr and unary calls of the parser a node takes, by the place it stands in.

  function Max(a: nat, b: nat): nat {
    if a < b then b else a
  }

  function NeedExpr(w: Node): nat
    decreases w, 6
  {
    1 + NeedSum(w)
  }

  function NeedSum(w: Node): nat
    decreases w, 5
  {
    if Strength(w) == 0 then Max(NeedSum(w.left), NeedTerm(w.right)) else NeedTerm(w)
  }

  function NeedTerm(w: Node): nat
    decreases w, 4
  {
    if Strength(w) == 1 then Max(NeedTerm(w.left), NeedUnary(w.right)) else NeedUnary(w)
  }

  function NeedUnary(w: Node): nat
    decreases w, 3
  {
    1 + if w.Signed? then NeedUnary(w.operand) else NeedPower(w)
  }

  function NeedPower(w: Node): nat
    decreases w, 2
  {
    if Strength(w) == 3 then Max(NeedPrimary(w.left), NeedUnary(w.right)) else NeedPrimary(w)
  }

  function NeedPrimary(w: Node): nat
    decreases w, 1
  {
    match w
    case Application(_, _, _, arg, _) => NeedExpr(arg)
    case Group(_, inner, _) => NeedExpr(inner)
    case _ => 0
  }

  lemma {:induction false} ReadsInside(text: string, w: Node, pos: nat)
    requires Reads(text, w, pos)
    ensures pos < End(w) <= |text|
  {
    hide At, Blank, IsNumber, IsName;
    match w
    case Numeral(at, token) => NumeralInside(text, w, pos);
    case Constant(at, isPi) => TokenInside(text, ConstantName(isPi), pos, at);
    case Application(at, name, open, arg, close) =>
      TokenInside(text, name, pos, at);
      MarkInside(text, at + |name|, open, '(');
      ReadsInside(text, arg, open + 1);
      MarkInside(text, End(arg), close, ')');
    case Group(open, inner, close) =>
      MarkInside(text, pos, open, '(');
      ReadsInside(text, inner, open + 1);
      MarkInside(text, End(inner), close, ')');
    case Signed(at, minus, operand) =>
      MarkInside(text, pos, at, if minus then '-' else '+');
      ReadsInside(text, operand, at + 1);
    case Binary(left, at, op, right) =>
      ReadsInside(text, left, pos);
      MarkInside(text, End(left), at, Symbol(op));
      ReadsInside(text, right, at + 1);
  }

  lemma TokenInside(text: string, token: string, pos: nat, at: nat)
    requires Blank(text, pos, at) && At(text, at, token)
    ensures pos <= at <= at + |token| <= |text|
  {
  }

  lemma MarkInside(text: string, pos: nat, at: nat, c: char)
    requires Mark(text, pos, at, c)
    ensures pos <= at < |text|
  {
  }

  lemma NumeralInside(text: string, w: Node, pos: nat)
    requires w.Numeral? && Reads(text, w, pos)
    ensures pos < End(w) <= |text|
  {
    var mantissa, x :| IsNumeral(w.token, mantissa, x);
  }

  // The parts of nodes.

  lemma BinaryReads(text: string, w: Node, pos: nat)
    requires w.Binary? && Reads(text, w, pos)
    ensures Reads(text, w.left, pos) && Strength(w.left) >= LeftLevel(w.op)
    ensures Reads(text, w.right, w.at + 1) && Strength(w.right) >= RightLevel(w.op)
    ensures pos < End(w.left) <= w.at < End(w) == End(w.right) <= |text|
    ensures Mark(text, End(w.left), w.at, Symbol(w.op))
  {
    hide At, Blank, IsNumber, IsName;
    ReadsInside(text, w.left, pos);
    ReadsInside(text, w.right, w.at + 1);
    MarkInside(text, End(w.left), w.at, Symbol(w.op));
  }

  lemma SignedReadsOperand(text: string, w: Node, pos: nat)
    requires w.Signed? && Reads(text, w, pos)
    ensures Reads(text, w.operand, w.at + 1) && Strength(w.operand) >= 2
    ensures pos <= w.at < End(w) == End(w.operand) <= |text|
    ensures Mark(text, pos, w.at, if w.minus then '-' else '+')
  {
    hide At, Blank, IsNumber, IsName;
    ReadsInside(text, w.operand, w.at + 1);
    MarkInside(text, pos, w.at, if w.minus then '-' else '+');
  }

  // Spaces before a node do not matter.
  lemma {:induction false} ReadsLater(text: string, w: Node, pos: nat, p: nat)
    requires Reads(text, w, pos) && Blank(text, pos, p)
    requires p < |text| ==> !In(text[p], Space)
    ensures Reads(text, w, p)
  {
    ReadsInside(text, w, pos);
    match w
    case Binary(left, _, _, _) => ReadsLater(text, left, pos, p);
    case Numeral(at, token) => NotBlankPast(text, pos, p, at, token);
    case Constant(at, isPi) => NotBlankPast(text, pos, p, at, ConstantName(isPi));
    case Application(at, name, _, _, _) => NotBlankPast(text, pos, p, at, name);
    case _ =>
  }

  lemma NotBlankPast(text: string, pos: nat, p: nat, at: nat, token: string)
    requires Blank(text, pos, at) && At(text, at, token) && token != "" && !In(token[0], Space)
    requires Blank(text, pos, p) && (p < |text| ==> !In(text[p], Space))
    ensures p == at
  {
  }
}
