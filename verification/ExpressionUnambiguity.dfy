/**
 The grammar of expressions is unambiguous: a text is written in it in one way at most.
 */
module ExpressionUnambiguity {
  import opened ExpressionCompleteness
  import opened ExpressionGrammar
  import opened ExpressionParsing
  import opened ExpressionTrees
  import opened Wrappers

  // Nodes are compared where they begin at the same place and what follows them cannot belong to them.
  ghost predicate Stands<V>(P: Parser<V>, w: Node, pos: nat, strength: nat, level: nat) {
    && Reads(P.text, w, pos) && Strength(w) >= strength
    && pos < End(w) <= |P.text| && Ends(P, End(w), level)
  }

  // Atoms

  // Where the first token of an atom is.
  function AtomAt(w: Node): nat {
    match w
    case Numeral(at, _) => at
    case Constant(at, _) => at
    case Application(at, _, _, _, _) => at
    case Group(open, _, _) => open
    case _ => 0
  }

  lemma AtomBegins<V>(P: Parser<V>, w: Node, pos: nat)
    requires Reads(P.text, w, pos) && Strength(w) == 4 && pos <= |P.text|
    ensures AtomAt(w) == P.Skip(pos) < |P.text|
    ensures var c := P.text[AtomAt(w)];
      match w
      case Numeral(_, _) => In(c, DigitOrDot)
      case Group(_, _, _) => c == '('
      case _ => IsLetter(c)
  {
    match w
    case Numeral(at, token) =>
      var mantissa, x :| IsNumeral(token, mantissa, x);
      assert P.text[at + 0] == token[0] == mantissa[0];
      SkipTo(P, pos, at);
    case Constant(at, isPi) =>
      assert P.text[at + 0] == ConstantName(isPi)[0];
      SkipTo(P, pos, at);
    case Application(at, name, _, _, _) =>
      assert P.text[at + 0] == name[0];
      SkipTo(P, pos, at);
    case Group(open, _, _) => SkipTo(P, pos, open);
  }

  // The name that an atom begins with.
  function NameOf(w: Node): string {
    if w.Application? then w.name else if w.Constant? then ConstantName(w.isPi) else ""
  }

  // The longest name that stands at a place.
  function NameAt(text: string, at: nat): string
    requires at <= |text|
  {
    text[at..Span(text, at, Alnum)]
  }

  lemma NameIsSpan<V>(P: Parser<V>, w: Node, pos: nat)
    requires Stands(P, w, pos, 4, 4) && (w.Constant? || w.Application?)
    ensures AtomAt(w) <= |P.text| && NameOf(w) == NameAt(P.text, AtomAt(w))
  {
    if w.Constant? {
      TokenEnds(P, End(w));
      NameEnds(P, ConstantName(w.isPi), w.at);
    } else {
      NameBefore(P, w, pos);
    }
  }

  lemma NumeralIsSpan<V>(P: Parser<V>, w: Node, pos: nat)
    requires Stands(P, w, pos, 4, 4) && w.Numeral?
    ensures In(P.text[w.at], DigitOrDot) && w.token == P.text[w.at..P.NumberEnd(w.at)]
  {
    NumberEnds(P, w.token, w.at);
    TokenText(P.text, w.at, w.token);
  }

  // What stands in parentheses.
  lemma EnclosedStands<V>(P: Parser<V>, w: Node, pos: nat, close: nat)
    requires Reads(P.text, w, pos) && Mark(P.text, End(w), close, ')')
    ensures Stands(P, w, pos, 0, 0) && close == P.Skip(End(w))
  {
    ReadsInside(P.text, w, pos);
    MarkEnds(P, End(w), close, ')', 0);
    SkipTo(P, End(w), close);
  }

  lemma {:induction false} AtomIsUnique<V>(P: Parser<V>, w: Node, u: Node, pos: nat)
    requires Stands(P, w, pos, 4, 4) && Stands(P, u, pos, 4, 4)
    ensures w == u
    decreases w, u, 1, 1
  {
    AtomBegins(P, w, pos);
    AtomBegins(P, u, pos);
    hide Stands, In, IsLetter;
    assert w.Numeral? == u.Numeral? && w.Group? == u.Group? by {
      ClassesDiffer(P.text[AtomAt(w)]);
    }
    if w.Numeral? {
      NumeralIsSpan(P, w, pos);
      NumeralIsSpan(P, u, pos);
    } else if w.Group? {
      GroupIsUnique(P, w, u, pos);
    } else {
      NamedIsUnique(P, w, u, pos);
    }
  }

  lemma ClassesDiffer(c: char)
    ensures In(c, DigitOrDot) ==> c != '(' && !IsLetter(c)
    ensures IsLetter(c) ==> c != '('
  {
  }

  lemma {:induction false} GroupIsUnique<V>(P: Parser<V>, w: Node, u: Node, pos: nat)
    requires Stands(P, w, pos, 4, 4) && Stands(P, u, pos, 4, 4) && w.Group? && u.Group? && w.open == u.open
    ensures w == u
    decreases w, u, 1, 0
  {
    hide Ends;
    EnclosedIsUnique(P, w.inner, u.inner, w.open + 1, w.close, u.close);
  }

  // Constants have names of their own.
  lemma NameTells<V>(P: Parser<V>, w: Node, pos: nat)
    requires Stands(P, w, pos, 4, 4) && (w.Constant? || w.Application?)
    ensures w.Application? <==> NameOf(w) != ConstantName(true) && NameOf(w) != ConstantName(false)
    ensures w.Constant? ==> (w.isPi <==> NameOf(w) == ConstantName(true))
  {
    hide Ends;
    assert |ConstantName(true)| != |ConstantName(false)|;
  }

  lemma NameOfIs(w: Node)
    ensures w.Application? ==> NameOf(w) == w.name
  {
  }

  lemma OpenIs<V>(P: Parser<V>, w: Node, pos: nat)
    requires Stands(P, w, pos, 4, 4) && w.Application?
    ensures w.at + |w.name| <= |P.text| && w.open == P.Skip(w.at + |w.name|)
    ensures Reads(P.text, w.arg, w.open + 1) && Mark(P.text, End(w.arg), w.close, ')')
  {
    hide Ends;
    SkipTo(P, w.at + |w.name|, w.open);
  }

  lemma {:induction false} NamedIsUnique<V>(P: Parser<V>, w: Node, u: Node, pos: nat)
    requires Stands(P, w, pos, 4, 4) && Stands(P, u, pos, 4, 4) && AtomAt(w) == AtomAt(u)
    requires (w.Constant? || w.Application?) && (u.Constant? || u.Application?)
    ensures w == u
    decreases w, u, 1, 0
  {
    hide Stands, ConstantName, IsName, NameAt, NameOf, Reads, Mark;
    NameIsSpan(P, w, pos);
    NameIsSpan(P, u, pos);
    assert NameOf(w) == NameOf(u);
    NameTells(P, w, pos);
    NameTells(P, u, pos);
    NameOfIs(w);
    NameOfIs(u);
    if w.Application? {
      OpenIs(P, w, pos);
      OpenIs(P, u, pos);
      EnclosedIsUnique(P, w.arg, u.arg, w.open + 1, w.close, u.close);
    }
  }

  lemma {:induction false} EnclosedIsUnique<V>(P: Parser<V>, w: Node, u: Node, pos: nat, close: nat, other: nat)
    requires Reads(P.text, w, pos) && Mark(P.text, End(w), close, ')')
    requires Reads(P.text, u, pos) && Mark(P.text, End(u), other, ')')
    ensures w == u && close == other
    decreases w, u, 10
  {
    EnclosedStands(P, w, pos, close);
    EnclosedStands(P, u, pos, other);
    LevelIsUnique(P, w, u, pos, 0);
  }

  // Powers and signs

  lemma BaseStands<V>(P: Parser<V>, w: Node, pos: nat)
    requires Stands(P, w, pos, 3, 2) && Strength(w) == 3
    ensures Stands(P, w.left, pos, 4, 4) && Stands(P, w.right, w.at + 1, 2, 2)
    ensures P.Skip(End(w.left)) == w.at && P.text[w.at] == '^' && w.op == Pow
  {
    hide Ends;
    ReadsInside(P.text, w.left, pos);
    ReadsInside(P.text, w.right, w.at + 1);
    MarkEnds(P, End(w.left), w.at, '^', 4);
    SkipTo(P, End(w.left), w.at);
  }

  // No power follows what ends at level 2.
  lemma NoPower<V>(P: Parser<V>, pos: nat)
    requires pos <= |P.text| && Ends(P, pos, 2)
    ensures P.Skip(pos) < |P.text| ==> P.text[P.Skip(pos)] != '^'
  {
  }

  lemma {:induction false} PowerIsUnique<V>(P: Parser<V>, w: Node, u: Node, pos: nat)
    requires Stands(P, w, pos, 3, 2) && Stands(P, u, pos, 3, 2)
    ensures w == u
    decreases w, u, 2
  {
    hide Ends, Reads;
    EndsMore(P, End(w), 2, 4);
    EndsMore(P, End(u), 2, 4);
    NoPower(P, End(w));
    NoPower(P, End(u));
    if Strength(w) == 3 {
      BaseStands(P, w, pos);
    }
    if Strength(u) == 3 {
      BaseStands(P, u, pos);
    }
    AtomIsUnique(P, if Strength(w) == 3 then w.left else w, if Strength(u) == 3 then u.left else u, pos);
    if Strength(w) == 3 {
      SignedIsUnique(P, w.right, u.right, w.at + 1);
    }
  }

  lemma SignStands<V>(P: Parser<V>, w: Node, pos: nat)
    requires Stands(P, w, pos, 2, 2) && w.Signed?
    ensures Stands(P, w.operand, w.at + 1, 2, 2)
    ensures P.Skip(pos) == w.at && P.text[w.at] == if w.minus then '-' else '+'
  {
    hide Ends;
    ReadsInside(P.text, w.operand, w.at + 1);
    SkipTo(P, pos, w.at);
  }

  lemma {:induction false} SignedIsUnique<V>(P: Parser<V>, w: Node, u: Node, pos: nat)
    requires Stands(P, w, pos, 2, 2) && Stands(P, u, pos, 2, 2)
    ensures w == u
    decreases w, u, 3
  {
    hide Ends, Reads;
    if w.Signed? {
      SignStands(P, w, pos);
    } else {
      Begins(P, w, pos);
    }
    if u.Signed? {
      SignStands(P, u, pos);
    } else {
      Begins(P, u, pos);
    }
    if w.Signed? {
      SignedIsUnique(P, w.operand, u.operand, w.at + 1);
    } else {
      PowerIsUnique(P, w, u, pos);
    }
  }

  // Products (level 1) and sums (level 0), which lean to the left

  // x is u, or the left operand of u, or the left operand of that, and so on.
  predicate OnSpine(x: Node, u: Node, k: nat) {
    x == u || (k <= 1 && Strength(u) == k && OnSpine(x, u.left, k))
  }

  // A binary node of level 0 or 1 whose operands are known.
  lemma OperandsStand<V>(P: Parser<V>, w: Node, pos: nat, k: nat)
    requires k <= 1 && Strength(w) == k && Stands(P, w, pos, k, k + 1)
    ensures Stands(P, w.left, pos, k, k + 1) && Stands(P, w.right, w.at + 1, k + 1, k + 1)
    ensures P.Skip(End(w.left)) == w.at < |P.text| && P.text[w.at] == Symbol(w.op) && !Follows(Symbol(w.op), k)
  {
    hide Ends;
    ReadsInside(P.text, w.left, pos);
    ReadsInside(P.text, w.right, w.at + 1);
    MarkEnds(P, End(w.left), w.at, Symbol(w.op), k + 1);
    SkipTo(P, End(w.left), w.at);
  }

  lemma {:induction false} SpineStands<V>(P: Parser<V>, x: Node, u: Node, pos: nat, k: nat)
    requires k <= 1 && OnSpine(x, u, k) && Stands(P, u, pos, k, k + 1)
    ensures Stands(P, x, pos, k, k + 1)
  {
    hide Ends, Reads;
    if x != u {
      OperandsStand(P, u, pos, k);
      SpineStands(P, x, u.left, pos, k);
    }
  }

  // What x is the left operand of.
  lemma {:induction false} Parent(x: Node, u: Node, k: nat) returns (v: Node)
    requires k <= 1 && OnSpine(x, u, k) && x != u
    ensures OnSpine(v, u, k) && Strength(v) == k && v.left == x
  {
    if u.left == x {
      v := u;
    } else {
      v := Parent(x, u.left, k);
    }
  }

  lemma SymbolsDiffer(a: Op, b: Op)
    requires Symbol(a) == Symbol(b)
    ensures a == b
  {
  }

  // Of two such nodes one is the beginning of the other.
  lemma {:induction false} SpinesMeet<V>(P: Parser<V>, w: Node, u: Node, pos: nat, k: nat)
    requires k <= 1 && Stands(P, w, pos, k, k + 1) && Stands(P, u, pos, k, k + 1)
    ensures OnSpine(w, u, k) || OnSpine(u, w, k)
    decreases w, u, 8 - 2 * k
  {
    hide Ends, Reads;
    if Strength(w) == k {
      OperandsStand(P, w, pos, k);
      SpinesMeet(P, w.left, u, pos, k);
      if OnSpine(w.left, u, k) && w.left != u {
        var v := Parent(w.left, u, k);
        SpineStands(P, v, u, pos, k);
        OperandsStand(P, v, pos, k);
        SymbolsDiffer(w.op, v.op);
        LevelIsUnique(P, w.right, v.right, w.at + 1, k + 1);
        assert w == v;
      }
    } else if Strength(u) == k {
      OperandsStand(P, u, pos, k);
      SpinesMeet(P, w, u.left, pos, k);
    } else {
      LevelIsUnique(P, w, u, pos, k + 1);
    }
  }

  // A node that ends at its level is not the beginning of another.
  lemma SpineEnds<V>(P: Parser<V>, x: Node, u: Node, pos: nat, k: nat)
    requires k <= 1 && OnSpine(x, u, k) && Stands(P, u, pos, k, k) && Stands(P, x, pos, k, k)
    ensures x == u
  {
    if x != u {
      hide Reads;
      EndsMore(P, End(u), k, k + 1);
      var v := Parent(x, u, k);
      SpineStands(P, v, u, pos, k);
      OperandsStand(P, v, pos, k);
    }
  }

  lemma {:induction false} LevelIsUnique<V>(P: Parser<V>, w: Node, u: Node, pos: nat, k: nat)
    requires k <= 2 && Stands(P, w, pos, k, k) && Stands(P, u, pos, k, k)
    ensures w == u
    decreases w, u, 9 - 2 * k
  {
    hide Ends, Reads;
    if k == 2 {
      SignedIsUnique(P, w, u, pos);
    } else {
      EndsMore(P, End(w), k, k + 1);
      EndsMore(P, End(u), k, k + 1);
      SpinesMeet(P, w, u, pos, k);
      if OnSpine(w, u, k) {
        SpineEnds(P, w, u, pos, k);
      } else {
        SpineEnds(P, u, w, pos, k);
      }
    }
  }

  // A parser for no values in particular, since only the text matters here.
  function ParserOf(text: string): Parser<bool> {
    Parser(text, Algebra(token => None, false, false, x => x, (op, l, r) => l, (name, x) => x,
                         x => false, x => false, x => false, x => false))
  }

  lemma WrittenStands(text: string, w: Node)
    requires IsWritten(text, w)
    ensures Stands(ParserOf(text), w, 0, 0, 0)
  {
    ReadsInside(text, w, 0);
    SkipTo(ParserOf(text), End(w), |text|);
  }

  /** A text is written in the grammar in one way at most: with any spaces and parentheses, and however
      deep it nests, every token has one place in one syntax tree. */
  lemma ReadingIsUnique(text: string, w: Node, u: Node)
    requires IsWritten(text, w) && IsWritten(text, u)
    ensures w == u
  {
    WrittenStands(text, w);
    WrittenStands(text, u);
    LevelIsUnique(ParserOf(text), w, u, 0, 0);
  }
}
