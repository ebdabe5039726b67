/**
 What is written in the grammar is parsed, to the value of its tree: one half of the equivalence of
 grammar and parser.
 */
module ExpressionCompleteness {
  import opened ExpressionGrammar
  import opened ExpressionParsing
  import opened ExpressionTrees
  import opened Numerals
  import opened Wrappers

  // What may follow an operand of the given strength.
  predicate Follows(c: char, level: nat) {
    || c == ')'
    || (level >= 1 && (c == '+' || c == '-'))
    || (level >= 2 && (c == '*' || c == '/' || c == '%'))
    || (level >= 3 && c == '^')
  }

  // Such a thing, or the end of the text, comes next after spaces.
  predicate Ends<V>(P: Parser<V>, pos: nat, level: nat)
    requires pos <= |P.text|
  {
    P.Skip(pos) == |P.text| || Follows(P.text[P.Skip(pos)], level)
  }

  // r is the value of w, with the position moved to end, if w has a value and the depth suffices.
  ghost predicate Gives<V>(P: Parser<V>, r: Outcome<V>, w: Node, depth: nat, end: nat) {
    var v := Eval(P.alg, TreeOf(w));
    if depth <= MAX_DEPTH && v.Some? then r == Ok(v.value, end) else r.Fail?
  }

  // Parsing a sum, or a product, from pos amounts to going on at end with the value of w.

  ghost predicate SumGoesOn<V>(P: Parser<V>, w: Node, pos: nat, depth: nat, end: nat)
    requires pos <= |P.text| && end <= |P.text| && depth <= MAX_DEPTH
  {
    var v := Eval(P.alg, TreeOf(w));
    if depth + NeedSum(w) <= MAX_DEPTH && v.Some? then P.Sum(pos, depth) == P.ExprLoop(v.value, end, depth)
    else P.Sum(pos, depth).Fail?
  }

  ghost predicate TermGoesOn<V>(P: Parser<V>, w: Node, pos: nat, depth: nat, end: nat)
    requires pos <= |P.text| && end <= |P.text| && depth <= MAX_DEPTH
  {
    var v := Eval(P.alg, TreeOf(w));
    if depth + NeedTerm(w) <= MAX_DEPTH && v.Some? then P.Term(pos, depth) == P.TermLoop(v.value, end, depth)
    else P.Term(pos, depth).Fail?
  }

  lemma EndsMore<V>(P: Parser<V>, pos: nat, level: nat, more: nat)
    requires pos <= |P.text| && Ends(P, pos, level) && level <= more
    ensures Ends(P, pos, more)
  {
  }

  // Spans

  lemma {:induction false} SpanTo(text: string, pos: nat, end: nat, k: Class)
    requires pos <= end <= |text| && (forall i :: pos <= i < end ==> In(text[i], k))
    requires end < |text| ==> !In(text[end], k)
    ensures Span(text, pos, k) == end
    decreases end - pos
  {
    if pos < end {
      SpanTo(text, pos + 1, end, k);
    }
  }

  lemma {:induction false} SpanAll(text: string, pos: nat, k: Class)
    requires pos <= |text|
    ensures forall i :: pos <= i < Span(text, pos, k) ==> In(text[i], k)
    decreases |text| - pos
  {
    if pos < |text| && In(text[pos], k) {
      SpanAll(text, pos + 1, k);
    }
  }

  lemma SkipIsBlank<V>(P: Parser<V>, pos: nat)
    requires pos <= |P.text|
    ensures Blank(P.text, pos, P.Skip(pos)) && P.Skip(P.Skip(pos)) == P.Skip(pos)
  {
    SpanAll(P.text, pos, Space);
  }

  lemma SkipTo<V>(P: Parser<V>, pos: nat, at: nat)
    requires Blank(P.text, pos, at) && (at < |P.text| ==> !In(P.text[at], Space))
    ensures P.Skip(pos) == at == P.Skip(at)
  {
    SpanTo(P.text, pos, at, Space);
  }

  // s at pos, with something else after it.
  lemma TokenSpan(text: string, pos: nat, s: string, k: Class)
    requires At(text, pos, s) && All(s, k) && (pos + |s| < |text| ==> !In(text[pos + |s|], k))
    ensures Span(text, pos, k) == pos + |s|
  {
    forall i | pos <= i < pos + |s|
      ensures In(text[i], k)
    {
      assert text[pos + (i - pos)] == s[i - pos];
    }
    SpanTo(text, pos, pos + |s|, k);
  }

  lemma TokenText(text: string, pos: nat, s: string)
    requires At(text, pos, s)
    ensures text[pos..pos + |s|] == s
  {
  }

  lemma AtConcat(text: string, pos: nat, a: string, b: string)
    requires At(text, pos, a + b)
    ensures At(text, pos, a) && At(text, pos + |a|, b)
  {
    forall i | 0 <= i < |a|
      ensures text[pos + i] == a[i]
    {
      assert (a + b)[i] == a[i];
    }
    forall i | 0 <= i < |b|
      ensures text[pos + |a| + i] == b[i]
    {
      assert (a + b)[|a| + i] == b[i];
    }
  }

  // What follows an operand does not prolong its last token.
  lemma TokenEnds<V>(P: Parser<V>, pos: nat)
    requires pos <= |P.text| && Ends(P, pos, 4)
    ensures pos < |P.text| ==>
              var c := P.text[pos];
              !In(c, Alnum) && !In(c, DigitOrDot) && !In(c, Digit) && c != 'e' && c != 'E'
  {
  }

  // Atoms

  lemma NumberEnds<V>(P: Parser<V>, token: string, pos: nat)
    requires At(P.text, pos, token) && IsNumber(token) && Ends(P, pos + |token|, 4)
    ensures In(P.text[pos], DigitOrDot) && P.NumberEnd(pos) == pos + |token|
  {
    hide Ends, Span, At, All, In, IsNumeral, P.NumberEnd;
    var mantissa, x :| IsNumeral(token, mantissa, x);
    NumeralParts(P.text, token, mantissa, x, pos);
    NumeralEnds(P, mantissa, x, pos);
  }

  lemma NumeralEnds<V>(P: Parser<V>, mantissa: string, x: Exponent, pos: nat)
    requires At(P.text, pos, mantissa) && At(P.text, pos + |mantissa|, x.Text())
    requires mantissa != "" && All(mantissa, DigitOrDot) && x.Ok() && Ends(P, pos + |mantissa| + |x.Text()|, 4)
    ensures In(P.text[pos], DigitOrDot) && P.NumberEnd(pos) == pos + |mantissa| + |x.Text()|
  {
    hide Ends, Span, At, P.NumberEnd, All, In, x.Ok;
    MantissaEnds(P, mantissa, x, pos);
    if x.Exponent? {
      ExponentEnds(P, x, pos + |mantissa|);
      NumberEndsLater(P, pos, pos + |mantissa|);
    } else {
      TokenEnds(P, pos + |mantissa|);
      NumberEndsThere(P, pos, pos + |mantissa|);
    }
  }

  lemma NumberEndsThere<V>(P: Parser<V>, pos: nat, p: nat)
    requires pos < |P.text| && In(P.text[pos], DigitOrDot) && p == Span(P.text, pos, DigitOrDot)
    requires p < |P.text| ==> P.text[p] != 'e' && P.text[p] != 'E'
    ensures P.NumberEnd(pos) == p
  {
  }

  lemma NumberEndsLater<V>(P: Parser<V>, pos: nat, p: nat)
    requires pos < |P.text| && In(P.text[pos], DigitOrDot) && p == Span(P.text, pos, DigitOrDot)
    requires p < |P.text| && (P.text[p] == 'e' || P.text[p] == 'E')
    ensures var look := if p + 1 < |P.text| && (P.text[p + 1] == '+' || P.text[p + 1] == '-') then p + 2 else p + 1;
      look < |P.text| && IsDigit(P.text[look]) ==> P.NumberEnd(pos) == Span(P.text, look, Digit)
  {
    hide Span;
  }

  lemma NumeralParts(text: string, token: string, mantissa: string, x: Exponent, pos: nat)
    requires At(text, pos, token) && IsNumeral(token, mantissa, x)
    ensures At(text, pos, mantissa) && At(text, pos + |mantissa|, x.Text()) && |token| == |mantissa| + |x.Text()|
    ensures pos + |token| <= |text| && mantissa != "" && All(mantissa, DigitOrDot) && x.Ok()
  {
    AtConcat(text, pos, mantissa, x.Text());
  }

  lemma MantissaEnds<V>(P: Parser<V>, mantissa: string, x: Exponent, pos: nat)
    requires At(P.text, pos, mantissa) && At(P.text, pos + |mantissa|, x.Text())
    requires mantissa != "" && All(mantissa, DigitOrDot) && x.Ok() && Ends(P, pos + |mantissa| + |x.Text()|, 4)
    ensures pos < |P.text| && In(P.text[pos], DigitOrDot)
    ensures Span(P.text, pos, DigitOrDot) == pos + |mantissa|
  {
    hide Ends, Span, At, All, In, x.Text, x.Ok;
    FirstStands(P.text, mantissa, pos, DigitOrDot);
    if x.Exponent? {
      MarkStands(P.text, x, pos + |mantissa|);
    } else {
      NoText(x);
      TokenEnds(P, pos + |mantissa|);
    }
    TokenSpan(P.text, pos, mantissa, DigitOrDot);
  }

  lemma FirstStands(text: string, s: string, pos: nat, k: Class)
    requires At(text, pos, s) && s != "" && All(s, k)
    ensures pos < pos + |s| <= |text| && In(text[pos], k)
  {
    assert text[pos + 0] == s[0];
  }

  lemma NoText(x: Exponent)
    ensures x.NoExponent? ==> |x.Text()| == 0
  {
  }

  lemma MarkStands(text: string, x: Exponent, p: nat)
    requires x.Exponent? && x.Ok() && At(text, p, x.Text())
    ensures p < |text| && text[p] == x.mark && !In(x.mark, DigitOrDot)
  {
    assert text[p + 0] == x.Text()[0];
  }

  lemma ExponentEnds<V>(P: Parser<V>, x: Exponent, p: nat)
    requires x.Exponent? && x.Ok() && At(P.text, p, x.Text()) && Ends(P, p + |x.Text()|, 4)
    ensures P.text[p] == 'e' || P.text[p] == 'E'
    ensures var look := if p + 1 < |P.text| && (P.text[p + 1] == '+' || P.text[p + 1] == '-') then p + 2 else p + 1;
      look < |P.text| && IsDigit(P.text[look]) && Span(P.text, look, Digit) == p + |x.Text()|
  {
    AtConcat(P.text, p, [x.mark] + x.sign, x.digits);
    AtConcat(P.text, p, [x.mark], x.sign);
    assert P.text[p + 0] == [x.mark][0];
    if x.sign != "" {
      assert P.text[p + 1 + 0] == x.sign[0];
    }
    var look := p + 1 + |x.sign|;
    assert P.text[look + 0] == x.digits[0];
    TokenEnds(P, p + |x.Text()|);
    TokenSpan(P.text, look, x.digits, Digit);
  }

  lemma NameEnds<V>(P: Parser<V>, name: string, pos: nat)
    requires At(P.text, pos, name) && name != [] && IsLetter(name[0]) && All(name, Alnum)
    requires pos + |name| < |P.text| ==> !In(P.text[pos + |name|], Alnum)
    ensures IsLetter(P.text[pos]) && Span(P.text, pos, Alnum) == pos + |name|
    ensures P.text[pos..pos + |name|] == name
  {
    assert P.text[pos + 0] == name[0];
    TokenSpan(P.text, pos, name, Alnum);
    TokenText(P.text, pos, name);
  }

  lemma NumeralParses<V>(P: Parser<V>, w: Node, pos: nat, depth: nat)
    requires w.Numeral? && Reads(P.text, w, pos) && End(w) <= |P.text| && Ends(P, End(w), 4) && depth <= MAX_DEPTH
    ensures Gives(P, P.Primary(pos, depth), w, depth + NeedPrimary(w), End(w))
  {
    NumberEnds(P, w.token, w.at);
    TokenText(P.text, w.at, w.token);
    SkipTo(P, pos, w.at);
  }

  lemma ConstantParses<V>(P: Parser<V>, w: Node, pos: nat, depth: nat)
    requires w.Constant? && Reads(P.text, w, pos) && End(w) <= |P.text| && Ends(P, End(w), 4) && depth <= MAX_DEPTH
    ensures Gives(P, P.Primary(pos, depth), w, depth + NeedPrimary(w), End(w))
  {
    hide P.Primary, P.Skip;
    ConstantStands(P, w, pos);
    ConstantStep(P, pos, w.at, ConstantName(w.isPi), w.isPi, depth);
  }

  lemma ConstantStands<V>(P: Parser<V>, w: Node, pos: nat)
    requires w.Constant? && Reads(P.text, w, pos) && End(w) <= |P.text| && Ends(P, End(w), 4)
    ensures pos <= |P.text| && P.Skip(pos) == w.at < |P.text| && IsLetter(P.text[w.at])
    ensures Span(P.text, w.at, Alnum) == End(w) && P.text[w.at..End(w)] == ConstantName(w.isPi)
  {
    hide P.Primary;
    TokenEnds(P, End(w));
    hide Ends, P.Skip;
    NameEnds(P, ConstantName(w.isPi), w.at);
    SkipTo(P, pos, w.at);
  }

  lemma ConstantStep<V>(P: Parser<V>, pos: nat, at: nat, name: string, isPi: bool, depth: nat)
    requires name == ConstantName(isPi) && at + |name| <= |P.text| && depth <= MAX_DEPTH
    requires pos <= |P.text| && P.Skip(pos) == at < |P.text| && IsLetter(P.text[at])
    requires Span(P.text, at, Alnum) == at + |name| && P.text[at..at + |name|] == name
    ensures P.Primary(pos, depth) == Ok(if isPi then P.alg.pi else P.alg.e, at + |name|)
  {
    hide P.Primary, P.Identifier, P.Skip, Span;
    PrimaryUnfolds(P, pos, depth);
    IdentifierUnfolds(P, at, depth);
    assert |"pi"| != |"e"|;
  }

  lemma ClosedGives<V>(P: Parser<V>, r: Outcome<V>, w: Node, depth: nat, end: nat, close: nat)
    requires Mark(P.text, end, close, ')') && P.Skip(end) <= |P.text|
    requires Gives(P, r, w, depth, P.Skip(end))
    requires r.Ok? ==> r.pos <= |P.text|
    ensures Gives(P, P.Closed(r), w, depth, close + 1)
  {
    SkipTo(P, end, close);
  }

  lemma GroupStep<V>(P: Parser<V>, w: Node, pos: nat, depth: nat)
    requires w.Group? && Mark(P.text, pos, w.open, '(') && depth <= MAX_DEPTH
    requires End(w.inner) <= |P.text| && Mark(P.text, End(w.inner), w.close, ')')
    requires Gives(P, P.Expr(w.open + 1, depth), w.inner, depth + NeedExpr(w.inner), P.Skip(End(w.inner)))
    ensures Gives(P, P.Primary(pos, depth), w, depth + NeedPrimary(w), End(w))
  {
    SkipTo(P, pos, w.open);
    ClosedGives(P, P.Expr(w.open + 1, depth), w.inner, depth + NeedExpr(w.inner), End(w.inner), w.close);
  }

  lemma ApplicationStep<V>(P: Parser<V>, w: Node, pos: nat, depth: nat)
    requires w.Application? && Blank(P.text, pos, w.at) && IsName(w.name) && At(P.text, w.at, w.name)
    requires Mark(P.text, w.at + |w.name|, w.open, '(') && depth <= MAX_DEPTH
    requires End(w.arg) <= |P.text| && Mark(P.text, End(w.arg), w.close, ')')
    requires Gives(P, P.Expr(w.open + 1, depth), w.arg, depth + NeedExpr(w.arg), P.Skip(End(w.arg)))
    ensures Gives(P, P.Primary(pos, depth), w, depth + NeedPrimary(w), End(w))
  {
    hide Gives, At, Blank, IsName, Mark, P.Expr, P.Skip, P.Closed, P.Identifier, P.Primary,
         NeedPrimary, NeedExpr, CallOutcome, Span;
    NameBefore(P, w, pos);
    var arg := P.Expr(w.open + 1, depth);
    ClosedGives(P, arg, w.arg, depth + NeedExpr(w.arg), End(w.arg), w.close);
    PrimaryUnfolds(P, pos, depth);
    IdentifierIsCall(P, w, depth, P.Closed(arg));
    LetterIsNoNumber(P.text[w.at]);
    CallGives(P, w, P.Closed(arg), depth);
  }

  lemma LetterIsNoNumber(c: char)
    requires IsLetter(c)
    ensures c != '(' && !In(c, DigitOrDot)
  {
  }

  lemma NameBefore<V>(P: Parser<V>, w: Node, pos: nat)
    requires w.Application? && Blank(P.text, pos, w.at) && IsName(w.name) && At(P.text, w.at, w.name)
    requires Mark(P.text, w.at + |w.name|, w.open, '(')
    ensures P.Skip(pos) == w.at && IsLetter(P.text[w.at]) && Span(P.text, w.at, Alnum) == w.at + |w.name|
    ensures P.text[w.at..w.at + |w.name|] == w.name
    ensures P.Skip(w.at + |w.name|) == w.open < |P.text| && P.text[w.open] == '('
  {
    var end := w.at + |w.name|;
    assert P.text[end] == '(' || In(P.text[end], Space);
    NameEnds(P, w.name, w.at);
    SkipTo(P, pos, w.at);
    SkipTo(P, end, w.open);
  }

  lemma IdentifierIsCall<V>(P: Parser<V>, w: Node, depth: nat, closed: Outcome<V>)
    requires w.Application? && IsName(w.name) && w.at + |w.name| <= w.open < |P.text| && depth <= MAX_DEPTH
    requires IsLetter(P.text[w.at]) && Span(P.text, w.at, Alnum) == w.at + |w.name|
    requires P.text[w.at..w.at + |w.name|] == w.name
    requires P.Skip(w.at + |w.name|) == w.open && P.text[w.open] == '('
    requires closed == P.Closed(P.Expr(w.open + 1, depth))
    ensures P.Identifier(w.at, depth) ==
            match closed case Ok(x, p) => CallOutcome(P.alg, w.name, x, p) case fail => fail
  {
    hide P.Identifier, P.Expr, P.Closed, P.Skip, Span, CallOutcome;
    IdentifierUnfolds(P, w.at, depth);
  }

  lemma CallGives<V>(P: Parser<V>, w: Node, closed: Outcome<V>, depth: nat)
    requires w.Application? && Gives(P, closed, w.arg, depth + NeedExpr(w.arg), End(w))
    ensures Gives(P, match closed case Ok(x, p) => CallOutcome(P.alg, w.name, x, p) case fail => fail,
                  w, depth + NeedPrimary(w), End(w))
  {
  }

  // Operators, with what their operands give

  lemma SumStep<V>(P: Parser<V>, w: Node, pos: nat, depth: nat)
    requires Strength(w) == 0 && Mark(P.text, End(w.left), w.at, Symbol(w.op)) && depth <= MAX_DEPTH
    requires pos <= |P.text| && End(w.left) <= |P.text| && End(w) <= |P.text|
    requires SumGoesOn(P, w.left, pos, depth, P.Skip(End(w.left)))
    requires Gives(P, P.Term(w.at + 1, depth), w.right, depth + NeedTerm(w.right), P.Skip(End(w)))
    ensures SumGoesOn(P, w, pos, depth, P.Skip(End(w)))
  {
    hide P.Sum, P.Term, P.ExprLoop, P.Skip, NeedTerm;
    SkipTo(P, End(w.left), w.at);
    assert P.AddOp(w.at) == Some(w.op);
    var v := Eval(P.alg, TreeOf(w.left));
    if v.Some? {
      ExprLoopUnfolds(P, v.value, w.at, depth);
    }
  }

  lemma TermStep<V>(P: Parser<V>, w: Node, pos: nat, depth: nat)
    requires Strength(w) == 1 && Mark(P.text, End(w.left), w.at, Symbol(w.op)) && depth <= MAX_DEPTH
    requires pos <= |P.text| && End(w.left) <= |P.text| && End(w) <= |P.text|
    requires TermGoesOn(P, w.left, pos, depth, P.Skip(End(w.left)))
    requires Gives(P, P.Unary(w.at + 1, depth), w.right, depth + NeedUnary(w.right), P.Skip(End(w)))
    ensures TermGoesOn(P, w, pos, depth, P.Skip(End(w)))
  {
    hide P.Term, P.Unary, P.TermLoop, P.Skip, NeedUnary;
    SkipTo(P, End(w.left), w.at);
    assert P.MulOp(w.at) == Some(w.op);
    var v := Eval(P.alg, TreeOf(w.left));
    if v.Some? {
      TermLoopUnfolds(P, v.value, w.at, depth);
    }
  }

  lemma SignStep<V>(P: Parser<V>, w: Node, pos: nat, depth: nat)
    requires w.Signed? && Mark(P.text, pos, w.at, if w.minus then '-' else '+')
    requires End(w) <= |P.text| && depth < MAX_DEPTH
    requires Gives(P, P.Unary(w.at + 1, depth + 1), w.operand, depth + 1 + NeedUnary(w.operand), P.Skip(End(w)))
    ensures Gives(P, P.Unary(pos, depth), w, depth + NeedUnary(w), P.Skip(End(w)))
  {
    SkipTo(P, pos, w.at);
  }

  lemma SignlessStep<V>(P: Parser<V>, w: Node, pos: nat, depth: nat)
    requires !w.Signed? && pos <= |P.text| && End(w) <= |P.text| && depth < MAX_DEPTH
    requires !P.Next(pos, '-') && !P.Next(pos, '+')
    requires Gives(P, P.Power(P.Skip(pos), depth + 1), w, depth + 1 + NeedPower(w), P.Skip(End(w)))
    ensures Gives(P, P.Unary(pos, depth), w, depth + NeedUnary(w), P.Skip(End(w)))
  {
  }

  function PowerOf<V>(P: Parser<V>, base: Outcome<V>, exponent: Outcome<V>): Outcome<V> {
    match base
    case Ok(b, _) =>
      (match exponent
       case Ok(v, q) => Ok(P.alg.apply(Pow, b, v), q)
       case fail => fail)
    case fail => fail
  }

  lemma PowerGives<V>(P: Parser<V>, w: Node, base: Outcome<V>, exponent: Outcome<V>, depth: nat, end: nat)
    requires Strength(w) == 3 && Gives(P, base, w.left, depth + NeedPrimary(w.left), End(w.left))
    requires Gives(P, exponent, w.right, depth + NeedUnary(w.right), end)
    ensures Gives(P, PowerOf(P, base, exponent), w, depth + NeedPower(w), end)
  {
  }

  lemma PowerStep<V>(P: Parser<V>, w: Node, pos: nat, depth: nat)
    requires Strength(w) == 3 && Mark(P.text, End(w.left), w.at, Symbol(w.op)) && depth <= MAX_DEPTH
    requires pos <= |P.text| && End(w.left) <= |P.text| && End(w) <= |P.text|
    requires Gives(P, P.Primary(pos, depth), w.left, depth + NeedPrimary(w.left), End(w.left))
    requires Gives(P, P.Unary(w.at + 1, depth), w.right, depth + NeedUnary(w.right), P.Skip(End(w)))
    ensures Gives(P, P.Power(pos, depth), w, depth + NeedPower(w), P.Skip(End(w)))
  {
    hide Eval, TreeOf, P.Power, P.Primary, P.Unary, P.Skip, NeedPower, NeedPrimary, NeedUnary;
    SkipTo(P, End(w.left), w.at);
    PowerUnfolds(P, pos, depth);
    var base, exponent := P.Primary(pos, depth), P.Unary(w.at + 1, depth);
    PowerGives(P, w, base, exponent, depth, P.Skip(End(w)));
    assert P.Next(End(w.left), '^');
    assert P.Power(pos, depth) == PowerOf(P, base, exponent);
  }

  lemma PowerStops<V>(P: Parser<V>, w: Node, pos: nat, depth: nat)
    requires Strength(w) == 4 && pos <= |P.text| && End(w) <= |P.text| && Ends(P, End(w), 2) && depth <= MAX_DEPTH
    requires Gives(P, P.Primary(pos, depth), w, depth + NeedPrimary(w), End(w))
    ensures Gives(P, P.Power(pos, depth), w, depth + NeedPower(w), P.Skip(End(w)))
  {
  }

  lemma TermStart<V>(P: Parser<V>, w: Node, pos: nat, depth: nat)
    requires Strength(w) >= 2 && pos <= |P.text| && End(w) <= |P.text| && depth <= MAX_DEPTH
    requires Gives(P, P.Unary(pos, depth), w, depth + NeedUnary(w), P.Skip(End(w)))
    ensures TermGoesOn(P, w, pos, depth, P.Skip(End(w)))
  {
  }

  lemma SumStart<V>(P: Parser<V>, w: Node, pos: nat, depth: nat)
    requires Strength(w) >= 1 && pos <= |P.text| && End(w) <= |P.text| && depth <= MAX_DEPTH
    requires Gives(P, P.Term(pos, depth), w, depth + NeedTerm(w), P.Skip(End(w)))
    ensures SumGoesOn(P, w, pos, depth, P.Skip(End(w)))
  {
  }

  // Where a term ends the loop over its factors ends, and where a sum ends that over its terms.

  lemma TermEnd<V>(P: Parser<V>, w: Node, pos: nat, depth: nat)
    requires pos <= |P.text| && End(w) <= |P.text| && Ends(P, End(w), 1) && depth <= MAX_DEPTH
    requires TermGoesOn(P, w, pos, depth, P.Skip(End(w)))
    ensures Gives(P, P.Term(pos, depth), w, depth + NeedTerm(w), P.Skip(End(w)))
  {
  }

  lemma SumEnd<V>(P: Parser<V>, w: Node, pos: nat, depth: nat)
    requires pos <= |P.text| && End(w) <= |P.text| && Ends(P, End(w), 0) && depth <= MAX_DEPTH
    requires SumGoesOn(P, w, pos, depth, P.Skip(End(w)))
    ensures Gives(P, P.Sum(pos, depth), w, depth + NeedSum(w), P.Skip(End(w)))
  {
  }

  // An operator or parenthesis after an operand ends it.
  lemma MarkEnds<V>(P: Parser<V>, end: nat, at: nat, c: char, level: nat)
    requires Mark(P.text, end, at, c) && Follows(c, level)
    ensures Ends(P, end, level)
  {
    SkipTo(P, end, at);
  }

  // The grammar, level by level

  lemma {:induction false} PrimaryParses<V>(P: Parser<V>, w: Node, pos: nat, depth: nat)
    requires Reads(P.text, w, pos) && Strength(w) == 4 && depth <= MAX_DEPTH
    requires pos <= |P.text| && End(w) <= |P.text| && Ends(P, End(w), 4)
    ensures Gives(P, P.Primary(pos, depth), w, depth + NeedPrimary(w), End(w))
    decreases w, 1
  {
    hide Reads, Gives, Ends, NeedPrimary, P.Primary;
    match w
    case Numeral(_, _) => NumeralParses(P, w, pos, depth);
    case Constant(_, _) => ConstantParses(P, w, pos, depth);
    case Application(_, _, _, _, _) => ApplicationParses(P, w, pos, depth);
    case Group(_, _, _) => GroupParses(P, w, pos, depth);
  }

  lemma {:induction false} ApplicationParses<V>(P: Parser<V>, w: Node, pos: nat, depth: nat)
    requires w.Application? && Reads(P.text, w, pos) && pos <= |P.text| && End(w) <= |P.text| && depth <= MAX_DEPTH
    ensures Gives(P, P.Primary(pos, depth), w, depth + NeedPrimary(w), End(w))
    decreases w, 0
  {
    hide Gives, At, Blank, IsName, Mark, NeedPrimary, NeedExpr, P.Primary, P.Expr, P.Skip;
    EnclosedParses(P, w.arg, w.open + 1, w.close, depth);
    ApplicationStep(P, w, pos, depth);
  }

  lemma {:induction false} GroupParses<V>(P: Parser<V>, w: Node, pos: nat, depth: nat)
    requires w.Group? && Reads(P.text, w, pos) && pos <= |P.text| && End(w) <= |P.text| && depth <= MAX_DEPTH
    ensures Gives(P, P.Primary(pos, depth), w, depth + NeedPrimary(w), End(w))
    decreases w, 0
  {
    hide Gives, At, Blank, IsName, Mark, NeedPrimary, NeedExpr, P.Primary, P.Expr, P.Skip;
    EnclosedParses(P, w.inner, w.open + 1, w.close, depth);
    GroupStep(P, w, pos, depth);
  }

  lemma {:induction false} EnclosedParses<V>(P: Parser<V>, w: Node, pos: nat, close: nat, depth: nat)
    requires Reads(P.text, w, pos) && Mark(P.text, End(w), close, ')') && depth <= MAX_DEPTH
    ensures pos < End(w) <= |P.text|
    ensures Gives(P, P.Expr(pos, depth), w, depth + NeedExpr(w), P.Skip(End(w)))
    decreases w, 8
  {
    hide Reads, Gives, Ends, Mark, NeedExpr, P.Expr, P.Skip;
    ReadsInside(P.text, w, pos);
    MarkEnds(P, End(w), close, ')', 0);
    ExprParses(P, w, pos, depth);
  }

  lemma {:induction false} PowerParses<V>(P: Parser<V>, w: Node, pos: nat, depth: nat)
    requires Reads(P.text, w, pos) && Strength(w) >= 3 && depth <= MAX_DEPTH
    requires pos <= |P.text| && End(w) <= |P.text| && Ends(P, End(w), 2)
    ensures Gives(P, P.Power(pos, depth), w, depth + NeedPower(w), P.Skip(End(w)))
    decreases w, 2, 0
  {
    hide Reads, Gives, Ends, Mark, NeedPower, P.Power, P.Primary, P.Unary, P.Skip;
    if Strength(w) == 3 {
      BinaryReads(P.text, w, pos);
      MarkEnds(P, End(w.left), w.at, '^', 4);
      PrimaryParses(P, w.left, pos, depth);
      UnaryParses(P, w.right, w.at + 1, depth);
      PowerStep(P, w, pos, depth);
    } else {
      EndsMore(P, End(w), 2, 4);
      PrimaryParses(P, w, pos, depth);
      PowerStops(P, w, pos, depth);
    }
  }

  // What begins an atom is no sign.
  lemma {:induction false} Begins<V>(P: Parser<V>, w: Node, pos: nat)
    requires Reads(P.text, w, pos) && Strength(w) >= 3 && pos <= |P.text|
    ensures !P.Next(pos, '-') && !P.Next(pos, '+')
  {
    match w
    case Numeral(at, token) =>
      var mantissa, x :| IsNumeral(token, mantissa, x);
      assert P.text[at + 0] == token[0] == mantissa[0];
      SkipTo(P, pos, at);
    case Constant(at, isPi) =>
      assert P.text[at + 0] == ConstantName(isPi)[0];
      SkipTo(P, pos, at);
    case Application(at, name, _, _, _) =>
      assert P.text[at + 0] == name[0];
      SkipTo(P, pos, at);
    case Group(open, _, _) => SkipTo(P, pos, open);
    case Binary(left, _, _, _) => Begins(P, left, pos);
  }

  lemma {:induction false} UnaryParses<V>(P: Parser<V>, w: Node, pos: nat, depth: nat)
    requires Reads(P.text, w, pos) && Strength(w) >= 2 && depth <= MAX_DEPTH
    requires pos <= |P.text| && End(w) <= |P.text| && Ends(P, End(w), 2)
    ensures Gives(P, P.Unary(pos, depth), w, depth + NeedUnary(w), P.Skip(End(w)))
    decreases w, 3
  {
    hide Reads, Ends, Mark, Eval, P.Power, P.Skip;
    if depth == MAX_DEPTH {
    } else if w.Signed? {
      SignedParses(P, w, pos, depth);
    } else {
      UnsignedParses(P, w, pos, depth);
    }
  }

  lemma {:induction false} SignedParses<V>(P: Parser<V>, w: Node, pos: nat, depth: nat)
    requires w.Signed? && Reads(P.text, w, pos) && depth < MAX_DEPTH
    requires pos <= |P.text| && End(w) <= |P.text| && Ends(P, End(w), 2)
    ensures Gives(P, P.Unary(pos, depth), w, depth + NeedUnary(w), P.Skip(End(w)))
    decreases w, 2, 1
  {
    hide Reads, Gives, Ends, Mark, NeedUnary, P.Unary, P.Skip;
    SignedReadsOperand(P.text, w, pos);
    UnaryParses(P, w.operand, w.at + 1, depth + 1);
    SignStep(P, w, pos, depth);
  }

  lemma {:induction false} UnsignedParses<V>(P: Parser<V>, w: Node, pos: nat, depth: nat)
    requires Reads(P.text, w, pos) && Strength(w) >= 3 && depth < MAX_DEPTH
    requires pos <= |P.text| && End(w) <= |P.text| && Ends(P, End(w), 2)
    ensures Gives(P, P.Unary(pos, depth), w, depth + NeedUnary(w), P.Skip(End(w)))
    decreases w, 2, 1
  {
    hide Reads, Gives, Ends, Mark, Blank, P.Unary, P.Power;
    Begins(P, w, pos);
    SkipIsBlank(P, pos);
    ReadsLater(P.text, w, pos, P.Skip(pos));
    PowerParses(P, w, P.Skip(pos), depth + 1);
    SignlessStep(P, w, pos, depth);
  }

  lemma {:induction false} TermParses<V>(P: Parser<V>, w: Node, pos: nat, depth: nat)
    requires Reads(P.text, w, pos) && Strength(w) >= 1 && depth <= MAX_DEPTH
    requires pos <= |P.text| && End(w) <= |P.text| && Ends(P, End(w), 2)
    ensures TermGoesOn(P, w, pos, depth, P.Skip(End(w)))
    decreases w, 4
  {
    hide Reads, Gives, TermGoesOn, Ends, Mark, P.Unary, P.Skip;
    if Strength(w) == 1 {
      BinaryReads(P.text, w, pos);
      MarkEnds(P, End(w.left), w.at, Symbol(w.op), 2);
      TermParses(P, w.left, pos, depth);
      UnaryParses(P, w.right, w.at + 1, depth);
      TermStep(P, w, pos, depth);
    } else {
      UnaryParses(P, w, pos, depth);
      TermStart(P, w, pos, depth);
    }
  }

  lemma {:induction false} TermGives<V>(P: Parser<V>, w: Node, pos: nat, depth: nat)
    requires Reads(P.text, w, pos) && Strength(w) >= 1 && depth <= MAX_DEPTH
    requires pos <= |P.text| && End(w) <= |P.text| && Ends(P, End(w), 1)
    ensures Gives(P, P.Term(pos, depth), w, depth + NeedTerm(w), P.Skip(End(w)))
    decreases w, 5
  {
    hide Reads, Gives, TermGoesOn, Ends, P.Term, P.Skip;
    EndsMore(P, End(w), 1, 2);
    TermParses(P, w, pos, depth);
    TermEnd(P, w, pos, depth);
  }

  lemma {:induction false} SumParses<V>(P: Parser<V>, w: Node, pos: nat, depth: nat)
    requires Reads(P.text, w, pos) && depth <= MAX_DEPTH
    requires pos <= |P.text| && End(w) <= |P.text| && Ends(P, End(w), 1)
    ensures SumGoesOn(P, w, pos, depth, P.Skip(End(w)))
    decreases w, 6
  {
    hide Reads, Gives, SumGoesOn, Ends, Mark, P.Term, P.Skip;
    if Strength(w) == 0 {
      BinaryReads(P.text, w, pos);
      MarkEnds(P, End(w.left), w.at, Symbol(w.op), 1);
      SumParses(P, w.left, pos, depth);
      TermGives(P, w.right, w.at + 1, depth);
      SumStep(P, w, pos, depth);
    } else {
      TermGives(P, w, pos, depth);
      SumStart(P, w, pos, depth);
    }
  }

  lemma {:induction false} ExprParses<V>(P: Parser<V>, w: Node, pos: nat, depth: nat)
    requires Reads(P.text, w, pos) && depth <= MAX_DEPTH
    requires pos <= |P.text| && End(w) <= |P.text| && Ends(P, End(w), 0)
    ensures Gives(P, P.Expr(pos, depth), w, depth + NeedExpr(w), P.Skip(End(w)))
    decreases w, 7
  {
    hide Reads, Ends, SumGoesOn, Eval, P.Sum, P.Skip;
    if depth + 1 <= MAX_DEPTH {
      EndsMore(P, End(w), 0, 1);
      SumParses(P, w, pos, depth + 1);
      SumEnd(P, w, pos, depth + 1);
      assert P.Expr(pos, depth) == P.Sum(pos, depth + 1);
    }
  }
}

/**
 What is parsed is written in the grammar: the other half, and the equivalence.
 */
module ExpressionSoundness {
  import opened ExpressionCompleteness
  import opened ExpressionGrammar
  import opened ExpressionParsing
  import opened ExpressionTrees
  import opened Wrappers

  // w stands at pos, is at least as strong as wanted, and has the value v.
  ghost predicate Explains<V>(P: Parser<V>, w: Node, pos: nat, strength: nat, v: V) {
    Reads(P.text, w, pos) && Strength(w) >= strength && End(w) <= |P.text| && Eval(P.alg, TreeOf(w)) == Some(v)
  }

  lemma {:induction false} ReadsEarlier(text: string, w: Node, pos: nat, p: nat)
    requires Reads(text, w, p) && Blank(text, pos, p)
    ensures Reads(text, w, pos)
  {
    match w
    case Binary(left, _, _, _) => ReadsEarlier(text, left, pos, p);
    case _ =>
  }

  lemma AtSlice(text: string, pos: nat, end: nat)
    requires pos <= end <= |text|
    ensures At(text, pos, text[pos..end])
  {
  }

  lemma AllSlice(text: string, pos: nat, k: Class)
    requires pos <= |text|
    ensures All(text[pos..Span(text, pos, k)], k)
  {
    SpanAll(text, pos, k);
  }

  lemma NumberIsNumber<V>(P: Parser<V>, pos: nat)
    requires pos < |P.text| && In(P.text[pos], DigitOrDot)
    ensures IsNumber(P.text[pos..P.NumberEnd(pos)])
  {
    var p, end := Span(P.text, pos, DigitOrDot), P.NumberEnd(pos);
    AllSlice(P.text, pos, DigitOrDot);
    if end == p {
      MantissaIsNumber(P.text[pos..p]);
    } else {
      var look := if P.text[p + 1] == '+' || P.text[p + 1] == '-' then p + 2 else p + 1;
      AllSlice(P.text, look, Digit);
      hide Span, In, All, IsNumber;
      ExponentIsNumber(P.text, pos, p, look, end);
    }
  }

  lemma MantissaIsNumber(token: string)
    requires token != "" && All(token, DigitOrDot)
    ensures IsNumber(token)
  {
    assert token == token + NoExponent.Text();
    assert IsNumeral(token, token, NoExponent);
  }

  lemma ExponentIsNumber(text: string, pos: nat, p: nat, look: nat, end: nat)
    requires pos < p && p + 1 <= look <= p + 2 && look < end <= |text|
    requires text[p] == 'e' || text[p] == 'E'
    requires look == p + 1 || text[p + 1] == '+' || text[p + 1] == '-'
    requires All(text[pos..p], DigitOrDot) && All(text[look..end], Digit)
    ensures IsNumber(text[pos..end])
  {
    hide All;
    var x := Exponent(text[p], text[p + 1..look], text[look..end]);
    ExponentText(text, p, look, end);
    TwoSlices(text, pos, p, end);
    hide IsNumeral;
    assert IsNumeral(text[pos..end], text[pos..p], x) by {
      NumeralOf(text[pos..end], text[pos..p], x, text[p..end]);
    }
  }

  lemma NumeralOf(token: string, mantissa: string, x: Exponent, rest: string)
    requires mantissa != "" && All(mantissa, DigitOrDot) && x.Ok() && rest == x.Text() && token == mantissa + rest
    ensures IsNumeral(token, mantissa, x)
  {
  }

  lemma TwoSlices(text: string, i: nat, j: nat, k: nat)
    requires i <= j <= k <= |text|
    ensures text[i..k] == text[i..j] + text[j..k]
  {
  }

  lemma ExponentText(text: string, p: nat, look: nat, end: nat)
    requires p + 1 <= look <= p + 2 && look < end <= |text|
    requires look == p + 1 || text[p + 1] == '+' || text[p + 1] == '-'
    ensures [text[p]] + text[p + 1..look] + text[look..end] == text[p..end]
    ensures text[p + 1..look] in ["", "+", "-"]
  {
    if look == p + 1 {
      assert text[p + 1..look] == "";
    } else {
      assert text[p + 1..look] == [text[p + 1]];
    }
  }

  lemma NumeralSound<V>(P: Parser<V>, pos: nat, p: nat) returns (w: Node)
    requires pos <= |P.text| && p == P.Skip(pos) && p < |P.text| && In(P.text[p], DigitOrDot) && P.Number(p).Ok?
    ensures Explains(P, w, pos, 4, P.Number(p).value) && End(w) == P.Number(p).pos && NeedPrimary(w) == 0
  {
    var end := P.NumberEnd(p);
    SkipIsBlank(P, pos);
    NumberIsNumber(P, p);
    AtSlice(P.text, p, end);
    w := Numeral(p, P.text[p..end]);
  }

  lemma ConstantSound<V>(P: Parser<V>, pos: nat, p: nat, end: nat, isPi: bool) returns (w: Node)
    requires pos <= |P.text| && p == P.Skip(pos) && p <= end <= |P.text| && P.text[p..end] == ConstantName(isPi)
    ensures Explains(P, w, pos, 4, if isPi then P.alg.pi else P.alg.e) && End(w) == end && NeedPrimary(w) == 0
  {
    SkipIsBlank(P, pos);
    AtSlice(P.text, p, end);
    w := Constant(p, isPi);
  }

  // A closing parenthesis after an operand.
  lemma ClosedSound<V>(P: Parser<V>, r: Outcome<V>, end: nat)
    requires end <= |P.text| && r.Ok? && r.pos == P.Skip(end) && P.Closed(r).Ok?
    ensures P.Closed(r).value == r.value && Mark(P.text, end, P.Closed(r).pos - 1, ')')
  {
    SkipIsBlank(P, end);
  }

  lemma NameSound<V>(P: Parser<V>, p: nat, end: nat)
    requires p < |P.text| && IsLetter(P.text[p]) && end == Span(P.text, p, Alnum)
    requires P.text[p..end] != "pi" && P.text[p..end] != "e"
    ensures p < end && IsName(P.text[p..end]) && At(P.text, p, P.text[p..end])
  {
    AllSlice(P.text, p, Alnum);
    AtSlice(P.text, p, end);
  }

  lemma CallValue<V>(P: Parser<V>, w: Node, x: V, end: nat)
    requires w.Application? && Eval(P.alg, TreeOf(w.arg)) == Some(x) && CallOutcome(P.alg, w.name, x, end).Ok?
    ensures Eval(P.alg, TreeOf(w)) == Some(CallOutcome(P.alg, w.name, x, end).value)
    ensures CallOutcome(P.alg, w.name, x, end).pos == end
  {
  }

  lemma {:induction false} IdentifierSound<V>(P: Parser<V>, pos: nat, p: nat, depth: nat) returns (w: Node)
    requires pos <= |P.text| && p == P.Skip(pos) && p < |P.text| && IsLetter(P.text[p]) && depth <= MAX_DEPTH
    requires P.Identifier(p, depth).Ok?
    ensures Explains(P, w, pos, 4, P.Identifier(p, depth).value) && End(w) == P.Identifier(p, depth).pos
    ensures depth + NeedPrimary(w) <= MAX_DEPTH
    decreases |P.text| - p, 1
  {
    hide Reads, Eval, At, IsName, P.Expr, P.Closed, Span;
    var end := Span(P.text, p, Alnum);
    var name := P.text[p..end];
    if name == "pi" || name == "e" {
      w := ConstantSound(P, pos, p, end, name == "pi");
    } else {
      NameSound(P, p, end);
      w := CallSound(P, pos, p, end, depth);
      var closed := P.Closed(P.Expr(P.Skip(end) + 1, depth));
      CallValue(P, w, closed.value, closed.pos);
    }
  }

  lemma {:induction false} CallSound<V>(P: Parser<V>, pos: nat, p: nat, end: nat, depth: nat) returns (w: Node)
    requires pos <= |P.text| && p == P.Skip(pos) && p < |P.text| && IsLetter(P.text[p]) && depth <= MAX_DEPTH
    requires p < end <= |P.text| && IsName(P.text[p..end]) && At(P.text, p, P.text[p..end])
    requires P.Next(end, '(') && P.Closed(P.Expr(P.Skip(end) + 1, depth)).Ok?
    ensures var closed := P.Closed(P.Expr(P.Skip(end) + 1, depth));
      && w.Application? && w.name == P.text[p..end] && Reads(P.text, w, pos) && End(w) == closed.pos <= |P.text|
      && Eval(P.alg, TreeOf(w.arg)) == Some(closed.value) && depth + NeedPrimary(w) <= MAX_DEPTH
    decreases |P.text| - p, 0
  {
    hide At, Blank, IsNumber, IsName, Reads, Eval, P.Expr, P.Closed, Span;
    var open := P.Skip(end);
    var r := P.Expr(open + 1, depth);
    var arg := ExprSound(P, open + 1, depth);
    ClosedSound(P, r, End(arg));
    w := Application(p, P.text[p..end], open, arg, P.Closed(r).pos - 1);
    ApplicationReads(P, w, pos, r);
  }

  lemma ApplicationReads<V>(P: Parser<V>, w: Node, pos: nat, r: Outcome<V>)
    requires w.Application? && pos <= |P.text| && w.at == P.Skip(pos) && IsName(w.name) && At(P.text, w.at, w.name)
    requires w.open == P.Skip(w.at + |w.name|) < |P.text| && P.text[w.open] == '('
    requires Reads(P.text, w.arg, w.open + 1) && End(w.arg) <= |P.text|
    requires r.Ok? && r.pos == P.Skip(End(w.arg)) && P.Closed(r).Ok? && End(w) == P.Closed(r).pos
    ensures Reads(P.text, w, pos)
  {
    hide At, Blank, IsNumber, IsName, Span;
    SkipIsBlank(P, pos);
    SkipIsBlank(P, w.at + |w.name|);
    ClosedSound(P, r, End(w.arg));
  }

  lemma {:induction false} GroupSound<V>(P: Parser<V>, pos: nat, p: nat, depth: nat) returns (w: Node)
    requires pos <= |P.text| && p == P.Skip(pos) && p < |P.text| && P.text[p] == '(' && depth <= MAX_DEPTH
    requires P.Closed(P.Expr(p + 1, depth)).Ok?
    ensures Explains(P, w, pos, 4, P.Closed(P.Expr(p + 1, depth)).value)
    ensures End(w) == P.Closed(P.Expr(p + 1, depth)).pos && depth + NeedPrimary(w) <= MAX_DEPTH
    decreases |P.text| - p, 0
  {
    hide At, Blank, IsNumber, IsName, P.Expr, Span;
    SkipIsBlank(P, pos);
    var inner := ExprSound(P, p + 1, depth);
    ClosedSound(P, P.Expr(p + 1, depth), End(inner));
    w := Group(p, inner, P.Closed(P.Expr(p + 1, depth)).pos - 1);
  }

  lemma {:induction false} PrimarySound<V>(P: Parser<V>, pos: nat, depth: nat) returns (w: Node)
    requires pos <= |P.text| && depth <= MAX_DEPTH && P.Primary(pos, depth).Ok?
    ensures Explains(P, w, pos, 4, P.Primary(pos, depth).value) && End(w) == P.Primary(pos, depth).pos
    ensures depth + NeedPrimary(w) <= MAX_DEPTH
    decreases |P.text| - pos, 2
  {
    var p := P.Skip(pos);
    if P.text[p] == '(' {
      w := GroupSound(P, pos, p, depth);
    } else if In(P.text[p], DigitOrDot) {
      w := NumeralSound(P, pos, p);
    } else {
      w := IdentifierSound(P, pos, p, depth);
    }
  }

  // A binary operator between two operands that have been explained.
  lemma BinarySound<V>(P: Parser<V>, left: Node, pos: nat, at: nat, op: Op, right: Node, level: nat, a: V, b: V)
    requires Explains(P, left, pos, LeftLevel(op), a) && Explains(P, right, at + 1, RightLevel(op), b)
    requires Mark(P.text, End(left), at, Symbol(op)) && Strength(Binary(left, at, op, right)) >= level
    requires !DividesByZero(P.alg, op, b)
    ensures Explains(P, Binary(left, at, op, right), pos, level, P.alg.apply(op, a, b))
  {
    BinaryIsRead(P.text, left, pos, at, op, right);
    BinaryValue(P.alg, left, op, right, at, a, b);
    hide Reads, Eval, TreeOf, Mark;
  }

  lemma BinaryIsRead(text: string, left: Node, pos: nat, at: nat, op: Op, right: Node)
    requires Reads(text, left, pos) && Strength(left) >= LeftLevel(op)
    requires Reads(text, right, at + 1) && Strength(right) >= RightLevel(op)
    requires Mark(text, End(left), at, Symbol(op))
    ensures Reads(text, Binary(left, at, op, right), pos)
  {
    hide At, Blank, IsNumber, IsName, Mark, Strength;
  }

  lemma BinaryValue<V>(alg: Algebra<V>, left: Node, op: Op, right: Node, at: nat, a: V, b: V)
    requires Eval(alg, TreeOf(left)) == Some(a) && Eval(alg, TreeOf(right)) == Some(b)
    requires !DividesByZero(alg, op, b)
    ensures Eval(alg, TreeOf(Binary(left, at, op, right))) == Some(alg.apply(op, a, b))
  {
    hide DividesByZero;
  }

  lemma {:induction false} PowerSound<V>(P: Parser<V>, pos: nat, depth: nat) returns (w: Node)
    requires pos <= |P.text| && depth <= MAX_DEPTH && P.Power(pos, depth).Ok?
    ensures Explains(P, w, pos, 3, P.Power(pos, depth).value) && P.Power(pos, depth).pos == P.Skip(End(w))
    ensures depth + NeedPower(w) <= MAX_DEPTH
    decreases |P.text| - pos, 3
  {
    hide Reads, Eval, TreeOf, Blank, P.Primary, P.Unary;
    var base := PrimarySound(P, pos, depth);
    var r := P.Primary(pos, depth);
    if P.Next(r.pos, '^') {
      var at := P.Skip(r.pos);
      SkipIsBlank(P, r.pos);
      var exponent := UnarySound(P, at + 1, depth);
      BinarySound(P, base, pos, at, Pow, exponent, 3, r.value, P.Unary(at + 1, depth).value);
      w := Binary(base, at, Pow, exponent);
    } else {
      w := base;
    }
  }

  lemma SignedReads<V>(P: Parser<V>, pos: nat, minus: bool, operand: Node, v: V)
    requires pos <= |P.text| && P.Next(pos, if minus then '-' else '+')
    requires Explains(P, operand, P.Skip(pos) + 1, 2, v)
    ensures Explains(P, Signed(P.Skip(pos), minus, operand), pos, 2, if minus then P.alg.neg(v) else v)
  {
    hide At, IsNumber, IsName, Span;
    SkipIsBlank(P, pos);
  }

  lemma {:induction false} UnarySound<V>(P: Parser<V>, pos: nat, depth: nat) returns (w: Node)
    requires pos <= |P.text| && depth <= MAX_DEPTH && P.Unary(pos, depth).Ok?
    ensures Explains(P, w, pos, 2, P.Unary(pos, depth).value) && P.Unary(pos, depth).pos == P.Skip(End(w))
    ensures depth + NeedUnary(w) <= MAX_DEPTH
    decreases |P.text| - pos, 4
  {
    hide Reads, Eval, TreeOf, Blank, P.Power;
    var p, minus := P.Skip(pos), P.Next(pos, '-');
    if minus || P.Next(pos, '+') {
      var operand := UnarySound(P, p + 1, depth + 1);
      SignedReads(P, pos, minus, operand, P.Unary(p + 1, depth + 1).value);
      w := Signed(p, minus, operand);
    } else {
      SkipIsBlank(P, pos);
      w := PowerSound(P, p, depth + 1);
      ReadsEarlier(P.text, w, pos, p);
    }
  }

  lemma {:induction false} TermSound<V>(P: Parser<V>, pos: nat, depth: nat) returns (w: Node)
    requires pos <= |P.text| && depth <= MAX_DEPTH && P.Term(pos, depth).Ok?
    ensures Explains(P, w, pos, 1, P.Term(pos, depth).value) && P.Term(pos, depth).pos == P.Skip(End(w))
    ensures depth + NeedTerm(w) <= MAX_DEPTH
    decreases |P.text| - pos, 5
  {
    var left := UnarySound(P, pos, depth);
    w := TermLoopSound(P, left, P.Unary(pos, depth).value, pos, P.Unary(pos, depth).pos, depth, P.Term(pos, depth));
  }

  lemma TermLoopStep<V>(P: Parser<V>, lhs: V, pos: nat, depth: nat, op: Op)
    requires pos <= |P.text| && pos == P.Skip(pos) && depth <= MAX_DEPTH
    requires P.MulOp(pos) == Some(op) && P.TermLoop(lhs, pos, depth).Ok?
    ensures pos < |P.text| && P.text[pos] == Symbol(op) && (op.Mul? || op.Div? || op.Rem?)
    ensures var rhs := P.Unary(pos + 1, depth);
      && rhs.Ok? && !DividesByZero(P.alg, op, rhs.value)
      && P.TermLoop(lhs, pos, depth) == P.TermLoop(P.alg.apply(op, lhs, rhs.value), rhs.pos, depth)
  {
  }

  // What has been read of a product, or of a sum, when its loop has come to pos.

  ghost predicate TermRead<V>(P: Parser<V>, w: Node, v: V, start: nat, pos: nat, depth: nat) {
    Explains(P, w, start, 1, v) && depth + NeedTerm(w) <= MAX_DEPTH && pos == P.Skip(End(w))
  }

  ghost predicate SumRead<V>(P: Parser<V>, w: Node, v: V, start: nat, pos: nat, depth: nat) {
    Explains(P, w, start, 0, v) && depth + NeedSum(w) <= MAX_DEPTH && pos == P.Skip(End(w))
  }

  lemma TermGrows<V>(P: Parser<V>, left: Node, lhs: V, start: nat, pos: nat, op: Op, right: Node,
                     rhs: Outcome<V>, depth: nat)
    requires TermRead(P, left, lhs, start, pos, depth) && (op.Mul? || op.Div? || op.Rem?)
    requires pos < |P.text| && P.text[pos] == Symbol(op)
    requires rhs.Ok? && Explains(P, right, pos + 1, 2, rhs.value) && rhs.pos == P.Skip(End(right))
    requires depth + NeedUnary(right) <= MAX_DEPTH && !DividesByZero(P.alg, op, rhs.value)
    ensures TermRead(P, Binary(left, pos, op, right), P.alg.apply(op, lhs, rhs.value), start, rhs.pos, depth)
  {
    hide Reads, Eval, TreeOf, Blank, P.Skip;
    SkipIsBlank(P, End(left));
    BinarySound(P, left, start, pos, op, right, 1, lhs, rhs.value);
  }

  lemma SumGrows<V>(P: Parser<V>, left: Node, lhs: V, start: nat, pos: nat, op: Op, right: Node,
                    rhs: Outcome<V>, depth: nat)
    requires SumRead(P, left, lhs, start, pos, depth) && (op.Add? || op.Sub?)
    requires pos < |P.text| && P.text[pos] == Symbol(op)
    requires rhs.Ok? && Explains(P, right, pos + 1, 1, rhs.value) && rhs.pos == P.Skip(End(right))
    requires depth + NeedTerm(right) <= MAX_DEPTH
    ensures SumRead(P, Binary(left, pos, op, right), P.alg.apply(op, lhs, rhs.value), start, rhs.pos, depth)
  {
    hide Reads, Eval, TreeOf, Blank, P.Skip;
    SkipIsBlank(P, End(left));
    BinarySound(P, left, start, pos, op, right, 0, lhs, rhs.value);
  }

  // One round of the loop over factors.
  lemma {:induction false} TermLoopMore<V>(P: Parser<V>, left: Node, lhs: V, start: nat, pos: nat, depth: nat,
                                              r: Outcome<V>) returns (w: Node, v: V, p: nat)
    requires pos <= |P.text| && depth <= MAX_DEPTH && TermRead(P, left, lhs, start, pos, depth)
    requires r == P.TermLoop(lhs, pos, depth) && r.Ok? && P.MulOp(pos).Some?
    ensures pos < p <= |P.text| && TermRead(P, w, v, start, p, depth) && r == P.TermLoop(v, p, depth)
    decreases |P.text| - pos, 4
  {
    hide Reads, Eval, TreeOf, Blank, P.Unary, P.TermLoop, P.MulOp, P.Skip, NeedTerm, NeedUnary, DividesByZero;
    SkipIsBlank(P, End(left));
    var op := P.MulOp(pos).value;
    TermLoopStep(P, lhs, pos, depth, op);
    var rhs := P.Unary(pos + 1, depth);
    var right := UnarySound(P, pos + 1, depth);
    TermGrows(P, left, lhs, start, pos, op, right, rhs, depth);
    w, v, p := Binary(left, pos, op, right), P.alg.apply(op, lhs, rhs.value), rhs.pos;
  }

  lemma {:induction false} TermLoopSound<V>(P: Parser<V>, left: Node, lhs: V, start: nat, pos: nat, depth: nat,
                                               r: Outcome<V>) returns (w: Node)
    requires pos <= |P.text| && depth <= MAX_DEPTH && TermRead(P, left, lhs, start, pos, depth)
    requires r == P.TermLoop(lhs, pos, depth) && r.Ok?
    ensures TermRead(P, w, r.value, start, r.pos, depth)
    decreases |P.text| - pos, 5
  {
    if P.MulOp(pos).None? {
      SkipIsBlank(P, End(left));
      w := left;
    } else {
      var next, v, p := TermLoopMore(P, left, lhs, start, pos, depth, r);
      w := TermLoopSound(P, next, v, start, p, depth, r);
    }
  }

  lemma {:induction false} SumSound<V>(P: Parser<V>, pos: nat, depth: nat) returns (w: Node)
    requires pos <= |P.text| && depth <= MAX_DEPTH && P.Sum(pos, depth).Ok?
    ensures Explains(P, w, pos, 0, P.Sum(pos, depth).value) && P.Sum(pos, depth).pos == P.Skip(End(w))
    ensures depth + NeedSum(w) <= MAX_DEPTH
    decreases |P.text| - pos, 6
  {
    var left := TermSound(P, pos, depth);
    w := ExprLoopSound(P, left, P.Term(pos, depth).value, pos, P.Term(pos, depth).pos, depth, P.Sum(pos, depth));
  }

  lemma ExprLoopStep<V>(P: Parser<V>, lhs: V, pos: nat, depth: nat, op: Op)
    requires pos <= |P.text| && pos == P.Skip(pos) && depth <= MAX_DEPTH
    requires P.AddOp(pos) == Some(op) && P.ExprLoop(lhs, pos, depth).Ok?
    ensures pos < |P.text| && P.text[pos] == Symbol(op) && (op.Add? || op.Sub?)
    ensures var rhs := P.Term(pos + 1, depth);
      rhs.Ok? && P.ExprLoop(lhs, pos, depth) == P.ExprLoop(P.alg.apply(op, lhs, rhs.value), rhs.pos, depth)
  {
  }

  // One round of the loop over terms.
  lemma {:induction false} ExprLoopMore<V>(P: Parser<V>, left: Node, lhs: V, start: nat, pos: nat, depth: nat,
                                              r: Outcome<V>) returns (w: Node, v: V, p: nat)
    requires pos <= |P.text| && depth <= MAX_DEPTH && SumRead(P, left, lhs, start, pos, depth)
    requires r == P.ExprLoop(lhs, pos, depth) && r.Ok? && P.AddOp(pos).Some?
    ensures pos < p <= |P.text| && SumRead(P, w, v, start, p, depth) && r == P.ExprLoop(v, p, depth)
    decreases |P.text| - pos, 5
  {
    hide Reads, Eval, TreeOf, Blank, P.Term, P.ExprLoop, P.AddOp, P.Skip, NeedSum, NeedTerm;
    SkipIsBlank(P, End(left));
    var op := P.AddOp(pos).value;
    ExprLoopStep(P, lhs, pos, depth, op);
    var rhs := P.Term(pos + 1, depth);
    var right := TermSound(P, pos + 1, depth);
    SumGrows(P, left, lhs, start, pos, op, right, rhs, depth);
    w, v, p := Binary(left, pos, op, right), P.alg.apply(op, lhs, rhs.value), rhs.pos;
  }

  lemma {:induction false} ExprLoopSound<V>(P: Parser<V>, left: Node, lhs: V, start: nat, pos: nat, depth: nat,
                                               r: Outcome<V>) returns (w: Node)
    requires pos <= |P.text| && depth <= MAX_DEPTH && SumRead(P, left, lhs, start, pos, depth)
    requires r == P.ExprLoop(lhs, pos, depth) && r.Ok?
    ensures SumRead(P, w, r.value, start, r.pos, depth)
    decreases |P.text| - pos, 6
  {
    if P.AddOp(pos).None? {
      SkipIsBlank(P, End(left));
      w := left;
    } else {
      var next, v, p := ExprLoopMore(P, left, lhs, start, pos, depth, r);
      w := ExprLoopSound(P, next, v, start, p, depth, r);
    }
  }

  lemma {:induction false} ExprSound<V>(P: Parser<V>, pos: nat, depth: nat) returns (w: Node)
    requires pos <= |P.text| && depth <= MAX_DEPTH && P.Expr(pos, depth).Ok?
    ensures Explains(P, w, pos, 0, P.Expr(pos, depth).value) && P.Expr(pos, depth).pos == P.Skip(End(w))
    ensures depth + NeedExpr(w) <= MAX_DEPTH
    decreases |P.text| - pos, 7
  {
    w := SumSound(P, pos, depth + 1);
  }

  // The whole parser

  // The text is an expression that nests at most 200 deep and has the finite value v.
  ghost predicate Denotes<V>(text: string, alg: Algebra<V>, w: Node, v: V) {
    IsWritten(text, w) && NeedExpr(w) <= MAX_DEPTH && Eval(alg, TreeOf(w)) == Some(v) && alg.isFinite(v)
  }

  lemma WrittenParses<V>(text: string, alg: Algebra<V>, w: Node)
    requires IsWritten(text, w)
    ensures var v, r := Eval(alg, TreeOf(w)), Parser(text, alg).Whole();
      if NeedExpr(w) <= MAX_DEPTH && v.Some? && alg.isFinite(v.value) then r == Ok(v.value, |text|) else r.Fail?
  {
    var P := Parser(text, alg);
    ReadsInside(text, w, 0);
    SkipTo(P, End(w), |text|);
    ExprParses(P, w, 0, 0);
  }

  /** The parser accepts exactly the expressions of the grammar that are at most 4096 characters long,
      nest at most 200 deep and have a finite value; and then it returns that value. */
  lemma ParserIsGrammar<V>(text: string, alg: Algebra<V>, v: V)
    ensures Parser(text, alg).Evaluate() == Ok(v, |text|)
       <==> |text| <= MAX_LENGTH && exists w :: Denotes(text, alg, w, v)
  {
    var P := Parser(text, alg);
    if P.Evaluate() == Ok(v, |text|) {
      var w := ExprSound(P, 0, 0);
      SkipIsBlank(P, End(w));
      SkipIsBlank(P, P.Expr(0, 0).pos);
      assert Denotes(text, alg, w, v);
    }
    if |text| <= MAX_LENGTH && exists w :: Denotes(text, alg, w, v) {
      var w :| Denotes(text, alg, w, v);
      WrittenParses(text, alg, w);
    }
  }
}
