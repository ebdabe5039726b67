/**
 The rules of evaluate_expression written out with literal characters, names and limits: the spelling of
 numbers, operators and functions, what may stand between tokens, precedence and associativity, and how
 deep an expression may nest.
 */
module ExpressionRules {
  import opened ExpressionGrammar
  import opened ExpressionParsing
  import opened ExpressionRoundTrip
  import opened ExpressionSoundness
  import opened ExpressionTrees
  import opened Wrappers

  // What may stand in a text

  // Place i belongs to a token of w.
  predicate InToken(w: Node, i: nat) {
    match w
    case Numeral(at, token) => at <= i < at + |token|
    case Constant(at, isPi) => at <= i < at + if isPi then 2 else 1
    case Application(at, name, open, arg, close) =>
      at <= i < at + |name| || i == open || InToken(arg, i) || i == close
    case Group(open, inner, close) => i == open || InToken(inner, i) || i == close
    case Signed(at, _, operand) => i == at || InToken(operand, i)
    case Binary(left, at, _, right) => InToken(left, i) || i == at || InToken(right, i)
  }

  predicate IsTokenChar(c: char) {
    'a' <= c <= 'z' || 'A' <= c <= 'Z' || '0' <= c <= '9' || c in ".+-*/%^()"
  }

  ghost predicate Stands(text: string, w: Node, i: nat)
    requires i < |text|
  {
    if InToken(w, i) then IsTokenChar(text[i]) else text[i] == ' ' || text[i] == '\t'
  }

  lemma BlankChar(text: string, from: nat, to: nat, i: nat)
    requires Blank(text, from, to) && from <= i < to
    ensures text[i] == ' ' || text[i] == '\t'
  {
    assert In(text[i], Space);
  }

  lemma TokenChar(text: string, at: nat, token: string, i: nat)
    requires At(text, at, token) && at <= i < at + |token|
    requires IsNumber(token) || IsName(token) || token == "pi" || token == "e"
    ensures IsTokenChar(text[i])
  {
    assert text[at + (i - at)] == token[i - at];
    if IsNumber(token) {
      var mantissa, x :| IsNumeral(token, mantissa, x);
      NumeralChar(token, mantissa, x, i - at);
    } else if IsName(token) {
      assert In(token[i - at], Alnum);
    }
  }

  lemma NumeralChar(token: string, mantissa: string, x: Exponent, i: nat)
    requires IsNumeral(token, mantissa, x) && i < |token|
    ensures IsTokenChar(token[i])
  {
    if i < |mantissa| {
      assert In(mantissa[i], DigitOrDot);
    } else if i > |mantissa| + |x.sign| {
      assert In(x.digits[i - |mantissa| - 1 - |x.sign|], Digit);
    }
  }

  lemma MarkChar(text: string, pos: nat, at: nat, c: char, i: nat)
    requires Mark(text, pos, at, c) && pos <= i <= at && c in "+-*/%^()"
    ensures if i == at then IsTokenChar(text[i]) else text[i] == ' ' || text[i] == '\t'
  {
    if i < at {
      BlankChar(text, pos, at, i);
    }
  }

  lemma {:induction false} InTokenIsInside(text: string, w: Node, pos: nat, i: nat)
    requires Reads(text, w, pos) && InToken(w, i)
    ensures pos <= i < End(w)
  {
    hide At, Blank, IsNumber, IsName, Mark;
    ReadsInside(text, w, pos);
    match w
    case Application(at, name, open, arg, close) =>
      TokenInside(text, name, pos, at);
      MarkInside(text, at + |name|, open, '(');
      MarkInside(text, End(arg), close, ')');
      ReadsInside(text, arg, open + 1);
      if InToken(arg, i) {
        InTokenIsInside(text, arg, open + 1, i);
      }
    case Group(open, inner, close) =>
      MarkInside(text, pos, open, '(');
      MarkInside(text, End(inner), close, ')');
      ReadsInside(text, inner, open + 1);
      if InToken(inner, i) {
        InTokenIsInside(text, inner, open + 1, i);
      }
    case Signed(at, _, operand) =>
      SignedReadsOperand(text, w, pos);
      MarkInside(text, pos, at, if w.minus then '-' else '+');
      if InToken(operand, i) {
        InTokenIsInside(text, operand, at + 1, i);
      }
    case Binary(left, at, _, right) =>
      BinaryReads(text, w, pos);
      if InToken(left, i) {
        InTokenIsInside(text, left, pos, i);
      } else if InToken(right, i) {
        InTokenIsInside(text, right, at + 1, i);
      }
    case Numeral(at, token) => TokenInside(text, token, pos, at);
    case Constant(at, isPi) => TokenInside(text, ConstantName(isPi), pos, at);
  }

  lemma {:induction false} AllStands(text: string, w: Node, pos: nat, i: nat)
    requires Reads(text, w, pos) && pos <= i < End(w) <= |text|
    ensures Stands(text, w, i)
    decreases w, 1
  {
    hide At, Blank, IsNumber, IsName, IsTokenChar, Mark;
    match w
    case Numeral(at, token) => TokenStands(text, w, pos, at, token, i);
    case Constant(at, isPi) => TokenStands(text, w, pos, at, ConstantName(isPi), i);
    case Application(at, name, open, arg, close) => ApplicationStands(text, w, pos, i);
    case Group(open, inner, close) => GroupStands(text, w, pos, i);
    case Signed(at, minus, operand) => SignedStands(text, w, pos, i);
    case Binary(left, at, op, right) => BinaryStands(text, w, pos, i);
  }

  lemma TokenStands(text: string, w: Node, pos: nat, at: nat, token: string, i: nat)
    requires Blank(text, pos, at) && At(text, at, token) && pos <= i < at + |token|
    requires IsNumber(token) || IsName(token) || token == "pi" || token == "e"
    requires InToken(w, i) <==> at <= i < at + |token|
    ensures i < |text| && Stands(text, w, i)
  {
    hide IsNumber, IsName, InToken, IsTokenChar;
    if i < at {
      BlankChar(text, pos, at, i);
    } else {
      TokenChar(text, at, token, i);
    }
  }

  lemma {:induction false} ApplicationStands(text: string, w: Node, pos: nat, i: nat)
    requires w.Application? && Reads(text, w, pos) && pos <= i < End(w) <= |text|
    ensures Stands(text, w, i)
    decreases w, 0
  {
    hide At, Blank, IsNumber, IsName, IsTokenChar, Mark, Reads;
    var end := w.at + |w.name|;
    ApplicationPlaces(text, w, pos);
    if InToken(w.arg, i) {
      InTokenIsInside(text, w.arg, w.open + 1, i);
    }
    if i < end {
      TokenStands(text, w, pos, w.at, w.name, i);
    } else if i <= w.open {
      MarkChar(text, end, w.open, '(', i);
    } else if i < End(w.arg) {
      AllStands(text, w.arg, w.open + 1, i);
    } else {
      MarkChar(text, End(w.arg), w.close, ')', i);
    }
  }

  lemma ApplicationPlaces(text: string, w: Node, pos: nat)
    requires w.Application? && Reads(text, w, pos)
    ensures Blank(text, pos, w.at) && IsName(w.name) && At(text, w.at, w.name) && Reads(text, w.arg, w.open + 1)
    ensures Mark(text, w.at + |w.name|, w.open, '(') && Mark(text, End(w.arg), w.close, ')')
    ensures pos <= w.at <= w.at + |w.name| <= w.open < End(w.arg) <= w.close < End(w) == w.close + 1 <= |text|
  {
    hide At, Blank, IsNumber, IsName, Mark;
    TokenInside(text, w.name, pos, w.at);
    MarkInside(text, w.at + |w.name|, w.open, '(');
    ReadsInside(text, w.arg, w.open + 1);
    MarkInside(text, End(w.arg), w.close, ')');
  }

  lemma {:induction false} GroupStands(text: string, w: Node, pos: nat, i: nat)
    requires w.Group? && Reads(text, w, pos) && pos <= i < End(w) <= |text|
    ensures Stands(text, w, i)
    decreases w, 0
  {
    hide At, Blank, IsNumber, IsName, IsTokenChar, Mark;
    MarkInside(text, pos, w.open, '(');
    ReadsInside(text, w.inner, w.open + 1);
    MarkInside(text, End(w.inner), w.close, ')');
    if InToken(w.inner, i) {
      InTokenIsInside(text, w.inner, w.open + 1, i);
    }
    if i <= w.open {
      MarkChar(text, pos, w.open, '(', i);
    } else if i < End(w.inner) {
      AllStands(text, w.inner, w.open + 1, i);
    } else {
      MarkChar(text, End(w.inner), w.close, ')', i);
    }
  }

  lemma {:induction false} SignedStands(text: string, w: Node, pos: nat, i: nat)
    requires w.Signed? && Reads(text, w, pos) && pos <= i < End(w) <= |text|
    ensures Stands(text, w, i)
    decreases w, 0
  {
    hide At, Blank, IsNumber, IsName, IsTokenChar, Mark, Reads;
    SignedReadsOperand(text, w, pos);
    if InToken(w.operand, i) {
      InTokenIsInside(text, w.operand, w.at + 1, i);
    }
    if i <= w.at {
      MarkChar(text, pos, w.at, if w.minus then '-' else '+', i);
    } else {
      AllStands(text, w.operand, w.at + 1, i);
    }
  }

  lemma {:induction false} BinaryStands(text: string, w: Node, pos: nat, i: nat)
    requires w.Binary? && Reads(text, w, pos) && pos <= i < End(w) <= |text|
    ensures Stands(text, w, i)
    decreases w, 0
  {
    hide At, Blank, IsNumber, IsName, IsTokenChar, Mark, Reads;
    BinaryReads(text, w, pos);
    if InToken(w.left, i) {
      InTokenIsInside(text, w.left, pos, i);
    }
    if InToken(w.right, i) {
      InTokenIsInside(text, w.right, w.at + 1, i);
    }
    if i < End(w.left) {
      AllStands(text, w.left, pos, i);
    } else if i <= w.at {
      MarkChar(text, End(w.left), w.at, Symbol(w.op), i);
    } else {
      AllStands(text, w.right, w.at + 1, i);
    }
  }

  /** Between the tokens of an expression, before the first and after the last, there are spaces and tabs
      and nothing else; tokens have only letters, digits and operator characters in them. */
  lemma GapsAreBlank(text: string, w: Node, i: nat)
    requires IsWritten(text, w) && i < |text|
    ensures if InToken(w, i) then IsTokenChar(text[i]) else text[i] == ' ' || text[i] == '\t'
  {
    hide At, Blank, Reads, IsTokenChar, InToken;
    ReadsInside(text, w, 0);
    if i < End(w) {
      AllStands(text, w, 0, i);
    } else {
      if InToken(w, i) {
        InTokenIsInside(text, w, 0, i);
      }
      BlankChar(text, End(w), |text|, i);
    }
  }

  /** A text that has any other character in it, such as a newline, is refused. */
  lemma AcceptedCharacters<V>(text: string, alg: Algebra<V>, i: nat)
    requires Parser(text, alg).Evaluate().Ok? && i < |text|
    ensures IsTokenChar(text[i]) || text[i] == ' ' || text[i] == '\t'
  {
    var r := Parser(text, alg).Evaluate();
    ParserIsGrammar(text, alg, r.value);
    var w :| Denotes(text, alg, w, r.value);
    GapsAreBlank(text, w, i);
  }

  // How numbers are spelled

  predicate AllDigits(s: string) {
    forall i :: 0 <= i < |s| ==> '0' <= s[i] <= '9'
  }

  predicate IsMantissa(s: string) {
    s != "" && forall i :: 0 <= i < |s| ==> '0' <= s[i] <= '9' || s[i] == '.'
  }

  predicate IsScale(s: string) {
    s == "" ||
    (|s| >= 2 && (s[0] == 'e' || s[0] == 'E') &&
     (AllDigits(s[1..]) || (|s| >= 3 && (s[1] == '+' || s[1] == '-') && AllDigits(s[2..]))))
  }

  ghost predicate IsToken(s: string) {
    exists n :: 0 <= n <= |s| && IsMantissa(s[..n]) && IsScale(s[n..])
  }

  lemma DigitsAreDigits(s: string)
    ensures AllDigits(s) <==> All(s, Digit)
  {
    if AllDigits(s) {
      assert forall i :: 0 <= i < |s| ==> In(s[i], Digit);
    }
    if All(s, Digit) {
      assert forall i :: 0 <= i < |s| ==> In(s[i], Digit);
    }
  }

  lemma MantissaIs(s: string)
    ensures IsMantissa(s) <==> s != [] && All(s, DigitOrDot)
  {
    if All(s, DigitOrDot) {
      assert forall i :: 0 <= i < |s| ==> In(s[i], DigitOrDot);
    }
  }

  lemma ScaleIsExponent(s: string) returns (x: Exponent)
    requires IsScale(s)
    ensures x.Ok() && x.Text() == s
  {
    if s == "" {
      return NoExponent;
    }
    var sign := if AllDigits(s[1..]) then "" else [s[1]];
    var digits := s[1 + |sign|..];
    DigitsAreDigits(digits);
    x := Exponent.Exponent(s[0], sign, digits);
    assert s == [s[0]] + sign + digits;
  }

  lemma ExponentIsScale(x: Exponent)
    requires x.Ok()
    ensures IsScale(x.Text())
  {
    if x.Exponent? {
      DigitsAreDigits(x.digits);
      var s := x.Text();
      assert s[1 + |x.sign|..] == x.digits;
    }
  }

  /** A number is digits and dots, and perhaps e or E, a sign and digits. */
  lemma NumbersAreTokens(s: string)
    ensures IsNumber(s) <==> IsToken(s)
  {
    hide IsMantissa, IsScale, AllDigits, All, Exponent.Ok, Exponent.Text;
    if IsToken(s) {
      var n :| 0 <= n <= |s| && IsMantissa(s[..n]) && IsScale(s[n..]);
      MantissaIs(s[..n]);
      var x := ScaleIsExponent(s[n..]);
      assert s == s[..n] + x.Text();
      assert IsNumeral(s, s[..n], x);
    }
    if IsNumber(s) {
      var mantissa, x :| IsNumeral(s, mantissa, x);
      MantissaIs(mantissa);
      ExponentIsScale(x);
      assert s[..|mantissa|] == mantissa && s[|mantissa|..] == x.Text();
    }
  }

  // The result of a text whose value should be v: refused when it is too long, fails or is not finite.
  ghost predicate Gives<V>(text: string, alg: Algebra<V>, v: Option<V>) {
    var r := Parser(text, alg).Evaluate();
    if |text| <= 4096 && v.Some? && alg.isFinite(v.value) then r == Ok(v.value, |text|) else r.Fail?
  }

  lemma {:induction false} NeedsAreSmall(t: Tree, level: nat, gap: Gaps, k: nat, pos: nat)
    ensures var w := NodeOf(t, level, gap, k, pos);
      NeedSum(w) < 2 * Tokens(t, level) && NeedTerm(w) < 2 * Tokens(t, level) &&
      NeedUnary(w) < 2 * Tokens(t, level) && NeedPower(w) < 2 * Tokens(t, level) &&
      NeedPrimary(w) < 2 * Tokens(t, level)
    decreases t, 1
  {
    hide NeedSum, NeedTerm, NeedUnary, NeedPower, NeedPrimary, Bare, BareSpaced, BareTokens;
    BareNeedsAreSmall(t, gap, if Level(t) < level then k + 1 else k,
                      if Level(t) < level then pos + |gap(k)| + 1 else pos);
    NeedsUnfold(NodeOf(t, level, gap, k, pos));
  }

  lemma {:induction false} BareNeedsAreSmall(t: Tree, gap: Gaps, k: nat, pos: nat)
    ensures var w := Bare(t, gap, k, pos);
      NeedSum(w) < 2 * BareTokens(t) && NeedTerm(w) < 2 * BareTokens(t) && NeedUnary(w) < 2 * BareTokens(t) &&
      NeedPower(w) < 2 * BareTokens(t) && NeedPrimary(w) < 2 * BareTokens(t)
    decreases t, 0
  {
    hide NeedSum, NeedTerm, NeedUnary, NeedPower, NeedPrimary, NodeOf, Spaced, Tokens;
    var w := Bare(t, gap, k, pos);
    NeedsUnfold(w);
    match t
    case Call(name, arg) => NeedsAreSmall(arg, 0, gap, k + 2, w.open + 1);
    case Neg(x) => NeedsAreSmall(x, 2, gap, k + 1, w.at + 1);
    case Plus(x) => NeedsAreSmall(x, 2, gap, k + 1, w.at + 1);
    case Bin(op, l, r) =>
      NeedsAreSmall(l, LeftLevel(op), gap, k, pos);
      NeedsAreSmall(r, RightLevel(op), gap, k + Tokens(l, LeftLevel(op)) + 1, w.at + 1);
    case _ =>
  }

  lemma TreeGives<V>(alg: Algebra<V>, t: Tree, gap: Gaps, v: Option<V>)
    requires WellFormed(t) && AreGaps(gap) && Tokens(t, 0) <= 100 && Eval(alg, t) == v
    ensures Gives(Written(t, gap), alg, v)
  {
    hide Written, Tokens, Eval, WellFormed, AreGaps, NodeOf;
    NeedsAreSmall(t, 0, NoGap(), 0, 0);
    SpacedRoundTrip(alg, t, gap);
  }

  // What one operator means

  predicate IsOperator(c: char) {
    c in "+-*/%^"
  }

  function OperationOf(c: char): Op {
    if c == '+' then Add
    else if c == '-' then Sub
    else if c == '*' then Mul
    else if c == '/' then Div
    else if c == '%' then Rem
    else Pow
  }

  function Applied<V>(alg: Algebra<V>, a: Option<V>, c: char, b: Option<V>): Option<V> {
    if a.None? || b.None? || ((c == '/' || c == '%') && alg.isZero(b.value)) then None
    else Some(alg.apply(OperationOf(c), a.value, b.value))
  }

  function Binding(c: char): nat {
    if c == '+' || c == '-' then 0 else if c == '^' then 2 else 1
  }

  // Level, LeftLevel and RightLevel of an operator.

  function Own(c: char): nat {
    if c == '+' || c == '-' then 0 else if c == '^' then 3 else 1
  }

  function LeftOf(c: char): nat {
    if c == '^' then 4 else Own(c)
  }

  function RightOf(c: char): nat {
    if c == '+' || c == '-' then 1 else 2
  }

  // t stands for text with n tokens and means v, where an operand of that level is wanted from token k on.
  ghost predicate Writes<V>(alg: Algebra<V>, t: Tree, level: nat, gap: Gaps, k: nat, text: string, n: nat,
                            v: Option<V>) {
    WellFormed(t) && Spaced(t, level, gap, k) == text && Tokens(t, level) == n && Eval(alg, t) == v
  }

  lemma AtomIs(t: Tree, level: nat, gap: Gaps, k: nat)
    requires (t.Num? || t.Pi? || t.E?) && level <= 4
    ensures Spaced(t, level, gap, k) == gap(k) + (match t case Num(token) => token case Pi => "pi" case _ => "e")
    ensures Tokens(t, level) == 1
  {
  }

  lemma LeafWrites<V>(alg: Algebra<V>, a: string, level: nat, gap: Gaps, k: nat)
    requires IsToken(a) && level <= 4
    ensures Writes(alg, Num(a), level, gap, k, gap(k) + a, 1, alg.number(a))
  {
    hide IsNumber, IsToken, Spaced, Tokens;
    NumbersAreTokens(a);
    AtomIs(Num(a), level, gap, k);
  }

  lemma ConstantWrites<V>(alg: Algebra<V>, gap: Gaps)
    ensures Writes(alg, Pi, 0, gap, 0, gap(0) + "pi", 1, Some(alg.pi))
    ensures Writes(alg, E, 0, gap, 0, gap(0) + "e", 1, Some(alg.e))
  {
    hide Spaced, Tokens;
    AtomIs(Pi, 0, gap, 0);
    AtomIs(E, 0, gap, 0);
  }

  lemma OperatorsAre(c: char)
    requires IsOperator(c)
    ensures Symbol(OperationOf(c)) == c && LeftLevel(OperationOf(c)) == LeftOf(c)
    ensures RightLevel(OperationOf(c)) == RightOf(c)
  {
  }

  lemma LevelIs(c: char, l: Tree, r: Tree)
    requires IsOperator(c)
    ensures Level(Bin(OperationOf(c), l, r)) == Own(c)
  {
  }

  lemma BareIs(t: Tree, level: nat, gap: Gaps, k: nat)
    requires level <= Level(t)
    ensures Spaced(t, level, gap, k) == BareSpaced(t, gap, k) && Tokens(t, level) == BareTokens(t)
  {
    hide Level, BareSpaced, BareTokens;
  }

  lemma PairTokens(t: Tree)
    requires t.Bin?
    ensures BareTokens(t) == Tokens(t.left, LeftLevel(t.op)) + 1 + Tokens(t.right, RightLevel(t.op))
  {
    hide Tokens, LeftLevel, RightLevel;
  }

  lemma PairEval<V>(alg: Algebra<V>, c: char, l: Tree, r: Tree)
    requires IsOperator(c)
    ensures Eval(alg, Bin(OperationOf(c), l, r)) == Applied(alg, Eval(alg, l), c, Eval(alg, r))
  {
  }

  lemma PairFormed(op: Op, l: Tree, r: Tree)
    requires WellFormed(l) && WellFormed(r)
    ensures WellFormed(Bin(op, l, r))
  {
  }

  lemma PairWrites<V>(alg: Algebra<V>, c: char, l: Tree, r: Tree, level: nat, gap: Gaps, k: nat,
                      a: string, m: nat, x: Option<V>, b: string, n: nat, y: Option<V>)
    requires IsOperator(c) && level <= Own(c)
    requires Writes(alg, l, LeftOf(c), gap, k, a, m, x) && Writes(alg, r, RightOf(c), gap, k + m + 1, b, n, y)
    ensures Writes(alg, Bin(OperationOf(c), l, r), level, gap, k, a + gap(k + m) + [c] + b, m + 1 + n,
                   Applied(alg, x, c, y))
  {
    hide Spaced, Tokens, BareSpaced, BareTokens, Eval, WellFormed, Level, LeftLevel, RightLevel, Symbol, Own, LeftOf,
         RightOf, OperationOf, Applied, IsOperator;
    var t := Bin(OperationOf(c), l, r);
    OperatorsAre(c);
    LevelIs(c, l, r);
    BareIs(t, level, gap, k);
    PairTokens(t);
    BinaryParts(t, gap, k, 0);
    PairEval(alg, c, l, r);
    PairFormed(t.op, l, r);
  }

  lemma NegWrites<V>(alg: Algebra<V>, x: Tree, level: nat, gap: Gaps, k: nat, a: string, n: nat, v: Option<V>)
    requires level <= 2 && Writes(alg, x, 2, gap, k + 1, a, n, v)
    ensures Writes(alg, Neg(x), level, gap, k, gap(k) + "-" + a, 1 + n, Negated(alg, v))
  {
  }

  lemma WritesGives<V>(alg: Algebra<V>, t: Tree, gap: Gaps, text: string, n: nat, v: Option<V>)
    requires Writes(alg, t, 0, gap, 0, text, n, v) && n <= 100 && AreGaps(gap)
    ensures Gives(text + gap(n), alg, v)
  {
    hide Spaced, Tokens, Eval, WellFormed, AreGaps, Gives;
    TreeGives(alg, t, gap, v);
  }

  /** The six operators between two numbers, with any blanks around the tokens. */
  lemma OneOperation<V>(alg: Algebra<V>, a: string, c: char, b: string, gap: Gaps)
    requires IsToken(a) && IsToken(b) && IsOperator(c) && AreGaps(gap)
    ensures Gives(gap(0) + a + gap(1) + [c] + gap(2) + b + gap(3), alg, Applied(alg, alg.number(a), c, alg.number(b)))
  {
    hide IsToken, Gives, AreGaps, Writes, Applied, OperationOf, IsOperator;
    LeafWrites(alg, a, LeftOf(c), gap, 0);
    LeafWrites(alg, b, RightOf(c), gap, 2);
    var x, y := alg.number(a), alg.number(b);
    PairWrites(alg, c, Num(a), Num(b), 0, gap, 0, gap(0) + a, 1, x, gap(2) + b, 1, y);
    WritesGives(alg, Bin(OperationOf(c), Num(a), Num(b)), gap, gap(0) + a + gap(1) + [c] + (gap(2) + b), 3,
                Applied(alg, x, c, y));
    assert gap(0) + a + gap(1) + [c] + (gap(2) + b) == gap(0) + a + gap(1) + [c] + gap(2) + b;
  }

  // How operators group

  // The value of a c b d n.
  function Grouped<V>(alg: Algebra<V>, a: Option<V>, c: char, b: Option<V>, d: char, n: Option<V>): Option<V> {
    if Binding(d) > Binding(c) || (c == '^' && d == '^') then Applied(alg, a, c, Applied(alg, b, d, n))
    else Applied(alg, Applied(alg, a, c, b), d, n)
  }

  /** Of two operators the one that binds tighter goes first; of two that bind alike the left one, except
      that powers group to the right. */
  lemma TwoOperations<V>(alg: Algebra<V>, a: string, c: char, b: string, d: char, n: string, gap: Gaps)
    requires IsToken(a) && IsToken(b) && IsToken(n) && IsOperator(c) && IsOperator(d) && AreGaps(gap)
    ensures Gives(gap(0) + a + gap(1) + [c] + gap(2) + b + gap(3) + [d] + gap(4) + n + gap(5), alg,
                  Grouped(alg, alg.number(a), c, alg.number(b), d, alg.number(n)))
  {
    hide IsToken, Gives, AreGaps, Applied, OperationOf, IsOperator;
    if Binding(d) > Binding(c) || (c == '^' && d == '^') {
      RightFirst(alg, a, c, b, d, n, gap);
    } else {
      LeftFirst(alg, a, c, b, d, n, gap);
    }
  }

  lemma RightFirst<V>(alg: Algebra<V>, a: string, c: char, b: string, d: char, n: string, gap: Gaps)
    requires IsToken(a) && IsToken(b) && IsToken(n) && IsOperator(c) && IsOperator(d) && AreGaps(gap)
    requires Binding(d) > Binding(c) || (c == '^' && d == '^')
    ensures Gives(gap(0) + a + gap(1) + [c] + gap(2) + b + gap(3) + [d] + gap(4) + n + gap(5), alg,
                  Applied(alg, alg.number(a), c, Applied(alg, alg.number(b), d, alg.number(n))))
  {
    hide IsToken, Gives, AreGaps, Writes, Applied, OperationOf, IsOperator;
    var x, y, z := alg.number(a), alg.number(b), alg.number(n);
    LeafWrites(alg, a, LeftOf(c), gap, 0);
    LeafWrites(alg, b, LeftOf(d), gap, 2);
    LeafWrites(alg, n, RightOf(d), gap, 4);
    PairWrites(alg, d, Num(b), Num(n), RightOf(c), gap, 2, gap(2) + b, 1, y, gap(4) + n, 1, z);
    var right, inner := Bin(OperationOf(d), Num(b), Num(n)), gap(2) + b + gap(3) + [d] + (gap(4) + n);
    PairWrites(alg, c, Num(a), right, 0, gap, 0, gap(0) + a, 1, x, inner, 3, Applied(alg, y, d, z));
    WritesGives(alg, Bin(OperationOf(c), Num(a), right), gap, gap(0) + a + gap(1) + [c] + inner, 5,
                Applied(alg, x, c, Applied(alg, y, d, z)));
    assert gap(0) + a + gap(1) + [c] + inner == gap(0) + a + gap(1) + [c] + gap(2) + b + gap(3) + [d] + gap(4) + n;
  }

  lemma LeftFirst<V>(alg: Algebra<V>, a: string, c: char, b: string, d: char, n: string, gap: Gaps)
    requires IsToken(a) && IsToken(b) && IsToken(n) && IsOperator(c) && IsOperator(d) && AreGaps(gap)
    requires Binding(d) <= Binding(c) && !(c == '^' && d == '^')
    ensures Gives(gap(0) + a + gap(1) + [c] + gap(2) + b + gap(3) + [d] + gap(4) + n + gap(5), alg,
                  Applied(alg, Applied(alg, alg.number(a), c, alg.number(b)), d, alg.number(n)))
  {
    hide IsToken, Gives, AreGaps, Writes, Applied, OperationOf, IsOperator;
    var x, y, z := alg.number(a), alg.number(b), alg.number(n);
    LeafWrites(alg, a, LeftOf(c), gap, 0);
    LeafWrites(alg, b, RightOf(c), gap, 2);
    LeafWrites(alg, n, RightOf(d), gap, 4);
    PairWrites(alg, c, Num(a), Num(b), LeftOf(d), gap, 0, gap(0) + a, 1, x, gap(2) + b, 1, y);
    var left, inner := Bin(OperationOf(c), Num(a), Num(b)), gap(0) + a + gap(1) + [c] + (gap(2) + b);
    PairWrites(alg, d, left, Num(n), 0, gap, 0, inner, 3, Applied(alg, x, c, y), gap(4) + n, 1, z);
    WritesGives(alg, Bin(OperationOf(d), left, Num(n)), gap, inner + gap(3) + [d] + (gap(4) + n), 5,
                Applied(alg, Applied(alg, x, c, y), d, z));
    assert inner + gap(3) + [d] + (gap(4) + n) ==
           gap(0) + a + gap(1) + [c] + gap(2) + b + gap(3) + [d] + gap(4) + n;
  }

  // The value of -a c b.
  function SignedFirst<V>(alg: Algebra<V>, a: Option<V>, c: char, b: Option<V>): Option<V> {
    if c == '^' then Negated(alg, Applied(alg, a, c, b)) else Applied(alg, Negated(alg, a), c, b)
  }

  function Negated<V>(alg: Algebra<V>, a: Option<V>): Option<V> {
    if a.None? then None else Some(alg.neg(a.value))
  }

  /** A minus sign takes a power whole and goes before every other operator. */
  lemma SignBeforeOperation<V>(alg: Algebra<V>, a: string, c: char, b: string, gap: Gaps)
    requires IsToken(a) && IsToken(b) && IsOperator(c) && AreGaps(gap)
    ensures Gives(gap(0) + "-" + gap(1) + a + gap(2) + [c] + gap(3) + b + gap(4), alg,
                  SignedFirst(alg, alg.number(a), c, alg.number(b)))
  {
    hide IsToken, Gives, AreGaps, Writes, Applied, OperationOf, IsOperator, Negated;
    var x, y := alg.number(a), alg.number(b);
    LeafWrites(alg, b, RightOf(c), gap, 3);
    var text := gap(0) + "-" + gap(1) + a + gap(2) + [c] + gap(3) + b;
    if c == '^' {
      LeafWrites(alg, a, LeftOf(c), gap, 1);
      PairWrites(alg, c, Num(a), Num(b), 2, gap, 1, gap(1) + a, 1, x, gap(3) + b, 1, y);
      var power, inner := Bin(OperationOf(c), Num(a), Num(b)), gap(1) + a + gap(2) + [c] + (gap(3) + b);
      NegWrites(alg, power, 0, gap, 0, inner, 3, Applied(alg, x, c, y));
      WritesGives(alg, Neg(power), gap, gap(0) + "-" + inner, 4, SignedFirst(alg, x, c, y));
      assert gap(0) + "-" + inner == text;
    } else {
      LeafWrites(alg, a, 2, gap, 1);
      NegWrites(alg, Num(a), LeftOf(c), gap, 0, gap(1) + a, 1, x);
      var inner := gap(0) + "-" + (gap(1) + a);
      PairWrites(alg, c, Neg(Num(a)), Num(b), 0, gap, 0, inner, 2, Negated(alg, x), gap(3) + b, 1, y);
      WritesGives(alg, Bin(OperationOf(c), Neg(Num(a)), Num(b)), gap, inner + gap(2) + [c] + (gap(3) + b), 4,
                  SignedFirst(alg, x, c, y));
      assert inner + gap(2) + [c] + (gap(3) + b) == text;
    }
  }

  // Names

  predicate IsWord(s: string) {
    && s != "" && ('a' <= s[0] <= 'z' || 'A' <= s[0] <= 'Z')
    && forall i :: 0 <= i < |s| ==> 'a' <= s[i] <= 'z' || 'A' <= s[i] <= 'Z' || '0' <= s[i] <= '9'
  }

  lemma WordsAreNames(s: string)
    requires IsWord(s) && s != "pi" && s != "e"
    ensures IsName(s)
  {
    forall i | 0 <= i < |s|
      ensures In(s[i], Alnum)
    {
      assert 'a' <= s[i] <= 'z' || 'A' <= s[i] <= 'Z' || '0' <= s[i] <= '9';
    }
  }

  function Called<V>(alg: Algebra<V>, name: string, x: Option<V>): Option<V> {
    if x.None? then None
    else if name == "sqrt" then if alg.isNegative(x.value) then None else Some(alg.call("sqrt", x.value))
    else if name == "log" || name == "log10" then
      if alg.isNonPositive(x.value) then None else Some(alg.call(name, x.value))
    else if name in ["abs", "sin", "cos", "tan", "exp", "floor", "ceil"] then Some(alg.call(name, x.value))
    else None
  }

  lemma CallTokens(t: Tree)
    requires t.Call?
    ensures BareTokens(t) == 3 + Tokens(t.arg, 0)
  {
    hide Tokens;
  }

  lemma CallEval<V>(alg: Algebra<V>, name: string, arg: Tree)
    ensures Eval(alg, Call(name, arg)) == Called(alg, name, Eval(alg, arg))
  {
  }

  lemma CallFormed(name: string, arg: Tree)
    requires IsName(name) && WellFormed(arg)
    ensures WellFormed(Call(name, arg))
  {
    hide IsName;
  }

  lemma CallWrites<V>(alg: Algebra<V>, name: string, arg: Tree, gap: Gaps, a: string, n: nat, x: Option<V>)
    requires IsName(name) && Writes(alg, arg, 0, gap, 2, a, n, x)
    ensures Writes(alg, Call(name, arg), 0, gap, 0, gap(0) + name + gap(1) + "(" + a + gap(2 + n) + ")", 3 + n,
                   Called(alg, name, x))
  {
    hide IsName, Spaced, Tokens, BareSpaced, BareTokens, Eval, WellFormed, Called;
    var t := Call(name, arg);
    BareIs(t, 0, gap, 0);
    CallParts(t, gap, 0, 0);
    CallTokens(t);
    CallEval(alg, name, arg);
    CallFormed(name, arg);
  }

  /** The ten functions, each with the arguments it takes; every other name is refused. */
  lemma OneCall<V>(alg: Algebra<V>, name: string, a: string, gap: Gaps)
    requires IsWord(name) && name != "pi" && name != "e" && IsToken(a) && AreGaps(gap)
    ensures Gives(gap(0) + name + gap(1) + "(" + gap(2) + a + gap(3) + ")" + gap(4), alg,
                  Called(alg, name, alg.number(a)))
  {
    hide IsToken, IsWord, IsName, Gives, AreGaps, Writes, Called;
    WordsAreNames(name);
    LeafWrites(alg, a, 0, gap, 2);
    CallWrites(alg, name, Num(a), gap, gap(2) + a, 1, alg.number(a));
    WritesGives(alg, Call(name, Num(a)), gap, gap(0) + name + gap(1) + "(" + (gap(2) + a) + gap(3) + ")", 4,
                Called(alg, name, alg.number(a)));
    assert gap(0) + name + gap(1) + "(" + (gap(2) + a) + gap(3) + ")" ==
           gap(0) + name + gap(1) + "(" + gap(2) + a + gap(3) + ")";
  }

  /** A number alone, and the two constants. */
  lemma OneAtom<V>(alg: Algebra<V>, a: string, gap: Gaps)
    requires AreGaps(gap)
    ensures IsToken(a) ==> Gives(gap(0) + a + gap(1), alg, alg.number(a))
    ensures Gives(gap(0) + "pi" + gap(1), alg, Some(alg.pi)) && Gives(gap(0) + "e" + gap(1), alg, Some(alg.e))
  {
    hide IsToken, Gives, AreGaps, Writes;
    ConstantWrites(alg, gap);
    WritesGives(alg, Pi, gap, gap(0) + "pi", 1, Some(alg.pi));
    WritesGives(alg, E, gap, gap(0) + "e", 1, Some(alg.e));
    if IsToken(a) {
      LeafWrites(alg, a, 0, gap, 0);
      WritesGives(alg, Num(a), gap, gap(0) + a, 1, alg.number(a));
    }
  }

  // How deep an expression may nest

  function Times(n: nat, c: char): string {
    seq(n, _ => c)
  }

  // The node of `inside` in n parentheses, from place i of them on.
  function Nested(n: nat, inside: string, i: nat): Node
    requires i <= n
    decreases n - i
  {
    if i == n then Numeral(n, inside)
    else Group(i, Nested(n, inside, i + 1), n + |inside| + (n - 1 - i))
  }

  lemma {:induction false} NestedReads(n: nat, inside: string, i: nat)
    requires i <= n && IsNumber(inside)
    ensures var text, w := Times(n, '(') + inside + Times(n, ')'), Nested(n, inside, i);
      Reads(text, w, i) && End(w) == n + |inside| + (n - i) && TreeOf(w) == Num(inside)
    decreases n - i
  {
    hide IsNumber;
    var text := Times(n, '(') + inside + Times(n, ')');
    if i < n {
      NestedReads(n, inside, i + 1);
      assert text[i] == '(' && text[n + |inside| + (n - 1 - i)] == ')';
    } else {
      assert At(text, n, inside);
    }
  }

  lemma {:induction false} NestedNeeds(n: nat, inside: string, i: nat)
    requires i <= n
    ensures NeedSum(Nested(n, inside, i)) == 2 * (n - i) + 1
    decreases n - i
  {
    hide NeedSum, NeedTerm, NeedUnary, NeedPower, NeedPrimary;
    NeedsUnfold(Nested(n, inside, i));
    if i < n {
      NestedNeeds(n, inside, i + 1);
    }
  }

  /** A number may stand in 99 pairs of parentheses, and no more. */
  lemma NestedParentheses<V>(alg: Algebra<V>, n: nat, a: string)
    requires IsToken(a)
    ensures Gives(Times(n, '(') + a + Times(n, ')'), alg, if n <= 99 then alg.number(a) else None)
  {
    hide IsToken, IsNumber, Reads, Nested, Denotes;
    var text, w := Times(n, '(') + a + Times(n, ')'), Nested(n, a, 0);
    NumbersAreTokens(a);
    NestedReads(n, a, 0);
    NestedNeeds(n, a, 0);
    WrittenParses(text, alg, w);
  }

  function SignNode(signs: string, a: string, i: nat): Node
    requires i <= |signs|
    decreases |signs| - i
  {
    if i == |signs| then Numeral(i, a) else Signed(i, signs[i] == '-', SignNode(signs, a, i + 1))
  }

  // Every minus sign negates.
  function Negations<V>(alg: Algebra<V>, signs: string, x: Option<V>): Option<V> {
    if signs == "" then x
    else if signs[0] == '-' then Negated(alg, Negations(alg, signs[1..], x))
    else Negations(alg, signs[1..], x)
  }

  lemma {:induction false} SignsRead<V>(alg: Algebra<V>, signs: string, a: string, i: nat)
    requires i <= |signs| && IsNumber(a) && forall j :: 0 <= j < |signs| ==> signs[j] == '+' || signs[j] == '-'
    ensures var w := SignNode(signs, a, i);
      Reads(signs + a, w, i) && End(w) == |signs + a| && Strength(w) >= 2 &&
      Eval(alg, TreeOf(w)) == Negations(alg, signs[i..], alg.number(a))
    decreases |signs| - i
  {
    hide IsNumber;
    if i < |signs| {
      SignsRead(alg, signs, a, i + 1);
      assert (signs + a)[i] == signs[i] && signs[i..][1..] == signs[i + 1..];
    }
  }

  lemma {:induction false} SignsNeed(signs: string, a: string, i: nat)
    requires i <= |signs|
    ensures var w := SignNode(signs, a, i);
      NeedUnary(w) == |signs| - i + 1 && NeedSum(w) == NeedUnary(w)
    decreases |signs| - i
  {
    hide NeedSum, NeedTerm, NeedUnary, NeedPower, NeedPrimary;
    NeedsUnfold(SignNode(signs, a, i));
    if i < |signs| {
      SignsNeed(signs, a, i + 1);
    }
  }

  /** A number may have 198 signs, and no more. */
  lemma SignsInARow<V>(alg: Algebra<V>, signs: string, a: string)
    requires IsToken(a) && forall j :: 0 <= j < |signs| ==> signs[j] == '+' || signs[j] == '-'
    ensures Gives(signs + a, alg, if |signs| <= 198 then Negations(alg, signs, alg.number(a)) else None)
  {
    hide IsToken, IsNumber, Reads, SignNode, Eval, Negations;
    NumbersAreTokens(a);
    SignsRead(alg, signs, a, 0);
    SignsNeed(signs, a, 0);
    assert signs[0..] == signs;
    WrittenParses(signs + a, alg, SignNode(signs, a, 0));
  }

  lemma DigitsAreToken(s: string)
    requires s != "" && AllDigits(s)
    ensures IsToken(s)
  {
    assert s[..|s|] == s && s[|s|..] == "";
  }

  lemma ParenIs(t: Tree, level: nat, gap: Gaps, k: nat)
    requires Level(t) < level
    ensures Spaced(t, level, gap, k) ==
            gap(k) + "(" + BareSpaced(t, gap, k + 1) + gap(k + 1 + BareTokens(t)) + ")"
    ensures Tokens(t, level) == BareTokens(t) + 2
  {
    hide BareSpaced, BareTokens, Level;
  }

  lemma ParenWrites<V>(alg: Algebra<V>, t: Tree, level: nat, gap: Gaps, k: nat, a: string, n: nat, v: Option<V>)
    requires Level(t) < level && Writes(alg, t, 0, gap, k + 1, a, n, v)
    ensures Writes(alg, t, level, gap, k, gap(k) + "(" + a + gap(k + 1 + n) + ")", n + 2, v)
  {
    hide Spaced, Tokens, BareSpaced, BareTokens, Level, WellFormed, Eval;
    BareIs(t, 0, gap, k + 1);
    ParenIs(t, level, gap, k);
  }

  /** Parentheses go first: (a^b - c) / d. */
  lemma Parenthesised<V>(alg: Algebra<V>, a: string, b: string, c: string, d: string, gap: Gaps)
    requires IsToken(a) && IsToken(b) && IsToken(c) && IsToken(d) && AreGaps(gap)
    ensures var inner := gap(1) + a + gap(2) + ['^'] + (gap(3) + b) + gap(4) + ['-'] + (gap(5) + c);
            Gives(gap(0) + "(" + inner + gap(6) + ")" + gap(7) + ['/'] + (gap(8) + d) + gap(9), alg,
                  Applied(alg, Applied(alg, Applied(alg, alg.number(a), '^', alg.number(b)), '-', alg.number(c)), '/',
                          alg.number(d)))
  {
    hide Writes, Gives, Applied, IsToken, AreGaps;
    var x, y, z, w := alg.number(a), alg.number(b), alg.number(c), alg.number(d);
    LeafWrites(alg, a, 4, gap, 1);
    LeafWrites(alg, b, 2, gap, 3);
    var power, v := Bin(Pow, Num(a), Num(b)), Applied(alg, x, '^', y);
    var first := gap(1) + a + gap(2) + ['^'] + (gap(3) + b);
    PairWrites(alg, '^', Num(a), Num(b), 0, gap, 1, gap(1) + a, 1, x, gap(3) + b, 1, y);
    LeafWrites(alg, c, 1, gap, 5);
    var difference, second := Bin(Sub, power, Num(c)), first + gap(4) + ['-'] + (gap(5) + c);
    PairWrites(alg, '-', power, Num(c), 0, gap, 1, first, 3, v, gap(5) + c, 1, z);
    var third, u := gap(0) + "(" + second + gap(6) + ")", Applied(alg, v, '-', z);
    ParenWrites(alg, difference, 1, gap, 0, second, 5, u);
    LeafWrites(alg, d, 2, gap, 8);
    PairWrites(alg, '/', difference, Num(d), 0, gap, 0, third, 7, u, gap(8) + d, 1, w);
    WritesGives(alg, Bin(Div, difference, Num(d)), gap, third + gap(7) + ['/'] + (gap(8) + d), 9,
                Applied(alg, u, '/', w));
  }

  lemma ExampleText()
    ensures var inner := "" + "2" + "" + ['^'] + ("" + "10") + " " + ['-'] + (" " + "24");
      "" + "(" + inner + "" + ")" + " " + ['/'] + (" " + "3") + "" == "(2^10 - 24) / 3"
  {
    assert "" + "2" + "" + ['^'] + ("" + "10") + " " + ['-'] + (" " + "24") == "2^10 - 24";
  }

  /** The example of the tool's own description. */
  lemma DocumentedExample<V>(alg: Algebra<V>)
    ensures Gives("(2^10 - 24) / 3", alg,
                  Applied(alg, Applied(alg, Applied(alg, alg.number("2"), '^', alg.number("10")), '-',
                                       alg.number("24")), '/', alg.number("3")))
  {
    hide Gives, Applied, IsToken;
    DigitsAreToken("2");
    DigitsAreToken("10");
    DigitsAreToken("24");
    DigitsAreToken("3");
    var gap: Gaps := k => if k == 4 || k == 5 || k == 7 || k == 8 then " " else "";
    Parenthesised(alg, "2", "10", "24", "3", gap);
    ExampleText();
  }
}
