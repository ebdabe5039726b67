/**
 ExpressionParser of src/tools.cpp. `Parser` says what each parsing method computes from the
 position and the depth; the class does it with its fields.
 */
module ExpressionParsing {
  import opened ExpressionTrees
  import opened Numerals
  import opened Wrappers

  const MAX_DEPTH := 200
  const MAX_LENGTH := 4096

  datatype Reason =
    | TooLong
    | NestedTooDeeply
    | UnexpectedEnd
    | UnexpectedCharacter(c: char)
    | ExpectedClose
    | MalformedNumber(token: string)
    | UnknownIdentifier(name: string)
    | UnknownFunction(name: string)
    | DivisionByZero
    | SqrtOfNegative
    | LogOfNonPositive
    | NotFinite

  // A value and the position after it, or why and where parsing stopped.
  datatype Outcome<V> = Ok(value: V, pos: nat) | Fail(reason: Reason, pos: nat)

  // The end of the longest run of k-characters from pos.
  function Span(text: string, pos: nat, k: Class): (end: nat)
    requires pos <= |text|
    ensures pos <= end <= |text|
    ensures end < |text| ==> !In(text[end], k)
    decreases |text| - pos
  {
    if pos < |text| && In(text[pos], k) then Span(text, pos + 1, k) else pos
  }

  // What a call of a function by name does with its argument.
  function CallOutcome<V>(alg: Algebra<V>, name: string, x: V, pos: nat): Outcome<V> {
    if name == "sqrt" && alg.isNegative(x) then Fail(SqrtOfNegative, pos)
    else if (name == "log" || name == "log10") && alg.isNonPositive(x) then Fail(LogOfNonPositive, pos)
    else if IsFunction(name) then Ok(alg.call(name, x), pos)
    else Fail(UnknownFunction(name), pos)
  }

  lemma CallStays<V>(alg: Algebra<V>, name: string, x: V, pos: nat)
    ensures CallOutcome(alg, name, x, pos).pos == pos
  {
  }

  datatype Parser<!V> = Parser(text: string, alg: Algebra<V>) {

    function Skip(pos: nat): (p: nat)
      requires pos <= |text|
      ensures pos <= p <= |text|
    {
      Span(text, pos, Space)
    }

    // The next character after spaces is c.
    predicate Next(pos: nat, c: char)
      requires pos <= |text|
    {
      Skip(pos) < |text| && text[Skip(pos)] == c
    }

    // The operator of a sum or of a product that comes next.

    function AddOp(pos: nat): Option<Op>
      requires pos <= |text|
    {
      if Next(pos, '+') then Some(Add) else if Next(pos, '-') then Some(Sub) else None
    }

    function MulOp(pos: nat): Option<Op>
      requires pos <= |text|
    {
      if Next(pos, '*') then Some(Mul)
      else if Next(pos, '/') then Some(Div)
      else if Next(pos, '%') then Some(Rem)
      else None
    }

    function Expr(pos: nat, depth: nat): (r: Outcome<V>)
      requires pos <= |text| && depth <= MAX_DEPTH
      ensures r.Ok? ==> pos < r.pos <= |text|
      decreases |text| - pos, 6
    {
      if depth + 1 > MAX_DEPTH then Fail(NestedTooDeeply, pos) else Sum(pos, depth + 1)
    }

    function Sum(pos: nat, depth: nat): (r: Outcome<V>)
      requires pos <= |text| && depth <= MAX_DEPTH
      ensures r.Ok? ==> pos < r.pos <= |text|
      decreases |text| - pos, 5
    {
      match Term(pos, depth)
      case Ok(v, p) => ExprLoop(v, p, depth)
      case fail => fail
    }

    function ExprLoop(lhs: V, pos: nat, depth: nat): (r: Outcome<V>)
      requires pos <= |text| && depth <= MAX_DEPTH
      ensures r.Ok? ==> pos <= r.pos <= |text|
      decreases |text| - pos, 5
    {
      match AddOp(pos)
      case None => Ok(lhs, Skip(pos))
      case Some(op) =>
        match Term(Skip(pos) + 1, depth)
        case Ok(rhs, p) => ExprLoop(alg.apply(op, lhs, rhs), p, depth)
        case fail => fail
    }

    function Term(pos: nat, depth: nat): (r: Outcome<V>)
      requires pos <= |text| && depth <= MAX_DEPTH
      ensures r.Ok? ==> pos < r.pos <= |text|
      decreases |text| - pos, 4
    {
      match Unary(pos, depth)
      case Ok(v, p) => TermLoop(v, p, depth)
      case fail => fail
    }

    function TermLoop(lhs: V, pos: nat, depth: nat): (r: Outcome<V>)
      requires pos <= |text| && depth <= MAX_DEPTH
      ensures r.Ok? ==> pos <= r.pos <= |text|
      decreases |text| - pos, 4
    {
      match MulOp(pos)
      case None => Ok(lhs, Skip(pos))
      case Some(op) =>
        match Unary(Skip(pos) + 1, depth)
        case Ok(rhs, p) =>
          if DividesByZero(alg, op, rhs) then Fail(DivisionByZero, p)
          else TermLoop(alg.apply(op, lhs, rhs), p, depth)
        case fail => fail
    }

    function Unary(pos: nat, depth: nat): (r: Outcome<V>)
      requires pos <= |text| && depth <= MAX_DEPTH
      ensures r.Ok? ==> pos < r.pos <= |text|
      decreases |text| - pos, 3
    {
      if depth + 1 > MAX_DEPTH then Fail(NestedTooDeeply, pos) else Signed(pos, depth + 1)
    }

    function Signed(pos: nat, depth: nat): (r: Outcome<V>)
      requires pos <= |text| && depth <= MAX_DEPTH
      ensures r.Ok? ==> pos < r.pos <= |text|
      decreases |text| - pos, 3, 0
    {
      if Next(pos, '-') then
        match Unary(Skip(pos) + 1, depth)
        case Ok(v, p) => Ok(alg.neg(v), p)
        case fail => fail
      else if Next(pos, '+') then Unary(Skip(pos) + 1, depth)
      else Power(Skip(pos), depth)
    }

    function Power(pos: nat, depth: nat): (r: Outcome<V>)
      requires pos <= |text| && depth <= MAX_DEPTH
      ensures r.Ok? ==> pos < r.pos <= |text|
      decreases |text| - pos, 2
    {
      match Primary(pos, depth)
      case Ok(base, p) =>
        if Next(p, '^') then
          match Unary(Skip(p) + 1, depth)
          case Ok(exponent, q) => Ok(alg.apply(Pow, base, exponent), q)
          case fail => fail
        else Ok(base, Skip(p))
      case fail => fail
    }

    function Primary(pos: nat, depth: nat): (r: Outcome<V>)
      requires pos <= |text| && depth <= MAX_DEPTH
      ensures r.Ok? ==> pos < r.pos <= |text|
      decreases |text| - pos, 1
    {
      var p := Skip(pos);
      if p >= |text| then Fail(UnexpectedEnd, p)
      else if text[p] == '(' then Closed(Expr(p + 1, depth))
      else if In(text[p], DigitOrDot) then Number(p)
      else if IsLetter(text[p]) then Identifier(p, depth)
      else Fail(UnexpectedCharacter(text[p]), p)
    }

    // After an operand that a closing parenthesis must follow.
    function Closed(r: Outcome<V>): (r': Outcome<V>)
      requires r.Ok? ==> r.pos <= |text|
      ensures r'.Ok? ==> r.Ok? && r.pos < r'.pos <= |text|
    {
      match r
      case Ok(v, p) => if Next(p, ')') then Ok(v, Skip(p) + 1) else Fail(ExpectedClose, Skip(p))
      case fail => fail
    }

    function NumberEnd(pos: nat): (end: nat)
      requires pos < |text| && In(text[pos], DigitOrDot)
      ensures pos < end <= |text|
    {
      var p := Span(text, pos, DigitOrDot);
      if p < |text| && (text[p] == 'e' || text[p] == 'E') then
        var look := if p + 1 < |text| && (text[p + 1] == '+' || text[p + 1] == '-') then p + 2 else p + 1;
        if look < |text| && IsDigit(text[look]) then Span(text, look, Digit) else p
      else p
    }

    function Number(pos: nat): (r: Outcome<V>)
      requires pos < |text| && In(text[pos], DigitOrDot)
      ensures r.Ok? ==> pos < r.pos <= |text|
    {
      var end := NumberEnd(pos);
      match alg.number(text[pos..end])
      case Some(v) => Ok(v, end)
      case None => Fail(MalformedNumber(text[pos..end]), pos)
    }

    function Identifier(pos: nat, depth: nat): (r: Outcome<V>)
      requires pos < |text| && IsLetter(text[pos]) && depth <= MAX_DEPTH
      ensures r.Ok? ==> pos < r.pos <= |text|
      decreases |text| - pos, 0
    {
      var end := Span(text, pos, Alnum);
      var name := text[pos..end];
      if name == "pi" then Ok(alg.pi, end)
      else if name == "e" then Ok(alg.e, end)
      else if !Next(end, '(') then Fail(UnknownIdentifier(name), Skip(end))
      else
        match Closed(Expr(Skip(end) + 1, depth))
        case Ok(x, p) => CallOutcome(alg, name, x, p)
        case fail => fail
    }

    // parse()
    function Whole(): Outcome<V> {
      match Expr(0, 0)
      case Ok(v, p) =>
        var q := Skip(p);
        if q != |text| then Fail(UnexpectedCharacter(text[q]), q)
        else if !alg.isFinite(v) then Fail(NotFinite, q)
        else Ok(v, q)
      case fail => fail
    }

    // evaluate_expression()
    function Evaluate(): Outcome<V> {
      if |text| > MAX_LENGTH then Fail(TooLong, 0) else Whole()
    }
  }

  // The bodies of the parsing functions, one step at a time.

  lemma SumUnfolds<V>(P: Parser<V>, pos: nat, depth: nat)
    requires pos <= |P.text| && depth <= MAX_DEPTH
    ensures P.Sum(pos, depth) == match P.Term(pos, depth)
                                 case Ok(v, p) => P.ExprLoop(v, p, depth)
                                 case fail => fail
  {
  }

  lemma ExprLoopUnfolds<V>(P: Parser<V>, lhs: V, pos: nat, depth: nat)
    requires pos <= |P.text| && depth <= MAX_DEPTH
    ensures P.AddOp(pos).None? ==> P.ExprLoop(lhs, pos, depth) == Ok(lhs, P.Skip(pos))
    ensures P.AddOp(pos).Some? ==>
              var op, r := P.AddOp(pos).value, P.Term(P.Skip(pos) + 1, depth);
              && (r.Fail? ==> P.ExprLoop(lhs, pos, depth) == r)
              && (r.Ok? ==> P.ExprLoop(lhs, pos, depth) == P.ExprLoop(P.alg.apply(op, lhs, r.value), r.pos, depth))
  {
  }

  lemma TermUnfolds<V>(P: Parser<V>, pos: nat, depth: nat)
    requires pos <= |P.text| && depth <= MAX_DEPTH
    ensures P.Term(pos, depth) == match P.Unary(pos, depth)
                                  case Ok(v, p) => P.TermLoop(v, p, depth)
                                  case fail => fail
  {
  }

  lemma TermLoopUnfolds<V>(P: Parser<V>, lhs: V, pos: nat, depth: nat)
    requires pos <= |P.text| && depth <= MAX_DEPTH
    ensures P.MulOp(pos).None? ==> P.TermLoop(lhs, pos, depth) == Ok(lhs, P.Skip(pos))
    ensures P.MulOp(pos).Some? ==>
              var op, r := P.MulOp(pos).value, P.Unary(P.Skip(pos) + 1, depth);
              && (r.Fail? ==> P.TermLoop(lhs, pos, depth) == r)
              && (r.Ok? && DividesByZero(P.alg, op, r.value) ==>
                    P.TermLoop(lhs, pos, depth) == Fail(DivisionByZero, r.pos))
              && (r.Ok? && !DividesByZero(P.alg, op, r.value) ==>
                    P.TermLoop(lhs, pos, depth) == P.TermLoop(P.alg.apply(op, lhs, r.value), r.pos, depth))
  {
  }

  lemma SignedUnfolds<V>(P: Parser<V>, pos: nat, depth: nat)
    requires pos <= |P.text| && depth <= MAX_DEPTH
    ensures P.Signed(pos, depth) ==
            if P.Next(pos, '-') then
              match P.Unary(P.Skip(pos) + 1, depth)
              case Ok(v, p) => Ok(P.alg.neg(v), p)
              case fail => fail
            else if P.Next(pos, '+') then P.Unary(P.Skip(pos) + 1, depth)
            else P.Power(P.Skip(pos), depth)
  {
  }

  lemma PowerUnfolds<V>(P: Parser<V>, pos: nat, depth: nat)
    requires pos <= |P.text| && depth <= MAX_DEPTH
    ensures P.Power(pos, depth) ==
            match P.Primary(pos, depth)
            case Ok(base, p) =>
              if P.Next(p, '^') then
                match P.Unary(P.Skip(p) + 1, depth)
                case Ok(exponent, q) => Ok(P.alg.apply(Pow, base, exponent), q)
                case fail => fail
              else Ok(base, P.Skip(p))
            case fail => fail
  {
  }

  lemma PrimaryUnfolds<V>(P: Parser<V>, pos: nat, depth: nat)
    requires pos <= |P.text| && depth <= MAX_DEPTH
    ensures var p := P.Skip(pos);
      P.Primary(pos, depth) ==
      if p >= |P.text| then Fail(UnexpectedEnd, p)
      else if P.text[p] == '(' then P.Closed(P.Expr(p + 1, depth))
      else if In(P.text[p], DigitOrDot) then P.Number(p)
      else if IsLetter(P.text[p]) then P.Identifier(p, depth)
      else Fail(UnexpectedCharacter(P.text[p]), p)
  {
  }

  lemma IdentifierUnfolds<V>(P: Parser<V>, pos: nat, depth: nat)
    requires pos < |P.text| && IsLetter(P.text[pos]) && depth <= MAX_DEPTH
    ensures var end := Span(P.text, pos, Alnum);
      var name := P.text[pos..end];
      P.Identifier(pos, depth) ==
      if name == "pi" then Ok(P.alg.pi, end)
      else if name == "e" then Ok(P.alg.e, end)
      else if !P.Next(end, '(') then Fail(UnknownIdentifier(name), P.Skip(end))
      else
        match P.Closed(P.Expr(P.Skip(end) + 1, depth))
        case Ok(x, p) => CallOutcome(P.alg, name, x, p)
        case fail => fail
  {
    hide P.Expr, P.Closed, P.Next, P.Skip, Span, CallOutcome;
  }

  class ExpressionParser<V> {
    const text: string
    const alg: Algebra<V>
    var pos: nat
    var depth: nat
    // The calls of expr() and unary() that have passed their depth check and not returned, and the
    // largest number of them so far.
    ghost var frames: nat
    ghost var deepest: nat

    constructor (text: string, alg: Algebra<V>)
      ensures this.text == text && this.alg == alg && pos == 0 && depth == 0 && frames == 0 && deepest == 0
    {
      this.text := text;
      this.alg := alg;
      pos, depth := 0, 0;
      frames, deepest := 0, 0;
    }

    ghost predicate Valid()
      reads this
    {
      pos <= |text| && depth == frames <= MAX_DEPTH && deepest <= MAX_DEPTH
    }

    ghost function P(): Parser<V> {
      Parser(text, alg)
    }

    // A method that should compute o, called at depth `before`, has returned r: a success restores the depth; a failure
    // has left the position where it arose, and may have left the depth too high. In either case no more frames are
    // active than before, and never more than the limit were.
    ghost predicate Computes(o: Outcome<V>, r: Result<V, Reason>, before: nat)
      reads this
    {
      && pos <= |text| && before == frames <= depth <= MAX_DEPTH + 1 && deepest <= MAX_DEPTH
      && match o
         case Ok(v, p) => r == Success(v) && pos == p && depth == before
         case Fail(reason, p) => r == Failure(reason) && pos == p
    }

    ghost method Enter()
      requires frames < MAX_DEPTH && deepest <= MAX_DEPTH
      modifies this`frames, this`deepest
      ensures frames == old(frames) + 1 && deepest <= MAX_DEPTH
      ensures deepest == if frames > old(deepest) then frames else old(deepest)
    {
      frames := frames + 1;
      deepest := if frames > deepest then frames else deepest;
    }

    // Moves over the k-characters that come next.
    method Advance(k: Class)
      requires Valid()
      modifies this`pos
      ensures Valid() && pos == Span(text, old(pos), k) && Span(text, pos, k) == pos
    {
      while pos < |text| && In(text[pos], k)
        invariant pos <= |text|
        invariant Span(text, pos, k) == Span(text, old(pos), k)
      {
        pos := pos + 1;
      }
    }

    method Accept(c: char) returns (found: bool)
      requires Valid()
      modifies this`pos
      ensures Valid() && found == P().Next(old(pos), c)
      ensures pos == P().Skip(old(pos)) + if found then 1 else 0
      ensures !found ==> P().Skip(pos) == pos
    {
      Advance(Space);
      if pos < |text| && text[pos] == c {
        pos := pos + 1;
        return true;
      }
      return false;
    }

    method AcceptAddOp() returns (op: Option<Op>)
      requires Valid()
      modifies this`pos
      ensures Valid() && op == P().AddOp(old(pos))
      ensures pos == P().Skip(old(pos)) + if op.Some? then 1 else 0
    {
      var found := Accept('+');
      if found {
        return Some(Add);
      }
      found := Accept('-');
      return if found then Some(Sub) else None;
    }

    method AcceptMulOp() returns (op: Option<Op>)
      requires Valid()
      modifies this`pos
      ensures Valid() && op == P().MulOp(old(pos))
      ensures pos == P().Skip(old(pos)) + if op.Some? then 1 else 0
    {
      var found := Accept('*');
      if found {
        return Some(Mul);
      }
      found := Accept('/');
      if found {
        return Some(Div);
      }
      found := Accept('%');
      return if found then Some(Rem) else None;
    }

    method AcceptSign() returns (found: bool, minus: bool)
      requires Valid()
      modifies this`pos
      ensures Valid() && pos == P().Skip(old(pos)) + if found then 1 else 0
      ensures minus == P().Next(old(pos), '-')
      ensures found == (minus || P().Next(old(pos), '+'))
    {
      minus := Accept('-');
      if minus {
        return true, minus;
      }
      found := Accept('+');
    }

    method Expr() returns (r: Result<V, Reason>)
      requires Valid()
      modifies this`pos, this`depth, this`frames, this`deepest
      ensures Computes(P().Expr(old(pos), old(depth)), r, old(depth))
      decreases |text| - pos, 6
    {
      depth := depth + 1;
      if depth > MAX_DEPTH {
        return Failure(NestedTooDeeply);
      }
      Enter();
      r := Sum();
      frames := frames - 1;
      if r.Success? {
        depth := depth - 1;
      }
    }

    // The terms and the loop of expr().
    method Sum() returns (r: Result<V, Reason>)
      requires Valid()
      modifies this`pos, this`depth, this`frames, this`deepest
      ensures Computes(P().Sum(old(pos), old(depth)), r, old(depth))
      decreases |text| - pos, 5
    {
      ghost var P := P();
      hide P.Sum, P.Term, P.ExprLoop, P.AddOp, P.Skip;
      SumUnfolds(P, pos, depth);
      ghost var goal := P.Sum(pos, depth);
      r := Term();
      while r.Success?
        invariant pos <= |text| && old(depth) == frames <= depth <= MAX_DEPTH + 1 && deepest <= MAX_DEPTH
        invariant r.Success? ==> depth == old(depth) && old(pos) < pos && P.ExprLoop(r.value, pos, depth) == goal
        invariant r.Failure? ==> goal == Fail(r.error, pos)
        decreases |text| - pos
      {
        ExprLoopUnfolds(P, r.value, pos, depth);
        var op := AcceptAddOp();
        if op.None? {
          break;
        }
        var rhs := Term();
        if rhs.Failure? {
          return rhs;
        }
        r := Success(alg.apply(op.value, r.value, rhs.value));
      }
    }

    method Term() returns (r: Result<V, Reason>)
      requires Valid()
      modifies this`pos, this`depth, this`frames, this`deepest
      ensures Computes(P().Term(old(pos), old(depth)), r, old(depth))
      decreases |text| - pos, 4
    {
      ghost var P := P();
      hide P.Term, P.Unary, P.TermLoop, P.MulOp, P.Skip, DividesByZero;
      TermUnfolds(P, pos, depth);
      ghost var goal := P.Term(pos, depth);
      r := Unary();
      while r.Success?
        invariant pos <= |text| && old(depth) == frames <= depth <= MAX_DEPTH + 1 && deepest <= MAX_DEPTH
        invariant r.Success? ==> depth == old(depth) && old(pos) < pos && P.TermLoop(r.value, pos, depth) == goal
        invariant r.Failure? ==> goal == Fail(r.error, pos)
        decreases |text| - pos
      {
        TermLoopUnfolds(P, r.value, pos, depth);
        var op := AcceptMulOp();
        if op.None? {
          break;
        }
        var rhs := Unary();
        if rhs.Failure? {
          return rhs;
        }
        if DividesByZero(alg, op.value, rhs.value) {
          return Failure(DivisionByZero);
        }
        r := Success(alg.apply(op.value, r.value, rhs.value));
      }
    }

    method Unary() returns (r: Result<V, Reason>)
      requires Valid()
      modifies this`pos, this`depth, this`frames, this`deepest
      ensures Computes(P().Unary(old(pos), old(depth)), r, old(depth))
      decreases |text| - pos, 3
    {
      depth := depth + 1;
      if depth > MAX_DEPTH {
        return Failure(NestedTooDeeply);
      }
      Enter();
      r := Signed();
      frames := frames - 1;
      depth := depth - 1;
    }

    // The signs and the power of unary().
    method Signed() returns (r: Result<V, Reason>)
      requires Valid()
      modifies this`pos, this`depth, this`frames, this`deepest
      ensures Computes(P().Signed(old(pos), old(depth)), r, old(depth))
      decreases |text| - pos, 3, 0
    {
      ghost var P := P();
      hide P.Signed, P.Unary, P.Power, P.Skip, P.Next;
      SignedUnfolds(P, pos, depth);
      var signed, minus := AcceptSign();
      if signed {
        r := Unary();
        if r.Success? && minus {
          r := Success(alg.neg(r.value));
        }
      } else {
        r := Power();
      }
    }

    method Power() returns (r: Result<V, Reason>)
      requires Valid()
      modifies this`pos, this`depth, this`frames, this`deepest
      ensures Computes(P().Power(old(pos), old(depth)), r, old(depth))
      decreases |text| - pos, 2
    {
      ghost var P := P();
      hide P.Power, P.Primary, P.Unary, P.Skip;
      PowerUnfolds(P, pos, depth);
      r := Primary();
      if r.Failure? {
        return;
      }
      var found := Accept('^');
      if found {
        var exponent := Unary();
        if exponent.Failure? {
          return exponent;
        }
        return Success(alg.apply(Pow, r.value, exponent.value));
      }
    }

    method Primary() returns (r: Result<V, Reason>)
      requires Valid()
      modifies this`pos, this`depth, this`frames, this`deepest
      ensures Computes(P().Primary(old(pos), old(depth)), r, old(depth))
      decreases |text| - pos, 1
    {
      ghost var P := P();
      hide P.Primary, P.Expr, P.Number, P.Identifier, Span;
      PrimaryUnfolds(P, pos, depth);
      Advance(Space);
      if pos >= |text| {
        return Failure(UnexpectedEnd);
      }
      var open := Accept('(');
      if open {
        r := Expr();
        if r.Failure? {
          return;
        }
        var close := Accept(')');
        if !close {
          return Failure(ExpectedClose);
        }
        return;
      }
      var c := text[pos];
      if IsDigit(c) || c == '.' {
        r := Number();
      } else if IsLetter(c) {
        r := Identifier();
      } else {
        r := Failure(UnexpectedCharacter(c));
      }
    }

    // The token of number().
    method ScanNumber()
      requires Valid() && pos < |text| && In(text[pos], DigitOrDot)
      modifies this`pos
      ensures Valid() && pos == P().NumberEnd(old(pos))
    {
      hide Span;
      Advance(DigitOrDot);
      if pos < |text| && (text[pos] == 'e' || text[pos] == 'E') {
        var look := pos + 1;
        if look < |text| && (text[look] == '+' || text[look] == '-') {
          look := look + 1;
        }
        if look < |text| && IsDigit(text[look]) {
          pos := look;
          Advance(Digit);
        }
      }
    }

    method Number() returns (r: Result<V, Reason>)
      requires Valid() && pos < |text| && In(text[pos], DigitOrDot)
      modifies this`pos
      ensures Computes(P().Number(old(pos)), r, old(depth))
    {
      ghost var P := P();
      hide P.NumberEnd;
      var start := pos;
      ScanNumber();
      var token := text[start..pos];
      match alg.number(token) {
        case Some(v) =>
          r := Success(v);
        case None =>
          pos := start;
          r := Failure(MalformedNumber(token));
      }
    }

    method Identifier() returns (r: Result<V, Reason>)
      requires Valid() && pos < |text| && IsLetter(text[pos])
      modifies this`pos, this`depth, this`frames, this`deepest
      ensures Computes(P().Identifier(old(pos), old(depth)), r, old(depth))
      decreases |text| - pos, 0
    {
      ghost var P := P();
      hide P.Identifier, P.Expr, P.Skip, Span, CallOutcome;
      IdentifierUnfolds(P, pos, depth);
      ghost var goal := P.Identifier(pos, depth);
      var start := pos;
      Advance(Alnum);
      var name := text[start..pos];
      if name == "pi" {
        return Success(alg.pi);
      }
      if name == "e" {
        return Success(alg.e);
      }
      var open := Accept('(');
      if !open {
        return Failure(UnknownIdentifier(name));
      }
      ghost var closed := P.Closed(P.Expr(pos, depth));
      assert goal == match closed case Ok(x, p) => CallOutcome(alg, name, x, p) case fail => fail;
      r := Expr();
      if r.Failure? {
        return;
      }
      var close := Accept(')');
      if !close {
        return Failure(ExpectedClose);
      }
      assert closed == Ok(r.value, pos);
      CallStays(alg, name, r.value, pos);
      r := Call(name, r.value);
    }

    // The tail of identifier(), after the argument.
    method Call(name: string, x: V) returns (r: Result<V, Reason>)
      ensures match CallOutcome(alg, name, x, pos)
              case Ok(v, _) => r == Success(v)
              case Fail(reason, _) => r == Failure(reason)
    {
      if name == "sqrt" {
        if alg.isNegative(x) {
          return Failure(SqrtOfNegative);
        }
        return Success(alg.call(name, x));
      }
      if name in ["abs", "sin", "cos", "tan", "exp", "floor", "ceil"] {
        return Success(alg.call(name, x));
      }
      if name == "log" || name == "log10" {
        if alg.isNonPositive(x) {
          return Failure(LogOfNonPositive);
        }
        return Success(alg.call(name, x));
      }
      return Failure(UnknownFunction(name));
    }

    method Parse() returns (r: Result<V, Reason>)
      requires pos == 0 && depth == 0 && frames == 0 && deepest == 0
      modifies this`pos, this`depth, this`frames, this`deepest
      ensures Computes(P().Whole(), r, old(depth))
    {
      r := Expr();
      if r.Failure? {
        return;
      }
      Advance(Space);
      if pos != |text| {
        return Failure(UnexpectedCharacter(text[pos]));
      }
      if !alg.isFinite(r.value) {
        return Failure(NotFinite);
      }
    }
  }

  method EvaluateExpression<V>(text: string, alg: Algebra<V>) returns (r: Result<V, Reason>)
    ensures match Parser(text, alg).Evaluate()
            case Ok(v, _) => r == Success(v)
            case Fail(reason, _) => r == Failure(reason)
  {
    if |text| > MAX_LENGTH {
      return Failure(TooLong);
    }
    var parser := new ExpressionParser(text, alg);
    r := parser.Parse();
  }
}
