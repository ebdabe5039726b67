/**
 Expressions and what they denote, independently of any parser: the trees, how a tree is
 written with parentheses only where precedence and associativity need them, and its value.
 */
module ExpressionTrees {
  import opened Numerals
  import opened Wrappers

  // Arithmetic, kept abstract: V stands for double. `number` is strtod on a whole token.
  datatype Algebra<!V> = Algebra(
    number: string -> Option<V>,
    pi: V,
    e: V,
    neg: V -> V,
    apply: (Op, V, V) -> V,
    call: (string, V) -> V,
    isZero: V -> bool,
    isNegative: V -> bool,
    isNonPositive: V -> bool,
    isFinite: V -> bool)

  datatype Op = Add | Sub | Mul | Div | Rem | Pow

  datatype Tree =
    | Num(token: string)
    | Pi
    | E
    | Call(name: string, arg: Tree)
    | Neg(operand: Tree)
    | Plus(operand: Tree)
    | Bin(op: Op, left: Tree, right: Tree)

  // Characters

  datatype Class = Space | Digit | DigitOrDot | Alnum

  predicate IsLetter(c: char) {
    'a' <= c <= 'z' || 'A' <= c <= 'Z'
  }

  predicate In(c: char, k: Class) {
    match k
    case Space => c == ' ' || c == '\t'
    case Digit => IsDigit(c)
    case DigitOrDot => IsDigit(c) || c == '.'
    case Alnum => IsLetter(c) || IsDigit(c)
  }

  predicate All(s: string, k: Class) {
    forall i :: 0 <= i < |s| ==> In(s[i], k)
  }

  // The exponent of a number token.
  datatype Exponent = NoExponent | Exponent(mark: char, sign: string, digits: string) {
    predicate Ok() {
      Exponent? ==> (mark == 'e' || mark == 'E') && sign in ["", "+", "-"] && digits != [] && All(digits, Digit)
    }

    function Text(): string {
      if NoExponent? then "" else [mark] + sign + digits
    }
  }

  predicate IsNumeral(token: string, mantissa: string, x: Exponent) {
    mantissa != [] && All(mantissa, DigitOrDot) && x.Ok() && token == mantissa + x.Text()
  }

  ghost predicate IsNumber(token: string) {
    exists mantissa, x :: IsNumeral(token, mantissa, x)
  }

  predicate IsName(name: string) {
    name != [] && IsLetter(name[0]) && All(name, Alnum) && name != "pi" && name != "e"
  }

  ghost predicate WellFormed(t: Tree) {
    match t
    case Num(token) => IsNumber(token)
    case Pi => true
    case E => true
    case Call(name, arg) => IsName(name) && WellFormed(arg)
    case Neg(x) => WellFormed(x)
    case Plus(x) => WellFormed(x)
    case Bin(_, l, r) => WellFormed(l) && WellFormed(r)
  }

  // Writing a tree

  // Binding strength, from sums at 0 to atoms at 4.
  function Level(t: Tree): nat {
    match t
    case Bin(Add, _, _) => 0
    case Bin(Sub, _, _) => 0
    case Bin(Mul, _, _) => 1
    case Bin(Div, _, _) => 1
    case Bin(Rem, _, _) => 1
    case Neg(_) => 2
    case Plus(_) => 2
    case Bin(Pow, _, _) => 3
    case _ => 4
  }

  function Symbol(op: Op): char {
    match op
    case Add => '+'
    case Sub => '-'
    case Mul => '*'
    case Div => '/'
    case Rem => '%'
    case Pow => '^'
  }

  // The strength that is wanted of the operands of a binary operator.

  function LeftLevel(op: Op): nat {
    match op
    case Add => 0
    case Sub => 0
    case Pow => 4
    case _ => 1
  }

  function RightLevel(op: Op): nat {
    match op
    case Add => 1
    case Sub => 1
    case _ => 2
  }

  // t where an operand of at least the given strength is wanted.
  function Print(t: Tree, level: nat): string
    decreases t, 1
  {
    if Level(t) < level then "(" + Text(t) + ")" else Text(t)
  }

  function Text(t: Tree): string
    decreases t, 0
  {
    match t
    case Num(token) => token
    case Pi => "pi"
    case E => "e"
    case Call(name, arg) => name + "(" + Print(arg, 0) + ")"
    case Neg(x) => "-" + Print(x, 2)
    case Plus(x) => "+" + Print(x, 2)
    case Bin(op, l, r) => Print(l, LeftLevel(op)) + [Symbol(op)] + Print(r, RightLevel(op))
  }

  // The value of a tree

  predicate IsFunction(name: string) {
    name in ["sqrt", "abs", "sin", "cos", "tan", "exp", "floor", "ceil", "log", "log10"]
  }

  // Whether a function of that name takes x.
  predicate Takes<V>(alg: Algebra<V>, name: string, x: V) {
    && IsFunction(name)
    && (name == "sqrt" ==> !alg.isNegative(x))
    && (name == "log" || name == "log10" ==> !alg.isNonPositive(x))
  }

  predicate DividesByZero<V>(alg: Algebra<V>, op: Op, divisor: V) {
    (op.Div? || op.Rem?) && alg.isZero(divisor)
  }

  function Eval<V>(alg: Algebra<V>, t: Tree): Option<V> {
    match t
    case Num(token) => alg.number(token)
    case Pi => Some(alg.pi)
    case E => Some(alg.e)
    case Call(name, arg) =>
      (match Eval(alg, arg)
       case Some(x) => if Takes(alg, name, x) then Some(alg.call(name, x)) else None
       case None => None)
    case Neg(x) =>
      (match Eval(alg, x)
       case Some(v) => Some(alg.neg(v))
       case None => None)
    case Plus(x) => Eval(alg, x)
    case Bin(op, l, r) =>
      match (Eval(alg, l), Eval(alg, r))
      case (Some(a), Some(b)) =>
        if DividesByZero(alg, op, b) then None else Some(alg.apply(op, a, b))
      case _ => None
  }
}
