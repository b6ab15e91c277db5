/** `safe_eval` of Calc/calculator2025.py (lines 53-109): the recursive walk
    `_eval` over a parsed expression tree (lines 65-105), and the surrounding
    steps: the glyph clean-up, parsing, and the final complex-result check.

    The parser (`ast.parse`) is foreign code; `SafeEval` takes it as a
    parameter, as it takes the host math library.
 */
module Evaluator {
  import opened Outcomes
  import opened PyNumbers
  import opened Registry
  import opened Glyphs

  /** The `ast` binary operators the walk distinguishes; every other one
      (`//`, `<<`, `>>`, `&`, `|`, `^`, `@`) is `OtherBinOp`. */
  datatype BinaryOperator = Add | Sub | Mult | Div | Mod | Pow | OtherBinOp

  /** The `ast` unary operators; `not` and `~` are `OtherUnaryOp`. */
  datatype UnaryOperator = USub | UAdd | OtherUnaryOp

  /** The payload of an `ast.Constant`.  A `bool` is an `int` in Python;
      imaginary literals such as `2j` are complex; `OtherLit` stands for
      strings, bytes, `None` and `...`. */
  datatype Literal = IntLit(i: int) | FloatLit(x: real) | BoolLit(b: bool) | ImagLit(im: real) | OtherLit

  /** The expression tree `ast.parse(expr, mode='eval')` produces, with the
      node kinds the walk distinguishes and one catch-all for all the others
      (comparisons, attributes, subscripts, lambdas, ...). */
  datatype Node =
    | Expression(body: Node)
    | Constant(value: Literal)
    | BinOp(left: Node, op: BinaryOperator, right: Node)
    | UnaryOp(uop: UnaryOperator, operand: Node)
      /** `keywords` holds the values of `name=value` arguments. */
    | Call(func: Node, args: seq<Node>, keywords: seq<Node>)
    | Name(id: string)
    | OtherNode

  /** A literal the walk accepts: `int`, `float` and therefore `bool`. */
  function LiteralValue(lit: Literal): (r: Result<Value>)
    ensures r.Ok? <==> lit.IntLit? || lit.FloatLit? || lit.BoolLit?
    ensures r.Err? ==> r.error == EvalError(InvalidConstant)
    ensures r.Ok? ==> !r.value.Complex? && (r.value.Int? <==> !lit.FloatLit?)
    ensures lit.BoolLit? ==> r == Ok(Int(if lit.b then 1 else 0))
  {
    match lit
    case IntLit(i) => Ok(Int(i))
    case FloatLit(x) => Ok(Float(x))
    case BoolLit(b) => Ok(Int(if b then 1 else 0))
    case _ => Err(EvalError(InvalidConstant))
  }

  /** A binary operator applied to two evaluated operands. */
  function Binary(op: BinaryOperator, l: Value, r: Value, lib: MathLib): (v: Result<Value>)
    ensures op == Div ==> (IsZero(r) <==> v == Err(EvalError(DivisionByZero)))
    ensures op == Div && !IsZero(r) ==> v == Ok(PyNumbers.Div(l, r))
    ensures op == Mod ==> (IsZero(r) && !l.Complex? && !r.Complex? <==> v == Err(Uncaught(ZeroDivisionError)))
    ensures op == OtherBinOp <==> v == Err(EvalError(UnsupportedBinaryOp))
    ensures v.Err? && v.error.EvalError? ==> op == Div || op == OtherBinOp
    ensures v.Err? && v.error.Uncaught? ==> op == Mod || op == Pow
    ensures v.Ok? && v.value.Complex? ==> op == Pow || l.Complex? || r.Complex?
  {
    match op
    case Add => Ok(PyNumbers.Add(l, r))
    case Sub => Ok(PyNumbers.Sub(l, r))
    case Mult => Ok(PyNumbers.Mul(l, r))
    case Div => if IsZero(r) then Err(EvalError(DivisionByZero)) else Ok(PyNumbers.Div(l, r))
    case Mod => PyNumbers.Mod(l, r)
    case Pow => Power(l, r, lib)
    case OtherBinOp => Err(EvalError(UnsupportedBinaryOp))
  }

  /** A unary operator applied to its evaluated operand. */
  function Unary(uop: UnaryOperator, v: Value): (r: Result<Value>)
    ensures uop == USub ==> r.Ok? && Re(r.value) == -Re(v) && Im(r.value) == -Im(v)
    ensures uop == UAdd ==> r == Ok(v)
    ensures uop == OtherUnaryOp <==> r == Err(EvalError(UnsupportedUnaryOp))
    ensures r.Ok? ==> (r.value.Int? <==> v.Int?) && (r.value.Complex? <==> v.Complex?)
  {
    match uop
    case USub => Ok(Negate(v))
    case UAdd => Ok(v)
    case OtherUnaryOp => Err(EvalError(UnsupportedUnaryOp))
  }

  /** Calling a whitelist entry on evaluated arguments, inside the source's
      `try`: whatever the callee raises becomes "Function error".  Calling a
      number (`pi(2)`) raises too. */
  function Invoke(entry: Entry, args: seq<Value>, lib: MathLib): (r: Result<Value>)
    ensures r.Err? <==> entry.Constant? || Apply(entry.f, args, lib).None?
    ensures r.Err? ==> r.error == EvalError(FunctionError)
    ensures r.Ok? ==> r.value == Apply(entry.f, args, lib).value
  {
    match entry
    case Constant(_) => Err(EvalError(FunctionError))
    case Function(f) =>
      match Apply(f, args, lib)
      case None => Err(EvalError(FunctionError))
      case Some(v) => Ok(v)
  }

  /** What a bare name evaluates to.  A name bound to a function yields the
      function object in the source; the model stops there. */
  function Lookup(id: string): (r: Result<Value>)
    ensures r.Ok? <==> id in SafeMath && SafeMath[id].Constant?
    ensures r.Ok? ==> r.value == SafeMath[id].value && r.value.Float?
    ensures id !in SafeMath <==> r == Err(EvalError(NameNotAllowed))
    ensures id in SafeMath && SafeMath[id].Function? <==> r == Err(FunctionObject(id))
  {
    if id !in SafeMath then Err(EvalError(NameNotAllowed))
    else
      SafeMathEntries(id);
      match SafeMath[id]
      case Constant(v) => Ok(v)
      case Function(_) => Err(FunctionObject(id))
  }

  /** The walk `_eval`.  It never produces the messages that belong to the
      steps around it. */
  function Eval(t: Node, lib: MathLib): (r: Result<Value>)
    ensures r.Err? ==> r.error != EvalError(SyntaxError) && r.error != EvalError(ComplexResultNotSupported)
    decreases t
  {
    match t
    case Expression(body) => Eval(body, lib)
    case Constant(lit) => LiteralValue(lit)
    case BinOp(left, op, right) =>
      var l :- Eval(left, lib);
      var r :- Eval(right, lib);
      Binary(op, l, r, lib)
    case UnaryOp(uop, operand) =>
      var v :- Eval(operand, lib);
      Unary(uop, v)
    case Call(func, args, _) =>
      if !func.Name? then Err(EvalError(InvalidFunction))
      else if func.id !in SafeMath then Err(EvalError(FunctionNotAllowed(func.id)))
      else
        var vs :- EvalArgs(args, lib);
        Invoke(SafeMath[func.id], vs, lib)
    case Name(id) => Lookup(id)
    case OtherNode => Err(EvalError(UnsupportedExpression))
  }

  /** The positional arguments, evaluated from left to right; the first
      failure aborts the call. */
  function EvalArgs(args: seq<Node>, lib: MathLib): (r: Result<seq<Value>>)
    ensures r.Ok? ==> |r.value| == |args|
    ensures r.Err? ==> r.error != EvalError(SyntaxError) && r.error != EvalError(ComplexResultNotSupported)
    decreases args
  {
    if args == [] then Ok([])
    else
      var v :- Eval(args[0], lib);
      var vs :- EvalArgs(args[1..], lib);
      Ok([v] + vs)
  }

  /** `safe_eval`: clean up the glyphs, parse (`parse` returns `None` where
      `ast.parse` raises), walk the tree, and reject a complex final value. */
  function SafeEval(text: string, parse: string -> Option<Node>, lib: MathLib): (r: Result<Value>)
    ensures r.Ok? ==> !r.value.Complex?
    ensures parse(Normalize(text)).None? <==> r == Err(EvalError(SyntaxError))
  {
    match parse(Normalize(text))
    case None => Err(EvalError(SyntaxError))
    case Some(tree) =>
      var result :- Eval(tree, lib);
      if result.Complex? then Err(EvalError(ComplexResultNotSupported)) else Ok(result)
  }
}
