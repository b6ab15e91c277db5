/** What `safe_eval` of Calc/calculator2025.py guarantees, stated about the
    model in module `Evaluator`: the order and the guards of the walk, where
    each kind of failure can come from, a reference semantics for plain
    arithmetic, and the behaviour on the inputs the calculator's users type.
 */
module EvaluatorProperties {
  import opened Outcomes
  import opened PyNumbers
  import opened Registry
  import opened Glyphs
  import opened Evaluator

  // ---------------------------------------------------------------------
  // The order of evaluation and the guards of the walk
  // ---------------------------------------------------------------------

  /** The wrapper node is transparent, a constant is its literal's value, and
      any node kind the walk does not list fails with "Unsupported
      expression". */
  lemma NodeDispatch(body: Node, lit: Literal, lib: MathLib)
    ensures Eval(Expression(body), lib) == Eval(body, lib)
    ensures Eval(Node.Constant(lit), lib) == LiteralValue(lit)
    ensures Eval(OtherNode, lib) == Err(EvalError(UnsupportedExpression))
  {
  }

  /** A binary node evaluates its left operand, then its right one, and only
      then applies the operator; the first failure is the result. */
  lemma BinOpOrder(a: Node, op: BinaryOperator, b: Node, lib: MathLib)
    ensures Eval(a, lib).Err? ==> Eval(BinOp(a, op, b), lib) == Err(Eval(a, lib).error)
    ensures Eval(a, lib).Ok? && Eval(b, lib).Err? ==> Eval(BinOp(a, op, b), lib) == Err(Eval(b, lib).error)
    ensures Eval(a, lib).Ok? && Eval(b, lib).Ok? ==>
              Eval(BinOp(a, op, b), lib) == Binary(op, Eval(a, lib).value, Eval(b, lib).value, lib)
  {
  }

  /** Division by an operand equal to zero (`0`, `0.0` or `0j`) fails with
      "Division by zero" and never yields a value; `%` has no such guard and
      lets Python's `ZeroDivisionError` escape instead. */
  lemma ZeroDivisor(a: Node, b: Node, lib: MathLib)
    requires Eval(a, lib).Ok? && Eval(b, lib).Ok? && IsZero(Eval(b, lib).value)
    ensures Eval(BinOp(a, Div, b), lib) == Err(EvalError(DivisionByZero))
    ensures !Eval(a, lib).value.Complex? && !Eval(b, lib).value.Complex? ==>
              Eval(BinOp(a, Mod, b), lib) == Err(Uncaught(ZeroDivisionError))
    ensures !Eval(BinOp(a, Mod, b), lib).Ok? && Eval(BinOp(a, Mod, b), lib).error.Uncaught?
  {
  }

  /** A unary node evaluates its operand first; `-` negates it, `+` returns
      it unchanged, and `not` and `~` are refused. */
  lemma UnaryOpMeaning(uop: UnaryOperator, a: Node, lib: MathLib)
    ensures Eval(a, lib).Err? ==> Eval(UnaryOp(uop, a), lib) == Err(Eval(a, lib).error)
    ensures Eval(a, lib).Ok? && uop == UAdd ==> Eval(UnaryOp(uop, a), lib) == Eval(a, lib)
    ensures Eval(a, lib).Ok? && uop == USub ==> Eval(UnaryOp(uop, a), lib) == Ok(Negate(Eval(a, lib).value))
    ensures Eval(a, lib).Ok? && uop == OtherUnaryOp ==> Eval(UnaryOp(uop, a), lib) == Err(EvalError(UnsupportedUnaryOp))
  {
  }

  /** A call is refused before any argument is evaluated when the callee is
      not a plain name or the name is not whitelisted, whatever the arguments. */
  lemma CallCheckedBeforeArguments(func: Node, args1: seq<Node>, kw1: seq<Node>, args2: seq<Node>, kw2: seq<Node>, lib: MathLib)
    requires !func.Name? || func.id !in SafeMath
    ensures Eval(Call(func, args1, kw1), lib) == Eval(Call(func, args2, kw2), lib)
    ensures !func.Name? ==> Eval(Call(func, args1, kw1), lib) == Err(EvalError(InvalidFunction))
    ensures func.Name? ==> Eval(Call(func, args1, kw1), lib) == Err(EvalError(FunctionNotAllowed(func.id)))
  {
  }

  /** Keyword arguments are neither evaluated nor passed on. */
  lemma KeywordsIgnored(func: Node, args: seq<Node>, kw1: seq<Node>, kw2: seq<Node>, lib: MathLib)
    ensures Eval(Call(func, args, kw1), lib) == Eval(Call(func, args, kw2), lib)
  {
  }

  /** The arguments evaluate as a whole exactly when each one does, and then
      to their values in order. */
  lemma {:induction false} ArgumentsInOrder(args: seq<Node>, lib: MathLib)
    ensures EvalArgs(args, lib).Ok? <==> forall j :: 0 <= j < |args| ==> Eval(args[j], lib).Ok?
    ensures EvalArgs(args, lib).Ok? ==>
              forall j :: 0 <= j < |args| ==> EvalArgs(args, lib).value[j] == Eval(args[j], lib).value
    decreases args
  {
    if args != [] {
      ArgumentsInOrder(args[1..], lib);
      assert forall j :: 1 <= j < |args| ==> args[j] == args[1..][j - 1];
    }
  }

  /** The first failing argument decides the failure of the argument list. */
  lemma {:induction false} FirstArgumentFailure(args: seq<Node>, i: nat, lib: MathLib)
    requires i < |args| && Eval(args[i], lib).Err?
    requires forall j :: 0 <= j < i ==> Eval(args[j], lib).Ok?
    ensures EvalArgs(args, lib) == Err(Eval(args[i], lib).error)
    decreases i
  {
    if i > 0 {
      assert Eval(args[0], lib).Ok?;
      assert forall j :: 0 <= j < i - 1 ==> args[1..][j] == args[j + 1];
      FirstArgumentFailure(args[1..], i - 1, lib);
    }
  }

  /** A failure while evaluating an argument keeps its own message: it is
      outside the `try` that turns the callee's exceptions into "Function
      error". */
  lemma ArgumentErrorKeepsMessage(id: string, args: seq<Node>, kw: seq<Node>, i: nat, lib: MathLib)
    requires id in SafeMath
    requires i < |args| && Eval(args[i], lib).Err?
    requires forall j :: 0 <= j < i ==> Eval(args[j], lib).Ok?
    ensures Eval(Call(Name(id), args, kw), lib) == Err(Eval(args[i], lib).error)
  {
    FirstArgumentFailure(args, i, lib);
  }

  /** Once the arguments are values, whatever the whitelisted callee raises
      becomes "Function error", and otherwise its value is the result. */
  lemma CalleeErrorWrapped(id: string, args: seq<Node>, kw: seq<Node>, lib: MathLib)
    requires id in SafeMath
    requires forall j :: 0 <= j < |args| ==> Eval(args[j], lib).Ok?
    ensures EvalArgs(args, lib).Ok?
    ensures SafeMath[id].Constant? ==> Eval(Call(Name(id), args, kw), lib) == Err(EvalError(FunctionError))
    ensures SafeMath[id].Function? ==>
              var r := Apply(SafeMath[id].f, EvalArgs(args, lib).value, lib);
              && (r.None? ==> Eval(Call(Name(id), args, kw), lib) == Err(EvalError(FunctionError)))
              && (r.Some? ==> Eval(Call(Name(id), args, kw), lib) == Ok(r.value))
  {
    ArgumentsInOrder(args, lib);
  }

  /** A bare name is a whitelisted number or fails with "Name not allowed". */
  lemma NameMeaning(id: string, lib: MathLib)
    ensures Eval(Name(id), lib).Ok? <==> id == "pi" || id == "e"
    ensures id == "pi" ==> Eval(Name(id), lib) == Ok(Float(Pi))
    ensures id == "e" ==> Eval(Name(id), lib) == Ok(Float(E))
    ensures id !in SafeMath <==> Eval(Name(id), lib) == Err(EvalError(NameNotAllowed))
  {
    SafeMathContents();
    if id in SafeMath {
      SafeMathEntries(id);
    }
  }

  /** The final check rejects a complex value, and only the final value:
      what the walk returns otherwise is the result of `safe_eval`. */
  lemma FinalComplexCheck(text: string, parse: string -> Option<Node>, tree: Node, lib: MathLib)
    requires parse(Normalize(text)) == Some(tree)
    ensures SafeEval(text, parse, lib) == Err(EvalError(ComplexResultNotSupported)) <==>
              Eval(tree, lib).Ok? && Eval(tree, lib).value.Complex?
    ensures Eval(tree, lib).Err? ==> SafeEval(text, parse, lib) == Eval(tree, lib)
    ensures Eval(tree, lib).Ok? && !Eval(tree, lib).value.Complex? ==> SafeEval(text, parse, lib) == Eval(tree, lib)
  {
  }

  // ---------------------------------------------------------------------
  // Where failures and complex values come from
  // ---------------------------------------------------------------------

  /** The binary operators the walk applies in `t`. */
  function Operators(t: Node): set<BinaryOperator>
    decreases t
  {
    match t
    case Expression(body) => Operators(body)
    case BinOp(left, op, right) => {op} + Operators(left) + Operators(right)
    case UnaryOp(_, operand) => Operators(operand)
    case Call(_, args, _) => OperatorsOf(args)
    case _ => {}
  }

  function OperatorsOf(args: seq<Node>): set<BinaryOperator>
    decreases args
  {
    if args == [] then {} else Operators(args[0]) + OperatorsOf(args[1..])
  }

  /** The names `t` calls or reads, at the positions the walk visits. */
  function Names(t: Node): set<string>
    decreases t
  {
    match t
    case Expression(body) => Names(body)
    case BinOp(left, _, right) => Names(left) + Names(right)
    case UnaryOp(_, operand) => Names(operand)
    case Call(func, args, _) => (if func.Name? then {func.id} else {}) + NamesOf(args)
    case Name(id) => {id}
    case _ => {}
  }

  function NamesOf(args: seq<Node>): set<string>
    decreases args
  {
    if args == [] then {} else Names(args[0]) + NamesOf(args[1..])
  }

  /** The names `t` calls. */
  function Callees(t: Node): set<string>
    decreases t
  {
    match t
    case Expression(body) => Callees(body)
    case BinOp(left, _, right) => Callees(left) + Callees(right)
    case UnaryOp(_, operand) => Callees(operand)
    case Call(func, args, _) => (if func.Name? then {func.id} else {}) + CalleesOf(args)
    case _ => {}
  }

  function CalleesOf(args: seq<Node>): set<string>
    decreases args
  {
    if args == [] then {} else Callees(args[0]) + CalleesOf(args[1..])
  }

  /** A successful evaluation used whitelisted names only; "Division by
      zero" needs a `/`; an exception that escapes the walk needs a `%` or a
      `**`; "Function error" needs a call; and a complex value needs `**` or
      a call of `pow`. */
  lemma {:induction false} Provenance(t: Node, lib: MathLib)
    ensures Eval(t, lib).Ok? ==> Names(t) <= SafeMath.Keys
    ensures Eval(t, lib) == Err(EvalError(DivisionByZero)) ==> Div in Operators(t)
    ensures Eval(t, lib).Err? && Eval(t, lib).error.Uncaught? ==> Mod in Operators(t) || Pow in Operators(t)
    ensures Eval(t, lib) == Err(EvalError(FunctionError)) ==> Callees(t) != {}
    ensures Eval(t, lib).Ok? && Eval(t, lib).value.Complex? ==> Pow in Operators(t) || "pow" in Callees(t)
    decreases t
  {
    match t
    case Expression(body) =>
      Provenance(body, lib);
    case BinOp(left, op, right) =>
      Provenance(left, lib);
      Provenance(right, lib);
    case UnaryOp(_, operand) =>
      Provenance(operand, lib);
    case Call(func, args, _) =>
      ProvenanceOf(args, lib);
      if func.Name? && func.id in SafeMath {
        SafeMathEntries(func.id);
      }
    case _ =>
  }

  lemma {:induction false} ProvenanceOf(args: seq<Node>, lib: MathLib)
    ensures EvalArgs(args, lib).Ok? ==> NamesOf(args) <= SafeMath.Keys
    ensures EvalArgs(args, lib) == Err(EvalError(DivisionByZero)) ==> Div in OperatorsOf(args)
    ensures EvalArgs(args, lib).Err? && EvalArgs(args, lib).error.Uncaught? ==>
              Mod in OperatorsOf(args) || Pow in OperatorsOf(args)
    ensures EvalArgs(args, lib) == Err(EvalError(FunctionError)) ==> CalleesOf(args) != {}
    decreases args
  {
    if args != [] {
      Provenance(args[0], lib);
      ProvenanceOf(args[1..], lib);
    }
  }

  /** Without `**` and without a call of `pow`, `safe_eval` never reports
      "Complex result not supported". */
  lemma NoComplexWithoutPower(text: string, parse: string -> Option<Node>, tree: Node, lib: MathLib)
    requires parse(Normalize(text)) == Some(tree)
    requires Pow !in Operators(tree) && "pow" !in Callees(tree)
    ensures SafeEval(text, parse, lib) != Err(EvalError(ComplexResultNotSupported))
  {
    Provenance(tree, lib);
  }

  // ---------------------------------------------------------------------
  // A reference semantics for plain arithmetic
  // ---------------------------------------------------------------------

  /** Trees built from numeric literals, `+ - * /` and unary `-` and `+`. */
  predicate Arithmetic(t: Node)
    decreases t
  {
    match t
    case Expression(body) => Arithmetic(body)
    case Constant(lit) => lit.IntLit? || lit.FloatLit? || lit.BoolLit?
    case BinOp(left, op, right) => op in {Add, Sub, Mult, Div} && Arithmetic(left) && Arithmetic(right)
    case UnaryOp(uop, operand) => uop != OtherUnaryOp && Arithmetic(operand)
    case _ => false
  }

  /** Such a tree has no `float` literal and no `/`. */
  predicate IntegerOnly(t: Node)
    decreases t
  {
    match t
    case Expression(body) => IntegerOnly(body)
    case Constant(lit) => !lit.FloatLit?
    case BinOp(left, op, right) => op != Div && IntegerOnly(left) && IntegerOnly(right)
    case UnaryOp(_, operand) => IntegerOnly(operand)
    case _ => true
  }

  /** The value of an arithmetic tree as a real number; `None` where some
      divisor is zero. */
  function Denote(t: Node): Option<real>
    requires Arithmetic(t)
    decreases t
  {
    match t
    case Expression(body) => Denote(body)
    case Constant(lit) =>
      (match lit
       case IntLit(i) => Some(i as real)
       case FloatLit(x) => Some(x)
       case BoolLit(b) => Some(if b then 1.0 else 0.0))
    case BinOp(left, op, right) =>
      if Denote(left).None? || Denote(right).None? then None
      else
        var a, b := Denote(left).value, Denote(right).value;
        (match op
         case Add => Some(a + b)
         case Sub => Some(a - b)
         case Mult => Some(a * b)
         case Div => if b == 0.0 then None else Some(a / b))
    case UnaryOp(uop, operand) =>
      (match Denote(operand)
       case Some(a) => Some(if uop == USub then -a else a)
       case None => None)
  }

  /** What `EvalAgreesWithDenote` states about one arithmetic tree. */
  predicate AgreesWithDenote(t: Node, lib: MathLib)
    requires Arithmetic(t)
  {
    && (Denote(t).Some? ==>
          && Eval(t, lib).Ok?
          && !Eval(t, lib).value.Complex?
          && Re(Eval(t, lib).value) == Denote(t).value
          && (Eval(t, lib).value.Int? <==> IntegerOnly(t)))
    && (Denote(t).None? ==> Eval(t, lib) == Err(EvalError(DivisionByZero)))
  }

  /** On arithmetic trees the walk computes the real value, as an `int`
      exactly when no `float` and no `/` is involved, and the only failure
      is "Division by zero", raised exactly when some divisor is zero. */
  lemma {:induction false} EvalAgreesWithDenote(t: Node, lib: MathLib)
    requires Arithmetic(t)
    ensures Denote(t).Some? ==>
              && Eval(t, lib).Ok?
              && !Eval(t, lib).value.Complex?
              && Re(Eval(t, lib).value) == Denote(t).value
              && (Eval(t, lib).value.Int? <==> IntegerOnly(t))
    ensures Denote(t).None? ==> Eval(t, lib) == Err(EvalError(DivisionByZero))
    decreases t
  {
    match t
    case Expression(body) =>
      EvalAgreesWithDenote(body, lib);
    case Constant(lit) =>
    case BinOp(left, op, right) =>
      EvalAgreesWithDenote(left, lib);
      EvalAgreesWithDenote(right, lib);
      BinOpAgrees(left, op, right, lib);
    case UnaryOp(uop, operand) =>
      EvalAgreesWithDenote(operand, lib);
  }

  /** The step of `EvalAgreesWithDenote` for a binary node. */
  lemma BinOpAgrees(left: Node, op: BinaryOperator, right: Node, lib: MathLib)
    requires Arithmetic(BinOp(left, op, right))
    requires AgreesWithDenote(left, lib) && AgreesWithDenote(right, lib)
    ensures AgreesWithDenote(BinOp(left, op, right), lib)
  {
    var t := BinOp(left, op, right);
    if Denote(left).None? {
      assert Eval(t, lib) == Err(Eval(left, lib).error);
    } else if Denote(right).None? {
      assert Eval(t, lib) == Err(Eval(right, lib).error);
    } else {
      var l, r := Eval(left, lib).value, Eval(right, lib).value;
      assert Eval(t, lib) == Binary(op, l, r, lib);
      ArithmeticStep(op, l, r, lib);
    }
  }

  /** One operator of an arithmetic tree on two real operands. */
  lemma ArithmeticStep(op: BinaryOperator, l: Value, r: Value, lib: MathLib)
    requires op in {Add, Sub, Mult, Div} && !l.Complex? && !r.Complex?
    ensures op == Div && Re(r) == 0.0 ==> Binary(op, l, r, lib) == Err(EvalError(DivisionByZero))
    ensures op != Div || Re(r) != 0.0 ==>
              && Binary(op, l, r, lib).Ok?
              && !Binary(op, l, r, lib).value.Complex?
              && (Binary(op, l, r, lib).value.Int? <==> op != Div && l.Int? && r.Int?)
              && Re(Binary(op, l, r, lib).value) ==
                 match op
                 case Add => Re(l) + Re(r)
                 case Sub => Re(l) - Re(r)
                 case Mult => Re(l) * Re(r)
                 case _ => Re(l) / Re(r)
  {
  }

  // ---------------------------------------------------------------------
  // Inputs as users type them
  // ---------------------------------------------------------------------

  function IntNode(i: int): Node { Node.Constant(IntLit(i)) }
  function FloatNode(x: real): Node { Node.Constant(FloatLit(x)) }
  function CallOf(id: string, args: seq<Node>): Node { Call(Name(id), args, []) }

  /** `5/0` is refused by the guard, while `5 % 0` and `0 ** -1` raise
      Python's `ZeroDivisionError`. */
  lemma ZeroDivisorExamples(lib: MathLib)
    ensures Eval(BinOp(IntNode(5), Div, IntNode(0)), lib) == Err(EvalError(DivisionByZero))
    ensures Eval(BinOp(IntNode(5), Mod, IntNode(0)), lib) == Err(Uncaught(ZeroDivisionError))
    ensures Eval(BinOp(IntNode(0), Pow, IntNode(-1)), lib) == Err(Uncaught(ZeroDivisionError))
  {
  }

  /** `%` takes the sign of the divisor: `7 % -3` is -2 and `-7 % 3` is 2. */
  lemma ModuloExamples(lib: MathLib)
    ensures Eval(BinOp(IntNode(7), Mod, IntNode(-3)), lib) == Ok(Int(-2))
    ensures Eval(BinOp(UnaryOp(USub, IntNode(7)), Mod, IntNode(3)), lib) == Ok(Int(2))
  {
    assert IntMod(7, -3) == -2;
    assert IntMod(-7, 3) == 2;
  }

  /** `2**10` is the `int` 1024 and `2**-1` the `float` 0.5. */
  lemma PowerExamples(lib: MathLib)
    ensures Eval(BinOp(IntNode(2), Pow, IntNode(10)), lib) == Ok(Int(1024))
    ensures Eval(BinOp(IntNode(2), Pow, IntNode(-1)), lib) == Ok(Float(0.5))
  {
    assert IntPow(2, 10) == 1024 by {
      assert IntPow(2, 5) == 32;
    }
    assert RealPow(2.0, 1) == 2.0;
  }

  /** `(-2) ** -3` is the `float` -0.125, the reciprocal of `(-2) ** 3`. */
  lemma NegativeExponentExample(lib: MathLib)
    ensures Eval(BinOp(UnaryOp(USub, IntNode(2)), Pow, IntNode(-3)), lib) == Ok(Float(-0.125))
  {
    assert RealPow(-2.0, 3) == -8.0 by {
      assert RealPow(-2.0, 1) == -2.0;
    }
  }

  /** `True + 1` is 2, the literal `1j` is refused, and so is `1 // 0`, after
      both operands are evaluated. */
  lemma LiteralAndOperatorExamples(lib: MathLib)
    ensures Eval(BinOp(Node.Constant(BoolLit(true)), Add, IntNode(1)), lib) == Ok(Int(2))
    ensures Eval(Node.Constant(ImagLit(1.0)), lib) == Err(EvalError(InvalidConstant))
    ensures Eval(BinOp(IntNode(1), OtherBinOp, IntNode(0)), lib) == Err(EvalError(UnsupportedBinaryOp))
  {
  }

  /** A call of a whitelisted name on one argument. */
  lemma OneArgumentCall(id: string, x: Node, lib: MathLib)
    requires id in SafeMath
    ensures Eval(x, lib).Err? ==> Eval(CallOf(id, [x]), lib) == Err(Eval(x, lib).error)
    ensures Eval(x, lib).Ok? ==> Eval(CallOf(id, [x]), lib) == Invoke(SafeMath[id], [Eval(x, lib).value], lib)
  {
    var args := [x];
    assert args[0] == x && args[1..] == [];
    if Eval(x, lib).Ok? {
      assert EvalArgs(args, lib) == Ok([Eval(x, lib).value] + []);
      assert [Eval(x, lib).value] + [] == [Eval(x, lib).value];
    }
  }

  /** `factorial(4)` is 24. */
  lemma FactorialOfFour(lib: MathLib)
    ensures Eval(CallOf("factorial", [IntNode(4)]), lib) == Ok(Int(24))
  {
    OneArgumentCall("factorial", IntNode(4), lib);
    assert Fact(4) == 24 by {
      assert Fact(2) == 2;
    }
  }

  /** `factorial` refuses a negative `int` and every `float`, integral or not. */
  lemma FactorialRefusals(lib: MathLib)
    ensures Eval(CallOf("factorial", [IntNode(-1)]), lib) == Err(EvalError(FunctionError))
    ensures Eval(CallOf("factorial", [FloatNode(2.5)]), lib) == Err(EvalError(FunctionError))
    ensures Eval(CallOf("factorial", [FloatNode(4.0)]), lib) == Err(EvalError(FunctionError))
  {
    OneArgumentCall("factorial", IntNode(-1), lib);
    OneArgumentCall("factorial", FloatNode(2.5), lib);
    OneArgumentCall("factorial", FloatNode(4.0), lib);
  }

  /** `foo(1)` is refused by name. */
  lemma UnknownFunctionExample(lib: MathLib)
    ensures Eval(CallOf("foo", [IntNode(1)]), lib) == Err(EvalError(FunctionNotAllowed("foo")))
  {
    assert "foo" !in SafeMath;
  }

  /** `pi(2)` calls a number, which raises inside the `try`. */
  lemma ConstantCallExample(lib: MathLib)
    ensures Eval(CallOf("pi", [IntNode(2)]), lib) == Err(EvalError(FunctionError))
  {
    OneArgumentCall("pi", IntNode(2), lib);
  }

  /** `pow(2)` raises inside the built-in `pow`. */
  lemma PowArityExample(lib: MathLib)
    ensures Eval(CallOf("pow", [IntNode(2)]), lib) == Err(EvalError(FunctionError))
  {
    OneArgumentCall("pow", IntNode(2), lib);
  }

  /** `pow(2, 3, 5)` is 3. */
  lemma ModularPowExample(lib: MathLib)
    ensures Eval(CallOf("pow", [IntNode(2), IntNode(3), IntNode(5)]), lib) == Ok(Int(3))
  {
    assert IntPow(2, 3) == 8;
    assert IntMod(8, 5) == 3;
  }

  /** `sqrt(-1)` raises inside `math.sqrt`, while `sqrt(1/0)` keeps the
      message of its argument. */
  lemma SqrtExamples(lib: MathLib)
    ensures Eval(CallOf("sqrt", [UnaryOp(USub, IntNode(1))]), lib) == Err(EvalError(FunctionError))
    ensures Eval(CallOf("sqrt", [BinOp(IntNode(1), Div, IntNode(0))]), lib) == Err(EvalError(DivisionByZero))
  {
    OneArgumentCall("sqrt", UnaryOp(USub, IntNode(1)), lib);
    OneArgumentCall("sqrt", BinOp(IntNode(1), Div, IntNode(0)), lib);
  }

  /** `log` is the base-10 logarithm and `ln` the natural one. */
  lemma LogExamples(lib: MathLib)
    ensures Eval(CallOf("log", [IntNode(100)]), lib) == Ok(Float(lib.log10(100.0)))
    ensures Eval(CallOf("ln", [IntNode(100)]), lib) == Ok(Float(lib.ln(100.0)))
  {
    OneArgumentCall("log", IntNode(100), lib);
    OneArgumentCall("ln", IntNode(100), lib);
  }

  /** `(-1)**0.5`, the square root of minus one. */
  function NegativeRoot(): Node
  {
    BinOp(UnaryOp(USub, IntNode(1)), Pow, FloatNode(0.5))
  }

  /** `(-1)**0.5` evaluates to a complex number. */
  lemma NegativeRootIsComplex(lib: MathLib)
    ensures Eval(NegativeRoot(), lib).Ok? && Eval(NegativeRoot(), lib).value.Complex?
  {
    assert Eval(UnaryOp(USub, IntNode(1)), lib) == Ok(Int(-1));
    assert !IsIntegral(0.5);
  }

  /** `(-1)**0.5` is complex and so rejected, while `abs((-1)**0.5)` is a
      `float` and accepted: only the final value is checked. */
  lemma ComplexOnlyAtTheEnd(text1: string, text2: string, parse: string -> Option<Node>, lib: MathLib)
    requires parse(Normalize(text1)) == Some(NegativeRoot())
    requires parse(Normalize(text2)) == Some(CallOf("abs", [NegativeRoot()]))
    ensures SafeEval(text1, parse, lib) == Err(EvalError(ComplexResultNotSupported))
    ensures SafeEval(text2, parse, lib).Ok? && SafeEval(text2, parse, lib).value.Float?
  {
    NegativeRootIsComplex(lib);
    FinalComplexCheck(text1, parse, NegativeRoot(), lib);
    AbsOfNegativeRoot(lib);
    FinalComplexCheck(text2, parse, CallOf("abs", [NegativeRoot()]), lib);
  }

  /** `abs((-1)**0.5)` is the modulus of the complex root, a `float`. */
  lemma AbsOfNegativeRoot(lib: MathLib)
    ensures Eval(CallOf("abs", [NegativeRoot()]), lib).Ok?
    ensures Eval(CallOf("abs", [NegativeRoot()]), lib).value.Float?
  {
    NegativeRootIsComplex(lib);
    var z := Eval(NegativeRoot(), lib).value;
    OneArgumentCall("abs", NegativeRoot(), lib);
    assert Apply(BuiltinAbs, [z], lib) == Some(Float(lib.hypot(z.re, z.im)));
  }

  /** `1/(((-1)**0.5)**2 - (-1)**0.5*(-1)**0.5)` is refused as a division by
      zero: the square of a complex number is its product with itself. */
  lemma SquareOfRootMinusProduct(lib: MathLib)
    ensures Eval(BinOp(IntNode(1), Div,
                       BinOp(BinOp(NegativeRoot(), Pow, IntNode(2)), Sub,
                             BinOp(NegativeRoot(), Mult, NegativeRoot()))), lib)
            == Err(EvalError(DivisionByZero))
  {
    NegativeRootIsComplex(lib);
    var z := Eval(NegativeRoot(), lib).value;
    SquareMinusProduct(z.re, z.im, lib);
  }
}
