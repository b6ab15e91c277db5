/** The name whitelist `SAFE_MATH` of Calc/calculator2025.py (lines 38-48) and
    the callables it holds.

    The source first copies every public name of Python's `math` module (line
    38) and then overwrites or adds a few entries (lines 39-48).  This model
    keeps a closed part of the first step, the `math` names listed in
    `Reflected` below (the constants and the functions the model evaluates),
    and the second step as written; `dict.update` lets the later entries
    win, which Dafny's map union `+` does as well.
 */
module Registry {
  import opened Outcomes
  import opened PyNumbers

  /** The callables a registry entry can hold. */
  datatype Builtin =
    | Sqrt        // math.sqrt
    | NaturalLog  // math.log, with an optional base
    | Log10       // math.log10
    | MathPow     // math.pow
    | Factorial   // math.factorial
    | Sin         // math.sin
    | Cos         // math.cos
    | Tan         // math.tan
    | BuiltinPow  // the built-in pow
    | BuiltinAbs  // the built-in abs

  /** A whitelisted name stands for a number or for a callable. */
  datatype Entry = Constant(value: Value) | Function(f: Builtin)

  /** `math.pi` and `math.e`, written out as the exact binary64 values. */
  const Pi: real := 3.141592653589793115997963468544185161590576171875
  const E: real := 2.718281828459045090795598298427648842334747314453125

  /** The names this model keeps from `dir(math)`, bound as `math` binds them. */
  const Reflected: map<string, Entry> := map[
    "pi" := Constant(Float(Pi)),
    "e" := Constant(Float(E)),
    "sqrt" := Function(Sqrt),
    "log" := Function(NaturalLog),
    "log10" := Function(Log10),
    "pow" := Function(MathPow),
    "factorial" := Function(Factorial),
    "sin" := Function(Sin),
    "cos" := Function(Cos),
    "tan" := Function(Tan)]

  /** The explicit entries of `SAFE_MATH.update({...})`. */
  const Overrides: map<string, Entry> := map[
    "pi" := Constant(Float(Pi)),
    "e" := Constant(Float(E)),
    "sqrt" := Function(Sqrt),
    "ln" := Function(NaturalLog),
    "log" := Function(Log10),
    "pow" := Function(BuiltinPow),
    "abs" := Function(BuiltinAbs),
    "factorial" := Function(Factorial)]

  /** `SAFE_MATH` after the update, written out; `SafeMathIsUpdate` shows
      that it is `Reflected` updated by `Overrides`. */
  const SafeMath: map<string, Entry> := map[
    "pi" := Constant(Float(Pi)),
    "e" := Constant(Float(E)),
    "sqrt" := Function(Sqrt),
    "ln" := Function(NaturalLog),
    "log" := Function(Log10),
    "log10" := Function(Log10),
    "pow" := Function(BuiltinPow),
    "abs" := Function(BuiltinAbs),
    "factorial" := Function(Factorial),
    "sin" := Function(Sin),
    "cos" := Function(Cos),
    "tan" := Function(Tan)]

  /** `SAFE_MATH.update(...)`: a name of `Overrides` takes its new entry, and
      every other name keeps its entry from `math`. */
  lemma SafeMathIsUpdate()
    ensures SafeMath == Reflected + Overrides
    ensures forall name :: name in Overrides ==> name in SafeMath && SafeMath[name] == Overrides[name]
    ensures forall name :: name in Reflected && name !in Overrides ==> name in SafeMath && SafeMath[name] == Reflected[name]
  {
    assert SafeMath.Keys == Reflected.Keys + Overrides.Keys;
  }

  /** The names of the whitelist, and what the update changed: `log` is now
      base 10, `ln` is the natural logarithm, and `pow` is the built-in one. */
  lemma SafeMathContents()
    ensures SafeMath.Keys ==
            {"pi", "e", "sqrt", "ln", "log", "log10", "pow", "abs", "factorial", "sin", "cos", "tan"}
    ensures Reflected["log"] == Function(NaturalLog) && SafeMath["log"] == Function(Log10)
    ensures SafeMath["ln"] == Function(NaturalLog)
    ensures Reflected["pow"] == Function(MathPow) && SafeMath["pow"] == Function(BuiltinPow)
    ensures SafeMath["pi"] == Constant(Float(Pi)) && SafeMath["e"] == Constant(Float(E))
  {
  }

  /** Only `pi` and `e` are numbers; every other name is a callable, and the
      overridden `math.pow` can no longer be reached. */
  lemma {:induction false} SafeMathEntries(name: string)
    requires name in SafeMath
    ensures SafeMath[name].Constant? <==> name == "pi" || name == "e"
    ensures SafeMath[name].Constant? ==> SafeMath[name].value.Float?
    ensures SafeMath[name] == Function(BuiltinPow) <==> name == "pow"
    ensures SafeMath[name] != Function(MathPow)
  {
    SafeMathContents();
  }

  /** The largest C `long` on a 64-bit Linux or macOS build of CPython:
      `math.factorial` raises `OverflowError` for an argument above it. */
  const LongMax: int := 9223372036854775807

  /** `n!` on Python's unbounded integers. */
  function Fact(n: nat): (f: nat)
    ensures f >= 1
    ensures f >= n
  {
    if n == 0 then 1 else n * Fact(n - 1)
  }

  /** `k` is an inverse of `a` modulo `m`. */
  predicate IsInverse(a: int, m: nat, k: int)
    requires m >= 1
  {
    (a * k) % m == 1 % m
  }

  /** The least inverse of `a` modulo `m` at or above `k`, if there is one. */
  function InverseFrom(a: int, m: nat, k: nat): (r: Option<nat>)
    requires m >= 1 && k <= m
    ensures r.Some? ==> k <= r.value < m && IsInverse(a, m, r.value)
    ensures r.None? ==> forall j :: k <= j < m ==> !IsInverse(a, m, j)
    decreases m - k
  {
    if k == m then None
    else if IsInverse(a, m, k) then Some(k)
    else InverseFrom(a, m, k + 1)
  }

  /** `|m|`, the modulus the three-argument `pow` works modulo. */
  function Modulus(m: int): (n: nat)
    ensures m != 0 ==> n >= 1
    ensures n == m || n == -m
  {
    if m >= 0 then m else -m
  }

  /** A multiple of `k` leaves no remainder. */
  lemma MultipleMod(k: int, x: int)
    requires k >= 1
    ensures (k * x) % k == 0
  {
    var y := k * x;
    var q, r := y / k, y % k;
    assert y == k * q + r;
    assert k * (x - q) == r by { assert k * (x - q) == k * x - k * q; }
    ProductBound(k, x - q);
  }

  /** A product with a non-zero whole factor is at least as large as the other factor. */
  lemma ProductBound(k: int, t: int)
    requires k >= 1
    ensures t >= 1 ==> k * t >= k
    ensures t <= -1 ==> k * t <= -k
  {
    if t >= 1 {
      assert k * t == k + k * (t - 1);
    } else if t <= -1 {
      assert k * t == -k + k * (t + 1);
    }
  }

  /** Python's `p % m` differs from `p` by a multiple of `m`. */
  lemma ResidueCongruent(p: int, m: int)
    requires m != 0
    ensures (p - IntMod(p, m)) % Modulus(m) == 0
  {
    var q := FloorDiv(p, m);
    assert p - IntMod(p, m) == q * m;
    if m > 0 {
      assert q * m == m * q;
      MultipleMod(m, q);
    } else {
      assert q * m == Modulus(m) * -q;
      MultipleMod(Modulus(m), -q);
    }
  }

  /** Three-argument `pow(a, b, m)` on integers.  A zero modulus raises
      `ValueError`, and so does a negative exponent when `a` has no inverse
      modulo `m`; otherwise the result has the sign of `m`, and for `b >= 0` it
      is congruent to `a ** b`. */
  function ModPow(a: int, b: int, m: int): (r: Option<int>)
    ensures m == 0 ==> r.None?
    ensures r.Some? ==> if m > 0 then 0 <= r.value < m else m < r.value <= 0
    ensures b >= 0 && m != 0 ==> r.Some? && (IntPow(a, b) - r.value) % Modulus(m) == 0
    ensures b < 0 && m != 0 ==>
              (r.Some? <==> exists k :: 0 <= k < Modulus(m) && IsInverse(a, Modulus(m), k))
  {
    if m == 0 then None
    else if b >= 0 then
      ResidueCongruent(IntPow(a, b), m);
      Some(IntMod(IntPow(a, b), m))
    else
      match InverseFrom(a, Modulus(m), 0)
      case None => None
      case Some(inv) => Some(IntMod(IntPow(inv, -b), m))
  }

  /** The argument counts each callable accepts. */
  function Arity(f: Builtin): set<nat>
  {
    match f
    case NaturalLog => {1, 2}
    case MathPow => {2}
    case BuiltinPow => {2, 3}
    case _ => {1}
  }

  /** The single argument of a `math` function that takes one real number;
      a complex argument raises `TypeError`. */
  function RealArg(args: seq<Value>): Option<real>
  {
    if |args| == 1 && !args[0].Complex? then Some(Re(args[0])) else None
  }

  /** Calling a whitelisted callable on evaluated arguments; `None` stands for
      any exception the callable raises. */
  function Apply(f: Builtin, args: seq<Value>, lib: MathLib): (r: Option<Value>)
    ensures |args| !in Arity(f) ==> r.None?
    ensures f !in {BuiltinPow, BuiltinAbs} && (exists i :: 0 <= i < |args| && args[i].Complex?) ==> r.None?
    ensures f != BuiltinPow && r.Some? ==> !r.value.Complex?
    ensures f in {Sqrt, NaturalLog, Log10, MathPow, Sin, Cos, Tan} && r.Some? ==> r.value.Float?
  {
    match f
    case Sqrt =>
      (match RealArg(args)
       case Some(x) => if x < 0.0 then None else Some(Float(lib.sqrt(x)))
       case None => None)
    case NaturalLog =>
      if |args| == 2 then
        if args[0].Complex? || args[1].Complex? then None
        else
          var x, base := Re(args[0]), Re(args[1]);
          if x <= 0.0 || base <= 0.0 || lib.ln(base) == 0.0 then None
          else Some(Float(lib.ln(x) / lib.ln(base)))
      else
        (match RealArg(args)
         case Some(x) => if x <= 0.0 then None else Some(Float(lib.ln(x)))
         case None => None)
    case Log10 =>
      (match RealArg(args)
       case Some(x) => if x <= 0.0 then None else Some(Float(lib.log10(x)))
       case None => None)
    case Sin =>
      (match RealArg(args)
       case Some(x) => Some(Float(lib.sin(x)))
       case None => None)
    case Cos =>
      (match RealArg(args)
       case Some(x) => Some(Float(lib.cos(x)))
       case None => None)
    case Tan =>
      (match RealArg(args)
       case Some(x) => Some(Float(lib.tan(x)))
       case None => None)
    case MathPow =>
      if |args| != 2 || args[0].Complex? || args[1].Complex? then None
      else
        var x, y := Re(args[0]), Re(args[1]);
        if x < 0.0 && !IsIntegral(y) then None
        else if x == 0.0 && y < 0.0 then None
        else Some(RealPower(x, y, lib).value)
    case Factorial =>
      if |args| == 1 && args[0].Int? && 0 <= args[0].i <= LongMax then Some(Int(Fact(args[0].i))) else None
    case BuiltinAbs =>
      if |args| != 1 then None
      else
        (match args[0]
         case Int(i) => Some(Int(if i < 0 then -i else i))
         case Float(x) => Some(Float(if x < 0.0 then -x else x))
         case Complex(re, im) => Some(Float(lib.hypot(re, im))))
    case BuiltinPow =>
      if |args| == 2 then
        (match Power(args[0], args[1], lib)
         case Ok(v) => Some(v)
         case Err(_) => None)
      else if |args| == 3 && args[0].Int? && args[1].Int? && args[2].Int? then
        (match ModPow(args[0].i, args[1].i, args[2].i)
         case Some(n) => Some(Int(n))
         case None => None)
      else None
  }

  /** `sqrt`, `ln` and `log` reject exactly the arguments outside their real
      domain, and return the library's value inside it. */
  lemma DomainErrors(x: Value, base: Value, lib: MathLib)
    requires !x.Complex? && !base.Complex?
    ensures Apply(Sqrt, [x], lib).None? <==> Re(x) < 0.0
    ensures Re(x) >= 0.0 ==> Apply(Sqrt, [x], lib) == Some(Float(lib.sqrt(Re(x))))
    ensures Apply(NaturalLog, [x], lib).None? <==> Re(x) <= 0.0
    ensures Apply(Log10, [x], lib).None? <==> Re(x) <= 0.0
    ensures Re(x) > 0.0 ==> Apply(NaturalLog, [x], lib) == Some(Float(lib.ln(Re(x))))
    ensures Re(x) > 0.0 ==> Apply(Log10, [x], lib) == Some(Float(lib.log10(Re(x))))
    ensures Apply(NaturalLog, [x, base], lib).None? <==>
              Re(x) <= 0.0 || Re(base) <= 0.0 || lib.ln(Re(base)) == 0.0
    ensures Re(x) > 0.0 && Re(base) > 0.0 && lib.ln(Re(base)) != 0.0 ==>
              Apply(NaturalLog, [x, base], lib) == Some(Float(lib.ln(Re(x)) / lib.ln(Re(base))))
  {
  }

  /** `sin`, `cos` and `tan` accept every real number and return the
      library's value. */
  lemma TrigonometryEntries(x: Value, lib: MathLib)
    requires !x.Complex?
    ensures Apply(Sin, [x], lib) == Some(Float(lib.sin(Re(x))))
    ensures Apply(Cos, [x], lib) == Some(Float(lib.cos(Re(x))))
    ensures Apply(Tan, [x], lib) == Some(Float(lib.tan(Re(x))))
  {
  }

  /** `factorial` is the exact integer factorial on the `int`s from 0 to
      `LongMax`, and raises on negative numbers, on larger numbers and on
      every `float`, integral or not. */
  lemma FactorialEntry(n: int, x: real, lib: MathLib)
    ensures 0 <= n <= LongMax ==> Apply(Factorial, [Int(n)], lib) == Some(Int(Fact(n)))
    ensures Apply(Factorial, [Int(n)], lib).Some? <==> 0 <= n <= LongMax
    ensures Apply(Factorial, [Float(x)], lib).None?
  {
  }

  /** `abs` keeps the numeric type of a real argument and returns its magnitude. */
  lemma AbsEntry(v: Value, lib: MathLib)
    requires !v.Complex?
    ensures Apply(BuiltinAbs, [v], lib).Some?
    ensures var a := Apply(BuiltinAbs, [v], lib).value;
      && a.Int? == v.Int? && !a.Complex?
      && Re(a) >= 0.0 && (Re(a) == Re(v) || Re(a) == -Re(v))
  {
  }

  /** Two-argument `pow` is `**`, except that its exceptions are the
      callable's own and so become "Function error" in the evaluator. */
  lemma PowEntryIsPowerOperator(x: Value, y: Value, lib: MathLib)
    ensures Power(x, y, lib).Ok? ==> Apply(BuiltinPow, [x, y], lib) == Some(Power(x, y, lib).value)
    ensures Power(x, y, lib).Err? ==> Apply(BuiltinPow, [x, y], lib).None?
  {
  }
}
