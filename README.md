# A verified model of the calculator's safe expression evaluator

`Calc/calculator2025.py` is a desktop calculator. Every expression the user
types goes through `safe_eval`. That function:

- rewrites the display glyphs `×`, `÷`, `^` and `√` into Python syntax;
- parses the text with `ast.parse`;
- walks the tree with `_eval`, which admits only numeric literals, `+ - * / % **`,
  unary `-` and `+`, calls of whitelisted names and whitelisted names;
- rejects a complex final value.

Most refusals are an `EvalError` with its own message. In the model, two
exceptions escape unwrapped: `%` by zero or on a complex operand, and `**` of
zero to a negative or complex power. In the source, further exceptions escape
too: a `TypeError` from an operation on a function object, an `OverflowError`
from float arithmetic and a `RecursionError` on a deeply nested tree. The model
leaves these out (see "Left out"). The whitelist `SAFE_MATH`
holds `math`'s names, overridden so that `ln` is the natural logarithm, `log`
is the base-10 logarithm, `pow` is the built-in `pow`, and `abs` is added.

This project models that evaluator. It also models two small helpers of the
calculator window: the character filter for pasted text and the guard of the
factorial button.

The modules are:

- `Outcomes` (`outcomes.dfy`): one error kind per `EvalError` message. An
  exception that escapes `safe_eval` unwrapped (`5 % 0`, `0 ** -1`) is a
  separate `Uncaught` failure.
- `PyNumbers` (`numbers.dfy`): Python's `int`/`float`/`complex` and the
  operators the walk applies, with Python's type promotion, floor modulo and
  the `**` rules. Floats are exact reals. The host math library is a value
  `MathLib` passed as a parameter: its domains are stated, its values are not.
- `Registry` (`registry.dfy`): `SAFE_MATH` and the callables it holds. Each
  callable has its accepted argument counts and its domain errors.
  `factorial` is the exact integer factorial up to the C `long` maximum,
  above which CPython raises `OverflowError`. Three-argument `pow` is modular
  exponentiation.
- `Glyphs` (`glyphs.dfy`): the glyph rewrite.
- `Evaluator` (`evaluator.dfy`): the tree, `_eval` (`Eval`/`EvalArgs`) and
  `safe_eval` (`SafeEval`). `SafeEval` takes the parser as a parameter.
- `EvaluatorProperties` (`evaluator_properties.dfy`): the following
  guarantees.
  - The evaluation order.
  - The call guards and where errors are wrapped.
  - Name resolution.
  - The final complex check.
  - Where each kind of failure can come from.
  - A reference real-number semantics for plain arithmetic, proved to agree
    with the walk.
  - The behaviour on concrete inputs.
- `Actions` (`actions.dfy`): the paste filter and the factorial button.

A reader might expect a few guarantees that the code does not give. The model
follows the code:

- There is no separate arity or unknown-function error. A wrong argument
  count raises inside the callee and becomes "Function error". An unlisted
  callee gives "Function {name} not allowed".
- Only the final value is checked for being complex. An intermediate complex
  value passes, as in `abs((-1)**0.5)` (`EvaluatorProperties.ComplexOnlyAtTheEnd`).
- `_eval` has no depth bound of its own. The limits of `ast.parse` (a
  `SyntaxError` for too many nested parentheses, a `MemoryError` when its
  stack overflows) are caught at lines 63-64 and become "Syntax error"; in the
  model they reach `SafeEval` as the parser returning `None`.
- The whitelist is the reflected `math` table updated by explicit entries,
  not a closed table. `pow` takes two or three arguments and `ln` one or two.

## Model

| member | source | states |
|---|---|---|
| Registry.SafeMathIsUpdate | Calc/calculator2025.py:38-48 | the whitelist is the reflected `math` names updated by the explicit entries: an explicit name takes its new entry, every other name keeps its `math` entry |
| Registry.SafeMathContents | Calc/calculator2025.py:39-48 | the exact set of whitelisted names; `log` was `math.log` and becomes base 10, `ln` is the natural log, `pow` was `math.pow` and becomes the built-in, `pi` and `e` are the float constants |
| Registry.SafeMathEntries | Calc/calculator2025.py:39-48 | only `pi` and `e` are numbers, `pow` is the only name bound to the built-in `pow`, and `math.pow` is unreachable |
| Registry.Apply | Calc/calculator2025.py:42-47 | a wrong argument count always raises; the `math` functions raise on a complex argument; no callable except `pow` returns a complex value; the `math` functions return floats |
| Registry.DomainErrors | Calc/calculator2025.py:42-44 | `sqrt` raises exactly below zero, and `ln` and `log` exactly at or below zero; inside the domain each returns the library's value; `ln(x, b)` raises exactly when `x` or `b` is not positive or `ln(b)` is zero, and otherwise is `ln(x) / ln(b)` |
| Registry.TrigonometryEntries | Calc/calculator2025.py:38 | `sin`, `cos` and `tan` accept every real argument and return the library's value |
| Registry.FactorialEntry | Calc/calculator2025.py:47 | `factorial` succeeds on an int exactly when it lies from 0 to the C `long` maximum, with the exact factorial; it raises on every float |
| Registry.AbsEntry | Calc/calculator2025.py:46 | `abs` of a real number keeps int-ness and returns the magnitude |
| Registry.PowEntryIsPowerOperator | Calc/calculator2025.py:45 | the two-argument `pow` agrees with `**` and raises exactly where `**` does |
| Registry.ModPow | Calc/calculator2025.py:45 | three-argument `pow`: a zero modulus raises; the result has the sign of the modulus and lies within it; for a non-negative exponent it is congruent to the power; for a negative exponent it exists exactly when the base is invertible |
| Registry.ResidueCongruent | Calc/calculator2025.py:45 | Python's integer remainder differs from the dividend by a multiple of the modulus |
| PyNumbers.Trunc | Calc/calculator2025.py:360-362 | `int()` of a float rounds toward zero: the result lies within 1 of the value on the side of zero |
| PyNumbers.Add | Calc/calculator2025.py:76 | the sum's real and imaginary parts, and the result type under Python's promotion (int only from two ints, complex if either operand is complex) |
| PyNumbers.Sub | Calc/calculator2025.py:77 | the difference's parts and type, as for `+` |
| PyNumbers.Mul | Calc/calculator2025.py:78 | the complex product's parts and the result type |
| PyNumbers.Div | Calc/calculator2025.py:81 | true division never yields an int; on reals the quotient times the divisor is the dividend; the result is complex exactly when an operand is |
| PyNumbers.IntMod | Calc/calculator2025.py:82 | integer `%` is floor modulo: dividend = floor quotient × divisor + remainder, and the remainder has the divisor's sign and is smaller in magnitude |
| PyNumbers.FloatMod | Calc/calculator2025.py:82 | float `%` leaves a whole multiple of the divisor and takes the divisor's sign |
| PyNumbers.Mod | Calc/calculator2025.py:82 | `%` raises (not an `EvalError`) exactly on a complex operand or a zero divisor; otherwise it is floor modulo with the divisor's sign, an int exactly for two ints |
| PyNumbers.RealPower | Calc/calculator2025.py:83 | float `**`: raises exactly for zero to a negative power; complex exactly for a negative base and a fractional exponent; a whole non-negative exponent gives the repeated product and a whole negative one its reciprocal; zero to a positive power is 0.0; a positive base to a fractional power is the library's value |
| PyNumbers.ComplexPower | Calc/calculator2025.py:83 | complex `**` (CPython's `complex_pow`): exponent zero gives `1+0j`; zero to a negative or complex power raises, and to a positive real power gives `0j`; a non-zero base to a real whole exponent `n` with `|n| <= 100` gives the exact product of `n` factors for `n > 0` and one divided by the product of `-n` factors for `n < 0`; every other complex power is the library's value |
| PyNumbers.PowerOfNonZero | Calc/calculator2025.py:83 | a whole power of a non-zero complex number is non-zero, so the reciprocal a negative exponent takes never divides by zero |
| PyNumbers.ProductNonZero | Calc/calculator2025.py:78 | the product of two non-zero complex numbers is non-zero |
| PyNumbers.MulNonZero | Calc/calculator2025.py:78 | complex `*` of two non-zero operands is non-zero |
| PyNumbers.RealBasePower | Calc/calculator2025.py:83 | the exact complex power of a real base is the real repeated product with zero imaginary part |
| PyNumbers.ComplexSquare | Calc/calculator2025.py:83 | `z ** 2` of a complex `z` is exactly `z * z` |
| PyNumbers.ImaginaryUnitSquared | Calc/calculator2025.py:83 | `1j ** 2` is `-1+0j` |
| PyNumbers.SquareMinusProduct | Calc/calculator2025.py:77-83 | `z ** 2 - z * z` is zero for every complex `z` |
| PyNumbers.Power | Calc/calculator2025.py:83 | `**` raises `ZeroDivisionError` exactly for zero to a negative or complex power; the result is an int exactly for int to a non-negative int; it is complex exactly when an operand is complex or a negative base meets a fractional exponent; an int to a negative int is the float reciprocal of the positive power; mixed real operands follow float `**` and complex ones complex `**` |
| PyNumbers.NegativeWholePower | Calc/calculator2025.py:83 | for a non-zero int base, `a ** -n` is `1 / a ** n` as a float, whether base or exponent is an int or a float, and times `a ** n` it gives 1 |
| PyNumbers.PowerPromotion | Calc/calculator2025.py:83 | an int power and the same power of the equal float have the same value |
| PyNumbers.Negate | Calc/calculator2025.py:87 | unary minus negates both parts and keeps the type |
| Glyphs.Replace | Calc/calculator2025.py:59 | `str.replace` of one character introduces only characters of the replacement, leaves no occurrence when the replacement does not contain the character, and leaves text without the character unchanged |
| Glyphs.ReplaceChar | Calc/calculator2025.py:59 | on one character, the replaced character becomes the replacement and any other character stays; with `ReplaceAppend` this fixes the result on every text |
| Glyphs.ReplaceAppend | Calc/calculator2025.py:59 | replacing distributes over concatenation |
| Glyphs.NormalizeIsSpellOut | Calc/calculator2025.py:59 | the four chained replacements equal an independent character-by-character spelling of the glyphs |
| Glyphs.Normalize | Calc/calculator2025.py:59 | no `×`, `÷`, `^` or `√` survives the rewrite, and every character of the result is a character of the input or of the spellings `*`, `/`, `**`, `sqrt`; its exact value is fixed by `NormalizeIsSpellOut` |
| Glyphs.NormalizeKeepsPlainText | Calc/calculator2025.py:59 | text without glyphs is unchanged |
| Glyphs.NormalizeIdempotent | Calc/calculator2025.py:59 | rewriting twice equals rewriting once |
| Glyphs.CaretExample | Calc/calculator2025.py:59 | `2^3` becomes `2**3` |
| Glyphs.RadicalExample | Calc/calculator2025.py:59 | `√(9)` becomes `sqrt(9)` |
| Evaluator.LiteralValue | Calc/calculator2025.py:68-72 | exactly int, float and bool literals are accepted, a bool as 0 or 1, and the rest fail with "Invalid constant" |
| Evaluator.Binary | Calc/calculator2025.py:75-84 | `/` fails with "Division by zero" exactly when the right operand equals zero; `%` escapes with `ZeroDivisionError` on a zero divisor; unknown operators fail with "Unsupported binary op"; only `/` and unknown operators produce an `EvalError`, only `%` and `**` let an exception escape, and only `**` makes a complex value from real operands |
| Evaluator.Unary | Calc/calculator2025.py:86-89 | `-` negates, `+` returns its operand, anything else fails with "Unsupported unary op" |
| Evaluator.Invoke | Calc/calculator2025.py:97-100 | any exception of the callee, including calling a number, becomes "Function error"; otherwise the callee's value is returned |
| Evaluator.Lookup | Calc/calculator2025.py:101-104 | a name is a value exactly when it is a whitelisted constant; a name outside the whitelist fails with "Name not allowed" |
| Evaluator.Eval | Calc/calculator2025.py:65-105 | the walk never yields "Syntax error" or "Complex result not supported" |
| Evaluator.EvalArgs | Calc/calculator2025.py:96 | successful argument evaluation yields one value per argument |
| Evaluator.SafeEval | Calc/calculator2025.py:53-109 | a successful result is never complex; "Syntax error" exactly when the parser fails on the rewritten text |
| EvaluatorProperties.NodeDispatch | Calc/calculator2025.py:65-105 | the `Expression` wrapper evaluates its body, a constant evaluates its literal, and any other node kind fails with "Unsupported expression" |
| EvaluatorProperties.BinOpOrder | Calc/calculator2025.py:73-84 | left operand first, then right, then the operator; the first failure is the result |
| EvaluatorProperties.ZeroDivisor | Calc/calculator2025.py:79-82 | a zero right operand makes `/` fail with "Division by zero" and never yield a value; `%` by zero escapes as a non-`EvalError` exception |
| EvaluatorProperties.UnaryOpMeaning | Calc/calculator2025.py:85-89 | the operand is evaluated first; `+` returns it unchanged, `-` negates it, others fail |
| EvaluatorProperties.CallCheckedBeforeArguments | Calc/calculator2025.py:90-95 | a non-name callee fails with "Invalid function" and an unlisted name with "Function {name} not allowed", whatever the arguments, so no argument is evaluated first |
| EvaluatorProperties.KeywordsIgnored | Calc/calculator2025.py:96-98 | keyword arguments never change the result |
| EvaluatorProperties.ArgumentsInOrder | Calc/calculator2025.py:96 | the argument list evaluates exactly when each argument does, and to their values in order |
| EvaluatorProperties.FirstArgumentFailure | Calc/calculator2025.py:96 | the leftmost failing argument decides the failure |
| EvaluatorProperties.ArgumentErrorKeepsMessage | Calc/calculator2025.py:96-100 | an error while evaluating an argument keeps its own message instead of becoming "Function error" |
| EvaluatorProperties.CalleeErrorWrapped | Calc/calculator2025.py:96-100 | once the arguments are values, a raising callee gives "Function error" and a returning one gives its value |
| EvaluatorProperties.NameMeaning | Calc/calculator2025.py:101-104 | a bare name is a value exactly for `pi` and `e`; an unlisted name fails with "Name not allowed" |
| EvaluatorProperties.FinalComplexCheck | Calc/calculator2025.py:106-109 | "Complex result not supported" exactly when the walk returns a complex value; every other outcome of the walk is returned unchanged |
| EvaluatorProperties.Provenance | Calc/calculator2025.py:65-105 | success uses only whitelisted names; "Division by zero" needs a `/`; an escaping exception needs a `%` or `**`; "Function error" needs a call; a complex value needs `**` or a call of `pow` |
| EvaluatorProperties.ProvenanceOf | Calc/calculator2025.py:96 | the same for an argument list |
| EvaluatorProperties.NoComplexWithoutPower | Calc/calculator2025.py:106-109 | without `**` and `pow`, the complex check never fires |
| EvaluatorProperties.EvalAgreesWithDenote | Calc/calculator2025.py:66-89 | on trees of numeric literals, `+ - * /` and unary signs, the walk computes the reference real value, as an int exactly when no float and no `/` occur; it fails with "Division by zero" exactly when a divisor is zero |
| EvaluatorProperties.ZeroDivisorExamples | Calc/calculator2025.py:79-83 | `5/0` fails with "Division by zero"; `5 % 0` and `0 ** -1` escape as `ZeroDivisionError` |
| EvaluatorProperties.ModuloExamples | Calc/calculator2025.py:82 | `7 % -3` is -2 and `-7 % 3` is 2 |
| EvaluatorProperties.PowerExamples | Calc/calculator2025.py:83 | `2**10` is the int 1024 and `2**-1` the float 0.5 |
| EvaluatorProperties.NegativeExponentExample | Calc/calculator2025.py:83 | `(-2) ** -3` is the float -0.125 |
| EvaluatorProperties.LiteralAndOperatorExamples | Calc/calculator2025.py:68-84 | `True + 1` is 2, `1j` is an invalid constant, `1 // 0` is an unsupported operator |
| EvaluatorProperties.FactorialOfFour | Calc/calculator2025.py:47 | `factorial(4)` is 24 |
| EvaluatorProperties.FactorialRefusals | Calc/calculator2025.py:96-100 | `factorial(-1)`, `factorial(2.5)` and `factorial(4.0)` give "Function error" |
| EvaluatorProperties.UnknownFunctionExample | Calc/calculator2025.py:94-95 | `foo(1)` gives "Function foo not allowed" |
| EvaluatorProperties.ConstantCallExample | Calc/calculator2025.py:97-100 | `pi(2)` gives "Function error" |
| EvaluatorProperties.PowArityExample | Calc/calculator2025.py:97-100 | `pow(2)` gives "Function error" |
| EvaluatorProperties.ModularPowExample | Calc/calculator2025.py:45 | `pow(2, 3, 5)` is 3 |
| EvaluatorProperties.SqrtExamples | Calc/calculator2025.py:96-100 | `sqrt(-1)` gives "Function error" while `sqrt(1/0)` gives "Division by zero" |
| EvaluatorProperties.LogExamples | Calc/calculator2025.py:43-44 | `log(100)` is the base-10 logarithm and `ln(100)` the natural one |
| EvaluatorProperties.NegativeRootIsComplex | Calc/calculator2025.py:83 | `(-1)**0.5` evaluates to a complex value |
| EvaluatorProperties.AbsOfNegativeRoot | Calc/calculator2025.py:46 | `abs((-1)**0.5)` is a float |
| EvaluatorProperties.ComplexOnlyAtTheEnd | Calc/calculator2025.py:106-109 | `(-1)**0.5` is rejected as complex while `abs((-1)**0.5)` is accepted: intermediate values are not checked |
| EvaluatorProperties.SquareOfRootMinusProduct | Calc/calculator2025.py:73-83 | `1/(((-1)**0.5)**2 - (-1)**0.5*(-1)**0.5)` is refused as a division by zero, whatever the library's root |
| Actions.AllowedIsAllowedText | Calc/calculator2025.py:522 | a character passes the filter's test exactly when it occurs in the allowed string: the digits, `.+-*/()%` and the ASCII letters, with the listed `eEpiPI` adding nothing |
| Actions.Filter | Calc/calculator2025.py:522-523 | every kept character is allowed, and the result is no longer than the input |
| Actions.FilterChar | Calc/calculator2025.py:523 | on one character, an allowed character is kept and any other is dropped, not replaced; with `FilterAppend` this fixes the result on every text |
| Actions.FilterAppend | Calc/calculator2025.py:523 | filtering distributes over concatenation |
| Actions.FilterKeepsAllowed | Calc/calculator2025.py:522-523 | text made of allowed characters is kept as it is |
| Actions.FilterIdempotent | Calc/calculator2025.py:523 | filtering twice equals filtering once |
| Actions.PastedTextIsPlain | Calc/calculator2025.py:523 | filtered text contains no glyphs, so the rewrite of `safe_eval` leaves it unchanged |
| Actions.Paste | Calc/calculator2025.py:520-524 | a paste keeps the expression as its prefix and appends exactly the filtered clipboard |
| Actions.PasteTwice | Calc/calculator2025.py:520-524 | two pastes in a row append what one paste of both clipboards appends, empty clipboards included |
| Actions.PasteDropsComma | Calc/calculator2025.py:522-523 | a pasted `pow(2, 3)` arrives as `pow(23)` |
| Actions.PasteDropsCaret | Calc/calculator2025.py:522-523 | a pasted `2^3` arrives as `23` |
| Actions.LeadingSpaces | Calc/calculator2025.py:354 | the count of leading whitespace: every character before it is whitespace and the one at it is not |
| Actions.TrailingSpaces | Calc/calculator2025.py:354 | the count of trailing whitespace: every character after the rest is whitespace and the last one of the rest is not |
| Actions.Strip | Calc/calculator2025.py:354 | the stripped text is a slice of the text with only whitespace outside it and none at its ends, and is empty exactly when the text is all whitespace |
| Actions.StripIdempotent | Calc/calculator2025.py:354 | stripping twice equals stripping once |
| Actions.FactorialButton | Calc/calculator2025.py:353-366 | a blank expression does nothing; a recorded result is the factorial of the recorded number, and it is shown and committed exactly when `str` can convert it (at most 4300 digits); a longer one is stored as the last answer and in the history before `factorial(` is appended |
| Actions.FactorialButtonGuard | Calc/calculator2025.py:358-366 | the factorial is recorded exactly when the value is whole and lies from 0 to the C `long` maximum, floats included, and it is the factorial of that number; it is committed exactly when it is short enough for `str`; otherwise `factorial(` is appended |
| Actions.ButtonAcceptsWholeFloat | Calc/calculator2025.py:358-363 | a value of `4.0` commits 24 through the button, while `factorial(4.0)` fails with "Function error" |

## Left out

- Parsing: `ast.parse` (line 62) is Python's own parser. `SafeEval` takes it as a function parameter, with `None` for a parse failure. The tree it builds is the `Node` datatype.
- The reflective copy of `math` (line 38): the model keeps `math`'s `pi`, `e`, `sqrt`, `log`, `log10`, `pow`, `factorial`, `sin`, `cos` and `tan`. The other `math` names (`floor`, `gcd`, `inf`, `nan`, `hypot`, ...) are not modelled. A call of one of them is refused with "Function ... not allowed" in the model.
- Floating point: a float is the exact real it denotes. Rounding, overflow (`OverflowError`), infinities and NaN are not modelled. Neither is `-0.0`.
- Transcendental values: `sqrt`, the logarithms, `sin`/`cos`/`tan`, real powers with a fractional exponent, complex powers other than a real whole exponent of at most 100 in size, and the complex modulus come from the `MathLib` parameter. Only their domains are modelled. A complex power with a small whole exponent is the exact product (CPython's `c_powi`); CPython squares repeatedly where the model multiplies one factor at a time, which on exact reals is the same value.
- Bare function names (line 103): the source returns the function object, and a later operation on it raises or displays it. The model resolves names only to the constants `pi` and `e`. It stops with the failure `FunctionObject(name)` for a name bound to a function, so `abs(sqrt)` or `sqrt / 0` do not get the source's messages.
- `bool` results: `True` evaluates to `True` in Python and displays as such. The model makes it the int 1.
- Starred arguments (`f(*x)`) are `OtherNode` and so "Unsupported expression", as in the source. Keyword values are carried in the tree but never evaluated, as in the source.
- Recursion depth: a `RecursionError` raised by `_eval` itself on a deeply nested tree is not modelled.
- `factorial` follows Python 3.10 and later, which refuse every float. Older versions accept an integral float.
- The factorial button follows the limit on `int`-to-`str` conversion of CPython 3.11 and later (4300 digits by default, `sys.set_int_max_str_digits` not modelled). Older versions show a factorial of any length.
- The window: widgets, the realtime evaluation in `_add`, history, memory M+/M-, the `.12g` result formatting, themes, keyboard and clipboard access are all left out. `Actions.Paste` takes the clipboard text as a parameter and not from the clipboard.
- Registry.FactorialEntry: the bound is the C `long` of 64-bit Linux and macOS builds; on Windows builds, where `long` has 32 bits, CPython's bound is 2147483647.
- PyNumbers.Div: for a complex operand the contract states only that the quotient is complex, not that it times the divisor gives the dividend. The complex-division body guards a zero norm, which a non-zero divisor never has, to keep the definition total.
- Registry.ModPow: for a negative exponent the contract states when a result exists and its range. It does not state that the result times the positive power is 1 modulo the modulus.
- Registry.Apply: the values of the transcendental functions are stated only as the `MathLib` values, not as properties of sine, logarithm, etc.
