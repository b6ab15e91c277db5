/** Two helpers of the calculator window in Calc/calculator2025.py, taken
    apart from the widgets: the character filter applied to pasted text
    (lines 517-524) and the guard of the factorial button (lines 353-366).
    Both act on the expression text; the widgets that hold it are not part
    of this model.
 */
module Actions {
  import opened Outcomes
  import opened PyNumbers
  import opened Registry
  import opened Glyphs
  import opened Evaluator
  import opened EvaluatorProperties

  // ---------------------------------------------------------------------
  // Pasting
  // ---------------------------------------------------------------------

  /** The characters a paste keeps: digits, `.`, `+ - * / ( ) %` and the
      ASCII letters. */
  predicate Allowed(ch: char)
  {
    ('0' <= ch <= '9') || ('a' <= ch <= 'z') || ('A' <= ch <= 'Z') || ch in ".+-*/()%"
  }

  const DigitText: string := "0123456789"
  const LowerText: string := "abcdefghijklmnopqrstuvwxyz"
  const UpperText: string := "ABCDEFGHIJKLMNOPQRSTUVWXYZ"

  /** The paste filter's allowed string, in the order it is spelled out:
      digits, the operators and parentheses, then `eEpiPI`, which are already among the ASCII
      letters, then the lower-case and the upper-case alphabets. */
  const AllowedText: string := DigitText + ".+-*/()%" + "eEpiPI" + LowerText + UpperText

  lemma InDigitText(ch: char)
    ensures ch in DigitText <==> '0' <= ch <= '9'
  {
  }

  lemma InLowerText(ch: char)
    ensures ch in LowerText <==> 'a' <= ch <= 'z'
  {
  }

  lemma InUpperText(ch: char)
    ensures ch in UpperText <==> 'A' <= ch <= 'Z'
  {
  }

  /** The character classes of `Allowed` are exactly the characters of the
      allowed string. */
  lemma AllowedIsAllowedText(ch: char)
    ensures Allowed(ch) <==> ch in AllowedText
  {
    InDigitText(ch);
    InLowerText(ch);
    InUpperText(ch);
  }

  /** The pasted text with every other character dropped, in order. */
  function Filter(s: string): (r: string)
    ensures |r| <= |s|
    ensures forall i :: 0 <= i < |r| ==> Allowed(r[i])
  {
    if s == [] then [] else (if Allowed(s[0]) then [s[0]] else []) + Filter(s[1..])
  }

  /** Filtering works character by character. */
  lemma {:induction false} FilterAppend(a: string, b: string)
    ensures Filter(a + b) == Filter(a) + Filter(b)
  {
    if a == [] {
      assert a + b == b;
    } else {
      assert (a + b)[0] == a[0];
      assert (a + b)[1..] == a[1..] + b;
      FilterAppend(a[1..], b);
    }
  }

  /** On one character the filter keeps an allowed character and drops any
      other one, rather than replacing it; with `FilterAppend` this determines
      the result on every text. */
  lemma FilterChar(ch: char)
    ensures Filter([ch]) == if Allowed(ch) then [ch] else []
  {
    assert [ch][1..] == [];
  }

  /** Text made of allowed characters only is pasted as it is. */
  lemma {:induction false} FilterKeepsAllowed(s: string)
    requires forall i :: 0 <= i < |s| ==> Allowed(s[i])
    ensures Filter(s) == s
  {
    if s != [] {
      FilterKeepsAllowed(s[1..]);
    }
  }

  /** Filtering twice is filtering once. */
  lemma FilterIdempotent(s: string)
    ensures Filter(Filter(s)) == Filter(s)
  {
    FilterKeepsAllowed(Filter(s));
  }

  /** A paste never brings a display glyph into the expression, so the
      clean-up of `safe_eval` leaves pasted text alone; in particular `^`,
      `×`, `÷` and `√` are dropped rather than rewritten. */
  lemma PastedTextIsPlain(s: string)
    ensures Normalize(Filter(s)) == Filter(s)
  {
    NormalizeKeepsPlainText(Filter(s));
  }

  /** What the paste appends to the expression: nothing for an empty
      clipboard, the filtered text otherwise. */
  function Paste(expr: string, clipboard: string): (r: string)
    ensures |expr| <= |r| && r[..|expr|] == expr
    ensures r[|expr|..] == Filter(clipboard)
  {
    if clipboard == [] then expr else expr + Filter(clipboard)
  }

  lemma PasteAppends(expr: string, clipboard: string)
    ensures Paste(expr, clipboard) == expr + Filter(clipboard)
  {
    assert Filter([]) == [];
  }

  /** Pasting the filtered text of a second clipboard right after a first is
      pasting the two at once. */
  lemma PasteTwice(expr: string, c1: string, c2: string)
    ensures Paste(Paste(expr, c1), c2) == Paste(expr, c1 + c2)
  {
    var f1, f2 := Filter(c1), Filter(c2);
    PasteAppends(expr, c1);
    PasteAppends(expr + f1, c2);
    PasteAppends(expr, c1 + c2);
    FilterAppend(c1, c2);
    assert (expr + f1) + f2 == expr + (f1 + f2);
  }

  /** Commas and spaces are dropped: a pasted `pow(2, 3)` arrives as
      `pow(23)`. */
  lemma PasteDropsComma()
    ensures Filter("pow(2, 3)") == "pow(23)"
  {
    CommaTail();
    CallHead();
    CommaSplit();
    FilterAppend("pow(2", ", 3)");
  }

  lemma CommaTail()
    ensures Filter(", 3)") == "3)"
  {
    assert ", 3)"[0] == ',' && ", 3)"[1..] == " 3)";
    assert " 3)"[0] == ' ' && " 3)"[1..] == "3)";
    assert Filter(", 3)") == Filter(" 3)");
    assert Filter(" 3)") == Filter("3)");
    FilterKeepsAllowed("3)");
  }

  lemma CallHead()
    ensures Filter("pow(2") == "pow(2"
  {
    FilterKeepsAllowed("pow(2");
  }

  lemma CommaSplit()
    ensures "pow(2" + ", 3)" == "pow(2, 3)"
    ensures "pow(2" + "3)" == "pow(23)"
  {
  }

  /** The caret is dropped rather than rewritten: a pasted `2^3` arrives as
      `23`. */
  lemma PasteDropsCaret()
    ensures Filter("2^3") == "23"
  {
    assert "2^3"[1..] == "^3" && "^3"[1..] == "3" && "3"[1..] == [];
  }

  // ---------------------------------------------------------------------
  // The factorial button
  // ---------------------------------------------------------------------

  /** Python's `str.isspace`, the test `str.strip()` uses: tab through
      carriage return, the separators U+001C to U+001F, the space, U+0085, the
      no-break space, and the other Unicode space, line and paragraph
      separators. */
  predicate IsSpace(ch: char)
  {
    ('\U{9}' <= ch <= '\U{D}') || ('\U{1C}' <= ch <= '\U{20}') || ch == '\U{85}' || ch == '\U{A0}'
    || ch == '\U{1680}' || ('\U{2000}' <= ch <= '\U{200A}') || ch == '\U{2028}' || ch == '\U{2029}'
    || ch == '\U{202F}' || ch == '\U{205F}' || ch == '\U{3000}'
  }

  /** The number of whitespace characters `s` starts with. */
  function LeadingSpaces(s: string): (n: nat)
    ensures n <= |s|
    ensures forall k :: 0 <= k < n ==> IsSpace(s[k])
    ensures n < |s| ==> !IsSpace(s[n])
  {
    if s != [] && IsSpace(s[0]) then
      var m := LeadingSpaces(s[1..]);
      assert forall k :: 1 <= k < 1 + m ==> s[k] == s[1..][k - 1];
      1 + m
    else 0
  }

  /** The number of whitespace characters `s` ends with. */
  function TrailingSpaces(s: string): (n: nat)
    ensures n <= |s|
    ensures forall k :: |s| - n <= k < |s| ==> IsSpace(s[k])
    ensures n < |s| ==> !IsSpace(s[|s| - 1 - n])
  {
    if s != [] && IsSpace(s[|s| - 1]) then
      var m := TrailingSpaces(s[..|s| - 1]);
      assert forall k :: 0 <= k < |s| - 1 ==> s[k] == s[..|s| - 1][k];
      1 + m
    else 0
  }

  /** `str.lstrip()`: the text without its leading whitespace. */
  function StripStart(s: string): string
  {
    s[LeadingSpaces(s)..]
  }

  /** `str.rstrip()`: the text without its trailing whitespace. */
  function StripEnd(s: string): string
  {
    s[..|s| - TrailingSpaces(s)]
  }

  /** Every character of `s` outside `s[i..j]` is whitespace. */
  predicate OnlySpaceOutside(s: string, i: int, j: int)
  {
    0 <= i <= j <= |s| && forall k :: 0 <= k < |s| && (k < i || j <= k) ==> IsSpace(s[k])
  }

  /** Cutting `i` characters off the front and then `m` off the back of what
      is left is the slice `s[i..|s| - m]`; when the cut characters are
      whitespace, only whitespace lies outside that slice. */
  lemma CutBothEnds(s: string, i: nat, m: nat)
    requires i + m <= |s|
    requires forall k :: 0 <= k < i ==> IsSpace(s[k])
    requires forall k :: |s| - i - m <= k < |s| - i ==> IsSpace(s[i..][k])
    ensures s[i..][..|s| - i - m] == s[i..|s| - m]
    ensures OnlySpaceOutside(s, i, |s| - m)
  {
    forall k | |s| - m <= k < |s| ensures IsSpace(s[k]) {
      assert s[k] == s[i..][k - i];
    }
  }

  /** `str.strip()`: the slice of the text that leaves only whitespace on
      either side and has none at its ends; it is empty exactly when the text
      is all whitespace. */
  function Strip(s: string): (r: string)
    ensures r != [] ==> !IsSpace(r[0]) && !IsSpace(r[|r| - 1])
    ensures r == [] <==> forall i :: 0 <= i < |s| ==> IsSpace(s[i])
    ensures exists i, j :: OnlySpaceOutside(s, i, j) && r == s[i..j]
  {
    var i := LeadingSpaces(s);
    var m := TrailingSpaces(s[i..]);
    CutBothEnds(s, i, m);
    var r := StripEnd(StripStart(s));
    assert r == s[i..|s| - m];
    assert r != [] ==> r[0] == s[i] && r[|r| - 1] == s[i..][|s| - i - 1 - m];
    r
  }

  /** Stripping twice is stripping once. */
  lemma StripIdempotent(s: string)
    ensures Strip(Strip(s)) == Strip(s)
  {
    var r := Strip(s);
    if r != [] {
      assert LeadingSpaces(r) == 0;
      assert r[0..] == r;
      assert TrailingSpaces(r) == 0;
    }
  }

  /** The number of decimal digits CPython's `str` converts by default
      (`sys.get_int_max_str_digits()`); a longer `int` raises `ValueError`. */
  const MaxStrDigits: nat := 4300

  /** `str(x)` of a non-negative `int` raises: `x` has more than
      `MaxStrDigits` digits. */
  predicate TooLongToShow(x: nat)
  {
    x >= IntPow(10, MaxStrDigits)
  }

  /** What pressing the factorial button does. */
  datatype Shortcut =
    | NoAction                         // the expression is blank
    | CommitFactorial(n: nat, f: nat)  // the result `f`, shown as `fact(n)`
      /** `_commit_result` stores `f` as the last answer and in the history,
          then fails to show it; `factorial(` is appended after all. */
    | RecordThenAppendCall(n: nat, f: nat)
    | AppendFactorialCall              // `factorial(` is appended for the user to complete

  /** The button evaluates the expression; a value that is non-negative and
      equal to its `int` conversion has its factorial committed, and any
      failure (of the evaluation, of the guard, or of `math.factorial` on a
      number above `LongMax`) appends `factorial(`.  A factorial too long for
      `str` is recorded before the display fails. */
  function FactorialButton(expr: string, parse: string -> Option<Node>, lib: MathLib): (s: Shortcut)
    ensures Strip(expr) == [] <==> s == NoAction
    ensures s.CommitFactorial? ==> s.f == Fact(s.n) && !TooLongToShow(s.f)
    ensures s.RecordThenAppendCall? ==> s.f == Fact(s.n) && TooLongToShow(s.f)
  {
    var text := Strip(expr);
    if text == [] then NoAction
    else
      match SafeEval(text, parse, lib)
      case Err(_) => AppendFactorialCall
      case Ok(v) =>
        if Re(v) < 0.0 || Trunc(Re(v)) as real != Re(v) then AppendFactorialCall
        else if Trunc(Re(v)) > LongMax then AppendFactorialCall
        else if TooLongToShow(Fact(Trunc(Re(v)))) then RecordThenAppendCall(Trunc(Re(v)), Fact(Trunc(Re(v))))
        else CommitFactorial(Trunc(Re(v)), Fact(Trunc(Re(v))))
  }

  /** The guard admits exactly the whole values from 0 to `LongMax`, `float`s
      included, and then records the factorial of that whole number; it is
      shown and committed exactly when `str` can convert it. */
  lemma FactorialButtonGuard(expr: string, parse: string -> Option<Node>, lib: MathLib)
    requires Strip(expr) != []
    ensures var r := SafeEval(Strip(expr), parse, lib);
            var s := FactorialButton(expr, parse, lib);
            s.CommitFactorial? || s.RecordThenAppendCall? <==>
              r.Ok? && Re(r.value) >= 0.0 && IsIntegral(Re(r.value)) && Re(r.value) <= LongMax as real
    ensures var r := SafeEval(Strip(expr), parse, lib);
            var s := FactorialButton(expr, parse, lib);
            s.CommitFactorial? || s.RecordThenAppendCall? ==> s.n as real == Re(r.value)
    ensures var s := FactorialButton(expr, parse, lib);
            s.CommitFactorial? || s.RecordThenAppendCall? ==>
              (s.CommitFactorial? <==> !TooLongToShow(Fact(s.n)))
  {
    var r := SafeEval(Strip(expr), parse, lib);
    if r.Ok? {
      var x := Re(r.value);
      if x >= 0.0 {
        assert Trunc(x) == x.Floor;
      }
    }
  }

  /** A power of a positive base with a positive exponent is at least the
      base. */
  lemma {:induction false} PowerAtLeastBase(a: int, n: nat)
    requires a >= 1 && n >= 1
    ensures IntPow(a, n) >= a
  {
    assert IntPow(a, n) == a * IntPow(a, n - 1);
    assert IntPow(a, n - 1) >= 1;
  }

  /** The button is more lenient than the `factorial` of the whitelist: an
      expression whose value is `4.0` commits `24`, while `factorial(4.0)`
      fails with "Function error". */
  lemma ButtonAcceptsWholeFloat(expr: string, parse: string -> Option<Node>, lib: MathLib)
    requires Strip(expr) != []
    requires SafeEval(Strip(expr), parse, lib) == Ok(Float(4.0))
    ensures FactorialButton(expr, parse, lib) == CommitFactorial(4, 24)
    ensures Eval(Call(Name("factorial"), [Node.Constant(FloatLit(4.0))], []), lib) == Err(EvalError(FunctionError))
  {
    assert Trunc(4.0) == 4;
    PowerAtLeastBase(10, MaxStrDigits);
    assert Fact(4) == 24 by {
      assert Fact(2) == 2;
    }
    FactorialRefusals(lib);
  }
}
