/** The clean-up `safe_eval` applies before parsing (Calc/calculator2025.py,
    line 59): the display glyphs `×`, `÷`, `^` and `√` become the Python
    spellings `*`, `/`, `**` and `sqrt`, by four `str.replace` calls in that
    order.
 */
module Glyphs {

  const Times: char := '\U{D7}'    // ×
  const Divide: char := '\U{F7}'   // ÷
  const Caret: char := '^'
  const Radical: char := '\U{221A}' // √

  /** `s.replace(c, t)` for a one-character `c`: every occurrence of `c` is
      replaced by `t`, and nothing else changes. */
  function Replace(s: string, c: char, t: string): (r: string)
    ensures forall d :: d in r ==> d in t || (d in s && d != c)
    ensures c !in s ==> r == s
  {
    if s == [] then []
    else (if s[0] == c then t else [s[0]]) + Replace(s[1..], c, t)
  }

  /** `str.replace` works character by character, so it distributes over `+`. */
  lemma {:induction false} ReplaceAppend(a: string, b: string, c: char, t: string)
    ensures Replace(a + b, c, t) == Replace(a, c, t) + Replace(b, c, t)
  {
    if a == [] {
      assert a + b == b;
    } else {
      assert (a + b)[0] == a[0];
      assert (a + b)[1..] == a[1..] + b;
      ReplaceAppend(a[1..], b, c, t);
    }
  }

  /** On one character, `str.replace` puts the replacement for the replaced
      character and keeps every other character; with `ReplaceAppend` this
      determines the result on every text. */
  lemma ReplaceChar(d: char, c: char, t: string)
    ensures Replace([d], c, t) == if d == c then t else [d]
  {
    assert [d][1..] == [];
  }

  /** The expression text handed to the parser: no glyph survives, and every
      character is either a plain character of the input or one of the
      spellings `*`, `/`, `**`, `sqrt`. */
  function Normalize(s: string): (r: string)
    ensures forall d :: d in r ==> !IsGlyph(d)
    ensures forall d :: d in r ==> d in s || d in "*/sqrt"
  {
    Replace(Replace(Replace(Replace(s, Times, "*"), Divide, "/"), Caret, "**"), Radical, "sqrt")
  }

  predicate IsGlyph(ch: char)
  {
    ch == Times || ch == Divide || ch == Caret || ch == Radical
  }

  /** What one character of the input becomes. */
  function Spelling(ch: char): (w: string)
    ensures forall d :: d in w ==> !IsGlyph(d)
    ensures !IsGlyph(ch) ==> w == [ch]
  {
    if ch == Times then "*"
    else if ch == Divide then "/"
    else if ch == Caret then "**"
    else if ch == Radical then "sqrt"
    else [ch]
  }

  /** The independent reading of the clean-up: each character is spelled out
      on its own and the spellings are concatenated. */
  function SpellOut(s: string): (r: string)
    ensures forall d :: d in r ==> !IsGlyph(d)
  {
    if s == [] then [] else Spelling(s[0]) + SpellOut(s[1..])
  }

  /** The clean-up works character by character. */
  lemma NormalizeAppend(a: string, b: string)
    ensures Normalize(a + b) == Normalize(a) + Normalize(b)
  {
    var a1, b1 := Replace(a, Times, "*"), Replace(b, Times, "*");
    var a2, b2 := Replace(a1, Divide, "/"), Replace(b1, Divide, "/");
    var a3, b3 := Replace(a2, Caret, "**"), Replace(b2, Caret, "**");
    ReplaceAppend(a, b, Times, "*");
    ReplaceAppend(a1, b1, Divide, "/");
    ReplaceAppend(a2, b2, Caret, "**");
    ReplaceAppend(a3, b3, Radical, "sqrt");
  }

  /** On one character the clean-up is its spelling. */
  lemma NormalizeChar(ch: char)
    ensures Normalize([ch]) == Spelling(ch)
  {
  }

  /** The four chained replacements never interfere: no replacement text
      contains a glyph that a later call removes, so the chain is the
      character-wise spelling. */
  lemma {:induction false} NormalizeIsSpellOut(s: string)
    ensures Normalize(s) == SpellOut(s)
  {
    if s == [] {
    } else {
      assert s == [s[0]] + s[1..];
      NormalizeAppend([s[0]], s[1..]);
      NormalizeChar(s[0]);
      NormalizeIsSpellOut(s[1..]);
    }
  }

  /** Text without glyphs reaches the parser unchanged. */
  lemma {:induction false} NormalizeKeepsPlainText(s: string)
    requires forall d :: d in s ==> !IsGlyph(d)
    ensures Normalize(s) == s
  {
    assert Times !in s && Divide !in s && Caret !in s && Radical !in s;
  }

  /** Cleaning up twice is cleaning up once. */
  lemma NormalizeIdempotent(s: string)
    ensures Normalize(Normalize(s)) == Normalize(s)
  {
    NormalizeKeepsPlainText(Normalize(s));
  }

  /** `2^3` becomes a power. */
  lemma CaretExample(s: string)
    requires s == "2^3"
    ensures Normalize(s) == "2**3"
  {
    NormalizeIsSpellOut(s);
    assert s[0] == '2' && s[1] == Caret && s[2] == '3' && |s| == 3;
    assert s[1..][1..][1..] == [];
    assert SpellOut(s[1..][1..]) == "3";
    assert SpellOut(s[1..]) == "**" + "3";
  }

  /** `√(9)` becomes a call of `sqrt`. */
  lemma RadicalExample(s: string)
    requires s == [Radical] + "(9)"
    ensures Normalize(s) == "sqrt(9)"
  {
    NormalizeIsSpellOut(s);
    assert s[0] == Radical && s[1] == '(' && s[2] == '9' && s[3] == ')' && |s| == 4;
    assert s[1..][1..][1..][1..] == [];
  }
}
