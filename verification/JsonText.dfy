/**
  The text json.Marshal writes for a value: its lexemes spelled one after the
  other, without white space. Spelling is invertible, which is what makes the
  canonical key collision-free.
*/
module JsonText {
  import opened Wrappers
  import opened Json

  // ----- Strings

  function Hex(n: int): char
    requires 0 <= n < 16
  {
    "0123456789abcdef"[n]
  }

  function Unhex(c: char): (n: int)
    ensures 0 <= n < 16
  {
    if '0' <= c <= '9' then c as int - '0' as int
    else if 'a' <= c <= 'f' then c as int - 'a' as int + 10
    else 0
  }

  /** Characters written as \u00XX: controls without a short form, and the HTML-sensitive ones. */
  predicate HexEscaped(c: char) {
    c < ' ' || c == '<' || c == '>' || c == '&'
  }

  const LineSeparator: char := '\U{2028}'
  const ParagraphSeparator: char := '\U{2029}'

  function Escape(c: char): string {
    if c == '"' then "\\\""
    else if c == '\\' then "\\\\"
    else if c == '\n' then "\\n"
    else if c == '\r' then "\\r"
    else if c == '\t' then "\\t"
    else if c == 8 as char then "\\b"
    else if c == 12 as char then "\\f"
    else if HexEscaped(c) then ['\\', 'u', '0', '0', Hex(c as int / 16), Hex(c as int % 16)]
    else if c == LineSeparator then "\\u2028"
    else if c == ParagraphSeparator then "\\u2029"
    else [c]
  }

  function EscapeAll(s: string): string {
    if s == "" then "" else Escape(s[0]) + EscapeAll(s[1..])
  }

  /** Reads back one character of an escaped string. */
  function Unescape(text: string): (char, string)
    requires text != ""
  {
    if text[0] != '\\' || |text| < 2 then (text[0], text[1..])
    else if text[1] == 'n' then ('\n', text[2..])
    else if text[1] == 'r' then ('\r', text[2..])
    else if text[1] == 't' then ('\t', text[2..])
    else if text[1] == 'b' then (8 as char, text[2..])
    else if text[1] == 'f' then (12 as char, text[2..])
    else if text[1] == 'u' && |text| >= 6 then
      (if text[2] == '2' then (if text[5] == '8' then LineSeparator else ParagraphSeparator)
       else (16 * Unhex(text[4]) + Unhex(text[5])) as char, text[6..])
    else (text[1], text[2..])
  }

  lemma UnescapeInverts(c: char, rest: string)
    ensures Unescape(Escape(c) + rest) == (c, rest)
  {
    if |Escape(c)| == 6 {
      UnescapeLong(c, rest);
    } else if |Escape(c)| == 2 {
      var e, d := Escape(c)[0], Escape(c)[1];
      assert Escape(c) + rest == [e, d] + rest;
      assert ([e, d] + rest)[2..] == rest;
    } else {
      assert ([c] + rest)[1..] == rest;
    }
  }

  /** The six-character forms. */
  lemma UnescapeLong(c: char, rest: string)
    requires |Escape(c)| == 6
    ensures Unescape(Escape(c) + rest) == (c, rest)
  {
    var text := Escape(c) + rest;
    assert text[0] == '\\' && text[1] == 'u' && text[2] == Escape(c)[2] && text[4] == Escape(c)[4] && text[5] == Escape(c)[5];
    assert text[6..] == rest;
    if HexEscaped(c) {
      HexInverts(c as int);
    }
  }

  lemma EscapeOpens(s: string, more: string)
    ensures var text := EscapeAll(s) + ("\"" + more);
            text != "" && (text[0] == '"' <==> s == "")
  {
    if s != "" {
      Assoc(Escape(s[0]), EscapeAll(s[1..]), "\"" + more);
      assert (EscapeAll(s) + ("\"" + more))[0] == Escape(s[0])[0];
    }
  }

  lemma HexInverts(n: int)
    requires 0 <= n < 64
    ensures 16 * Unhex(Hex(n / 16)) + Unhex(Hex(n % 16)) == n
  {
    UnhexHex(n / 16);
    UnhexHex(n % 16);
  }

  lemma UnhexHex(n: int)
    requires 0 <= n < 16
    ensures Unhex(Hex(n)) == n
  {
  }

  /** An escaped string ends at its first bare quote, so it is read back whole. */
  lemma {:induction false} QuotedStringsAreUnique(s: string, t: string, more: string, other: string)
    requires EscapeAll(s) + ("\"" + more) == EscapeAll(t) + ("\"" + other)
    ensures s == t && more == other
    decreases |s| + |t|
  {
    EscapeOpens(s, more);
    EscapeOpens(t, other);
    if s == "" {
      assert ("\"" + more)[1..] == more && ("\"" + other)[1..] == other;
      assert EscapeAll(s) + ("\"" + more) == "\"" + more && EscapeAll(t) + ("\"" + other) == "\"" + other;
    } else {
      var a, b := EscapeAll(s[1..]) + ("\"" + more), EscapeAll(t[1..]) + ("\"" + other);
      Assoc(Escape(s[0]), EscapeAll(s[1..]), "\"" + more);
      Assoc(Escape(t[0]), EscapeAll(t[1..]), "\"" + other);
      UnescapeInverts(s[0], a);
      UnescapeInverts(t[0], b);
      QuotedStringsAreUnique(s[1..], t[1..], more, other);
      assert s == [s[0]] + s[1..] && t == [t[0]] + t[1..];
    }
  }

  // ----- Lexemes

  function SpellOne(x: Lexeme): (r: string)
    ensures r != ""
  {
    match x
    case LBrace => "{"
    case RBrace => "}"
    case LBrack => "["
    case RBrack => "]"
    case Colon => ":"
    case Comma => ","
    case LNull => "null"
    case LBool(b) => if b then "true" else "false"
    case LNum(t) => t
    case LStr(s) => "\"" + (EscapeAll(s) + "\"")
    case Junk => "?"
  }

  function Spell(xs: seq<Lexeme>): string {
    if xs == [] then "" else SpellOne(xs[0]) + Spell(xs[1..])
  }

  /** A number is never followed by text that would continue it. */
  predicate Separated(xs: seq<Lexeme>) {
    forall i | 0 <= i < |xs| - 1 && xs[i].LNum? :: !xs[i + 1].LNum? && !xs[i + 1].Junk?
  }

  predicate Clean(xs: seq<Lexeme>) {
    Separated(xs) && forall i | 0 <= i < |xs| :: !xs[i].Junk?
  }

  predicate EndsNumber(text: string) {
    text == "" || !NumberChar(text[0])
  }

  lemma CleanTail(xs: seq<Lexeme>)
    requires Clean(xs) && xs != []
    ensures Clean(xs[1..]) && (xs[0].LNum? ==> EndsNumber(Spell(xs[1..])))
  {
    var rest := xs[1..];
    assert forall i | 0 <= i < |rest| :: rest[i] == xs[i + 1];
    if xs[0].LNum? && rest != [] {
      assert !xs[1].LNum? && !xs[1].Junk?;
      assert Spell(rest)[0] == SpellOne(rest[0])[0];
    }
  }

  lemma MunchContinues(s: string, t: string, more: string, other: string)
    requires s + more == t + other && |s| < |t|
    ensures more != "" && more[0] == t[|s|]
  {
    assert (s + more)[|s|] == (t + other)[|s|];
    assert |s| + |more| == |t| + |other|;
  }

  /** Maximal munch: two number texts that stop where no number can go on are the same. */
  lemma NumbersAreUnique(s: string, t: string, more: string, other: string)
    requires s + more == t + other && EndsNumber(more) && EndsNumber(other)
    requires forall i | 0 <= i < |s| :: NumberChar(s[i])
    requires forall i | 0 <= i < |t| :: NumberChar(t[i])
    ensures s == t && more == other
  {
    if |s| < |t| {
      MunchContinues(s, t, more, other);
      assert false;
    } else if |t| < |s| {
      MunchContinues(t, s, other, more);
      assert false;
    } else {
      PrefixesAgree(s, t, more, other);
    }
  }

  lemma PrefixesAgree(a: string, b: string, more: string, other: string)
    requires a + more == b + other && |a| == |b|
    ensures a == b && more == other
  {
    assert a == (a + more)[..|a|] && b == (b + other)[..|b|];
    assert more == (a + more)[|a|..] && other == (b + other)[|b|..];
  }

  /** The first character tells strings, numbers and the fixed lexemes apart. */
  lemma FirstCharTells(x: Lexeme, y: Lexeme)
    requires !x.Junk? && !y.Junk? && SpellOne(x)[0] == SpellOne(y)[0]
    ensures x.LStr? == y.LStr? && x.LNum? == y.LNum?
    ensures !x.LStr? && !x.LNum? ==> x == y
  {
    if x.LNum? {
      assert NumberChar(x.text[0]);
    }
    if y.LNum? {
      assert NumberChar(y.text[0]);
    }
  }

  lemma QuotedTail(s: string, more: string)
    ensures (SpellOne(LStr(s)) + more)[1..] == EscapeAll(s) + ("\"" + more)
  {
    Assoc("\"", EscapeAll(s) + "\"", more);
    Assoc(EscapeAll(s), "\"", more);
  }

  lemma QuotedLexemesAreUnique(s: string, t: string, more: string, other: string)
    requires SpellOne(LStr(s)) + more == SpellOne(LStr(t)) + other
    ensures s == t && more == other
  {
    QuotedTail(s, more);
    QuotedTail(t, other);
    QuotedStringsAreUnique(s, t, more, other);
  }

  /** Equal texts begin with the same lexeme and go on with equal texts. */
  lemma FirstLexemeIsUnique(x: Lexeme, y: Lexeme, more: string, other: string)
    requires !x.Junk? && !y.Junk? && SpellOne(x) + more == SpellOne(y) + other
    requires (x.LNum? ==> EndsNumber(more)) && (y.LNum? ==> EndsNumber(other))
    ensures x == y && more == other
  {
    assert SpellOne(x)[0] == (SpellOne(x) + more)[0] == (SpellOne(y) + other)[0] == SpellOne(y)[0];
    FirstCharTells(x, y);
    match x
    case LStr(s) => QuotedLexemesAreUnique(s, y.s, more, other);
    case LNum(t) => NumbersAreUnique(t, y.text, more, other);
    case _ => PrefixesAgree(SpellOne(x), SpellOne(y), more, other);
  }

  /** Spelling is injective on clean lexeme sequences. */
  lemma {:induction false} SpellIsInjective(xs: seq<Lexeme>, ys: seq<Lexeme>)
    requires Clean(xs) && Clean(ys) && Spell(xs) == Spell(ys)
    ensures xs == ys
    decreases |xs|
  {
    if xs != [] && ys != [] {
      CleanTail(xs);
      CleanTail(ys);
      FirstLexemeIsUnique(xs[0], ys[0], Spell(xs[1..]), Spell(ys[1..]));
      SpellIsInjective(xs[1..], ys[1..]);
      assert xs == [xs[0]] + xs[1..] && ys == [ys[0]] + ys[1..];
    }
  }
}
