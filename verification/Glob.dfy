/**
  Glob patterns as regular expressions (claudePatternMatches,
  internal/agent/claude_settings.go). The emitted text is parsed by the fragment of
  the regexp syntax it uses, and matching it is shown to be glob matching.
*/
module Glob {
  import opened Wrappers

  /** strings.ReplaceAll(s, `"`, ""). */
  function Normalize(s: string): string {
    if s == "" then "" else (if s[0] == '"' then "" else [s[0]]) + Normalize(s[1..])
  }

  /** The places of everything but double quotes. */
  ghost function Unquoted(s: string, n: nat): (at: seq<nat>)
    requires n <= |s|
    ensures Increasing(at, n) && forall i: nat | i < n :: i in at <==> s[i] != '"'
  {
    if n == 0 then [] else Unquoted(s, n - 1) + if s[n - 1] == '"' then [] else [n - 1]
  }

  lemma {:induction false} NormalizeMore(s: string, c: char)
    ensures Normalize(s + [c]) == if c == '"' then Normalize(s) else Normalize(s) + [c]
  {
    if s == "" {
      assert s + [c] == [c] && [c][1..] == "";
    } else {
      assert (s + [c])[1..] == s[1..] + [c];
      NormalizeMore(s[1..], c);
    }
  }

  /** The text is what stands at the places. */
  ghost predicate ReadAt(s: string, text: string, at: seq<nat>) {
    |text| == |at| && forall a | 0 <= a < |at| :: at[a] < |s| && text[a] == s[at[a]]
  }

  lemma ReadMore(s: string, text: string, at: seq<nat>, i: nat, keep: bool)
    requires ReadAt(s, text, at) && i < |s|
    ensures ReadAt(s, text + (if keep then [s[i]] else []), at + if keep then [i] else [])
  {
  }

  lemma NextNormal(s: string, n: nat)
    requires 0 < n <= |s|
    ensures Normalize(s[..n]) == Normalize(s[..n - 1]) + if s[n - 1] == '"' then [] else [s[n - 1]]
  {
    assert s[..n] == s[..n - 1] + [s[n - 1]];
    NormalizeMore(s[..n - 1], s[n - 1]);
  }

  /** Normalizing keeps exactly the characters that are not double quotes, in order. */
  lemma {:induction false} NormalizeKeepsTheRest(s: string, n: nat)
    requires n <= |s|
    ensures ReadAt(s, Normalize(s[..n]), Unquoted(s, n))
  {
    if n > 0 {
      NormalizeKeepsTheRest(s, n - 1);
      NextNormal(s, n);
      ReadMore(s, Normalize(s[..n - 1]), Unquoted(s, n - 1), n - 1, s[n - 1] != '"');
    }
  }

  /** Quotes make no difference: commands and real patterns that differ only in quotes match alike. */
  lemma {:induction false} QuotesDoNotMatter(pattern: string, s: string, t: string)
    ensures GlobMatches(pattern, Normalize(s + ['"'] + t)) <==> GlobMatches(pattern, Normalize(s + t))
    ensures GlobMatches(Normalize(s + ['"'] + t), pattern) <==> GlobMatches(Normalize(s + t), pattern)
  {
    NormalizeSkips(s, t);
  }

  lemma {:induction false} NormalizeSkips(s: string, t: string)
    ensures Normalize(s + ['"'] + t) == Normalize(s + t)
  {
    if s == "" {
      assert s + ['"'] + t == ['"'] + t && (['"'] + t)[1..] == t && s + t == t;
    } else {
      assert (s + ['"'] + t)[1..] == s[1..] + ['"'] + t && (s + t)[1..] == s[1..] + t;
      NormalizeSkips(s[1..], t);
    }
  }

  predicate Meta(c: char) {
    c in {'.', '+', '?', '^', '$', '{', '}', '(', ')', '|', '[', ']', '\\'}
  }

  function Emit(c: char): string {
    if c == '*' then ['.', '*'] else if Meta(c) then ['\\', c] else [c]
  }

  function EmitAll(pattern: string): string {
    if pattern == "" then "" else Emit(pattern[0]) + EmitAll(pattern[1..])
  }

  // ----- The regexp fragment

  datatype Atom = Begin | End | Lit(c: char) | AnyChar | AnyRun

  /** The part of the regexp syntax that is read here; None outside it. */
  function Parse(re: string): Option<seq<Atom>>
    decreases |re|
  {
    if re == "" then Some([])
    else if re[0] == '\\' then
      if |re| >= 2 && Meta(re[1]) then Prepend(Lit(re[1]), Parse(re[2..])) else None
    else if re[0] == '.' then
      if |re| >= 2 && re[1] == '*' then Prepend(AnyRun, Parse(re[2..])) else Prepend(AnyChar, Parse(re[1..]))
    else if re[0] == '^' then Prepend(Begin, Parse(re[1..]))
    else if re[0] == '$' then Prepend(End, Parse(re[1..]))
    else if Meta(re[0]) || re[0] == '*' then None
    else Prepend(Lit(re[0]), Parse(re[1..]))
  }

  function Prepend(a: Atom, r: Option<seq<Atom>>): Option<seq<Atom>> {
    match r
    case None => None
    case Some(atoms) => Some([a] + atoms)
  }

  /** A match of the atoms that starts at position i; the dot does not match a newline. */
  predicate MatchesAt(atoms: seq<Atom>, s: string, i: nat)
    requires i <= |s|
    decreases |atoms|, |s| - i
  {
    if atoms == [] then true
    else
      match atoms[0]
      case Begin => i == 0 && MatchesAt(atoms[1..], s, i)
      case End => i == |s| && MatchesAt(atoms[1..], s, i)
      case Lit(c) => i < |s| && s[i] == c && MatchesAt(atoms[1..], s, i + 1)
      case AnyChar => i < |s| && s[i] != '\n' && MatchesAt(atoms[1..], s, i + 1)
      case AnyRun => MatchesAt(atoms[1..], s, i) || (i < |s| && s[i] != '\n' && MatchesAt(atoms, s, i + 1))
  }

  /** regexp.MatchString: a match anywhere in the text. A text that does not compile matches nothing. */
  predicate MatchString(re: string, s: string) {
    match Parse(re)
    case None => false
    case Some(atoms) => exists i: nat | i <= |s| :: MatchesAt(atoms, s, i)
  }

  /** The pattern, character by character. */
  function Atoms(pattern: string): seq<Atom> {
    if pattern == "" then [End]
    else [if pattern[0] == '*' then AnyRun else Lit(pattern[0])] + Atoms(pattern[1..])
  }

  method ClaudePatternMatches(command: string, pattern: string) returns (matched: bool)
    ensures matched <==> pattern == "" || pattern == "*" || GlobMatches(Normalize(pattern), Normalize(command))
  {
    if pattern == "" || pattern == "*" {
      return true;
    }
    var p := Normalize(pattern);
    var re := "^";
    for i := 0 to |p|
      invariant re + (EmitAll(p[i..]) + "$") == "^" + (EmitAll(p) + "$")
    {
      assert p[i..][1..] == p[i + 1..];
      var ch := p[i];
      ThreeParts(re, Emit(ch), EmitAll(p[i + 1..]), "$");
      if ch == '*' {
        re := re + ['.', '*'];
        continue;
      }
      if Meta(ch) {
        re := re + ['\\', ch];
      } else {
        re := re + [ch];
      }
    }
    assert p[|p|..] == "";
    re := re + "$";
    assert re == "^" + (EmitAll(p) + "$");
    matched := MatchString(re, Normalize(command));
    TranslationIsGlob(p, Normalize(command));
  }

  lemma ThreeParts(a: string, b: string, c: string, d: string)
    ensures a + ((b + c) + d) == (a + b) + (c + d)
  {
  }

  // ----- Globs

  function Stars(pattern: string): nat {
    if pattern == "" then 0 else (if pattern[0] == '*' then 1 else 0) + Stars(pattern[1..])
  }

  /** The pattern with its stars replaced, in order. */
  function Fill(pattern: string, gaps: seq<string>): string
    requires |gaps| == Stars(pattern)
  {
    if pattern == "" then ""
    else if pattern[0] == '*' then gaps[0] + Fill(pattern[1..], gaps[1..])
    else [pattern[0]] + Fill(pattern[1..], gaps)
  }

  predicate OneLine(s: string) {
    '\n' !in s
  }

  ghost predicate FilledBy(pattern: string, gaps: seq<string>, command: string) {
    |gaps| == Stars(pattern) && command == Fill(pattern, gaps)
  }

  /** The command is the pattern's literal text with some one-line text for each star. */
  ghost predicate GlobMatches(pattern: string, command: string) {
    exists gaps :: FilledBy(pattern, gaps, command) && forall k | 0 <= k < |gaps| :: OneLine(gaps[k])
  }

  // ----- The translation preserves meaning

  lemma {:induction false} EmittedParses(pattern: string)
    ensures Parse(EmitAll(pattern) + "$") == Some(Atoms(pattern))
  {
    if pattern == "" {
      assert EmitAll(pattern) + "$" == "$";
      assert ("$")[1..] == "";
      assert [End] + [] == [End];
    } else {
      var more := EmitAll(pattern[1..]) + "$";
      EmittedParses(pattern[1..]);
      var re := Emit(pattern[0]) + more;
      assert EmitAll(pattern) + "$" == re;
      assert re[|Emit(pattern[0])|..] == more;
    }
  }

  /** The emitted text parses as the pattern's literals with a run of anything for each star, anchored at both ends. */
  lemma AnchoredParses(pattern: string)
    ensures Parse("^" + (EmitAll(pattern) + "$")) == Some([Begin] + Atoms(pattern))
  {
    var re := "^" + (EmitAll(pattern) + "$");
    assert re[1..] == EmitAll(pattern) + "$";
    EmittedParses(pattern);
  }

  /** From left to right: a match at i splits the rest of the command. */
  lemma {:induction false} MatchGivesGaps(pattern: string, s: string, i: nat) returns (gaps: seq<string>)
    requires i <= |s| && MatchesAt(Atoms(pattern), s, i)
    ensures FilledBy(pattern, gaps, s[i..]) && forall k | 0 <= k < |gaps| :: OneLine(gaps[k])
    decreases |pattern|, |s| - i
  {
    if pattern == "" {
      gaps := [];
    } else {
      AtomsSplit(pattern);
      if pattern[0] != '*' {
        gaps := MatchGivesGaps(pattern[1..], s, i + 1);
        assert s[i..] == [s[i]] + s[i + 1..];
      } else if MatchesAt(Atoms(pattern[1..]), s, i) {
        var rest := MatchGivesGaps(pattern[1..], s, i);
        gaps := [""] + rest;
        assert gaps[1..] == rest;
      } else {
        var longer := MatchGivesGaps(pattern, s, i + 1);
        gaps := [[s[i]] + longer[0]] + longer[1..];
        assert gaps[1..] == longer[1..];
        assert s[i..] == [s[i]] + s[i + 1..];
      }
    }
  }

  lemma AtomsSplit(pattern: string)
    requires pattern != ""
    ensures Atoms(pattern)[0] == (if pattern[0] == '*' then AnyRun else Lit(pattern[0])) && Atoms(pattern)[1..] == Atoms(pattern[1..])
  {
  }

  /** From right to left: a split is a match. */
  lemma {:induction false} GapsGiveMatch(pattern: string, gaps: seq<string>, s: string, i: nat)
    requires i <= |s| && FilledBy(pattern, gaps, s[i..]) && forall k | 0 <= k < |gaps| :: OneLine(gaps[k])
    ensures MatchesAt(Atoms(pattern), s, i)
    decreases |pattern|, |s| - i
  {
    if pattern != "" {
      AtomsSplit(pattern);
      if pattern[0] != '*' {
        assert s[i] == s[i..][0] == pattern[0];
        assert s[i + 1..] == s[i..][1..];
        GapsGiveMatch(pattern[1..], gaps, s, i + 1);
      } else if gaps[0] == "" {
        assert s[i..] == Fill(pattern[1..], gaps[1..]);
        GapsGiveMatch(pattern[1..], gaps[1..], s, i);
      } else {
        var shorter := [gaps[0][1..]] + gaps[1..];
        assert shorter[1..] == gaps[1..];
        assert s[i] == s[i..][0] == gaps[0][0];
        assert s[i + 1..] == s[i..][1..] == gaps[0][1..] + Fill(pattern[1..], gaps[1..]);
        GapsGiveMatch(pattern, shorter, s, i + 1);
      }
    }
  }

  lemma TranslationIsGlob(pattern: string, command: string)
    ensures MatchString("^" + (EmitAll(pattern) + "$"), command) <==> GlobMatches(pattern, command)
  {
    AnchoredParses(pattern);
    var atoms := [Begin] + Atoms(pattern);
    assert atoms[1..] == Atoms(pattern);
    assert command[0..] == command;
    if MatchString("^" + (EmitAll(pattern) + "$"), command) {
      var i: nat :| i <= |command| && MatchesAt(atoms, command, i);
      var gaps := MatchGivesGaps(pattern, command, 0);
    }
    if GlobMatches(pattern, command) {
      var gaps :| FilledBy(pattern, gaps, command) && forall k | 0 <= k < |gaps| :: OneLine(gaps[k]);
      GapsGiveMatch(pattern, gaps, command, 0);
      assert MatchesAt(atoms, command, 0);
    }
  }

  lemma {:induction false} GapsAreParts(pattern: string, gaps: seq<string>, k: nat)
    requires |gaps| == Stars(pattern) && k < |gaps| && OneLine(Fill(pattern, gaps))
    ensures OneLine(gaps[k])
  {
    if pattern[0] == '*' {
      var rest := Fill(pattern[1..], gaps[1..]);
      assert forall c | c in gaps[0] || c in rest :: c in gaps[0] + rest;
      if k > 0 {
        GapsAreParts(pattern[1..], gaps[1..], k - 1);
      }
    } else {
      var rest := Fill(pattern[1..], gaps);
      assert forall c | c in rest :: c in [pattern[0]] + rest;
      GapsAreParts(pattern[1..], gaps, k);
    }
  }

  /** On one-line commands a star stands for any text at all. */
  lemma StarIsAnythingOnOneLine(pattern: string, command: string)
    requires OneLine(command)
    ensures GlobMatches(pattern, command) <==> exists gaps :: FilledBy(pattern, gaps, command)
  {
    if exists gaps :: FilledBy(pattern, gaps, command) {
      var gaps :| FilledBy(pattern, gaps, command);
      forall k | 0 <= k < |gaps|
        ensures OneLine(gaps[k])
      {
        GapsAreParts(pattern, gaps, k);
      }
    }
  }

  /** Without a star the match is equality. */
  lemma {:induction false} NoStarIsEquality(pattern: string, command: string)
    requires '*' !in pattern
    ensures GlobMatches(pattern, command) <==> command == pattern
  {
    StarlessFill(pattern);
    assert FilledBy(pattern, [], pattern);
  }

  lemma {:induction false} StarlessFill(pattern: string)
    requires '*' !in pattern
    ensures Stars(pattern) == 0 && Fill(pattern, []) == pattern
  {
    if pattern != "" {
      assert pattern == [pattern[0]] + pattern[1..];
      StarlessFill(pattern[1..]);
    }
  }

  lemma TwoStarsFit(command: string)
    ensures FilledBy("**", [command, ""], command)
  {
    assert ("**")[1..] == "*" && ("*")[1..] == "";
    assert Stars("*") == 1 && Stars("**") == 2;
    assert [command, ""][1..] == [""] && Fill("*", [""]) == "" + Fill("", []);
  }

  lemma TwoStarsAreOneLine(command: string, gaps: seq<string>)
    requires FilledBy("**", gaps, command) && forall k | 0 <= k < |gaps| :: OneLine(gaps[k])
    ensures OneLine(command)
  {
    assert ("**")[1..] == "*" && ("*")[1..] == "";
    assert Stars("*") == 1 && Stars("**") == 2;
    assert Fill("*", gaps[1..]) == gaps[1] + Fill("", gaps[1..][1..]) == gaps[1];
  }

  /**
    The promise that a star matches any text, for every pattern, holds of a command
    exactly when it has no line break.
  */
  lemma StarIsAnythingIffOneLine(command: string)
    ensures OneLine(command) <==>
              forall pattern :: GlobMatches(pattern, command) <==> exists gaps :: FilledBy(pattern, gaps, command)
  {
    if OneLine(command) {
      forall pattern
        ensures GlobMatches(pattern, command) <==> exists gaps :: FilledBy(pattern, gaps, command)
      {
        StarIsAnythingOnOneLine(pattern, command);
      }
    } else {
      TwoStarsFit(command);
      if GlobMatches("**", command) {
        var gaps :| FilledBy("**", gaps, command) && forall k | 0 <= k < |gaps| :: OneLine(gaps[k]);
        TwoStarsAreOneLine(command, gaps);
      }
    }
  }

  /** The code's own comment promises any text for a star; a line break is not matched. */
  lemma NewlineIsNotMatched()
    ensures FilledBy("a*", ["\n"], "a\n") && !GlobMatches("a*", "a\n")
  {
    assert ("a*")[1..] == "*" && ("*")[1..] == "";
    assert Stars("") == 0 && Stars("*") == 1 && Stars("a*") == 1;
    forall gaps | FilledBy("a*", gaps, "a\n")
      ensures !OneLine(gaps[0])
    {
      assert Fill("*", gaps) == gaps[0] + Fill("", gaps[1..]) == gaps[0];
      assert gaps[0] == ("a\n")[1..];
      assert gaps[0][0] == '\n';
    }
    assert Fill("*", ["\n"]) == "\n" + Fill("", []) == "\n";
  }
}
