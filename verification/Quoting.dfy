/** Quoting a path for the two shells a wrapper can run in, and how those shells read it back. */
module Quoting {
  import opened Wrappers

  /** strings.ReplaceAll of one character */
  function ReplaceAll(s: string, c: char, with: string): string {
    if s == "" then "" else (if s[0] == c then with else [s[0]]) + ReplaceAll(s[1..], c, with)
  }

  function ShellSingleQuote(s: string): string {
    "'" + ReplaceAll(s, '\'', "'\\''") + "'"
  }

  function PowershellSingleQuote(s: string): string {
    "'" + ReplaceAll(s, '\'', "''") + "'"
  }

  // The POSIX shell: POSIX.1-2017, Shell Command Language

  datatype Mode = Bare | Single | Double

  /** What ends a word unquoted: the characters operators start with, and blanks and newlines (section 2.3). */
  predicate IsDelimiter(c: char) {
    c in "|&;<>() \t\n"
  }

  /** A backslash escapes these between double quotes (section 2.2.3). */
  predicate IsEscapable(c: char) {
    c == '$' || c == '`' || c == '\"' || c == '\\'
  }

  /**
    One word off the front of a command line, quotes removed, and what follows it; None when a quote is
    left open or the word holds an expansion, whose value the text does not say. Inside single quotes
    every character is literal up to the next one (section 2.2.2); outside, a backslash keeps the
    character after it, except before a newline, which it removes (section 2.2.1). A comment sign
    counts only at the very start of a word, where no word below has one.
   */
  function LexWord(s: string, mode: Mode): Option<(string, string)>
    decreases |s|
  {
    match mode
    case Single =>
      if s == "" then None
      else if s[0] == '\'' then LexWord(s[1..], Bare)
      else Then([s[0]], LexWord(s[1..], Single))
    case Double =>
      if s == "" || s[0] == '$' || s[0] == '`' then None
      else if s[0] == '\"' then LexWord(s[1..], Bare)
      else if s[0] == '\\' && |s| > 1 && s[1] == '\n' then LexWord(s[2..], Double)
      else if s[0] == '\\' && |s| > 1 && IsEscapable(s[1]) then Then([s[1]], LexWord(s[2..], Double))
      else Then([s[0]], LexWord(s[1..], Double))
    case Bare =>
      if s == "" then Some(("", ""))
      else if IsDelimiter(s[0]) then Some(("", s))
      else if s[0] == '\'' then LexWord(s[1..], Single)
      else if s[0] == '\"' then LexWord(s[1..], Double)
      else if s[0] == '$' || s[0] == '`' then None
      else if s[0] == '\\' then
        if |s| == 1 then None
        else if s[1] == '\n' then LexWord(s[2..], Bare)
        else Then([s[1]], LexWord(s[2..], Bare))
      else Then([s[0]], LexWord(s[1..], Bare))
  }

  function Then(front: string, lexed: Option<(string, string)>): Option<(string, string)> {
    match lexed
    case None => None
    case Some(w) => Some((front + w.0, w.1))
  }

  lemma ThenJoins(a: string, b: string, lexed: Option<(string, string)>)
    ensures Then(a, Then(b, lexed)) == Then(a + b, lexed)
  {
    if lexed.Some? { assert a + (b + lexed.value.0) == (a + b) + lexed.value.0; }
  }

  /** Leaving the quotes, escaping one quote and entering them again adds that quote to the word. */
  lemma EscapedQuoteLexes(rest: string)
    ensures LexWord("'\\''" + rest, Single) == Then("'", LexWord(rest, Single))
  {
    assert ("'" + rest)[1..] == rest;
    assert LexWord("'" + rest, Bare) == LexWord(rest, Single);
    assert ("\\''" + rest)[2..] == "'" + rest;
    assert LexWord("\\''" + rest, Bare) == Then("'", LexWord("'" + rest, Bare));
    assert ("'\\''" + rest)[1..] == "\\''" + rest;
  }

  lemma {:induction false} QuotedBodyLexes(s: string, tail: string)
    ensures LexWord(ReplaceAll(s, '\'', "'\\''") + "'" + tail, Single) == Then(s, LexWord(tail, Bare))
    decreases |s|
  {
    var body := ReplaceAll(s, '\'', "'\\''") + "'" + tail;
    if s == "" {
      assert body == "'" + tail && body[1..] == tail;
      if LexWord(tail, Bare).Some? { assert "" + LexWord(tail, Bare).value.0 == LexWord(tail, Bare).value.0; }
    } else {
      assert s == [s[0]] + s[1..];
      var rest := ReplaceAll(s[1..], '\'', "'\\''") + "'" + tail;
      QuotedBodyLexes(s[1..], tail);
      ThenJoins([s[0]], s[1..], LexWord(tail, Bare));
      if s[0] == '\'' {
        assert body == "'\\''" + rest;
        EscapedQuoteLexes(rest);
      } else {
        assert body == [s[0]] + rest && body[1..] == rest;
      }
    }
  }

  /**
    For every path and whatever follows it, the quoted path stands for itself: the word goes on with
    what the rest of the line makes of it.
   */
  lemma ShellQuoteRoundTrips(s: string, tail: string)
    ensures LexWord(ShellSingleQuote(s) + tail, Bare) == Then(s, LexWord(tail, Bare))
  {
    QuotedBodyLexes(s, tail);
    assert (ShellSingleQuote(s) + tail)[1..] == ReplaceAll(s, '\'', "'\\''") + "'" + tail;
  }

  lemma {:induction false} LexingConsumes(s: string, mode: Mode)
    requires LexWord(s, mode).Some?
    ensures |LexWord(s, mode).value.1| <= |s|
    ensures s != "" && !(mode.Bare? && IsDelimiter(s[0])) ==> |LexWord(s, mode).value.1| < |s|
    decreases |s|
  {
    if s != "" && !(mode.Bare? && IsDelimiter(s[0])) {
      if s[0] == '\\' && |s| > 1 {
        if LexWord(s[2..], mode).Some? { LexingConsumes(s[2..], mode); }
      }
      if LexWord(s[1..], Bare).Some? { LexingConsumes(s[1..], Bare); }
      if LexWord(s[1..], Single).Some? { LexingConsumes(s[1..], Single); }
      if LexWord(s[1..], Double).Some? { LexingConsumes(s[1..], Double); }
    }
  }

  /** It is a word of its own, equal to the path, exactly when the line ends there or a delimiter follows. */
  lemma ShellQuoteIsOneWordExactly(s: string, tail: string)
    ensures LexWord(ShellSingleQuote(s) + tail, Bare) == Some((s, tail)) <==> tail == "" || IsDelimiter(tail[0])
  {
    ShellQuoteRoundTrips(s, tail);
    if tail == "" || IsDelimiter(tail[0]) {
      assert s + "" == s;
    } else if LexWord(tail, Bare).Some? {
      LexingConsumes(tail, Bare);
    }
  }

  // PowerShell's verbatim string

  /** After the opening quote: a doubled quote is one quote, a single one ends the string. */
  function LexVerbatim(s: string): Option<(string, string)>
    decreases |s|
  {
    if s == "" then None
    else if s[0] == '\'' then
      if |s| > 1 && s[1] == '\'' then Then("'", LexVerbatim(s[2..])) else Some(("", s[1..]))
    else Then([s[0]], LexVerbatim(s[1..]))
  }

  function LexPowershell(s: string): Option<(string, string)> {
    if s != "" && s[0] == '\'' then LexVerbatim(s[1..]) else None
  }

  lemma {:induction false} VerbatimBodyLexes(s: string, tail: string)
    requires tail == "" || tail[0] != '\''
    ensures LexVerbatim(ReplaceAll(s, '\'', "''") + "'" + tail) == Some((s, tail))
    decreases |s|
  {
    var body := ReplaceAll(s, '\'', "''") + "'" + tail;
    if s == "" {
      assert body == "'" + tail && body[1..] == tail;
    } else {
      assert s == [s[0]] + s[1..];
      var rest := ReplaceAll(s[1..], '\'', "''") + "'" + tail;
      VerbatimBodyLexes(s[1..], tail);
      if s[0] == '\'' {
        assert body == "''" + rest && body[2..] == rest;
      } else {
        assert body == [s[0]] + rest && body[1..] == rest;
      }
    }
  }

  lemma PowershellQuoteRoundTrips(s: string, tail: string)
    requires tail == "" || tail[0] != '\''
    ensures LexPowershell(PowershellSingleQuote(s) + tail) == Some((s, tail))
  {
    VerbatimBodyLexes(s, tail);
    assert (PowershellSingleQuote(s) + tail)[1..] == ReplaceAll(s, '\'', "''") + "'" + tail;
  }
}
