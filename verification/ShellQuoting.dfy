/** Shell quoting, and what a POSIX shell reads back. */
module ShellQuoting {
  import opened Wrappers

  // ---------- Quoting ----------

  /** Every single quote replaced by: close, escaped quote, open. */
  function Escaped(s: string): string {
    if s == "" then ""
    else (if s[0] == '\'' then "'\\''" else [s[0]]) + Escaped(s[1..])
  }

  function ForceQuoted(path: string): string {
    "'" + Escaped(path) + "'"
  }

  function QuotedPath(path: string): string {
    if ' ' in path || '\'' in path then ForceQuoted(path) else path
  }

  function Join(argv: seq<string>): string {
    if argv == [] then ""
    else if |argv| == 1 then ForceQuoted(argv[0])
    else ForceQuoted(argv[0]) + " " + Join(argv[1..])
  }

  // ---------- Reading (sections 2.2.1 and 2.2.2 of the POSIX.1-2017 Shell Command Language) ----------

  predicate IsBlank(c: char) {
    c == ' ' || c == '\t'
  }

  /** Characters that section 2.2 says must, or under circumstances must, be quoted to stand for themselves
      anywhere in a word; blanks and the two quotings read below left out. */
  predicate IsSpecial(c: char) {
    c in "|&;<>()$`\"\n*?["
  }

  /** Unquoted, the character stands for itself inside a word. */
  predicate IsOrdinary(c: char) {
    !IsBlank(c) && !IsSpecial(c) && c != '\\' && c != '\''
  }

  /** Outside quotes, in a word of which `word` has been read: the finished word and what follows it, or
      None when the text goes beyond the two quotings. A backslash keeps the next character as it is,
      except that backslash and newline vanish (section 2.2.1). */
  function Word(s: string, word: string): (r: Option<(string, string)>)
    ensures r.Some? ==> |r.value.1| <= |s| && (r.value.1 == "" || IsBlank(r.value.1[0]))
    ensures r.Some? && s != "" && !IsBlank(s[0]) ==> |r.value.1| < |s|
    decreases |s|
  {
    if s == "" || IsBlank(s[0]) then Some((word, s))
    else if s[0] == '\'' then Quoted(s[1..], word)
    else if s[0] == '\\' then
      if |s| == 1 then None
      else Word(s[2..], if s[1] == '\n' then word else word + [s[1]])
    else if IsSpecial(s[0]) then None
    else Word(s[1..], word + [s[0]])
  }

  /** Inside single quotes: everything up to the next single quote stands for itself (section 2.2.2). */
  function Quoted(s: string, word: string): (r: Option<(string, string)>)
    ensures r.Some? ==> |r.value.1| <= |s| && (r.value.1 == "" || IsBlank(r.value.1[0]))
    decreases |s|
  {
    if s == "" then None
    else if s[0] == '\'' then Word(s[1..], word)
    else Quoted(s[1..], word + [s[0]])
  }

  /** At the start of a word a comment (section 2.3) or a tilde expansion (section 2.6.1) begins. */
  predicate StartsExpansion(c: char) {
    c == '#' || c == '~'
  }

  predicate Continued(s: string) {
    |s| >= 2 && s[0] == '\\' && s[1] == '\n'
  }

  /** The words of a command line, or None when it is more than words: an operator, an expansion, a double
      quote, a comment, a second line or an unfinished quoting. */
  function Tokenize(s: string): Option<seq<string>>
    decreases |s|
  {
    if s == "" then Some([])
    else if IsBlank(s[0]) then Tokenize(s[1..])
    else if Continued(s) then Tokenize(s[2..])
    else if StartsExpansion(s[0]) then None
    else
      var first := Word(s, "");
      if first.None? then None
      else
        var rest := Tokenize(first.value.1);
        if rest.None? then None else Some([first.value.0] + rest.value)
  }

  predicate EndsWord(tail: string) {
    tail == "" || IsBlank(tail[0])
  }

  // ---------- Round trip ----------

  /** Closing, an escaped quote and opening again add one quote to the word. */
  lemma {:induction false} EscapedQuoteReads(rest: string, word: string)
    ensures Quoted("'\\''" + rest, word) == Quoted(rest, word + ['\''])
  {
    var opening, escape := "'" + rest, "\\''" + rest;
    assert opening[1..] == rest;
    assert Word(opening, word + ['\'']) == Quoted(rest, word + ['\'']);
    assert escape[2..] == opening && escape[0] == '\\' && escape[1] == '\'';
    assert Word(escape, word) == Word(opening, word + ['\'']);
    assert ("'\\''" + rest)[1..] == escape;
  }

  /** Inside quotes, an escaped text is read back up to its closing quote. */
  lemma {:induction false} QuotedReads(s: string, word: string, tail: string)
    requires EndsWord(tail)
    ensures Quoted(Escaped(s) + "'" + tail, word) == Some((word + s, tail))
    decreases |s|
  {
    var text := Escaped(s) + "'" + tail;
    if s == "" {
      assert text[1..] == tail;
      assert word + s == word;
    } else {
      var rest := Escaped(s[1..]) + "'" + tail;
      QuotedReads(s[1..], word + [s[0]], tail);
      assert word + [s[0]] + s[1..] == word + s;
      if s[0] == '\'' {
        assert text == "'\\''" + rest;
        EscapedQuoteReads(rest, word);
      } else {
        assert text == [s[0]] + rest;
        assert text[1..] == rest;
      }
    }
  }

  lemma {:induction false} ForceQuotedReads(path: string, tail: string)
    requires EndsWord(tail)
    ensures Word(ForceQuoted(path) + tail, "") == Some((path, tail))
  {
    var text := ForceQuoted(path) + tail;
    assert text[1..] == Escaped(path) + "'" + tail;
    QuotedReads(path, "", tail);
    assert "" + path == path;
  }

  /** One quoted argument in front of anything that starts with a blank, or of nothing. */
  lemma {:induction false} ArgumentReads(path: string, tail: string)
    requires EndsWord(tail)
    ensures Tokenize(ForceQuoted(path) + tail)
         == if Tokenize(tail).None? then None else Some([path] + Tokenize(tail).value)
  {
    var text := ForceQuoted(path) + tail;
    assert text[0] == '\'';
    ForceQuotedReads(path, tail);
  }

  /** The shell reads back exactly the arguments: any strings, any number of them. */
  lemma {:induction false} JoinRoundTrip(argv: seq<string>)
    ensures Tokenize(Join(argv)) == Some(argv)
  {
    if |argv| == 1 {
      ArgumentReads(argv[0], "");
      assert ForceQuoted(argv[0]) + "" == Join(argv);
      assert [argv[0]] + [] == argv;
    } else if |argv| > 1 {
      var tail := " " + Join(argv[1..]);
      assert Join(argv) == ForceQuoted(argv[0]) + tail;
      assert tail[1..] == Join(argv[1..]);
      JoinRoundTrip(argv[1..]);
      ArgumentReads(argv[0], tail);
      assert [argv[0]] + argv[1..] == argv;
    }
  }

  /** What is joined are the quoted arguments, one blank between any two. */
  lemma {:induction false} JoinAppend(first: seq<string>, second: seq<string>)
    requires first != [] && second != []
    ensures Join(first + second) == Join(first) + " " + Join(second)
    ensures |first| == 1 ==> Join(first) == "'" + Escaped(first[0]) + "'"
  {
    if |first| == 1 {
      assert (first + second)[0] == first[0] && (first + second)[1..] == second;
    } else {
      assert (first + second)[0] == first[0] && (first + second)[1..] == first[1..] + second;
      JoinAppend(first[1..], second);
    }
  }

  // ---------- Embedding in a command ----------

  lemma {:induction false} WordExtends(s: string, word: string, more: string, quoted: bool)
    requires more != "" && IsBlank(more[0])
    requires if quoted then Quoted(s, word).Some? else Word(s, word).Some?
    ensures quoted ==> Quoted(s + more, word) == Some((Quoted(s, word).value.0, Quoted(s, word).value.1 + more))
    ensures !quoted ==> Word(s + more, word) == Some((Word(s, word).value.0, Word(s, word).value.1 + more))
    decreases |s|
  {
    if s == "" {
      assert s + more == more;
    } else {
      assert (s + more)[0] == s[0] && (s + more)[1..] == s[1..] + more;
      if quoted {
        WordExtends(s[1..], if s[0] == '\'' then word else word + [s[0]], more, s[0] != '\'');
      } else if IsBlank(s[0]) {
      } else if s[0] == '\'' {
        WordExtends(s[1..], word, more, true);
      } else if s[0] == '\\' {
        assert (s + more)[1] == s[1] && (s + more)[2..] == s[2..] + more;
        WordExtends(s[2..], if s[1] == '\n' then word else word + [s[1]], more, false);
      } else {
        WordExtends(s[1..], word + [s[0]], more, false);
      }
    }
  }

  /** Whatever stands behind a blank is read after, and apart from, the words before it. */
  lemma {:induction false} TokenizeExtends(s: string, more: string)
    requires more != "" && IsBlank(more[0])
    requires Tokenize(s).Some?
    ensures Tokenize(s + more)
         == if Tokenize(more).None? then None else Some(Tokenize(s).value + Tokenize(more).value)
    decreases |s|
  {
    if s == "" {
      assert s + more == more;
      if Tokenize(more).Some? { assert [] + Tokenize(more).value == Tokenize(more).value; }
    } else {
      assert (s + more)[0] == s[0] && (s + more)[1..] == s[1..] + more;
      if IsBlank(s[0]) {
        TokenizeExtends(s[1..], more);
      } else if Continued(s) {
        assert (s + more)[2..] == s[2..] + more;
        TokenizeExtends(s[2..], more);
      } else {
        WordExtends(s, "", more, false);
        var first := Word(s, "").value;
        TokenizeExtends(first.1, more);
        if Tokenize(more).Some? {
          assert [first.0] + (Tokenize(first.1).value + Tokenize(more).value)
              == [first.0] + Tokenize(first.1).value + Tokenize(more).value;
        }
      }
    }
  }

  /** Quoted arguments put behind a command that is itself plain words arrive as they are, and the words
      of the command are not disturbed. */
  lemma {:induction false} EmbeddedArguments(command: string, argv: seq<string>)
    requires Tokenize(command).Some?
    ensures Tokenize(command + " " + Join(argv)) == Some(Tokenize(command).value + argv)
  {
    var more := " " + Join(argv);
    assert command + " " + Join(argv) == command + more;
    assert more[1..] == Join(argv);
    JoinRoundTrip(argv);
    TokenizeExtends(command, more);
  }

  // ---------- Paths quoted only when needed ----------

  /** Every character stands for itself, and the first starts no comment and no tilde expansion. */
  predicate PlainWord(path: string) {
    path != "" && !StartsExpansion(path[0]) && forall i | 0 <= i < |path| :: IsOrdinary(path[i])
  }

  lemma {:induction false} PlainReads(s: string, word: string)
    requires forall i | 0 <= i < |s| :: IsOrdinary(s[i])
    ensures Word(s, word) == Some((word + s, ""))
    decreases |s|
  {
    if s == "" {
      assert word + s == word;
    } else {
      PlainReads(s[1..], word + [s[0]]);
      assert word + [s[0]] + s[1..] == word + s;
    }
  }

  /** Reading never lengthens, and only ordinary characters are read without losing any. */
  lemma {:induction false} WordShrinks(s: string, word: string, quoted: bool)
    requires if quoted then Quoted(s, word).Some? else Word(s, word).Some?
    ensures var r := (if quoted then Quoted(s, word) else Word(s, word)).value;
            && |r.0| + |r.1| <= |word| + |s|
            && (quoted ==> |r.0| + |r.1| < |word| + |s|)
            && (!quoted && |r.0| + |r.1| == |word| + |s| ==>
                  forall i | 0 <= i < |s| - |r.1| :: IsOrdinary(s[i]))
    decreases |s|
  {
    if s == "" {
    } else if quoted {
      WordShrinks(s[1..], if s[0] == '\'' then word else word + [s[0]], s[0] != '\'');
    } else if IsBlank(s[0]) {
    } else if s[0] == '\'' {
      WordShrinks(s[1..], word, true);
    } else if s[0] == '\\' {
      WordShrinks(s[2..], if s[1] == '\n' then word else word + [s[1]], false);
    } else {
      WordShrinks(s[1..], word + [s[0]], false);
      assert forall i | 0 < i < |s| :: s[i] == s[1..][i - 1];
    }
  }

  lemma {:induction false} TokenizeShrinks(s: string, i: nat)
    requires Tokenize(s).Some? && i < |Tokenize(s).value|
    ensures |Tokenize(s).value[i]| <= |s|
    ensures |Tokenize(s).value[i]| == |s| ==> PlainWord(s) || s == ""
    decreases |s|
  {
    if IsBlank(s[0]) {
      TokenizeShrinks(s[1..], i);
    } else if Continued(s) {
      TokenizeShrinks(s[2..], i);
    } else {
      WordShrinks(s, "", false);
      var first := Word(s, "").value;
      if i > 0 { TokenizeShrinks(first.1, i - 1); }
    }
  }

  /** A path comes back as the one word it is exactly when it is quoted or every character of it stands for
      itself: a tab, a newline, a backslash, an operator, `$`, a backquote, a double quote, a pattern
      character, a leading `#` or `~` or an empty path, without a blank or a single quote beside it, is not
      protected. */
  lemma {:induction false} QuotedPathReadsIff(path: string)
    ensures Tokenize(QuotedPath(path)) == Some([path])
       <==> ' ' in path || '\'' in path || PlainWord(path)
  {
    if ' ' in path || '\'' in path {
      JoinRoundTrip([path]);
    } else if PlainWord(path) {
      PlainReads(path, "");
      assert "" + path == path && IsOrdinary(path[0]);
      assert [path] + [] == [path];
    } else if Tokenize(path) == Some([path]) {
      TokenizeShrinks(path, 0);
    }
  }

  /** A path with neither blank nor single quote is pasted bare, even where the shell would expand it. */
  lemma {:induction false} DollarIsUnprotected()
    ensures QuotedPath("a$b") == "a$b" && Tokenize(QuotedPath("a$b")) == None
  {
    var path := "a$b";
    assert path[1..] == "$b" && IsSpecial('$');
    assert Word(path[1..], "a") == None;
  }
}
