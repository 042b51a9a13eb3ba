/** The cut preserves meaning: every line stands on its own and shows what the input shows. */
module HighlightMeaning {
  import opened Wrappers
  import opened Sequences
  import opened TextLines
  import opened HighlightLines

  // ---------- Reading pieces ----------

  predicate Solid(tokens: seq<Token>) {
    forall i | 0 <= i < |tokens| :: !tokens[i].Dangling?
  }

  function Written(t: Token): string {
    match t
    case Open(tag) => tag
    case Close(tag) => tag
    case Void(tag) => tag
    case Char(c) => [c]
    case Dangling(rest) => rest
  }

  /** Written down, the token reads back as itself. */
  predicate ReadsBack(t: Token) {
    Tokens(Written(t)) == [t]
  }

  lemma {:induction false} IndexOfAppend(a: string, b: string, c: char)
    requires IndexOf(a, c).Some?
    ensures IndexOf(a + b, c) == IndexOf(a, c)
  {
    assert (a + b)[1..] == a[1..] + b;
    if a[0] != c { IndexOfAppend(a[1..], b, c); }
  }

  lemma {:induction false} SolidTagCloses(html: string)
    requires html != "" && html[0] == '<'
    ensures Solid(Tokens(html)) ==> IndexOf(html, '>').Some?
  {
    if IndexOf(html, '>').None? { assert Tokens(html)[0].Dangling?; }
  }

  /** The first token of a text whose first tag, if it starts with one, is closed, and the text after it. */
  lemma {:induction false} FirstToken(html: string) returns (t: Token, n: nat)
    requires html != "" && (html[0] == '<' ==> IndexOf(html, '>').Some?)
    ensures n == (if html[0] == '<' then IndexOf(html, '>').value + 1 else 1) <= |html|
    ensures t == if html[0] == '<' then TagToken(html[..n]) else Char(html[0])
    ensures Tokens(html) == [t] + Tokens(html[n..])
    ensures forall more: string :: Tokens(html + more) == [t] + Tokens(html[n..] + more)
  {
    if html[0] == '<' {
      n := IndexOf(html, '>').value + 1;
      t := TagToken(html[..n]);
      forall more: string
        ensures Tokens(html + more) == [t] + Tokens(html[n..] + more)
      {
        IndexOfAppend(html, more, '>');
        assert (html + more)[..n] == html[..n] && (html + more)[n..] == html[n..] + more;
      }
    } else {
      t, n := Char(html[0]), 1;
      forall more: string
        ensures Tokens(html + more) == [t] + Tokens(html[n..] + more)
      {
        assert (html + more)[1..] == html[1..] + more;
      }
    }
  }

  lemma {:induction false} SolidTail(t: Token, rest: seq<Token>)
    requires Solid([t] + rest)
    ensures Solid(rest)
  {
    assert forall i | 0 <= i < |rest| :: rest[i] == ([t] + rest)[i + 1];
  }

  lemma {:induction false} TokensAppend(a: string, b: string)
    requires Solid(Tokens(a))
    ensures Tokens(a + b) == Tokens(a) + Tokens(b)
    decreases |a|
  {
    if a == "" {
      assert a + b == b;
    } else {
      if a[0] == '<' { SolidTagCloses(a); }
      var t, n := FirstToken(a);
      SolidTail(t, Tokens(a[n..]));
      TokensAppend(a[n..], b);
      Reassociate([t], Tokens(a[n..]), Tokens(b));
    }
  }

  lemma {:induction false} AfterAppend(x: seq<Token>, y: seq<Token>, stack: seq<string>)
    ensures After(x + y, stack) == (var mid := After(x, stack); if mid.None? then None else After(y, mid.value))
    decreases |x|
  {
    if x == [] {
      assert x + y == y;
    } else {
      assert (x + y)[1..] == x[1..] + y;
      match x[0]
      case Open(tag) => AfterAppend(x[1..], y, stack + [tag]);
      case Close(tag) => if stack != [] { AfterAppend(x[1..], y, stack[..|stack| - 1]); }
      case _ => AfterAppend(x[1..], y, stack);
    }
  }

  lemma {:induction false} CellsAppend(x: seq<Token>, y: seq<Token>, stack: seq<string>)
    requires After(x, stack).Some?
    ensures Cells(x + y, stack) == Cells(x, stack) + Cells(y, After(x, stack).value)
    decreases |x|
  {
    if x == [] {
      assert x + y == y;
    } else {
      assert (x + y)[1..] == x[1..] + y;
      match x[0]
      case Open(tag) => CellsAppend(x[1..], y, stack + [tag]);
      case Close(tag) => CellsAppend(x[1..], y, Pop(stack));
      case _ => CellsAppend(x[1..], y, stack);
    }
  }

  lemma {:induction false} AfterIsSolid(tokens: seq<Token>, stack: seq<string>)
    requires After(tokens, stack).Some?
    ensures Solid(tokens)
    decreases |tokens|
  {
    if tokens != [] {
      assert forall i | 1 <= i < |tokens| :: tokens[i] == tokens[1..][i - 1];
      match tokens[0]
      case Open(tag) => AfterIsSolid(tokens[1..], stack + [tag]);
      case Close(tag) => AfterIsSolid(tokens[1..], stack[..|stack| - 1]);
      case Void(_) => AfterIsSolid(tokens[1..], stack);
      case Char(_) => AfterIsSolid(tokens[1..], stack);
      case Dangling(_) => assert false;
    }
  }

  lemma {:induction false} IndexOfPrefix(s: string, c: char)
    requires IndexOf(s, c).Some?
    ensures var n := IndexOf(s, c).value; IndexOf(s[..n + 1], c) == Some(n)
  {
    if s[0] != c {
      IndexOfPrefix(s[1..], c);
      var n := IndexOf(s, c).value;
      assert s[..n + 1][1..] == s[1..][..n];
    }
  }

  lemma {:induction false} TagReadsBack(html: string)
    requires html != "" && html[0] == '<' && IndexOf(html, '>').Some?
    ensures ReadsBack(TagToken(html[..IndexOf(html, '>').value + 1]))
  {
    var n := IndexOf(html, '>').value + 1;
    IndexOfPrefix(html, '>');
    var tag := html[..n];
    assert tag[n..] == "" && tag[..n] == tag;
  }

  lemma {:induction false} ReadBackCons(t: Token, rest: seq<Token>)
    requires ReadsBack(t) && forall i | 0 <= i < |rest| :: ReadsBack(rest[i])
    ensures forall i | 0 <= i < |[t] + rest| :: ReadsBack(([t] + rest)[i])
  {
  }

  /** Every token read, but a dangling one, reads back as itself. */
  lemma {:induction false} TokensReadBack(html: string)
    requires Solid(Tokens(html))
    ensures forall i | 0 <= i < |Tokens(html)| :: ReadsBack(Tokens(html)[i])
    decreases |html|
  {
    if html != "" {
      if html[0] == '<' {
        SolidTagCloses(html);
        TagReadsBack(html);
      } else {
        assert [html[0]][1..] == "";
      }
      var t, n := FirstToken(html);
      SolidTail(t, Tokens(html[n..]));
      TokensReadBack(html[n..]);
      ReadBackCons(t, Tokens(html[n..]));
    }
  }

  // ---------- A line being written ----------

  /** Each of the tags opens a span and reads back as itself. */
  ghost predicate Reopenable(stack: seq<string>) {
    forall i | 0 <= i < |stack| :: SpanTag(stack[i]) && ReadsBack(Open(stack[i]))
  }

  /** `current` is read with exactly `stack` left open, and each tag open reads back as itself. */
  ghost predicate Writes(current: string, stack: seq<string>) {
    && After(Tokens(current), []) == Some(stack)
    && Reopenable(stack)
  }

  lemma {:induction false} AfterOne(t: Token, stack: seq<string>)
    ensures After([t], stack) ==
            if t.Open? then if SpanTag(t.tag) then Some(stack + [t.tag]) else None
            else if t.Close? then if t.tag == SPAN_END && stack != [] then Some(stack[..|stack| - 1]) else None
            else if t.Dangling? then None
            else Some(stack)
  {
    assert [t][1..] == [];
  }

  lemma {:induction false} StackReads(stack: seq<string>, t: Token, stack': seq<string>)
    requires Reopenable(stack)
    requires ReadsBack(t) && After([t], stack) == Some(stack')
    ensures Reopenable(stack')
  {
    AfterOne(t, stack);
  }

  lemma {:induction false} AddToken(current: string, stack: seq<string>, t: Token, stack': seq<string>)
    requires Writes(current, stack) && ReadsBack(t) && After([t], stack) == Some(stack')
    ensures Writes(current + Written(t), stack')
    ensures CellsOf(current + Written(t)) == CellsOf(current) + Cells([t], stack)
  {
    var tokens := Tokens(current);
    AfterIsSolid(tokens, []);
    TokensAppend(current, Written(t));
    AfterAppend(tokens, [t], []);
    CellsAppend(tokens, [t], []);
    StackReads(stack, t, stack');
  }

  lemma {:induction false} AddOpen(current: string, stack: seq<string>, tag: string)
    requires Writes(current, stack) && SpanTag(tag) && ReadsBack(Open(tag))
    ensures Writes(current + tag, stack + [tag]) && CellsOf(current + tag) == CellsOf(current)
  {
    assert [Open(tag)][1..] == [];
    AddToken(current, stack, Open(tag), stack + [tag]);
  }

  lemma {:induction false} SpanEndReadsBack()
    ensures ReadsBack(Close(SPAN_END))
  {
    var s := SPAN_END;
    assert s[1..][1..][1..][1..][1..][1..] == ">";
    assert IndexOf(s, '>') == Some(6);
    assert s[..7] == s && s[7..] == "";
    assert s[..2] == "</";
  }

  lemma {:induction false} AddClose(current: string, stack: seq<string>)
    requires Writes(current, stack) && stack != []
    ensures Writes(current + SPAN_END, Pop(stack)) && CellsOf(current + SPAN_END) == CellsOf(current)
  {
    SpanEndReadsBack();
    assert [Close(SPAN_END)][1..] == [];
    AddToken(current, stack, Close(SPAN_END), Pop(stack));
  }

  lemma {:induction false} AddVoid(current: string, stack: seq<string>, tag: string)
    requires Writes(current, stack) && ReadsBack(Void(tag))
    ensures Writes(current + tag, stack) && CellsOf(current + tag) == CellsOf(current)
  {
    assert [Void(tag)][1..] == [];
    AddToken(current, stack, Void(tag), stack);
  }

  lemma {:induction false} AddChar(current: string, stack: seq<string>, c: char)
    requires Writes(current, stack) && ReadsBack(Char(c))
    ensures Writes(current + [c], stack) && CellsOf(current + [c]) == CellsOf(current) + [Cell(c, stack)]
  {
    assert [Char(c)][1..] == [];
    AddToken(current, stack, Char(c), stack);
  }

  lemma {:induction false} ConcatSnoc(parts: seq<string>, part: string)
    ensures Concat(parts + [part]) == Concat(parts) + part
  {
    assert (parts + [part])[..|parts|] == parts;
  }

  /** Re-opening the tags cut by a newline: markup only. */
  lemma {:induction false} Reopens(stack: seq<string>)
    requires Reopenable(stack)
    ensures Writes(Concat(stack), stack) && CellsOf(Concat(stack)) == []
  {
    if stack != [] {
      var rest, last := stack[..|stack| - 1], stack[|stack| - 1];
      assert stack == rest + [last];
      Reopens(rest);
      AddOpen(Concat(rest), rest, last);
      ConcatSnoc(rest, last);
    }
  }

  /** With the innermost `n` tags closed, the others are open and nothing more is shown. */
  ghost predicate ClosedBy(current: string, stack: seq<string>, n: nat)
    requires n <= |stack|
  {
    var line := current + Repeat(SPAN_END, n);
    Writes(line, stack[..|stack| - n]) && CellsOf(line) == CellsOf(current)
  }

  lemma {:induction false} PopPrefix(stack: seq<string>, n: nat)
    requires 0 < n <= |stack|
    ensures Pop(stack[..n]) == stack[..n - 1]
  {
  }

  lemma {:induction false} CloseOneMore(current: string, stack: seq<string>, n: nat)
    requires n < |stack| && ClosedBy(current, stack, n)
    ensures ClosedBy(current, stack, n + 1)
  {
    var line := current + Repeat(SPAN_END, n);
    AddClose(line, stack[..|stack| - n]);
    PopPrefix(stack, |stack| - n);
    Reassociate(current, Repeat(SPAN_END, n), SPAN_END);
    assert current + Repeat(SPAN_END, n + 1) == line + SPAN_END;
  }

  /** Closing the innermost `n` tags: markup only. */
  lemma {:induction false} Closes(current: string, stack: seq<string>, n: nat)
    requires Writes(current, stack) && n <= |stack|
    ensures ClosedBy(current, stack, n)
  {
    if n == 0 {
      assert current + "" == current && stack[..|stack|] == stack;
    } else {
      Closes(current, stack, n - 1);
      CloseOneMore(current, stack, n - 1);
    }
  }

  // ---------- The theorem ----------

  function LinesCells(lines: seq<string>): seq<seq<Cell>> {
    seq(|lines|, i requires 0 <= i < |lines| => CellsOf(lines[i]))
  }

  predicate AllBalanced(lines: seq<string>) {
    forall i | 0 <= i < |lines| :: Balanced(lines[i])
  }

  /** The lines start with `before`, go on with the cut of `cells`, and each is balanced. */
  ghost predicate Shows(lines: seq<string>, before: seq<Cell>, cells: seq<Cell>) {
    var cut := CutCells(cells);
    AllBalanced(lines) && LinesCells(lines) == [before + cut[0]] + cut[1..]
  }

  lemma {:induction false} NothingBefore(cut: seq<seq<Cell>>)
    requires cut != []
    ensures [[] + cut[0]] + cut[1..] == cut
  {
    assert [] + cut[0] == cut[0];
  }

  lemma {:induction false} CutNewline(newline: Cell, cells: seq<Cell>)
    requires newline.c == '\n'
    ensures CutCells([newline] + cells) == [[]] + CutCells(cells)
  {
    assert ([newline] + cells)[1..] == cells;
  }

  lemma {:induction false} LinesCellsCons(line: string, lines: seq<string>)
    ensures LinesCells([line] + lines) == [CellsOf(line)] + LinesCells(lines)
  {
  }

  lemma {:induction false} ShowsCons(line: string, lines: seq<string>, before: seq<Cell>, newline: Cell,
                                     cells: seq<Cell>)
    requires Balanced(line) && CellsOf(line) == before && newline.c == '\n'
    requires Shows(lines, [], cells)
    ensures Shows([line] + lines, before, [newline] + cells)
  {
    var cut := CutCells(cells);
    CutNewline(newline, cells);
    assert ([[]] + cut)[1..] == cut && before + [] == before;
    LinesCellsCons(line, lines);
    NothingBefore(cut);
  }

  lemma {:induction false} ShowsMore(lines: seq<string>, before: seq<Cell>, cell: Cell, cells: seq<Cell>)
    requires cell.c != '\n' && Shows(lines, before + [cell], cells)
    ensures Shows(lines, before, [cell] + cells)
  {
    var cut := CutCells(cells);
    assert ([cell] + cells)[1..] == cells;
    assert before + [cell] + cut[0] == before + ([cell] + cut[0]);
  }

  /** At a newline the finished line is balanced, and the next one starts with the same tags open. */
  lemma {:induction false} NewlineWrites(current: string, stack: seq<string>)
    requires Writes(current, stack)
    ensures var line := current + Repeat(SPAN_END, |stack|);
            Balanced(line) && CellsOf(line) == CellsOf(current)
    ensures Writes(Concat(stack), stack) && CellsOf(Concat(stack)) == []
  {
    Closes(current, stack, |stack|);
    assert stack[..0] == [];
    Reopens(stack);
  }

  lemma {:induction false} CutShows(tokens: seq<Token>, current: string, stack: seq<string>)
    requires Writes(current, stack) && After(tokens, stack) == Some([])
    requires forall i | 0 <= i < |tokens| :: ReadsBack(tokens[i])
    ensures Shows(Cut(tokens, current, stack), CellsOf(current), Cells(tokens, stack))
    decreases |tokens|
  {
    if tokens == [] {
      assert CellsOf(current) + [] == CellsOf(current);
      assert LinesCells([current]) == [CellsOf(current)];
    } else {
      var t, rest := tokens[0], tokens[1..];
      assert ReadsBack(t);
      assert forall i | 0 <= i < |rest| :: rest[i] == tokens[i + 1];
      match t
      case Open(tag) =>
        AddOpen(current, stack, tag);
        CutShows(rest, current + tag, stack + [tag]);
      case Close(tag) =>
        AddClose(current, stack);
        CutShows(rest, current + tag, Pop(stack));
      case Void(tag) =>
        AddVoid(current, stack, tag);
        CutShows(rest, current + tag, stack);
      case Char(c) =>
        if c == '\n' {
          NewlineWrites(current, stack);
          CutShows(rest, Concat(stack), stack);
          ShowsCons(current + Repeat(SPAN_END, |stack|), Cut(rest, Concat(stack), stack), CellsOf(current),
                    Cell(c, stack), Cells(rest, stack));
        } else {
          AddChar(current, stack, c);
          CutShows(rest, current + [c], stack);
          ShowsMore(Cut(rest, current + [c], stack), CellsOf(current), Cell(c, stack), Cells(rest, stack));
        }
      case Dangling(_) => assert false;
    }
  }

  /** For balanced span markup, every output line is balanced on its own, and the lines show, character
      by character with the tags around each, the input cut at its newlines. */
  lemma {:induction false} CutPreservesMeaning(html: string)
    requires Balanced(html)
    ensures var lines := Cut(Tokens(html), "", []);
            AllBalanced(lines) && LinesCells(lines) == CutCells(CellsOf(html))
  {
    AfterIsSolid(Tokens(html), []);
    TokensReadBack(html);
    CutShows(Tokens(html), "", []);
    var cut := CutCells(CellsOf(html));
    NothingBefore(cut);
  }

  // ---------- Characters, and the plain path ----------

  /** The characters of cells, tags forgotten. */
  function Chars(cells: seq<Cell>): string {
    seq(|cells|, i requires 0 <= i < |cells| => cells[i].c)
  }

  /** Line by line the characters are the pieces. */
  ghost predicate AreChars(pieces: seq<string>, lines: seq<seq<Cell>>) {
    |pieces| == |lines| && forall i | 0 <= i < |lines| :: Chars(lines[i]) == pieces[i]
  }

  lemma {:induction false} CutCharsCons(cell: Cell, lines: seq<seq<Cell>>, pieces: seq<string>)
    requires AreChars(pieces, lines) && lines != []
    ensures AreChars([""] + pieces, [[]] + lines)
    ensures AreChars([[cell.c] + pieces[0]] + pieces[1..], [[cell] + lines[0]] + lines[1..])
  {
    assert Chars([cell] + lines[0]) == [cell.c] + Chars(lines[0]);
  }

  lemma {:induction false} SplitCons(c: char, text: string)
    ensures Split([c] + text) ==
            if c == '\n' then [""] + Split(text) else [[c] + Split(text)[0]] + Split(text)[1..]
  {
    assert ([c] + text)[1..] == text;
  }

  lemma {:induction false} CutChars(cells: seq<Cell>)
    ensures AreChars(Split(Chars(cells)), CutCells(cells))
  {
    if cells != [] {
      var cell, more := cells[0], cells[1..];
      assert Chars(cells) == [cell.c] + Chars(more);
      CutChars(more);
      SplitCons(cell.c, Chars(more));
      CutCharsCons(cell, CutCells(more), Split(Chars(more)));
    }
  }

  /** As many lines as newline-separated pieces of the text, each showing its piece. */
  lemma {:induction false} LinesShowPieces(html: string)
    requires Balanced(html)
    ensures var lines := Cut(Tokens(html), "", []);
            var pieces := Split(Chars(CellsOf(html)));
            |lines| == |pieces| && forall i | 0 <= i < |lines| :: Chars(CellsOf(lines[i])) == pieces[i]
  {
    CutPreservesMeaning(html);
    CutChars(CellsOf(html));
    var lines := Cut(Tokens(html), "", []);
    assert |LinesCells(lines)| == |lines|;
    forall i | 0 <= i < |lines|
      ensures CellsOf(lines[i]) == CutCells(CellsOf(html))[i]
    {
      assert LinesCells(lines)[i] == CellsOf(lines[i]);
    }
  }

  /** `s.replace(/c/g, rep)`. */
  function ReplaceAll(s: string, c: char, rep: string): string {
    if s == "" then "" else (if s[0] == c then rep else [s[0]]) + ReplaceAll(s[1..], c, rep)
  }

  function EscapeHtml(s: string): string {
    ReplaceAll(ReplaceAll(ReplaceAll(s, '&', "&amp;"), '<', "&lt;"), '>', "&gt;")
  }

  function EscapeChar(c: char): string {
    if c == '&' then "&amp;" else if c == '<' then "&lt;" else if c == '>' then "&gt;" else [c]
  }

  /** Escaping in one pass. */
  function Escaped(s: string): string {
    if s == "" then "" else EscapeChar(s[0]) + Escaped(s[1..])
  }

  lemma {:induction false} ReplaceAppend(a: string, b: string, c: char, rep: string)
    ensures ReplaceAll(a + b, c, rep) == ReplaceAll(a, c, rep) + ReplaceAll(b, c, rep)
  {
    if a == "" {
      assert a + b == b;
    } else {
      assert (a + b)[1..] == a[1..] + b;
      ReplaceAppend(a[1..], b, c, rep);
    }
  }

  lemma {:induction false} ReplaceNone(s: string, c: char, rep: string)
    requires c !in s
    ensures ReplaceAll(s, c, rep) == s
  {
    if s != "" { ReplaceNone(s[1..], c, rep); }
  }

  lemma {:induction false} ReplaceOne(c: char, d: char, rep: string)
    ensures ReplaceAll([d], c, rep) == if d == c then rep else [d]
  {
    assert [d][1..] == "";
  }

  lemma {:induction false} EscapeHead(c: char, s: string)
    ensures EscapeHtml([c] + s) == EscapeHtml([c]) + EscapeHtml(s)
  {
    ReplaceAppend([c], s, '&', "&amp;");
    var a, b := ReplaceAll([c], '&', "&amp;"), ReplaceAll(s, '&', "&amp;");
    ReplaceAppend(a, b, '<', "&lt;");
    ReplaceAppend(ReplaceAll(a, '<', "&lt;"), ReplaceAll(b, '<', "&lt;"), '>', "&gt;");
  }

  lemma {:induction false} EscapeOneChar(c: char)
    ensures EscapeHtml([c]) == EscapeChar(c)
  {
    ReplaceOne('&', c, "&amp;");
    if c == '&' {
      ReplaceNone("&amp;", '<', "&lt;");
      ReplaceNone("&amp;", '>', "&gt;");
    } else {
      ReplaceOne('<', c, "&lt;");
      if c == '<' { ReplaceNone("&lt;", '>', "&gt;"); } else { ReplaceOne('>', c, "&gt;"); }
    }
  }

  /** The three passes, ampersands first, escape each character once. */
  lemma {:induction false} EscapeIsOnePass(s: string)
    ensures EscapeHtml(s) == Escaped(s)
  {
    if s != "" {
      EscapeIsOnePass(s[1..]);
      assert s == [s[0]] + s[1..];
      EscapeHead(s[0], s[1..]);
      EscapeOneChar(s[0]);
    }
  }

  /** The first character a browser shows of `s`, and how much of `s` it takes: an entity or itself. */
  function FirstShown(s: string): (r: (char, nat))
    requires s != ""
    ensures 1 <= r.1 <= |s| && OneLine(s[1..r.1])
  {
    if StartsWith(s, "&amp;") then ('&', 5)
    else if StartsWith(s, "&lt;") then ('<', 4)
    else if StartsWith(s, "&gt;") then ('>', 4)
    else if StartsWith(s, "&quot;") then ('"', 6)
    else if StartsWith(s, "&#x27;") then ('\'', 6)
    else (s[0], 1)
  }

  /** The text a browser shows for characters and entities. */
  function Decoded(s: string): string
    decreases |s|
  {
    if s == "" then "" else [FirstShown(s).0] + Decoded(s[FirstShown(s).1..])
  }

  lemma {:induction false} Mismatch(s: string, prefix: string, i: nat)
    requires i < |s| && i < |prefix| && s[i] != prefix[i]
    ensures !StartsWith(s, prefix)
  {
  }

  lemma {:induction false} PrefixStarts(prefix: string, rest: string)
    ensures StartsWith(prefix + rest, prefix)
  {
  }

  lemma {:induction false} FirstShownEscaped(c: char, rest: string)
    ensures EscapeChar(c) + rest != "" && FirstShown(EscapeChar(c) + rest) == (c, |EscapeChar(c)|)
  {
    var s := EscapeChar(c) + rest;
    PrefixStarts(EscapeChar(c), rest);
    if c == '<' {
      Mismatch(s, "&amp;", 1);
    } else if c == '>' {
      Mismatch(s, "&amp;", 1);
      Mismatch(s, "&lt;", 1);
    } else if c != '&' {
      Mismatch(s, "&amp;", 0);
      Mismatch(s, "&lt;", 0);
      Mismatch(s, "&gt;", 0);
      Mismatch(s, "&quot;", 0);
      Mismatch(s, "&#x27;", 0);
    }
  }

  lemma {:induction false} EscapeShowsFirst(c: char, rest: string)
    ensures Decoded(EscapeChar(c) + rest) == [c] + Decoded(rest)
  {
    var e := EscapeChar(c);
    FirstShownEscaped(c, rest);
    assert (e + rest)[|e|..] == rest;
  }

  lemma {:induction false} DecodedEscaped(s: string)
    ensures Decoded(Escaped(s)) == s
  {
    if s != "" {
      DecodedEscaped(s[1..]);
      EscapeShowsFirst(s[0], Escaped(s[1..]));
    }
  }

  lemma {:induction false} NoMarkup(s: string)
    ensures '<' !in Escaped(s) && '>' !in Escaped(s)
  {
    if s != "" { NoMarkup(s[1..]); }
  }

  /** `escapeHtml` loses nothing and leaves no markup. */
  lemma {:induction false} EscapeRoundTrip(s: string)
    ensures Decoded(EscapeHtml(s)) == s
    ensures '<' !in EscapeHtml(s) && '>' !in EscapeHtml(s)
  {
    EscapeIsOnePass(s);
    DecodedEscaped(s);
    NoMarkup(s);
  }

  /** Text without `<` is all characters, and so balanced. */
  lemma {:induction false} PlainText(html: string, stack: seq<string>)
    requires '<' !in html
    ensures After(Tokens(html), stack) == Some(stack)
    ensures Chars(Cells(Tokens(html), stack)) == html
  {
    if html != "" {
      PlainText(html[1..], stack);
      var rest := Tokens(html[1..]);
      assert ([Char(html[0])] + rest)[1..] == rest;
      assert Chars([Cell(html[0], stack)] + Cells(rest, stack)) == [html[0]] + Chars(Cells(rest, stack));
    }
  }

  /** The HTML is balanced and a browser shows exactly the text. */
  predicate ShowsText(html: string, text: string) {
    Balanced(html) && Decoded(Chars(CellsOf(html))) == text
  }

  /** The plain path meets what is asked of the highlighter. */
  lemma {:induction false} PlainPathShows(code: string)
    ensures ShowsText(EscapeHtml(code), code)
  {
    EscapeRoundTrip(code);
    PlainText(EscapeHtml(code), []);
  }

  /** Text without a newline in front of a text joins its first line. */
  lemma {:induction false} SplitAfter(front: string, text: string)
    requires OneLine(front)
    ensures Split(front + text) == [front + Split(text)[0]] + Split(text)[1..]
  {
    var pieces := Split(text);
    if front == "" {
      assert front + text == text && "" + pieces[0] == pieces[0];
    } else {
      assert (front + text)[1..] == front[1..] + text;
      SplitAfter(front[1..], text);
      assert [front[0]] + (front[1..] + pieces[0]) == front + pieces[0];
    }
  }

  lemma {:induction false} FirstLineIsPrefix(text: string)
    ensures Split(text)[0] <= text
  {
    if text != "" && text[0] != '\n' { FirstLineIsPrefix(text[1..]); }
  }

  /** What is shown first does not depend on what follows the first line. */
  lemma {:induction false} FirstShownOfLine(s: string, line: string)
    requires s != "" && s[..FirstShown(s).1] <= line <= s
    ensures line != "" && FirstShown(line) == FirstShown(s)
  {
  }

  function AllDecoded(lines: seq<string>): seq<string> {
    seq(|lines|, i requires 0 <= i < |lines| => Decoded(lines[i]))
  }

  lemma {:induction false} DecodedBlankLine(lines: seq<string>)
    ensures AllDecoded([""] + lines) == [""] + AllDecoded(lines)
  {
  }

  lemma {:induction false} DecodedHead(line: string, lines: seq<string>, shown: string)
    requires Decoded(line) == shown
    ensures AllDecoded([line] + lines) == [shown] + AllDecoded(lines)
  {
  }

  lemma {:induction false} DecodedTail(lines: seq<string>)
    requires lines != []
    ensures AllDecoded(lines)[0] == Decoded(lines[0]) && AllDecoded(lines)[1..] == AllDecoded(lines[1..])
  {
  }

  /** The first line of a text that does not start with a newline. */
  lemma {:induction false} DecodedFirstLine(text: string)
    requires text != "" && text[0] != '\n'
    ensures var (c, n) := FirstShown(text);
            var rest := Split(text[n..]);
            && Split(text) == [text[..n] + rest[0]] + rest[1..]
            && Decoded(text[..n] + rest[0]) == [c] + Decoded(rest[0])
  {
    var n := FirstShown(text).1;
    var rest := Split(text[n..]);
    assert text == text[..n] + text[n..];
    assert OneLine(text[..n]);
    SplitAfter(text[..n], text[n..]);
    FirstLineIsPrefix(text[n..]);
    var line := text[..n] + rest[0];
    FirstShownOfLine(text, line);
    assert line[n..] == rest[0];
  }

  /** Decoding line by line, or the whole text: the lines are the same. */
  lemma {:induction false} DecodedSplit(text: string)
    ensures Split(Decoded(text)) == AllDecoded(Split(text))
    decreases |text|
  {
    if text == "" {
      assert AllDecoded([""]) == [""];
    } else {
      var (c, n) := FirstShown(text);
      var rest := Split(text[n..]);
      DecodedSplit(text[n..]);
      assert Decoded(text) == [c] + Decoded(text[n..]);
      SplitCons(c, Decoded(text[n..]));
      if text[0] == '\n' {
        assert Split(text) == [""] + rest;
        DecodedBlankLine(rest);
      } else {
        DecodedFirstLine(text);
        DecodedHead(text[..n] + rest[0], rest[1..], [c] + Decoded(rest[0]));
        DecodedTail(rest);
      }
    }
  }
}
