/**
 Cutting highlighted HTML into lines that each stand on their own: tags open at a newline are closed
 before it and opened again behind it. `Cut` says on the tokens of the text what the cursor loop of
 `CutLines` does by position.
 */
module HighlightLines {
  import opened Wrappers
  import opened Sequences

  // ---------- Reading HTML ----------

  /** Markup and characters. `Dangling` is a `<` that no `>` closes. */
  datatype Token = Open(tag: string) | Close(tag: string) | Void(tag: string) | Char(c: char) | Dangling(rest: string)

  predicate EndsWith(s: string, suffix: string) {
    |suffix| <= |s| && s[|s| - |suffix|..] == suffix
  }

  function TagToken(tag: string): Token {
    if StartsWith(tag, "</") then Close(tag) else if EndsWith(tag, "/>") then Void(tag) else Open(tag)
  }

  function Tokens(html: string): seq<Token> {
    if html == "" then []
    else if html[0] == '<' then
      var close := IndexOf(html, '>');
      if close.None? then [Dangling(html)]
      else [TagToken(html[..close.value + 1])] + Tokens(html[close.value + 1..])
    else [Char(html[0])] + Tokens(html[1..])
  }

  const SPAN_END := "</span>"

  predicate SpanTag(tag: string) {
    tag == "<span>" || StartsWith(tag, "<span ")
  }

  /** The tags open after the tokens, when every closing tag is a span's and closes one. */
  function After(tokens: seq<Token>, stack: seq<string>): Option<seq<string>> {
    if tokens == [] then Some(stack)
    else
      match tokens[0]
      case Open(tag) => if SpanTag(tag) then After(tokens[1..], stack + [tag]) else None
      case Close(tag) => if tag == SPAN_END && stack != [] then After(tokens[1..], stack[..|stack| - 1]) else None
      case Void(_) => After(tokens[1..], stack)
      case Char(_) => After(tokens[1..], stack)
      case Dangling(_) => None
  }

  predicate Balanced(html: string) {
    After(Tokens(html), []) == Some([])
  }

  /** A character with the tags that enclose it, outermost first. */
  datatype Cell = Cell(c: char, tags: seq<string>)

  function Pop(stack: seq<string>): seq<string> {
    if stack == [] then [] else stack[..|stack| - 1]
  }

  /** The characters of the tokens, each with its enclosing tags. */
  function Cells(tokens: seq<Token>, stack: seq<string>): seq<Cell> {
    if tokens == [] then []
    else
      match tokens[0]
      case Open(tag) => Cells(tokens[1..], stack + [tag])
      case Close(_) => Cells(tokens[1..], Pop(stack))
      case Void(_) => Cells(tokens[1..], stack)
      case Char(c) => [Cell(c, stack)] + Cells(tokens[1..], stack)
      case Dangling(_) => Cells(tokens[1..], stack)
  }

  function CellsOf(html: string): seq<Cell> {
    Cells(Tokens(html), [])
  }

  /** Cells cut at newline characters. */
  function CutCells(cells: seq<Cell>): (lines: seq<seq<Cell>>)
    ensures lines != []
  {
    if cells == [] then [[]]
    else
      var rest := CutCells(cells[1..]);
      if cells[0].c == '\n' then [[]] + rest else [[cells[0]] + rest[0]] + rest[1..]
  }

  // ---------- The cut ----------

  function Repeat(s: string, n: nat): string {
    if n == 0 then "" else Repeat(s, n - 1) + s
  }

  function Concat(parts: seq<string>): string {
    if parts == [] then "" else Concat(parts[..|parts| - 1]) + parts[|parts| - 1]
  }

  /** The lines from `tokens` on, with `current` already written and `stack` open. */
  function Cut(tokens: seq<Token>, current: string, stack: seq<string>): seq<string> {
    if tokens == [] then [current]
    else
      match tokens[0]
      case Open(tag) => Cut(tokens[1..], current + tag, stack + [tag])
      case Close(tag) => Cut(tokens[1..], current + tag, Pop(stack))
      case Void(tag) => Cut(tokens[1..], current + tag, stack)
      case Dangling(rest) => [current + rest]
      case Char(c) =>
        if c == '\n' then [current + Repeat(SPAN_END, |stack|)] + Cut(tokens[1..], Concat(stack), stack)
        else Cut(tokens[1..], current + [c], stack)
  }

  /** Appends a closing tag for every open one. */
  method CloseAll(current: string, openTags: seq<string>) returns (line: string)
    ensures line == current + Repeat(SPAN_END, |openTags|)
  {
    line := current;
    var t := |openTags|;
    while t > 0
      invariant 0 <= t <= |openTags|
      invariant line == current + Repeat(SPAN_END, |openTags| - t)
    {
      line := line + SPAN_END;
      t := t - 1;
    }
  }

  /** The cut, one tag further. */
  lemma {:induction false} CutTag(rest: string, close: nat, current: string, stack: seq<string>)
    requires rest != "" && rest[0] == '<' && IndexOf(rest, '>') == Some(close)
    ensures close < |rest|
    ensures var tag := rest[..close + 1];
            Cut(Tokens(rest), current, stack) ==
            Cut(Tokens(rest[close + 1..]), current + tag,
                if StartsWith(tag, "</") then Pop(stack) else if EndsWith(tag, "/>") then stack else stack + [tag])
  {
    var token := TagToken(rest[..close + 1]);
    var more := Tokens(rest[close + 1..]);
    assert Tokens(rest) == [token] + more;
    assert ([token] + more)[1..] == more;
  }

  /** The cut, one character further. */
  lemma {:induction false} CutChar(rest: string, current: string, stack: seq<string>)
    requires rest != "" && rest[0] != '<'
    ensures Cut(Tokens(rest), current, stack) ==
            if rest[0] == '\n' then [current + Repeat(SPAN_END, |stack|)] + Cut(Tokens(rest[1..]), Concat(stack), stack)
            else Cut(Tokens(rest[1..]), current + [rest[0]], stack)
  {
    var more := Tokens(rest[1..]);
    assert Tokens(rest) == [Char(rest[0])] + more;
    assert ([Char(rest[0])] + more)[1..] == more;
  }

  lemma {:induction false} TagAt(html: string, i: nat, found: nat)
    requires i + found < |html|
    ensures html[i..][..found + 1] == html[i..i + found + 1] && html[i..][found + 1..] == html[i + found + 1..]
  {
  }

  /** Copies the tag at `i` and keeps the stack of open tags. */
  method TakeTag(html: string, i: nat, found: nat, current: string, openTags: seq<string>)
    returns (next: nat, current': string, openTags': seq<string>)
    requires i < |html| && html[i] == '<' && IndexOf(html[i..], '>') == Some(found)
    ensures i < next <= |html|
    ensures Cut(Tokens(html[next..]), current', openTags') == Cut(Tokens(html[i..]), current, openTags)
  {
    CutTag(html[i..], found, current, openTags);
    TagAt(html, i, found);
    next := i + found + 1;
    var tag := html[i..next];
    current', openTags' := current + tag, openTags;
    if StartsWith(tag, "</") {
      if |openTags| > 0 { openTags' := openTags[..|openTags| - 1]; }
    } else if !EndsWith(tag, "/>") {
      openTags' := openTags + [tag];
    }
  }

  /** The loop of `highlightLines`. */
  method CutLines(html: string) returns (out: seq<string>)
    ensures out == Cut(Tokens(html), "", [])
  {
    out := [];
    var current := "";
    var openTags: seq<string> := [];
    var i := 0;
    assert html[0..] == html;
    ghost var todo := Cut(Tokens(html), "", []);
    while i < |html|
      invariant 0 <= i <= |html|
      invariant todo == Cut(Tokens(html[i..]), current, openTags)
      invariant out + todo == Cut(Tokens(html), "", [])
    {
      if html[i] == '<' {
        var found := IndexOf(html[i..], '>');
        if found.None? {
          out := out + [current + html[i..]];
          return;
        }
        i, current, openTags := TakeTag(html, i, found.value, current, openTags);
      } else {
        assert html[i..][1..] == html[i + 1..];
        CutChar(html[i..], current, openTags);
        if html[i] == '\n' {
          current := CloseAll(current, openTags);
          out := out + [current];
          current := Concat(openTags);
          todo := todo[1..];
        } else {
          current := current + [html[i]];
        }
        i := i + 1;
      }
    }
    out := out + [current];
  }
}
