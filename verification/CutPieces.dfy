/** The cut of any HTML, balanced or not: nothing of it is lost. */
module CutPieces {
  import opened Wrappers
  import opened Sequences
  import opened TextLines
  import opened HighlightLines
  import opened HighlightMeaning

  lemma {:induction false} IndexOfBehind(front: string, c: char, rest: string)
    requires c !in front
    ensures IndexOf(front + [c] + rest, c) == Some(|front|)
  {
    var s := front + [c] + rest;
    if front != "" {
      assert s[1..] == front[1..] + [c] + rest;
      IndexOfBehind(front[1..], c, rest);
    }
  }

  /** A tag ends at its `>`; it closes when it starts with `</`, is void when it ends with `/>`, and opens
      otherwise. What is no tag is characters, and a `<` without a `>` takes the rest. */
  lemma {:induction false} TagsAreRead(tag: string, rest: string)
    requires |tag| >= 2 && tag[0] == '<' && tag[|tag| - 1] == '>' && '>' !in tag[..|tag| - 1]
    ensures Tokens(tag + rest) ==
            [if "</" <= tag then Close(tag) else if tag[|tag| - 2] == '/' then Void(tag) else Open(tag)]
            + Tokens(rest)
  {
    var n := |tag| - 1;
    var html := tag + rest;
    assert tag == tag[..n] + ['>'] && html == tag[..n] + ['>'] + rest;
    IndexOfBehind(tag[..n], '>', rest);
    assert html[..n + 1] == tag && html[n + 1..] == rest;
    assert tag[|tag| - 2..] == [tag[|tag| - 2], '>'];
  }

  /** The HTML cut at newlines outside tags. */
  function RawPieces(tokens: seq<Token>): (pieces: seq<string>)
    ensures pieces != []
  {
    if tokens == [] then [""]
    else if tokens[0].Dangling? then [Written(tokens[0])]
    else
      var rest := RawPieces(tokens[1..]);
      if tokens[0] == Char('\n') then [""] + rest else [Written(tokens[0]) + rest[0]] + rest[1..]
  }

  /** The tags open behind a token: a closing tag takes the last one, whatever it is. */
  function Behind(token: Token, stack: seq<string>): seq<string> {
    match token
    case Open(tag) => stack + [tag]
    case Close(_) => if stack == [] then [] else stack[..|stack| - 1]
    case _ => stack
  }

  /** The tags open at each of these newlines. */
  function OpenAt(tokens: seq<Token>, stack: seq<string>): seq<seq<string>> {
    if tokens == [] || tokens[0].Dangling? then []
    else (if tokens[0] == Char('\n') then [stack] else []) + OpenAt(tokens[1..], Behind(tokens[0], stack))
  }

  /** Each piece behind the tags that were open before it, and before as many `</span>` as are open at its
      end. */
  function Dressed(current: string, pieces: seq<string>, open: seq<seq<string>>): seq<string>
    requires |pieces| == |open| + 1
    decreases |open|
  {
    if open == [] then [current + pieces[0]]
    else [current + pieces[0] + Repeat("</span>", |open[0]|)] + Dressed(Concat(open[0]), pieces[1..], open[1..])
  }

  lemma {:induction false} NewlineDresses(current: string, stack: seq<string>, pieces: seq<string>,
                                          open: seq<seq<string>>)
    requires |pieces| == |open| + 1
    ensures Dressed(current, [""] + pieces, [stack] + open) ==
            [current + Repeat("</span>", |stack|)] + Dressed(Concat(stack), pieces, open)
  {
    assert ([""] + pieces)[1..] == pieces && ([stack] + open)[1..] == open && current + "" == current;
  }

  /** What is already written may as well belong to the first piece. */
  lemma {:induction false} DressedFrom(current: string, written: string, pieces: seq<string>, open: seq<seq<string>>)
    requires |pieces| == |open| + 1
    ensures Dressed(current, [written + pieces[0]] + pieces[1..], open) == Dressed(current + written, pieces, open)
  {
    var all := [written + pieces[0]] + pieces[1..];
    assert all[1..] == pieces[1..] && current + (written + pieces[0]) == current + written + pieces[0];
  }

  lemma {:induction false} CutDresses(tokens: seq<Token>, current: string, stack: seq<string>)
    ensures |RawPieces(tokens)| == |OpenAt(tokens, stack)| + 1
    ensures Cut(tokens, current, stack) == Dressed(current, RawPieces(tokens), OpenAt(tokens, stack))
    decreases |tokens|
  {
    if tokens == [] {
      assert current + "" == current;
    } else if tokens[0] == Char('\n') {
      CutDresses(tokens[1..], Concat(stack), stack);
      NewlineDresses(current, stack, RawPieces(tokens[1..]), OpenAt(tokens[1..], stack));
    } else if !tokens[0].Dangling? {
      var token, rest := tokens[0], tokens[1..];
      CutDresses(rest, current + Written(token), Behind(token, stack));
      assert Cut(tokens, current, stack) == Cut(rest, current + Written(token), Behind(token, stack));
      assert OpenAt(tokens, stack) == OpenAt(rest, Behind(token, stack));
      DressedFrom(current, Written(token), RawPieces(rest), OpenAt(rest, Behind(token, stack)));
    }
  }

  lemma {:induction false} JoinWritten(tokens: seq<Token>, token: Token)
    requires !token.Dangling?
    ensures Join(RawPieces([token] + tokens)) == Written(token) + Join(RawPieces(tokens))
  {
    var all, rest := [token] + tokens, RawPieces(tokens);
    assert all[1..] == tokens;
    if token == Char('\n') {
      assert ([""] + rest)[1..] == rest;
    } else if |rest| > 1 {
      var pieces := [Written(token) + rest[0]] + rest[1..];
      assert pieces[1..] == rest[1..];
      assert Written(token) + rest[0] + ("\n" + Join(rest[1..]))
          == Written(token) + (rest[0] + ("\n" + Join(rest[1..])));
    }
  }

  lemma {:induction false} FirstTag(html: string, tag: string, rest: string)
    requires html != "" && html[0] == '<' && IndexOf(html, '>').Some?
    requires tag == html[..IndexOf(html, '>').value + 1] && rest == html[IndexOf(html, '>').value + 1..]
    ensures Tokens(html) == [TagToken(tag)] + Tokens(rest) && html == tag + rest && |rest| < |html|
    ensures Written(TagToken(tag)) == tag && !TagToken(tag).Dangling?
  {
  }

  lemma {:induction false} RawIsHtml(html: string)
    ensures Join(RawPieces(Tokens(html))) == html
    decreases |html|
  {
    if html == "" {
    } else if html[0] != '<' {
      RawIsHtml(html[1..]);
      JoinWritten(Tokens(html[1..]), Char(html[0]));
    } else if IndexOf(html, '>').Some? {
      var at := IndexOf(html, '>').value;
      FirstTag(html, html[..at + 1], html[at + 1..]);
      RawIsHtml(html[at + 1..]);
      JoinWritten(Tokens(html[at + 1..]), TagToken(html[..at + 1]));
    }
  }

  /** For any HTML, an unclosed `<` and unbalanced tags included: the lines are its pieces between newlines,
      with nothing lost or changed, and around each only tags opened again and `</span>`. */
  lemma {:induction false} CutKeepsText(html: string)
    ensures var tokens := Tokens(html);
            && Join(RawPieces(tokens)) == html
            && |RawPieces(tokens)| == |OpenAt(tokens, [])| + 1
            && Cut(tokens, "", []) == Dressed("", RawPieces(tokens), OpenAt(tokens, []))
  {
    RawIsHtml(html);
    CutDresses(Tokens(html), "", []);
  }
}
