/**
 Splitting text at newlines and joining lines again, as `split("\n")` and `join("\n")` do: joining
 the pieces gives back any text, and splitting gives back any list of lines but the empty one.
 */
module TextLines {
  predicate OneLine(line: string) {
    '\n' !in line
  }

  predicate AllOneLine(lines: seq<string>) {
    forall i | 0 <= i < |lines| :: OneLine(lines[i])
  }

  function Split(text: string): (lines: seq<string>)
    ensures lines != [] && AllOneLine(lines)
  {
    if text == "" then [""]
    else if text[0] == '\n' then [""] + Split(text[1..])
    else
      var rest := Split(text[1..]);
      [[text[0]] + rest[0]] + rest[1..]
  }

  function Join(lines: seq<string>): string {
    if lines == [] then ""
    else if |lines| == 1 then lines[0]
    else lines[0] + "\n" + Join(lines[1..])
  }

  /** Joining the pieces of a split gives the text back. */
  lemma {:induction false} JoinSplit(text: string)
    ensures Join(Split(text)) == text
  {
    if text != "" {
      var rest := Split(text[1..]);
      JoinSplit(text[1..]);
      if text[0] == '\n' {
      } else if |rest| > 1 {
        assert [rest[0]] + rest[1..] == rest;
      }
    }
  }

  /** A text without a newline, followed by a newline, contributes exactly one line. */
  lemma {:induction false} SplitPrefix(line: string, text: string)
    requires OneLine(line)
    ensures Split(line + "\n" + text) == [line] + Split(text)
  {
    var whole := line + "\n" + text;
    if line == "" {
      assert whole[1..] == text;
    } else {
      assert whole[1..] == line[1..] + "\n" + text;
      SplitPrefix(line[1..], text);
      var rest := Split(whole[1..]);
      assert rest[0] == line[1..] && rest[1..] == Split(text);
      assert [line[0]] + line[1..] == line;
    }
  }

  lemma {:induction false} SplitOneLine(line: string)
    requires OneLine(line)
    ensures Split(line) == [line]
  {
    if line != "" {
      SplitOneLine(line[1..]);
      assert [line[0]] + line[1..] == line;
    }
  }

  /** Splitting a join of newline-free lines gives the lines back. */
  lemma {:induction false} SplitJoin(lines: seq<string>)
    requires lines != [] && AllOneLine(lines)
    ensures Split(Join(lines)) == lines
  {
    if |lines| == 1 {
      SplitOneLine(lines[0]);
    } else {
      SplitPrefix(lines[0], Join(lines[1..]));
      SplitJoin(lines[1..]);
    }
  }
}
