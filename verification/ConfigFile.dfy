/**
 The surgical editor of goty's own ghostty config: one key at a time, every other line untouched. A document
 is its lines, each kept raw beside what it parses to; only the lines of the key that is set or removed change.
 */
module ConfigFile {
  import opened Wrappers
  import opened Sequences
  import opened TextLines

  // ---------- Lines ----------

  /** `raw` is the line as it stands in the file. */
  datatype Line = Key(key: string, value: string, raw: string) | Other(raw: string)

  /** A blank in the sense of `CharacterSet.whitespaces`: space separators and the tab. */
  predicate IsBlank(c: char) {
    c == ' ' || c == '\t' || c == '\U{A0}' || c == '\U{1680}' || '\U{2000}' <= c <= '\U{200A}'
    || c == '\U{202F}' || c == '\U{205F}' || c == '\U{3000}'
  }

  function TrimLeft(s: string): (t: string)
    ensures t == "" || !IsBlank(t[0])
  {
    if s != "" && IsBlank(s[0]) then TrimLeft(s[1..]) else s
  }

  function TrimRight(s: string): (t: string)
    ensures t == "" || !IsBlank(t[|t| - 1])
    ensures t <= s
  {
    if s != "" && IsBlank(s[|s| - 1]) then TrimRight(s[..|s| - 1]) else s
  }

  function Trim(s: string): string {
    TrimRight(TrimLeft(s))
  }

  function LowerChar(c: char): char {
    if 'A' <= c <= 'Z' then ((c as int) - ('A' as int) + ('a' as int)) as char else c
  }

  function Lower(s: string): string {
    seq(|s|, i requires 0 <= i < |s| => LowerChar(s[i]))
  }

  function Parse(raw: string): Line {
    var trimmed := Trim(raw);
    if trimmed == "" || trimmed[0] == '#' then Other(raw)
    else
      var eq := IndexOf(trimmed, '=');
      if eq.None? then Other(raw)
      else
        var key := Lower(Trim(trimmed[..eq.value]));
        if key == "" then Other(raw) else Key(key, Trim(trimmed[eq.value + 1..]), raw)
  }

  function ParseLines(pieces: seq<string>): seq<Line> {
    seq(|pieces|, i requires 0 <= i < |pieces| => Parse(pieces[i]))
  }

  function ParseText(text: string): seq<Line> {
    if text == "" then [] else ParseLines(Split(text))
  }

  function Raws(lines: seq<Line>): seq<string> {
    seq(|lines|, i requires 0 <= i < |lines| => lines[i].raw)
  }

  function Rendered(lines: seq<Line>): string {
    Join(Raws(lines))
  }

  // ---------- Reading and editing on values ----------

  predicate Holds(line: Line, key: string) {
    line.Key? && line.key == key
  }

  /** The value of the first line for the key. */
  function ValueOf(lines: seq<Line>, key: string): Option<string> {
    if lines == [] then None
    else if Holds(lines[0], key) then Some(lines[0].value)
    else ValueOf(lines[1..], key)
  }

  /** The lines without those for the key. */
  function Without(lines: seq<Line>, key: string): seq<Line> {
    if lines == [] then []
    else (if Holds(lines[0], key) then [] else [lines[0]]) + Without(lines[1..], key)
  }

  function NewLine(key: string, value: string): Line {
    Key(key, value, key + " = " + value)
  }

  /** Where the first line for the key is, or the end. */
  function FirstAt(lines: seq<Line>, key: string): (i: nat)
    ensures i <= |lines|
    ensures i < |lines| ==> Holds(lines[i], key)
    ensures forall k | 0 <= k < i :: !Holds(lines[k], key)
  {
    if lines == [] || Holds(lines[0], key) then 0 else 1 + FirstAt(lines[1..], key)
  }

  /** The edit outright: the first line for the key is replaced where it stands, or the line is added at
      the end, later duplicates go, and every other line stays, in order. */
  function Updated(lines: seq<Line>, key: string, value: string): seq<Line> {
    var i := FirstAt(lines, key);
    lines[..i] + [NewLine(key, value)] + Without(lines[i..], key)
  }

  // ---------- The document ----------

  const APPEARANCE: seq<(string, string)> :=
    [("theme", "Arthur"), ("font-family", "Maple Mono NF CN"), ("font-size", "14.5"),
     ("background-opacity", "0.80"), ("background-blur", "25")]

  /** The defaults filled in, from the first on. */
  function Filled(lines: seq<Line>, defaults: seq<(string, string)>): seq<Line>
    decreases |defaults|
  {
    if defaults == [] then lines
    else
      var (key, value) := defaults[0];
      Filled(if ValueOf(lines, key) == None then Updated(lines, key, value) else lines, defaults[1..])
  }

  lemma {:induction false} WithoutSnoc(lines: seq<Line>, line: Line, key: string)
    ensures Without(lines + [line], key) == Without(lines, key) + if Holds(line, key) then [] else [line]
  {
    if lines == [] {
      assert [line][1..] == [];
    } else {
      assert (lines + [line])[1..] == lines[1..] + [line];
      WithoutSnoc(lines[1..], line, key);
    }
  }

  lemma {:induction false} WithoutStep(lines: seq<Line>, first: nat, i: nat, key: string)
    requires first <= i < |lines|
    ensures Without(lines[first..i + 1], key)
         == Without(lines[first..i], key) + if Holds(lines[i], key) then [] else [lines[i]]
  {
    WithoutSnoc(lines[first..i], lines[i], key);
    assert lines[first..i + 1] == lines[first..i] + [lines[i]];
  }

  lemma {:induction false} ValueAppend(a: seq<Line>, b: seq<Line>, key: string)
    ensures ValueOf(a + b, key) == if ValueOf(a, key).Some? then ValueOf(a, key) else ValueOf(b, key)
  {
    if a == [] {
      assert a + b == b;
    } else {
      assert (a + b)[1..] == a[1..] + b;
      ValueAppend(a[1..], b, key);
    }
  }

  lemma {:induction false} ValueNone(lines: seq<Line>, key: string)
    ensures ValueOf(lines, key) == None <==> forall i | 0 <= i < |lines| :: !Holds(lines[i], key)
  {
    if lines != [] {
      ValueNone(lines[1..], key);
      if ValueOf(lines, key) == None {
        assert forall i | 0 < i < |lines| :: lines[i] == lines[1..][i - 1];
      } else if ValueOf(lines[1..], key) != None {
        var i :| 0 <= i < |lines[1..]| && Holds(lines[1..][i], key);
        assert Holds(lines[i + 1], key);
      }
    }
  }

  /** What is left holds no line for the key, and other keys' values are as before. */
  lemma {:induction false} WithoutRemoves(lines: seq<Line>, key: string, other: string)
    ensures forall i | 0 <= i < |Without(lines, key)| :: !Holds(Without(lines, key)[i], key)
    ensures other != key ==> ValueOf(Without(lines, key), other) == ValueOf(lines, other)
  {
    if lines != [] {
      WithoutRemoves(lines[1..], key, other);
      var rest := Without(lines[1..], key);
      if Holds(lines[0], key) {
        assert Without(lines, key) == rest;
      } else {
        var kept := [lines[0]] + rest;
        assert kept == Without(lines, key) && kept[0] == lines[0] && kept[1..] == rest;
      }
    }
  }

  /** Setting other keys leaves a key's value alone. */
  lemma {:induction false} SetKeepsOthers(lines: seq<Line>, key: string, value: string)
    ensures ValueOf(Updated(lines, key, value), key) == Some(value)
    ensures forall other | other != key :: ValueOf(Updated(lines, key, value), other) == ValueOf(lines, other)
  {
    var i := FirstAt(lines, key);
    var mid := [NewLine(key, value)];
    assert mid[1..] == [];
    assert Updated(lines, key, value) == lines[..i] + (mid + Without(lines[i..], key));
    assert lines == lines[..i] + lines[i..];
    ValueNone(lines[..i], key);
    ValueAppend(lines[..i], mid + Without(lines[i..], key), key);
    ValueAppend(mid, Without(lines[i..], key), key);
    forall other | other != key
      ensures ValueOf(Updated(lines, key, value), other) == ValueOf(lines, other)
    {
      ValueAppend(lines[..i], mid + Without(lines[i..], key), other);
      ValueAppend(mid, Without(lines[i..], key), other);
      WithoutRemoves(lines[i..], key, other);
      ValueAppend(lines[..i], lines[i..], other);
    }
  }

  class Document {
    var lines: seq<Line>

    constructor (text: string)
      ensures lines == ParseText(text)
    {
      if |text| == 0 {
        lines := [];
      } else {
        lines := ParseLines(Split(text));
      }
    }

    method GetValue(key: string) returns (value: Option<string>)
      ensures value == ValueOf(lines, key)
    {
      for i := 0 to |lines|
        invariant ValueOf(lines, key) == ValueOf(lines[i..], key)
      {
        assert lines[i..][1..] == lines[i + 1..];
        if lines[i].Key? && lines[i].key == key { return Some(lines[i].value); }
      }
      return None;
    }

    method Set(key: string, value: string)
      modifies this
      ensures lines == Updated(old(lines), key, value)
    {
      var result: seq<Line> := [];
      var done := false;
      ghost var first := FirstAt(lines, key);
      for i := 0 to |lines|
        invariant lines == old(lines)
        invariant done <==> first < i
        invariant result == if done then lines[..first] + [NewLine(key, value)] + Without(lines[first..i], key)
                            else lines[..i]
      {
        if done { WithoutStep(lines, first, i, key); }
        if !(lines[i].Key? && lines[i].key == key) {
          result := result + [lines[i]];
          continue;
        }
        if !done {
          result := result + [Key(key, value, key + " = " + value)];
          done := true;
        }
      }
      if !done { result := result + [Key(key, value, key + " = " + value)]; }
      assert lines[first..|lines|] == lines[first..];
      lines := result;
    }

    method Remove(key: string)
      modifies this
      ensures lines == Without(old(lines), key)
    {
      var kept: seq<Line> := [];
      for i := 0 to |lines|
        invariant lines == old(lines) && kept == Without(lines[..i], key)
      {
        WithoutSnoc(lines[..i], lines[i], key);
        assert lines[..i + 1] == lines[..i] + [lines[i]];
        if !(lines[i].Key? && lines[i].key == key) { kept := kept + [lines[i]]; }
      }
      assert lines[..|lines|] == lines;
      lines := kept;
    }

    method FillAppearanceDefaults() returns (touched: bool)
      modifies this
      ensures lines == Filled(old(lines), APPEARANCE)
      ensures touched <==> exists i | 0 <= i < |APPEARANCE| :: ValueOf(old(lines), APPEARANCE[i].0) == None
    {
      touched := false;
      for i := 0 to |APPEARANCE|
        invariant Filled(lines, APPEARANCE[i..]) == Filled(old(lines), APPEARANCE)
        invariant forall k | i <= k < |APPEARANCE| ::
                    ValueOf(lines, APPEARANCE[k].0) == ValueOf(old(lines), APPEARANCE[k].0)
        invariant touched <==> exists k | 0 <= k < i :: ValueOf(old(lines), APPEARANCE[k].0) == None
      {
        var (key, value) := APPEARANCE[i];
        assert APPEARANCE[i..][1..] == APPEARANCE[i + 1..];
        var held := GetValue(key);
        if held == None {
          SetKeepsOthers(lines, key, value);
          Set(key, value);
          touched := true;
        }
      }
    }
  }

  // ---------- Editing is surgical ----------

  lemma {:induction false} WithoutNone(lines: seq<Line>, key: string)
    requires forall i | 0 <= i < |lines| :: !Holds(lines[i], key)
    ensures Without(lines, key) == lines
  {
    if lines != [] { WithoutNone(lines[1..], key); }
  }

  lemma {:induction false} WithoutAppend(a: seq<Line>, b: seq<Line>, key: string)
    ensures Without(a + b, key) == Without(a, key) + Without(b, key)
  {
    if a == [] {
      assert a + b == b;
    } else {
      assert (a + b)[1..] == a[1..] + b;
      WithoutAppend(a[1..], b, key);
    }
  }

  lemma {:induction false} WithoutMiddle(front: seq<Line>, line: Line, rest: seq<Line>, key: string)
    requires Without(front, key) == front && Holds(line, key) && Without(rest, key) == rest
    ensures Without(front + [line] + rest, key) == front + rest
  {
    WithoutAppend(front, [line], key);
    WithoutAppend(front + [line], rest, key);
  }

  lemma {:induction false} WithoutBack(lines: seq<Line>, i: nat, key: string)
    requires i <= |lines| && Without(lines[..i], key) == lines[..i]
    ensures Without(lines, key) == lines[..i] + Without(lines[i..], key)
  {
    var front, back := lines[..i], lines[i..];
    assert lines == front + back;
    WithoutAppend(front, back, key);
  }

  lemma {:induction false} SetKeepsRest(lines: seq<Line>, key: string, value: string)
    ensures Without(Updated(lines, key, value), key) == Without(lines, key)
  {
    var i := FirstAt(lines, key);
    var rest := Without(lines[i..], key);
    WithoutNone(lines[..i], key);
    WithoutBack(lines, i, key);
    WithoutRemoves(lines[i..], key, key);
    WithoutNone(rest, key);
    WithoutMiddle(lines[..i], NewLine(key, value), rest, key);
  }

  /** `set` leaves exactly one line for the key, in the place of the first one or at the end, and every
      other line as it was, in order. */
  lemma {:induction false} SetIsSurgical(lines: seq<Line>, key: string, value: string)
    ensures var after := Updated(lines, key, value);
            var i := FirstAt(lines, key);
            && Without(after, key) == Without(lines, key)
            && i < |after| && after[i] == Key(key, value, key + " = " + value) && after[..i] == lines[..i]
            && forall k | 0 <= k < |after| :: Holds(after[k], key) <==> k == i
  {
    SetKeepsRest(lines, key, value);
    var i := FirstAt(lines, key);
    var after := Updated(lines, key, value);
    WithoutRemoves(lines[i..], key, key);
    forall k | 0 <= k < |after|
      ensures Holds(after[k], key) <==> k == i
    {
      if k < i {
        assert after[k] == lines[k];
      } else if k > i {
        assert after[k] == Without(lines[i..], key)[k - i - 1];
      }
    }
  }

  /** Removing what was set is removing. */
  lemma {:induction false} RemoveUndoesSet(lines: seq<Line>, key: string, value: string)
    ensures Without(Updated(lines, key, value), key) == Without(lines, key)
    ensures ValueOf(Without(lines, key), key) == None
  {
    SetIsSurgical(lines, key, value);
    WithoutRemoves(lines, key, key);
    ValueNone(Without(lines, key), key);
  }

  // ---------- A save and a load ----------

  /** Every line is what its text parses to, as after reading a file. */
  ghost predicate FromFile(lines: seq<Line>) {
    forall i | 0 <= i < |lines| :: OneLine(lines[i].raw) && lines[i] == Parse(lines[i].raw)
  }

  /** An unedited document renders to the text it was read from. */
  lemma {:induction false} RenderedIsText(text: string)
    ensures Rendered(ParseText(text)) == text
  {
    if text != "" {
      assert Raws(ParseLines(Split(text))) == Split(text);
      JoinSplit(text);
    } else {
      assert Raws([]) == [];
    }
  }

  /** Rendering and parsing again gives the same lines, for any lines from a file but a lone empty one. */
  lemma {:induction false} ParsesBack(lines: seq<Line>)
    requires FromFile(lines) && (|lines| == 1 ==> lines[0].raw != "")
    ensures ParseText(Rendered(lines)) == lines
  {
    var raws := Raws(lines);
    if lines != [] {
      SplitJoin(raws);
      assert ParseLines(raws) == lines;
    }
  }

  predicate Trimmed(s: string) {
    s == "" || (!IsBlank(s[0]) && !IsBlank(s[|s| - 1]))
  }

  predicate WellFormedKey(key: string) {
    key != "" && OneLine(key) && Trimmed(key) && Lower(key) == key && '=' !in key && key[0] != '#'
  }

  predicate WellFormedValue(value: string) {
    OneLine(value) && Trimmed(value)
  }

  lemma {:induction false} TrimLeftPart(s: string)
    ensures |TrimLeft(s)| <= |s| && TrimLeft(s) == s[|s| - |TrimLeft(s)|..]
  {
    if s != "" && IsBlank(s[0]) { TrimLeftPart(s[1..]); }
  }

  /** Trimming leaves a trimmed stretch of the text. */
  lemma {:induction false} TrimTrims(s: string)
    ensures Trimmed(Trim(s))
    ensures forall c | c in Trim(s) :: c in s
  {
    TrimLeftPart(s);
    var left := TrimLeft(s);
    assert Trim(s) <= left;
    assert Trim(s) != "" ==> Trim(s)[0] == left[0];
    forall c | c in Trim(s)
      ensures c in s
    {
      var i :| 0 <= i < |Trim(s)| && Trim(s)[i] == c;
      assert left[i] == c && left[i] == s[|s| - |left| + i];
    }
  }

  lemma {:induction false} TrimRightBlanks(s: string, blank: char)
    requires Trimmed(s) && IsBlank(blank)
    ensures Trim(s + [blank]) == s
  {
    var padded := s + [blank];
    assert padded[|padded| - 1] == blank && padded[..|padded| - 1] == s;
    if s == "" {
      assert padded[1..] == "";
      assert TrimLeft(padded) == "";
    } else {
      assert padded[0] == s[0] && TrimLeft(padded) == padded;
      assert TrimRight(padded) == TrimRight(s);
    }
  }

  lemma {:induction false} TrimLeftBlank(s: string, blank: char)
    requires Trimmed(s) && IsBlank(blank)
    ensures Trim([blank] + s) == s
  {
    var padded := [blank] + s;
    assert padded[0] == blank && padded[1..] == s;
    assert TrimLeft(padded) == TrimLeft(s);
  }

  lemma {:induction false} IndexOfAfter(front: string, c: char, rest: string)
    requires c !in front
    ensures IndexOf(front + [c] + rest, c) == Some(|front|)
  {
    var s := front + [c] + rest;
    if front != "" {
      assert s[1..] == front[1..] + [c] + rest;
      IndexOfAfter(front[1..], c, rest);
    }
  }

  /** A line that reads, trimmed, as `front=back` with no `=` in front. */
  lemma {:induction false} KeyLineParses(raw: string, front: string, back: string)
    requires Trim(raw) == front + ['='] + back && '=' !in front
    requires front != "" && front[0] != '#' && Lower(Trim(front)) != ""
    ensures Parse(raw) == Key(Lower(Trim(front)), Trim(back), raw)
  {
    var trimmed := Trim(raw);
    IndexOfAfter(front, '=', back);
    assert trimmed[0] == front[0] && trimmed[..|front|] == front && trimmed[|front| + 1..] == back;
  }

  lemma {:induction false} WrittenTrims(key: string, value: string)
    requires WellFormedKey(key) && WellFormedValue(value)
    ensures Trim(key + " = " + value) == if value == "" then key + " =" else key + " = " + value
  {
    var raw := key + " = " + value;
    assert raw[0] == key[0];
    if value == "" {
      assert raw == key + " =" + " ";
      TrimRightBlanks(key + " =", ' ');
    } else {
      assert raw[|raw| - 1] == value[|value| - 1];
    }
  }

  /** The line `set` writes reads back as that key and value. */
  lemma {:induction false} NewLineParses(key: string, value: string)
    requires WellFormedKey(key) && WellFormedValue(value)
    ensures Parse(key + " = " + value) == NewLine(key, value)
    ensures OneLine(key + " = " + value)
  {
    var raw := key + " = " + value;
    WrittenTrims(key, value);
    TrimRightBlanks(key, ' ');
    if value == "" {
      assert key + " =" == key + " " + ['='] + "";
      KeyLineParses(raw, key + " ", "");
    } else {
      assert key + " = " + value == key + " " + ['='] + (" " + value);
      KeyLineParses(raw, key + " ", " " + value);
      TrimLeftBlank(value, ' ');
    }
  }

  lemma {:induction false} FromFileAppend(a: seq<Line>, b: seq<Line>)
    requires FromFile(a) && FromFile(b)
    ensures FromFile(a + b)
  {
    forall i | 0 <= i < |a + b|
      ensures OneLine((a + b)[i].raw) && (a + b)[i] == Parse((a + b)[i].raw)
    {
      if i < |a| { assert (a + b)[i] == a[i]; } else { assert (a + b)[i] == b[i - |a|]; }
    }
  }

  lemma {:induction false} WithoutFromFile(lines: seq<Line>, key: string)
    requires FromFile(lines)
    ensures FromFile(Without(lines, key))
  {
    if lines != [] {
      WithoutFromFile(lines[1..], key);
      if Holds(lines[0], key) {
        assert Without(lines, key) == Without(lines[1..], key);
      } else {
        FromFileAppend([lines[0]], Without(lines[1..], key));
      }
    }
  }

  lemma {:induction false} UpdatedFromFile(lines: seq<Line>, key: string, value: string)
    requires FromFile(lines) && WellFormedKey(key) && WellFormedValue(value)
    ensures FromFile(Updated(lines, key, value))
  {
    NewLineParses(key, value);
    var i := FirstAt(lines, key);
    var mid := [NewLine(key, value)];
    WithoutFromFile(lines[i..], key);
    FromFileAppend(lines[..i], mid);
    FromFileAppend(lines[..i] + mid, Without(lines[i..], key));
  }

  /** A lone line that `set` wrote is not empty, so the edited document parses back. */
  lemma {:induction false} UpdatedParsesBack(lines: seq<Line>, key: string, value: string)
    requires FromFile(lines) && WellFormedKey(key) && WellFormedValue(value)
    ensures ParseText(Rendered(Updated(lines, key, value))) == Updated(lines, key, value)
  {
    UpdatedFromFile(lines, key, value);
    var after := Updated(lines, key, value);
    assert after[FirstAt(lines, key)] == NewLine(key, value);
    ParsesBack(after);
  }

  lemma {:induction false} LowerKeepsShape(s: string)
    requires OneLine(s) && Trimmed(s) && '=' !in s && (s != "" ==> s[0] != '#')
    ensures var t := Lower(s);
            OneLine(t) && Trimmed(t) && '=' !in t && Lower(t) == t && (t != "" ==> t[0] != '#')
  {
  }

  /** Whatever is read from a file has a well-formed key and value. */
  lemma {:induction false} ParsedIsWellFormed(raw: string)
    requires OneLine(raw) && Parse(raw).Key?
    ensures WellFormedKey(Parse(raw).key) && WellFormedValue(Parse(raw).value)
  {
    var trimmed := Trim(raw);
    TrimTrims(raw);
    var eq := IndexOf(trimmed, '=').value;
    var front, back := trimmed[..eq], trimmed[eq + 1..];
    TrimTrims(front);
    TrimTrims(back);
    assert forall c | c in back :: c in trimmed;
    assert forall c | c in front :: c in trimmed;
    LowerKeepsShape(Trim(front));
  }

  lemma {:induction false} ValueIsHeld(lines: seq<Line>, key: string) returns (i: nat)
    requires ValueOf(lines, key).Some?
    ensures i < |lines| && Holds(lines[i], key) && lines[i].value == ValueOf(lines, key).value
  {
    if Holds(lines[0], key) {
      i := 0;
    } else {
      i := ValueIsHeld(lines[1..], key);
      i := i + 1;
    }
  }

  /** A value set in a document read from a file is there after a save and a load if and only if key and
      value are well-formed; every line then is as the edit left it. */
  lemma {:induction false} SetSurvivesIff(lines: seq<Line>, key: string, value: string)
    requires FromFile(lines)
    ensures var saved := ParseText(Rendered(Updated(lines, key, value)));
            && (ValueOf(saved, key) == Some(value) <==> WellFormedKey(key) && WellFormedValue(value))
            && (WellFormedKey(key) && WellFormedValue(value) ==> saved == Updated(lines, key, value))
  {
    var saved := ParseText(Rendered(Updated(lines, key, value)));
    if WellFormedKey(key) && WellFormedValue(value) {
      UpdatedParsesBack(lines, key, value);
      SetKeepsOthers(lines, key, value);
    }
    if ValueOf(saved, key) == Some(value) {
      var i := ValueIsHeld(saved, key);
      ParsedIsWellFormed(saved[i].raw);
    }
  }

  // ---------- The shipped defaults ----------

  predicate Distinct(defaults: seq<(string, string)>) {
    forall i, j | 0 <= i < j < |defaults| :: defaults[i].0 != defaults[j].0
  }

  /** After filling, each default's key has the value it had, or the default; other keys are untouched. */
  lemma {:induction false} FilledValues(lines: seq<Line>, defaults: seq<(string, string)>)
    requires Distinct(defaults)
    ensures forall i | 0 <= i < |defaults| ::
              ValueOf(Filled(lines, defaults), defaults[i].0) ==
              if ValueOf(lines, defaults[i].0).Some? then ValueOf(lines, defaults[i].0) else Some(defaults[i].1)
    ensures forall key | (forall i | 0 <= i < |defaults| :: defaults[i].0 != key) ::
              ValueOf(Filled(lines, defaults), key) == ValueOf(lines, key)
    decreases |defaults|
  {
    if defaults != [] {
      var (key, value) := defaults[0];
      var rest := defaults[1..];
      var next := if ValueOf(lines, key) == None then Updated(lines, key, value) else lines;
      SetKeepsOthers(lines, key, value);
      FilledValues(next, rest);
      assert forall i | 0 < i < |defaults| :: defaults[i] == rest[i - 1];
      assert forall i | 0 <= i < |rest| :: rest[i].0 != key;
    }
  }

  lemma {:induction false} FilledIdle(lines: seq<Line>, defaults: seq<(string, string)>)
    requires forall i | 0 <= i < |defaults| :: ValueOf(lines, defaults[i].0).Some?
    ensures Filled(lines, defaults) == lines
    decreases |defaults|
  {
    if defaults != [] {
      assert forall i | 0 < i < |defaults| :: defaults[i] == defaults[1..][i - 1];
      FilledIdle(lines, defaults[1..]);
    }
  }

  /** Filling the shipped appearance keeps what is set, sets exactly what is missing, and done again
      changes nothing. */
  lemma {:induction false} FillIsIdempotent(lines: seq<Line>)
    ensures var filled := Filled(lines, APPEARANCE);
            && Filled(filled, APPEARANCE) == filled
            && (forall key | ValueOf(lines, key).Some? :: ValueOf(filled, key) == ValueOf(lines, key))
            && (forall i | 0 <= i < |APPEARANCE| && ValueOf(lines, APPEARANCE[i].0).None? ::
                  ValueOf(filled, APPEARANCE[i].0) == Some(APPEARANCE[i].1))
            && APPEARANCE == [("theme", "Arthur"), ("font-family", "Maple Mono NF CN"), ("font-size", "14.5"),
                              ("background-opacity", "0.80"), ("background-blur", "25")]
  {
    FilledValues(lines, APPEARANCE);
    FilledIdle(Filled(lines, APPEARANCE), APPEARANCE);
    forall key | ValueOf(lines, key).Some?
      ensures ValueOf(Filled(lines, APPEARANCE), key) == ValueOf(lines, key)
    {
      if i :| 0 <= i < |APPEARANCE| && APPEARANCE[i].0 == key {}
    }
  }
}
