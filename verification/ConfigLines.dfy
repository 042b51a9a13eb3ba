/**
 What a config line says, however it is written: any blanks and tabs around the key, the `=` and the value, any
 case of the key, comments behind blanks; and that of several lines for one key the first says the value.
 */
module ConfigLines {
  import opened Wrappers
  import opened Sequences
  import opened ConfigFile

  /** The value is that of the first line for the key. */
  lemma {:induction false} ValueIsFirst(lines: seq<Line>, key: string, value: string)
    ensures ValueOf(lines, key) == Some(value) <==>
            exists i | 0 <= i < |lines| ::
              && Holds(lines[i], key) && lines[i].value == value
              && forall k | 0 <= k < i :: !Holds(lines[k], key)
  {
    var at := FirstAt(lines, key);
    ValueNone(lines[..at], key);
    ValueAppend(lines[..at], lines[at..], key);
    assert lines == lines[..at] + lines[at..];
    if at < |lines| { assert lines[at..][0] == lines[at]; }
  }

  predicate AllBlank(s: string) {
    forall i | 0 <= i < |s| :: IsBlank(s[i])
  }

  lemma {:induction false} TrimLeftSkips(blanks: string, s: string)
    requires AllBlank(blanks)
    ensures TrimLeft(blanks + s) == TrimLeft(s)
  {
    if blanks == "" {
      assert blanks + s == s;
    } else {
      assert (blanks + s)[1..] == blanks[1..] + s;
      TrimLeftSkips(blanks[1..], s);
    }
  }

  lemma {:induction false} TrimRightSkips(s: string, blanks: string)
    requires AllBlank(blanks)
    ensures TrimRight(s + blanks) == TrimRight(s)
  {
    if blanks == "" {
      assert s + blanks == s;
    } else {
      var n := |blanks| - 1;
      assert (s + blanks)[..|s + blanks| - 1] == s + blanks[..n] && (s + blanks)[|s + blanks| - 1] == blanks[n];
      TrimRightSkips(s, blanks[..n]);
    }
  }

  /** Trimming takes the blanks around a text that starts and ends with none. */
  lemma {:induction false} TrimAround(before: string, s: string, after: string)
    requires AllBlank(before) && AllBlank(after) && Trimmed(s)
    ensures Trim(before + s + after) == s
  {
    assert before + s + after == before + (s + after);
    TrimLeftSkips(before, s + after);
    if s == "" {
      assert s + after == after + "";
      TrimLeftSkips(after, "");
    } else {
      assert (s + after)[0] == s[0];
      TrimRightSkips(s, after);
    }
  }

  predicate Loose(s: string) {
    forall i | 0 <= i < |s| :: s[i] == ' ' || s[i] == '\t'
  }

  lemma {:induction false} FrontReads(name: string, gap: string)
    requires Loose(gap) && name != "" && Trimmed(name) && '=' !in name
    ensures '=' !in name + gap && (name + gap)[0] == name[0] && Trim(name + gap) == name
  {
    assert '=' !in gap;
    TrimAround("", name, gap);
    assert "" + name + gap == name + gap;
  }

  /** A line that trims to a key, blanks, `=` and something. */
  lemma {:induction false} CoreParses(raw: string, name: string, gap: string, behind: string)
    requires Loose(gap) && name != "" && Trimmed(name) && '=' !in name && name[0] != '#'
    requires Trim(raw) == name + gap + ['='] + behind
    ensures Parse(raw) == Key(Lower(name), Trim(behind), raw)
  {
    FrontReads(name, gap);
    KeyLineParses(raw, name + gap, behind);
  }

  lemma {:induction false} CoreTrimmed(name: string, gap: string, behind: string)
    requires name != "" && Trimmed(name) && (behind == "" || !IsBlank(behind[|behind| - 1]))
    ensures Trimmed(name + gap + ['='] + behind)
  {
    var core := name + gap + ['='] + behind;
    assert core[0] == name[0];
    if behind != "" { assert core[|core| - 1] == behind[|behind| - 1]; }
  }

  lemma {:induction false} BackReads(gap: string, value: string)
    requires Loose(gap) && Trimmed(value) && value != ""
    ensures Trim(gap + value) == value && gap + value != "" && !IsBlank((gap + value)[|gap + value| - 1])
  {
    TrimAround(gap, value, "");
    assert gap + value + "" == gap + value;
    assert (gap + value)[|gap + value| - 1] == value[|value| - 1];
  }

  /** A line is read as its key and value whatever blanks and tabs stand around the two and the `=`, and
      whatever the case of the key. */
  lemma {:induction false} LooseLineParses(before: string, name: string, gap: string, gap': string, value: string,
                                           after: string)
    requires Loose(before) && Loose(gap) && Loose(gap') && Loose(after)
    requires name != "" && Trimmed(name) && '=' !in name && name[0] != '#' && Trimmed(value) && value != ""
    ensures var raw := before + (name + gap + ['='] + (gap' + value)) + after;
            Parse(raw) == Key(Lower(name), value, raw)
  {
    var core := name + gap + ['='] + (gap' + value);
    BackReads(gap', value);
    CoreTrimmed(name, gap, gap' + value);
    TrimAround(before, core, after);
    CoreParses(before + core + after, name, gap, gap' + value);
  }

  /** A key without a value is read as one, with the empty value. */
  lemma {:induction false} EmptyValueParses(before: string, name: string, gap: string, after: string)
    requires Loose(before) && Loose(gap) && Loose(after)
    requires name != "" && Trimmed(name) && '=' !in name && name[0] != '#'
    ensures var raw := before + (name + gap + ['='] + "") + after;
            Parse(raw) == Key(Lower(name), "", raw)
  {
    CoreTrimmed(name, gap, "");
    TrimAround(before, name + gap + ['='] + "", after);
    CoreParses(before + (name + gap + ['='] + "") + after, name, gap, "");
  }

  /** A key is lower-cased letter by letter. */
  lemma {:induction false} LowerIs(s: string)
    ensures |Lower(s)| == |s|
    ensures forall i | 0 <= i < |s| ::
              if 'A' <= s[i] <= 'Z' then Lower(s)[i] as int == s[i] as int + 32 else Lower(s)[i] == s[i]
  {
  }

  /** Behind blanks and tabs a `#` makes the line a comment, and a line that is nothing else is no key line. */
  lemma {:induction false} CommentIsOther(before: string, rest: string, after: string)
    requires Loose(before) && Loose(after) && Trimmed(rest)
    ensures Parse(before + ("#" + rest) + after) == Other(before + ("#" + rest) + after)
    ensures Parse(before) == Other(before)
  {
    TrimAround(before, "#" + rest, after);
    TrimAround(before, "", "");
    assert before + "" + "" == before;
  }
}
