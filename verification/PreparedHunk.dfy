/** What a prepared hunk's cells show: the two pairings, the side texts and the highlighting together. */
module PreparedHunk {
  import opened Wrappers
  import opened TextLines
  import opened PatchParser
  import opened SplitPairing
  import H = HighlightLines
  import M = HighlightMeaning

  datatype UnifiedRow = UnifiedRow(typ: LineType, oldNo: nat, newNo: nat, html: string)

  datatype Prepared = Prepared(oldHtml: seq<string>, newHtml: seq<string>,
                               splitRows: seq<IndexRow>, unified: seq<UnifiedRow>)

  /** `highlightLines`; `markup` is what the highlighter returned, or nothing when it was not used or failed. */
  method HighlightLines(code: string, markup: Option<string>) returns (out: seq<string>)
    ensures code == "" ==> out == []
    ensures code != "" ==>
              var html := if markup.Some? then markup.value else M.EscapeHtml(code);
              out == H.Cut(H.Tokens(html), "", [])
  {
    if |code| == 0 { return []; }
    out := H.CutLines(if markup.Some? then markup.value else M.EscapeHtml(code));
  }

  /** `html[at] ?? ""` for a cell of the side-by-side view, empty when the row has nothing there. */
  function CellHtml(html: seq<string>, at: Option<nat>): string {
    if at.Some? && at.value < |html| then html[at.value] else ""
  }

  /** The highlighter, where it was used, returned markup that shows the text of that side. */
  ghost predicate Faithful(markup: Option<string>, code: string) {
    markup.Some? ==> M.ShowsText(markup.value, code)
  }

  function UnifiedAt(lines: seq<DiffLine>, k: nat, oldHtml: seq<string>, newHtml: seq<string>): UnifiedRow
    requires k < |lines|
  {
    var line := lines[k];
    var side := if line.typ == Del then OldText else NewText;
    var html := if line.typ == Del then oldHtml else newHtml;
    var at := IndexIn(lines, Some(k), side);
    var index := if at.Some? then at.value else 0;
    UnifiedRow(line.typ, line.oldNo, line.newNo, if index < |html| then html[index] else M.EscapeHtml(line.text))
  }

  /** One row of the unified view. */
  method UnifyLine(lines: seq<DiffLine>, oldIdx: map<nat, nat>, newIdx: map<nat, nat>, k: nat,
                   oldHtml: seq<string>, newHtml: seq<string>) returns (row: UnifiedRow)
    requires k < |lines|
    requires Indexed(lines, |lines|, oldIdx, OldText) && Indexed(lines, |lines|, newIdx, NewText)
    ensures row == UnifiedAt(lines, k, oldHtml, newHtml)
  {
    var line := lines[k];
    var html := if line.typ == Del then oldHtml else newHtml;
    var at := if line.typ == Del then Get(oldIdx, k) else Get(newIdx, k);
    var index := if at.Some? then at.value else 0;
    var side := if index < |html| then html[index] else M.EscapeHtml(line.text);
    row := UnifiedRow(line.typ, line.oldNo, line.newNo, side);
  }

  /** The rows of the unified view. */
  method Unify(lines: seq<DiffLine>, oldIdx: map<nat, nat>, newIdx: map<nat, nat>,
               oldHtml: seq<string>, newHtml: seq<string>) returns (unified: seq<UnifiedRow>)
    requires Indexed(lines, |lines|, oldIdx, OldText) && Indexed(lines, |lines|, newIdx, NewText)
    ensures |unified| == |lines|
    ensures forall k | 0 <= k < |lines| :: unified[k] == UnifiedAt(lines, k, oldHtml, newHtml)
  {
    unified := [];
    for k := 0 to |lines|
      invariant |unified| == k
      invariant forall l | 0 <= l < k :: unified[l] == UnifiedAt(lines, l, oldHtml, newHtml)
    {
      var row := UnifyLine(lines, oldIdx, newIdx, k, oldHtml, newHtml);
      unified := unified + [row];
    }
  }

  /** The lines of one side: none for an empty text, otherwise the cut of the markup over it. */
  ghost predicate Lit(html: seq<string>, texts: seq<string>, markup: Option<string>) {
    var code := Join(texts);
    && (code == "" ==> html == [])
    && (code != "" ==> html == H.Cut(H.Tokens(if markup.Some? then markup.value else M.EscapeHtml(code)), "", []))
  }

  method PrepareHunk(lines: seq<DiffLine>, oldMarkup: Option<string>, newMarkup: Option<string>)
    returns (prepared: Prepared)
    ensures prepared.splitRows == AsIndexes(lines, Rows(lines))
    ensures Lit(prepared.oldHtml, SideTexts(lines, |lines|, OldText), oldMarkup)
    ensures Lit(prepared.newHtml, SideTexts(lines, |lines|, NewText), newMarkup)
    ensures |prepared.unified| == |lines|
    ensures forall k | 0 <= k < |lines| ::
              && prepared.unified[k].typ == lines[k].typ
              && prepared.unified[k].oldNo == lines[k].oldNo
              && prepared.unified[k].newNo == lines[k].newNo
              && prepared.unified[k] == UnifiedAt(lines, k, prepared.oldHtml, prepared.newHtml)
  {
    var oldRaw, newRaw, oldIdx, newIdx := IndexSides(lines);
    var oldHtml := HighlightLines(Join(oldRaw), oldMarkup);
    var newHtml := HighlightLines(Join(newRaw), newMarkup);
    var rows := PairIndexes(lines, oldIdx, newIdx);
    var unified := Unify(lines, oldIdx, newIdx, oldHtml, newHtml);
    prepared := Prepared(oldHtml, newHtml, rows, unified);
  }

  /** Line `i` of a side shows text `i` of that side; a side that is one empty line has no lines at all. */
  lemma {:induction false} LitShows(html: seq<string>, texts: seq<string>, markup: Option<string>, i: nat)
    requires Lit(html, texts, markup) && Faithful(markup, Join(texts))
    requires i < |texts| && AllOneLine(texts)
    ensures M.ShowsText(CellHtml(html, Some(i)), texts[i])
    ensures i >= |html| ==> texts == [""]
  {
    var code := Join(texts);
    if code != "" {
      var whole := if markup.Some? then markup.value else M.EscapeHtml(code);
      M.PlainPathShows(code);
      assert M.ShowsText(whole, code);
      M.CutPreservesMeaning(whole);
      M.LinesShowPieces(whole);
      M.DecodedSplit(M.Chars(H.CellsOf(whole)));
      SplitJoin(texts);
    }
  }

  lemma {:induction false} SideOneLine(lines: seq<DiffLine>, n: nat, side: Side)
    requires n <= |lines| && forall k | 0 <= k < |lines| :: OneLine(lines[k].text)
    ensures AllOneLine(SideTexts(lines, n, side))
  {
    if n > 0 { SideOneLine(lines, n - 1, side); }
  }

  /** A side's lines are those of its text, and the highlighter, where it was used, showed that text. */
  ghost predicate SideLit(lines: seq<DiffLine>, side: Side, html: seq<string>, markup: Option<string>) {
    var texts := SideTexts(lines, |lines|, side);
    Lit(html, texts, markup) && Faithful(markup, Join(texts))
  }

  function ShownText(line: Option<DiffLine>): string {
    if line.Some? && line.value.typ != Meta then line.value.text else ""
  }

  /** A row of the side-by-side view shows, left and right, exactly the lines the line-based pairing puts
      there: a line as its own text, nothing where there is none and for git's remarks. */
  lemma {:induction false} SplitViewShowsLines(lines: seq<DiffLine>, p: Prepared, oldMarkup: Option<string>,
                                               newMarkup: Option<string>, r: nat)
    requires forall k | 0 <= k < |lines| :: OneLine(lines[k].text)
    requires p.splitRows == AsIndexes(lines, Rows(lines)) && r < |p.splitRows|
    requires SideLit(lines, OldText, p.oldHtml, oldMarkup) && SideLit(lines, NewText, p.newHtml, newMarkup)
    ensures var row := AsLines(lines, Rows(lines))[r];
            && M.ShowsText(CellHtml(p.oldHtml, p.splitRows[r].left), ShownText(row.left))
            && M.ShowsText(CellHtml(p.newHtml, p.splitRows[r].right), ShownText(row.right))
  {
    PairingsAgree(lines);
    SideOneLine(lines, |lines|, OldText);
    SideOneLine(lines, |lines|, NewText);
    var row, index := AsLines(lines, Rows(lines))[r], AsIndexes(lines, Rows(lines))[r];
    if index.left.Some? {
      LitShows(p.oldHtml, SideTexts(lines, |lines|, OldText), oldMarkup, index.left.value);
    }
    if index.right.Some? {
      LitShows(p.newHtml, SideTexts(lines, |lines|, NewText), newMarkup, index.right.value);
    }
  }

  /** A line on a side is shown at its index there, or, where a side that is one empty line has no lines, as
      itself. */
  lemma {:induction false} SideShows(lines: seq<DiffLine>, html: seq<string>, markup: Option<string>, k: nat,
                                     side: Side)
    requires forall l | 0 <= l < |lines| :: OneLine(lines[l].text)
    requires k < |lines| && On(side, lines[k])
    requires SideLit(lines, side, html, markup)
    ensures var i := CountBefore(lines, k, side);
            M.ShowsText(if i < |html| then html[i] else M.EscapeHtml(lines[k].text), lines[k].text)
  {
    SideOneLine(lines, |lines|, side);
    TextAtIndex(lines, |lines|, k, side);
    LitShows(html, SideTexts(lines, |lines|, side), markup, CountBefore(lines, k, side));
  }

  /** Every row of the unified view but git's remarks shows its own line. */
  lemma {:induction false} UnifiedShowsLines(lines: seq<DiffLine>, p: Prepared, oldMarkup: Option<string>,
                                             newMarkup: Option<string>, k: nat)
    requires forall l | 0 <= l < |lines| :: OneLine(lines[l].text)
    requires k < |lines| && lines[k].typ != Meta
    requires SideLit(lines, OldText, p.oldHtml, oldMarkup) && SideLit(lines, NewText, p.newHtml, newMarkup)
    ensures M.ShowsText(UnifiedAt(lines, k, p.oldHtml, p.newHtml).html, lines[k].text)
  {
    if lines[k].typ == Del {
      SideShows(lines, p.oldHtml, oldMarkup, k, OldText);
    } else {
      SideShows(lines, p.newHtml, newMarkup, k, NewText);
    }
  }

  lemma {:induction false} JoinNonEmpty(texts: seq<string>)
    ensures Join(texts) == "" <==> texts == [] || texts == [""]
  {
  }

  /** A row with one of git's remarks shows the first line of the new side instead, unless that side has no
      text; so it shows itself only there, or where the two happen to be the same. */
  lemma {:induction false} RemarkShowsFirstLine(lines: seq<DiffLine>, p: Prepared, newMarkup: Option<string>, k: nat)
    requires forall l | 0 <= l < |lines| :: OneLine(lines[l].text)
    requires k < |lines| && lines[k].typ == Meta && SideLit(lines, NewText, p.newHtml, newMarkup)
    ensures var html, texts := UnifiedAt(lines, k, p.oldHtml, p.newHtml).html, SideTexts(lines, |lines|, NewText);
            var blank := texts == [] || texts == [""];
            && M.ShowsText(html, if blank then lines[k].text else texts[0])
            && (M.ShowsText(html, lines[k].text) <==> blank || texts[0] == lines[k].text)
  {
    var texts := SideTexts(lines, |lines|, NewText);
    JoinNonEmpty(texts);
    SideOneLine(lines, |lines|, NewText);
    M.PlainPathShows(lines[k].text);
    if Join(texts) != "" { LitShows(p.newHtml, texts, newMarkup, 0); }
  }
}
