# goty: transcript, diffs, flood fill, config and quoting

A Dafny model of the algorithmic cores of goty, a terminal with an agent pane, and proofs about them.

- **The agent transcript** (`Transcript`, `TranscriptStore`, and the proofs beside them). `Transcript` is the
  reducer on values: a state, one event, the next state. `TranscriptStore.Store` is the store as the program
  has it, a class whose methods assign its fields, push blocks, replace them in place, and, for an older page,
  save the fields, re-enter the reducer and splice. Every method is proved to move the fields exactly as the
  reducer on values says, and a ghost log ties the fields to the whole history, so the lemmas about
  `PerformAll` are about every reachable store. `Effects` reduces the eighteen kinds of event to the few
  things an event can do to the block list; `ToolIndex`, `BlockIds`, `TextConservation`, `Segmentation`,
  `EntryMarks`, `MarkSlots`, `PlanDock`, `Outbox`, `PageSeam` and `Paging` prove the invariants and whole-run
  theorems; `RenderWindow` is the slice of blocks the view mounts.
- **The diff engines.** `LineDiff` (dynamic program in a flat array and greedy walk) with `FirstScript` (which of
  the shortest scripts it gives), `Folding` (collapsed context, tool clusters), `PatchParser` with `PatchText` (any
  text), `PatchPrinter` and `PatchRoundTrip` (printed patches), `SplitPairing` (both implementations of the
  side-by-side pairing), `HighlightLines` with `CutPieces` (any HTML) and `HighlightMeaning` (balanced span markup),
  and `PreparedHunk` (what the two views show in the end).
- **The flood fill** (`FloodFill`) on a mutable pixel grid.
- **Two printers and their readers**: `ConfigFile` with `ConfigLines` (the surgical config editor) and
  `ShellQuoting` (against a tokenizer for sections 2.2.1 and 2.2.2 of the POSIX.1-2017 Shell Command Language).

`Wrappers`, `Sequences`, `TextLines` and `Decimals` hold what several of these share.

## What the proofs found

Where the code does less than its comments say, the code is modelled as it is and the exact condition proved;
a literal run beside it is only the witness.

- A page put in front equals a whole replay, entry marks included, if and only if no run is joined across the
  seam, no tool is mentioned on both sides, and the marks on the blocks are those of the two pages side by side,
  all read off the events (`Paging.PagingEqualsReplay`, for pages of any events but clears and nested pages). It
  does so at whatever moment the older page arrives if and only if the seam is clean and every newer event fits:
  a mark has landed in the newer page, or finds a free block there that the older page's marks do not forbid, or
  finds none anywhere (`Paging.PagingEqualsReplayThroughout`). The comment at store.ts:606-611 says a turn boundary
  at the end of the page is enough. It leaves the user's own run open (`PageSeam.TurnEndJoinsUserOnly`, with the
  witness `Paging.TurnEndIsNotEnough`), and a mark that finds no block of its kind reaches back across it (the
  witness `Paging.StrayMarkReachesBack`; OmpSessionStore.swift:221-222 emits such a mark for an entry without text).
- Each tool has exactly one card, showing the map's call, if and only if since the last clear no page brought a
  tool twice or one that was held (`ToolIndex.OneBlockPerTool`, over all runs); so a page keeps it if and only
  if its tools are new (`ToolIndex.PageKeepsOneBlock`, and `PageSeam.PlainPageKeepsOneBlock` from the page's
  events alone). The witness is `ToolIndex.RepeatedToolLeavesTwoBlocks`. What always holds is that the newest
  card of a tool shows the map's call (`ToolIndex.NewestBlockShowsCall`).
- No two blocks of one kind ever carry one entry mark if and only if every page brings marks of its own that are on
  different blocks and of which none is held, read off the events since the last clear
  (`MarkSlots.ReachableMarksDistinct`; at one moment `MarkSlots.MarksDistinctExactly`, for one page
  `MarkSlots.FlatPageMarksDistinct`). The comment at store.ts:931-933 says a mark that already landed never stamps a
  second block; a page does not see what is held (the witness `MarkSlots.RepeatedMarkLandsTwice`).
- An older page does to the plan panel what its events would do live (`PlanDock.PageActsLive`), so one of the user's
  old messages takes a retiring plan away in the middle of a read (`PlanDock.HarmlessExactly`,
  `PlanDock.OlderMessageTakesPlan`; comment at store.ts:570-572).
- The slice mounted after a page is the old one exactly when the page was empty or at least 60 blocks were
  held; a second page reduced before the view has consumed the first loses the first shift
  (`RenderWindow.PageKeepsVisible`, `RenderWindow.SecondPageHidesFirstShift`; comment at App.tsx:1560-1564; the
  witnesses `RenderWindow.ShortTranscriptMountsPage`, `RenderWindow.SecondPageMountsMore`). After any batch, pages
  and new blocks mixed, what was mounted still is, exactly under the condition of `RenderWindow.BatchKeepsMounted`,
  and always while the window begins no later than its tail.
- `lineDiff` gives a shortest script if and only if both sides are within the cap or share no line
  (`LineDiff.OptimalIff`, with the witness `LineDiff.CapListsEqualTexts`).
- The patch parser takes a deleted line that starts with `-- ` (an added one with `++ `) for a file header. What
  it returns is stated for every patch (`PatchRoundTrip.ParsesShown`); from that, it inverts the printer, for
  patches of any size, if and only if there is no such line below the cap and the paths it ends up with are the
  patch's own (`PatchRoundTrip.RoundTripIff`), and its counts are true if and only if there is no such line at
  all and past the cap no added text starts with `++` and no deleted text with `--`
  (`PatchRoundTrip.BothCountsIff`, side by side `PatchRoundTrip.CountsIff`; comment at diffParse.ts:79).
- The old path of a created file and the new path of a deleted one come from the `diff --git` line, and are read
  back if and only if neither path holds a line terminator and the new one no ` b/`
  (`PatchRoundTrip.HeaderPathsIff`).
- A row of the unified view with one of git's remarks shows the first line of the new side instead of the remark,
  unless that side has no text (`PreparedHunk.RemarkShowsFirstLine`, an if and only if; diff.tsx:116-124).
- The newline git ends a patch with shows as an extra empty context line
  (`PatchRoundTrip.FinalNewlineAddsLine`).
- `quotedPath` protects blanks and single quotes only: the path reads back as one word exactly when it has one
  of these or consists of ordinary characters (`ShellQuoting.QuotedPathReadsIff`,
  `ShellQuoting.DollarIsUnprotected`; comment at Shell.swift:9-10).

## Model

| member | source | states |
|---|---|---|
| TranscriptStore.Store.ApplyParsed | swift-app/agent-web/src/store.ts:559-962 | the whole new state of the store after any event, nested pages included, is the reducer's |
| TranscriptStore.Store.Push | swift-app/agent-web/src/store.ts:455-462 | the block is last, carries the next id, and the id counter moves on |
| TranscriptStore.Store.Enqueue | swift-app/agent-web/src/store.ts:575-575 | the text waits last in the outbox, nothing else moves |
| TranscriptStore.Store.SealChunk | swift-app/agent-web/src/store.ts:598-602 | the boundary seals the run, nothing else moves |
| TranscriptStore.Store.Notify | swift-app/agent-web/src/store.ts:843-848 | a notice is one block, an empty one none |
| TranscriptStore.Store.Dequeue | swift-app/agent-web/src/store.ts:448-453 | the oldest equal text leaves the outbox; found exactly when it was there |
| TranscriptStore.Store.Tail | swift-app/agent-web/src/store.ts:470-482 | the last block is open for the voice: the old one when nothing seals it, otherwise a new one with both seals lifted |
| TranscriptStore.Store.AppendChunk | swift-app/agent-web/src/store.ts:592-597 | agent and thought text grows the open tail or opens a block; empty text does nothing |
| TranscriptStore.Store.UserTail | swift-app/agent-web/src/store.ts:487-495 | user chunks fuse with a user block whatever the seals, and empty ones open none |
| TranscriptStore.Store.OpenTurn | swift-app/agent-web/src/store.ts:569-574 | a retired plan goes with its flags, then the user's block is pushed |
| TranscriptStore.Store.Deliver | swift-app/agent-web/src/store.ts:579-587 | the delivered text leaves the outbox and opens a turn |
| TranscriptStore.Store.PrependPage | swift-app/agent-web/src/store.ts:605-638 | the page is rebuilt on an emptied store by the reducer itself, then spliced in front, held tools winning |
| TranscriptStore.Store.UpsertTool | swift-app/agent-web/src/store.ts:646-681 | present fields merge over the call so far; a new tool gets a card and a place in the order |
| TranscriptStore.Store.SwapCall | swift-app/agent-web/src/store.ts:671-677 | the newest card of the tool shows the new call, all other blocks stand |
| TranscriptStore.Store.ShowPlan | swift-app/agent-web/src/store.ts:682-718 | a non-empty snapshot is the plan from then on; unless it repeats a retired one it is retired and folded exactly when the agent is idle and every entry is completed; an empty one only arms the retirement |
| TranscriptStore.Store.EndTurn | swift-app/agent-web/src/store.ts:739-780 | statistics line, seal, and retirement and fold of a finished plan |
| TranscriptStore.Store.MarkEntry | swift-app/agent-web/src/store.ts:925-943 | the newest unmarked block of the role takes a mark that has not landed |
| TranscriptStore.Store.ClearTranscript | swift-app/agent-web/src/store.ts:876-886 | blocks, tools, order, seals, outbox, plan and `working` go; the plan flags and the id counter stay |
| TranscriptStore.Store.Apply | swift-app/agent-web/src/store.ts:523-530 | one raw message: logged and counted as applied when it parses, with one revision, as rejected otherwise |
| TranscriptStore.Store.ApplyAll | swift-app/agent-web/src/store.ts:500-522 | a batch: what parses is applied in order, every message is counted exactly once, at most one revision |
| TranscriptStore.Store.Reset | swift-app/agent-web/src/store.ts:535-551 | the blank slate after a crash, `working` and the counters kept |
| TranscriptStore.Store.TogglePlanDock | swift-app/agent-web/src/store.ts:348-359 | the click lifts the settle fold |
| TranscriptStore.Store.TakePrependDelta | swift-app/agent-web/src/App.tsx:1565-1572 | the view's start moves by the count of blocks put in front, which is then 0; without any it stays |
| Transcript.PlanEntriesEqual | swift-app/agent-web/src/store.ts:42-48 | field-by-field comparison is equality of snapshots |
| Transcript.StatsJoin | swift-app/agent-web/src/store.ts:757-757 | the parts of the statistics line stand in order, a middle dot between any two |
| Effects.StepMoves | swift-app/agent-web/src/store.ts:559-962 | every event does one of: nothing to the blocks, open one, grow the last, place a call, stamp a mark, wipe, splice a page |
| ToolIndex.ReachableIndexed | swift-app/agent-web/src/store.ts:646-681 | in every reachable state map keys, order list and tool cards name the same tools, the order being that of the cards |
| ToolIndex.NewestBlockShowsCall | swift-app/agent-web/src/store.ts:667-679 | on every run, whatever the pages bring, the newest card of each held tool shows the map's call |
| ToolIndex.OneBlockPerTool | swift-app/agent-web/src/store.ts:613-679 | on every run each tool has exactly one card, showing the map's call, if and only if since the last clear no page brought a tool twice or one that was held |
| ToolIndex.PageKeepsOneBlock | swift-app/agent-web/src/store.ts:605-638 | a page keeps one card for each tool if and only if it has one for each of its own and shares none with what is held |
| PageSeam.PlainPageKeepsOneBlock | swift-app/agent-web/src/store.ts:605-638 | for a page without clears and nested pages: if and only if it mentions no tool that is held |
| ToolIndex.RepeatedToolLeavesTwoBlocks | swift-app/agent-web/src/store.ts:613-633 | the witness: a literal run whose page repeats a held tool leaves two cards, the older one stale |
| ToolIndex.ToolsHoldLatest | swift-app/agent-web/src/store.ts:652-662 | without pages the map is exactly: each tool seen since the last clear, each field its last present (lists: last non-empty) value |
| BlockIds.ReachableStamped | swift-app/agent-web/src/store.ts:455-462 | on every run block ids are pairwise distinct, positive and below the counter |
| BlockIds.PrependKeepsHeld | swift-app/agent-web/src/store.ts:605-638 | the held list is an unchanged suffix, the blocks in front are as many as `prependDelta` and carry new ids |
| RenderWindow.ShiftedWindow | swift-app/agent-web/src/App.tsx:1565-1572 | for any shift, a stale larger one included: exactly when the old slice is a suffix of the new one, and exactly when it is the same |
| RenderWindow.PageKeepsVisible | swift-app/agent-web/src/App.tsx:1560-1572 | after one page the mounted slice is the same if and only if the page was empty or 60 blocks were held |
| RenderWindow.SecondPageHidesFirstShift | swift-app/agent-web/src/App.tsx:1565-1572 | two pages before the view looks, whatever is held: the old slice stays mounted, only the second shift is left, and exactly when that does no harm |
| RenderWindow.BatchKeepsMounted | swift-app/agent-web/src/App.tsx:1560-1572 | any batch without a clear between two renders: exactly when all that was mounted still is, always for a window that begins no later than its tail; with 60 blocks held the blocks of all pages but the last are mounted besides |
| RenderWindow.ShortTranscriptMountsPage | swift-app/agent-web/src/App.tsx:1560-1572 | the witness: one block held and a page of one more, and both are mounted |
| RenderWindow.SecondPageMountsMore | swift-app/agent-web/src/App.tsx:1565-1572 | the witness: two pages of one block before one render mount one block more |
| RenderWindow.VisibleIdsDiffer | swift-app/agent-web/src/App.tsx:1791-1801 | mounted blocks have distinct ids on every run, as the cluster walk's tail test needs |
| TextConservation.TextIsConserved | swift-app/agent-web/src/store.ts:470-495 | on every run the text of each voice is what was said since the last clear, in order, each page's text in front |
| Outbox.RemoveTakesOne | swift-app/agent-web/src/store.ts:448-453 | of the text removed exactly one copy goes, when there is one; every other text waits as often as before |
| Outbox.OutboxIsConserved | swift-app/agent-web/src/store.ts:575-587 | on every run, pages included, each text waits exactly as often as queueings, removals and deliveries since the last clear leave it |
| Outbox.OutboxIsInOrder | swift-app/agent-web/src/store.ts:448-453 | on every run what waits stands in the order it was queued in, and of equal texts the newest copies wait |
| Segmentation.BlocksAreSegments | swift-app/agent-web/src/store.ts:470-495 | without pages the block list is the segmentation of the log into maximal runs, boundaries and turn ends cutting agent and thought runs only |
| EntryMarks.NewestFirstIsComplete | swift-app/agent-web/src/store.ts:936-938 | the list of unmarked positions has each exactly once, newest first |
| EntryMarks.BatchLands | swift-app/agent-web/src/store.ts:925-943 | a newest-first batch of fresh marks puts the i-th on the i-th newest unmarked block of the role, changes nothing else, and again changes nothing |
| MarkSlots.RunSlots | swift-app/agent-web/src/store.ts:470-495 | which blocks there are for marks and which mark each carries follow from the events, pages and clears included |
| MarkSlots.ReachableMarksDistinct | swift-app/agent-web/src/store.ts:605-638 | on every run no two blocks of one kind ever share a mark, if and only if every page brings marks on different blocks of its own and none that is held |
| MarkSlots.MarksDistinctExactly | swift-app/agent-web/src/store.ts:925-943 | at the end of any run: if and only if the events since the last clear leave no mark on two blocks of one kind |
| MarkSlots.PageMarksDistinct | swift-app/agent-web/src/store.ts:605-638 | a page of any events keeps marks on different blocks if and only if it brings new ones |
| MarkSlots.FlatPageMarksDistinct | swift-app/agent-web/src/store.ts:605-638 | for a page that holds no page: if and only if no mark its events leave on a block has landed on what is held |
| MarkSlots.RepeatedMarkLandsTwice | swift-app/agent-web/src/store.ts:613-633 | the witness: a literal run whose page repeats a held mark leaves it on two blocks |
| PlanDock.ReachableFoldIsSettled | swift-app/agent-web/src/store.ts:711-717 | in every reachable state a settle-folded plan has only completed entries |
| PlanDock.TurnEndRetires | swift-app/agent-web/src/store.ts:766-778 | a turn end arms the retirement of a finished plan and folds it, keeping its data |
| PlanDock.SnapshotReplaces | swift-app/agent-web/src/store.ts:682-718 | what any snapshot does to plan, retirement, fold and `working`, field by field |
| PlanDock.ReachablePanel | swift-app/agent-web/src/store.ts:569-785 | on every run, pages, resets and clicks included, plan, retirement, fold and `working` are a fold of the log |
| PlanDock.WorkingIsLastSaid | swift-app/agent-web/src/store.ts:782-790 | on every run the agent works exactly when the last event that speaks of it says so: `working`, or an error or a clear, which say no |
| PlanDock.ShownIsLast | swift-app/agent-web/src/store.ts:704-704 | on every run a plan that shows is the last non-empty snapshot since the last clear |
| PlanDock.HarmlessExactly | swift-app/agent-web/src/store.ts:569-718 | an action leaves a retiring plan alone if and only if it is no user message, clear, reset or differing non-empty snapshot, and no page without snapshots that holds a message or a clear at any depth |
| PlanDock.HarmlessPageKeeps | swift-app/agent-web/src/store.ts:605-638 | the events of a page, snapshots included, leave it alone when each of them does |
| PlanDock.PageActsLive | swift-app/agent-web/src/store.ts:605-638 | for every page: plan, retirement, fold and `working` are what the same events make of them at the end of the transcript |
| PlanDock.OlderMessageTakesPlan | swift-app/agent-web/src/store.ts:569-573 | a page without a snapshot takes a retiring plan away exactly when it holds a user message, a delivery or a clear |
| PlanDock.SnapshotRestores | swift-app/agent-web/src/store.ts:682-718 | the witness that snapshots have to be set apart: a page that takes the plan away and brings it again |
| PlanDock.FinishedPlanStaysUntilNextMessage | swift-app/agent-web/src/store.ts:573-585 | a finished plan survives its turn end and any harmless run; the next user message, typed or delivered, removes plan and fold |
| PageSeam.ContentEqualsReplay | swift-app/agent-web/src/store.ts:605-638 | entry marks aside: newer page first, older page prepended, has the content of the whole replay if and only if no open run is joined and no tool is mentioned on both sides |
| Paging.PagingEqualsReplay | swift-app/agent-web/src/store.ts:605-638 | marks included: same blocks up to ids, tools and order, if and only if, by the events of the two pages, the seam is clean and the marks agree |
| Paging.PagingEqualsReplayThroughout | swift-app/agent-web/src/store.ts:605-638 | at whatever moment of the newer events the older page arrives: if and only if the seam is clean and every newer event fits, mark by mark |
| PageSeam.RunOpens | swift-app/agent-web/src/store.ts:470-495 | how many blocks a page opens, which tools it holds and which run it leaves open follow from its events |
| Paging.UserMessageIsCleanSeam | swift-app/agent-web/src/store.ts:605-638 | a newer page that starts with a user message, shares no tool and has its marks at home shows the same at every moment |
| PageSeam.TurnEndJoinsUserOnly | swift-app/agent-web/src/store.ts:606-611 | a page that ends its turn leaves at most the user's run open, so only that can be joined |
| Paging.TurnEndIsNotEnough | swift-app/agent-web/src/store.ts:606-611 | the witness: a concrete page that ends its turn and still shows differently |
| Paging.MisfitShows | swift-app/agent-web/src/store.ts:925-943 | after events that agree, one that does not fit makes the views differ |
| Paging.StrayMarkReachesBack | swift-app/agent-web/src/store.ts:936-941 | the witness: a clean seam, and a mark without a block of its kind that stamps the older page in the whole replay only |
| LineDiff.LinesAreText | swift-app/agent-web/src/App.tsx:22-23 | the lines compared are the text but for one final newline |
| LineDiff.LineDiff | swift-app/agent-web/src/App.tsx:21-54 | the method computes `DiffRows` of the two texts |
| LineDiff.FillTable | swift-app/agent-web/src/App.tsx:32-40 | every flat cell holds the LCS length of its two tails |
| LineDiff.WalkTable | swift-app/agent-web/src/App.tsx:41-53 | the walk over the table emits the greedy script with running numbers |
| LineDiff.LcsFitsUint32 | swift-app/agent-web/src/App.tsx:26-37 | no cell exceeds the number of old lines left; within the cap that is at most 900, so 32 bits never wrap |
| LineDiff.DiffReconstructs | swift-app/agent-web/src/App.tsx:21-54 | capped or not, the rows without additions are the old lines, those without deletions the new ones, all numbered, and the context rows as many as the LCS (none when capped) |
| LineDiff.NumberedAt | swift-app/agent-web/src/App.tsx:42-47 | the k-th row of a side carries number k of that side |
| LineDiff.OptimalIff | swift-app/agent-web/src/App.tsx:26-53 | no script has fewer deletions and additions, if and only if the sides are within the cap or share no line |
| LineDiff.CapListsEqualTexts | swift-app/agent-web/src/App.tsx:26-31 | the witness: two equal sides of 901 lines are listed twice |
| LineDiff.CappedListsWhole | swift-app/agent-web/src/App.tsx:26-29 | past 900 lines on a side: every old line deleted, then every new one added, numbered |
| FirstScript.DiffIsFirstOptimal | swift-app/agent-web/src/App.tsx:41-53 | of all shortest scripts the diff is the first, kept lines before deletions before additions |
| Folding.DiffBody | swift-app/agent-web/src/App.tsx:103-131 | every row is shown or in exactly one gap, in order; gaps are middles of long collapsed runs |
| Folding.FoldLosesNothing | swift-app/agent-web/src/App.tsx:103-131 | shown rows and gap labels total the rows; a row is not shown exactly inside a run of more than 12 unchanged rows that is not expanded, beyond its first and last three; every gap is such a middle; every changed row shows |
| Folding.ClusterWalk | swift-app/agent-web/src/App.tsx:1791-1832 | the items flatten back to the visible blocks; clusters are whole runs of at least three; the tail flag marks the last block only |
| Folding.ClustersExactly | swift-app/agent-web/src/App.tsx:1786-1804 | a block is clustered if and only if its run of completed tools has at least three members |
| PatchParser.ParsePatch | swift-app/files-web/src/diffParse.ts:34-102 | the loop computes the fold of the parser over the lines |
| PatchText.ParsesAnyText | swift-app/files-web/src/diffParse.ts:34-102 | for every text: nothing exactly when no line speaks of binary files and none opens a hunk; otherwise the paths last named, each hunk with the body lines behind it numbered and kept up to 4000 in all, the counts, the binary and truncated flags |
| PatchText.BinaryIff | swift-app/files-web/src/diffParse.ts:55-58 | for every text: marked binary if and only if a line starts with `Binary files ` or `GIT binary patch` |
| PatchText.GitMatchIff | swift-app/files-web/src/diffParse.ts:50-51 | for every line: the two paths are matched if and only if the line is made of them, without line terminators and the second without ` b/` |
| PatchText.HunkMatchIff | swift-app/files-web/src/diffParse.ts:69-72 | for every line: it opens a hunk with these starts if and only if it is a header that says them |
| PatchPrinter.HeaderMatches | swift-app/files-web/src/diffParse.ts:69-72 | a printed hunk header is matched, with both starts read back |
| PatchPrinter.BodyPrefixes | swift-app/files-web/src/diffParse.ts:49-81 | which printed body lines the parser's earlier tests take for something else, exactly |
| PatchPrinter.GitPathsIff | swift-app/files-web/src/diffParse.ts:50-51 | the two paths of a `diff --git` line are read back if and only if neither holds a line terminator and the new one no ` b/` |
| PatchRoundTrip.HeaderPathsIff | swift-app/files-web/src/diffParse.ts:49-68 | changed, created and deleted files: the header lines give both paths if and only if the file is changed or the `diff --git` line can be split again |
| PatchRoundTrip.BodyParses | swift-app/files-web/src/diffParse.ts:77-96 | after any body: legible lines numbered and kept up to the cap, the others lost and redirecting a path |
| PatchRoundTrip.ParsesShown | swift-app/files-web/src/diffParse.ts:34-102 | what the parser returns for every well-formed patch, of any size and with any lines |
| PatchRoundTrip.ParsesBack | swift-app/files-web/src/diffParse.ts:34-102 | for patches of any size with benign bodies whose header lines give the paths: both paths, every hunk with numbered lines up to the cap, the counts, the truncation flag |
| PatchRoundTrip.RoundTripIff | swift-app/files-web/src/diffParse.ts:48-102 | for patches of any size the parser inverts the printer if and only if below the cap no added text starts with `++ ` and no deleted text with `-- `, and the paths left at the end are the patch's own |
| PatchRoundTrip.RoundTripUpToCap | swift-app/files-web/src/diffParse.ts:48-97 | up to the cap, with the paths given by the header lines, only the texts decide |
| PatchRoundTrip.CountsIff | swift-app/files-web/src/diffParse.ts:78-90 | the parser's own counts: additions are all counted if and only if none is taken for a file header and none past the cap starts with `++`; deletions likewise |
| PatchRoundTrip.BothCountsIff | swift-app/files-web/src/diffParse.ts:78-90 | both counts are true if and only if no line is taken for a file header and none past the cap starts with `++` or `--` on its side |
| PatchRoundTrip.FinalNewlineAddsLine | swift-app/files-web/src/diffParse.ts:35-96 | for every patch a final newline adds one empty context line to the last hunk, until the cap is reached |
| PatchRoundTrip.DashedDeletionIsLost | swift-app/files-web/src/diffParse.ts:59-63 | such a deletion is dropped and overwrites the old path |
| SplitPairing.SplitRows | swift-app/files-web/src/diffParse.ts:112-139 | the queue-based pairing is the pairing on positions, with the lines |
| SplitPairing.ColumnsAreSides | swift-app/files-web/src/diffParse.ts:112-139 | the left column is the deleted, context and meta lines in order, the right one the added and context lines |
| SplitPairing.BlockTakesMax | swift-app/files-web/src/diffParse.ts:120-131 | D deletions then A additions take max(D, A) rows, paired in order |
| SplitPairing.IndexSides | swift-app/files-web/src/diff.tsx:69-82 | side texts, and for each line on a side its index in that side's text |
| SplitPairing.PairIndexes | swift-app/files-web/src/diff.tsx:86-126 | the index-based pairing is the pairing on positions, mapped through the index maps, with the numbers |
| SplitPairing.PairingsAgree | swift-app/files-web/src/diff.tsx:86-126 | row by row both pairings show the same lines, meta rows as empty cells, and carry the same numbers |
| HighlightLines.CutLines | swift-app/files-web/src/diff.tsx:19-49 | the cursor loop computes the cut of the token list, for any HTML, an unclosed `<` included |
| CutPieces.CutKeepsText | swift-app/files-web/src/diff.tsx:19-49 | for any HTML, unbalanced or with an unclosed `<`: the lines are its pieces between newlines, nothing lost, with only open tags and `</span>` around them |
| CutPieces.TagsAreRead | swift-app/files-web/src/diff.tsx:25-35 | a tag closes when it starts with `</`, is void when it ends with `/>`, and opens otherwise |
| HighlightMeaning.CutPreservesMeaning | swift-app/files-web/src/diff.tsx:19-49 | for balanced span markup every line is balanced on its own, and characters with their enclosing tags are those of the input, cut at newlines |
| HighlightMeaning.LinesShowPieces | swift-app/files-web/src/diff.tsx:38-48 | as many lines as newlines plus one, each showing its piece of the text |
| HighlightMeaning.EscapeIsOnePass | swift-app/files-web/src/diff.tsx:52-54 | the three replacements escape each character once |
| HighlightMeaning.EscapeRoundTrip | swift-app/files-web/src/diff.tsx:52-54 | escaping is undone by decoding and leaves no markup |
| HighlightMeaning.PlainPathShows | swift-app/files-web/src/diff.tsx:15-17 | the path without a highlighter meets what is asked of the highlighter |
| PreparedHunk.HighlightLines | swift-app/files-web/src/diff.tsx:9-50 | no lines for empty code, otherwise the cut of the markup |
| PreparedHunk.PrepareHunk | swift-app/files-web/src/diff.tsx:68-128 | side lines and split rows of a hunk; each unified row has its line's type and its two numbers |
| PreparedHunk.LitShows | swift-app/files-web/src/diff.tsx:83-84 | line i of a side shows text i; only a side that is one empty line has no lines |
| PreparedHunk.SplitViewShowsLines | swift-app/files-web/src/diff.tsx:86-126 | each cell of the side-by-side view shows exactly the line the line-based pairing puts there |
| PreparedHunk.UnifiedShowsLines | swift-app/files-web/src/diff.tsx:116-124 | each unified row but a meta row shows its own line |
| PreparedHunk.RemarkShowsFirstLine | swift-app/files-web/src/diff.tsx:116-124 | a remark's row shows the first line of the new side, and itself if and only if that side has no text or the two are the same |
| FloodFill.WhitenessToAlpha | swift-app/tools/fetch_brand_logos.py:61-88 | white with alpha 0 exactly the pixels of at least 243 in red, green and blue that are 4-connected through such pixels to one at the border, all others unchanged, each queued once |
| FloodFill.ClosedIsBackground | swift-app/tools/fetch_brand_logos.py:83-87 | background cells that hold the border and are closed under white neighbours are all of the background |
| FloodFill.FillsBackground | swift-app/tools/fetch_brand_logos.py:80-87 | the cells visited when the queue runs dry are exactly the background |
| ConfigFile.Document.constructor | swift-app/Sources/Core/GhosttyConfigFile.swift:33-37 | the lines of the text, parsed; none for an empty text |
| ConfigFile.Document.GetValue | swift-app/Sources/Core/GhosttyConfigFile.swift:49-55 | the value of the first line for the key |
| ConfigLines.ValueIsFirst | swift-app/Sources/Core/GhosttyConfigFile.swift:49-55 | the value is that of the first line for the key |
| ConfigFile.Document.Set | swift-app/Sources/Core/GhosttyConfigFile.swift:57-75 | the flag-driven loop computes `Updated` |
| ConfigFile.Document.Remove | swift-app/Sources/Core/GhosttyConfigFile.swift:77-83 | every line for the key goes, the others stay in order |
| ConfigFile.Document.FillAppearanceDefaults | swift-app/Sources/Core/GhosttyConfigFile.swift:119-131 | the defaults filled in; true exactly when one was missing |
| ConfigFile.RenderedIsText | swift-app/Sources/Core/GhosttyConfigFile.swift:33-47 | an unedited document renders to its text |
| ConfigFile.SetIsSurgical | swift-app/Sources/Core/GhosttyConfigFile.swift:57-75 | exactly one line for the key is left, `key = value`, where the first was or at the end, and every other line is as it was, in order |
| ConfigFile.SetKeepsOthers | swift-app/Sources/Core/GhosttyConfigFile.swift:57-75 | the key has the new value, all other keys theirs |
| ConfigFile.RemoveUndoesSet | swift-app/Sources/Core/GhosttyConfigFile.swift:77-83 | removing after setting is removing, and leaves the key without a value |
| ConfigFile.ParsesBack | swift-app/Sources/Core/GhosttyConfigFile.swift:17-47 | rendering and parsing any lines from a file, but a lone empty one, gives the same lines |
| ConfigFile.NewLineParses | swift-app/Sources/Core/GhosttyConfigFile.swift:17-27 | the line `set` writes parses to its key and value |
| ConfigLines.LooseLineParses | swift-app/Sources/Core/GhosttyConfigFile.swift:17-27 | key and value are read whatever blanks and tabs stand around them and the `=`, the key in lower case |
| ConfigLines.LowerIs | swift-app/Sources/Core/GhosttyConfigFile.swift:17-27 | a key is lower-cased letter by letter |
| ConfigLines.EmptyValueParses | swift-app/Sources/Core/GhosttyConfigFile.swift:17-27 | a key without a value has the empty value |
| ConfigLines.CommentIsOther | swift-app/Sources/Core/GhosttyConfigFile.swift:17-21 | behind blanks a `#` makes a comment, and a blank line is no key line |
| ConfigFile.ParsedIsWellFormed | swift-app/Sources/Core/GhosttyConfigFile.swift:17-27 | whatever is parsed has a well-formed key and value |
| ConfigFile.SetSurvivesIff | swift-app/Sources/Core/GhosttyConfigFile.swift:17-75 | a value set is there after a save and a load if and only if key and value are well-formed; every line then is as the edit left it |
| ConfigFile.FilledValues | swift-app/Sources/Core/GhosttyConfigFile.swift:119-131 | defaults only where nothing was set, other keys untouched |
| ConfigFile.FillIsIdempotent | swift-app/Sources/Core/GhosttyConfigFile.swift:94-131 | a second fill changes nothing, set values stay, missing ones get the shipped default; the five defaults are named |
| ShellQuoting.JoinRoundTrip | swift-app/Sources/Core/Shell.swift:17-24 | the shell reads the joined line back as exactly the arguments, any strings, any number |
| ShellQuoting.JoinAppend | swift-app/Sources/Core/Shell.swift:20-24 | what is joined are the quoted arguments, one blank between any two |
| ShellQuoting.ArgumentReads | swift-app/Sources/Core/Shell.swift:17-19 | one quoted argument in front of anything that starts with a blank is one word more |
| ShellQuoting.EmbeddedArguments | swift-app/Sources/Core/Shell.swift:16-24 | behind a command that is plain words, quoted arguments arrive as they are and the command's words are not disturbed |
| ShellQuoting.QuotedPathReadsIff | swift-app/Sources/Core/Shell.swift:9-14 | a path reads back as itself, with nothing to expand, if and only if it holds a space or a single quote or is a plain word |
| ShellQuoting.DollarIsUnprotected | swift-app/Sources/Core/Shell.swift:9-14 | a concrete path that is pasted bare though the shell would expand it |

## Left out

- Events that touch no modelled field (`ready`, `phase`, `usage`, `jobs`, `stats` and the like) are one event
  `Other`; the fields `generation`, `hasOlder`, `prependEpoch`, `planDockOpen`, `retry`, `phase`, `error`,
  `starting`, `permission`, `flash` and the timers are not modelled.
- Schema parsing: a raw message is an event or nothing, and the events of a page are already parsed. An
  exception inside the reducer does not arise in the model.
- TranscriptStore.Store.ApplyAll: the branch for an event that throws midway, which counts it as rejected after
  partial work, is not modelled, because no modelled event throws.
- TranscriptStore.Store.TogglePlanDock: the flip of `planDockOpen` and its persistence with the host are left
  out with that field.
- The clock and the usage numbers behind the turn-statistics line are inputs: the event carries the parts.
- A tool's `rawInput` is kept as a string; identity of block and call objects, which memoized views compare, is
  not modelled, so `tail` returning the block it opened becomes an assignment to the last block.
- Segmentation.BlocksAreSegments: stated without pages, because a page resets or sets the seals.
- Paging.PagingEqualsReplay: pages with a clear or a page inside are left out, and what is shown is compared at
  the moment right after the page.
- Strings are sequences of characters, not UTF-16 code units or grapheme clusters; `parseInt` is exact, where
  the program rounds line numbers beyond 2^53.
- PatchPrinter.GitPathsIff: git's quoting of unusual paths, and the tab it puts behind a name with a blank, are
  not printed by the model's printer.
- PatchParser.ParsePatch: the open hunk is the last of the list instead of an alias of it.
- SplitPairing.PairIndexes: the maps are keyed by a line's position instead of by the line object.
- PreparedHunk.PrepareHunk: the highlighter's output is an input; that it shows the code it was given is a
  hypothesis of the view theorems, proved for the escaping path.
- Folding.ClusterWalk: `showBranch`, keys and React elements.
- FloodFill.WhitenessToAlpha: an image has at least one pixel; decoding and conversion to RGBA are not modelled.
- ConfigFile.Document.Set: keys are lower-cased in ASCII only, and lines end in LF (Swift reads CR LF as one
  character).
- ShellQuoting.QuotedPathReadsIff: a word that would be expanded is not plain, whatever the expansion would give;
  assignments, aliases and reserved words, which depend on where in a command the word stands, are left out.
- `parseGitPatch`, `parseOmpDiff`, `diffHunks` and `wordSegments` in App.tsx, `Shell.exec`,
  `isShellPromptCommand`, file loading and saving: easier than what is here, or input and output.
