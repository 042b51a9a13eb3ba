/**
 The three records of a tool call agree: the map `tools`, the list `toolOrder` and the `call` each
 tool block shows.
 */
module ToolIndex {
  import opened Wrappers
  import opened Transcript
  import opened Effects

  // ---------- The index in every reachable state ----------

  /** The ids of the tool blocks, in transcript order. */
  function BlockTools(blocks: seq<Block>): seq<string> {
    if blocks == [] then []
    else (if blocks[0].body.Tool? then [blocks[0].body.call.id] else []) + BlockTools(blocks[1..])
  }

  /** `toolOrder` lists exactly the tool blocks, in order, and `tools` has exactly those ids. */
  ghost predicate Indexed(s: State) {
    && s.toolOrder == BlockTools(s.blocks)
    && (forall id :: id in s.toolOrder <==> id in s.tools)
    && (forall id | id in s.tools :: s.tools[id].id == id)
  }

  lemma {:induction false} BlockToolsAppend(a: seq<Block>, b: seq<Block>)
    ensures BlockTools(a + b) == BlockTools(a) + BlockTools(b)
  {
    if a == [] {
      assert a + b == b;
    } else {
      var block, rest := a[0], a[1..];
      assert a == [block] + rest;
      assert a + b == [block] + (rest + b);
      BlockToolsAppend(rest, b);
    }
  }

  lemma {:induction false} BlockToolsMember(blocks: seq<Block>, id: string)
    ensures id in BlockTools(blocks) <==> exists i | 0 <= i < |blocks| :: HoldsTool(blocks[i], id)
  {
    if blocks != [] {
      BlockToolsMember(blocks[1..], id);
      if i :| 0 <= i < |blocks| && HoldsTool(blocks[i], id) && i != 0 {
        assert HoldsTool(blocks[1..][i - 1], id);
      }
      if i :| 0 <= i < |blocks[1..]| && HoldsTool(blocks[1..][i], id) {
        assert HoldsTool(blocks[i + 1], id);
      }
    }
  }

  /** One block replaced by another of the same tool, or by text where text was. */
  lemma {:induction false} BlockToolsUpdate(blocks: seq<Block>, i: nat, b: Block)
    requires i < |blocks|
    requires b.body.Tool? == blocks[i].body.Tool?
    requires b.body.Tool? ==> b.body.call.id == blocks[i].body.call.id
    ensures BlockTools(blocks[i := b]) == BlockTools(blocks)
  {
    if i == 0 {
      assert blocks[i := b][1..] == blocks[1..];
    } else {
      assert blocks[i := b][1..] == blocks[1..][i - 1 := b];
      BlockToolsUpdate(blocks[1..], i - 1, b);
    }
  }

  lemma {:induction false} SwapKeepsTools(blocks: seq<Block>, call: ToolCall)
    ensures BlockTools(SwapNewest(blocks, call)) == BlockTools(blocks)
  {
    var i := SwapCases(blocks, call);
    if i >= 0 { BlockToolsUpdate(blocks, i, blocks[i].(body := Tool(call))); }
  }

  lemma {:induction false} PlaceIndexed(s: State, call: ToolCall)
    requires Indexed(s)
    ensures Indexed(PlaceCall(s, call))
  {
    if call.id in s.tools {
      SwapKeepsTools(s.blocks, call);
    } else {
      BlockToolsAppend(s.blocks, [Block(s.nextBlockId, Tool(call))]);
    }
  }

  /** Every effect keeps the index, a splice provided the rebuilt page has it. */
  lemma {:induction false} MoveIndexed(s: State, f: Effect, s': State)
    requires Indexed(s) && Moves(s, f, s')
    requires f.Splices? ==> Indexed(Run(Emptied(s), f.page))
    ensures Indexed(s')
  {
    match f
    case Opens(body) => BlockToolsAppend(s.blocks, [Block(s.nextBlockId, body)]);
    case Grows(text) =>
      var n := |s.blocks| - 1;
      BlockToolsUpdate(s.blocks, n, s'.blocks[n]);
    case Places(call) => PlaceIndexed(s, call);
    case Marks(voice, id) =>
      var i := StampCases(s.blocks, voice, id);
      if i >= 0 { BlockToolsUpdate(s.blocks, i, Stamp(s.blocks[i], id)); }
    case Splices(page) => BlockToolsAppend(Run(Emptied(s), page).blocks, s.blocks);
    case _ =>
  }

  lemma {:induction false} StepIndexed(s: State, e: Event)
    requires Indexed(s)
    ensures Indexed(Step(s, e))
    decreases e
  {
    StepMoves(s, e);
    if e.TranscriptPrepend? { RunIndexed(Emptied(s), e.page); }
    MoveIndexed(s, EffectOf(s, e), Step(s, e));
  }

  lemma {:induction false} RunIndexed(s: State, events: seq<Event>)
    requires Indexed(s)
    ensures Indexed(Run(s, events))
    decreases events
  {
    if events != [] {
      StepIndexed(s, events[0]);
      RunIndexed(Step(s, events[0]), events[1..]);
    }
  }

  /** In every reachable state, pages with repeated ids included, the three records name the same tools. */
  lemma {:induction false} ReachableIndexed(actions: seq<Action>)
    ensures var s := PerformAll(INIT, actions);
            && Indexed(s)
            && forall id :: id in s.tools <==> exists i | 0 <= i < |s.blocks| :: HoldsTool(s.blocks[i], id)
  {
    if actions != [] {
      var n := |actions| - 1;
      ReachableIndexed(actions[..n]);
      PerformMoves(PerformAll(INIT, actions[..n]), actions[n]);
      if actions[n].Apply? { StepIndexed(PerformAll(INIT, actions[..n]), actions[n].event); }
    }
    var s := PerformAll(INIT, actions);
    forall id
      ensures id in s.tools <==> exists i | 0 <= i < |s.blocks| :: HoldsTool(s.blocks[i], id)
    {
      BlockToolsMember(s.blocks, id);
    }
  }

  // ---------- One block per tool, showing the map's call ----------

  /** Every tool id an event mentions, nested pages included. */
  function Mentions(e: Event): set<string>
    decreases e
  {
    match e
    case ToolEvent(u) => {u.id}
    case TranscriptPrepend(page) => PageTools(page)
    case _ => {}
  }

  function PageTools(events: seq<Event>): set<string>
    decreases events
  {
    if events == [] then {} else Mentions(events[0]) + PageTools(events[1..])
  }

  /** The tools held after an event when `held` were before: a clear drops them, a page adds its own. */
  function Held(held: set<string>, e: Event): set<string>
    decreases e
  {
    match e
    case ToolEvent(u) => held + {u.id}
    case ClearTranscript => {}
    case TranscriptPrepend(page) => HeldAfter({}, page) + held
    case _ => held
  }

  function HeldAfter(held: set<string>, events: seq<Event>): set<string>
    decreases events
  {
    if events == [] then held else HeldAfter(Held(held, events[0]), events[1..])
  }

  /** Whether each tool has one block after an event, given whether each had one before and which tools
      were held: a page spoils it when it brings a tool twice or one that is held, a clear mends it. */
  predicate Single(single: bool, held: set<string>, e: Event)
    decreases e
  {
    match e
    case ClearTranscript => true
    case TranscriptPrepend(page) => single && SingleAfter(true, {}, page) && HeldAfter({}, page) !! held
    case _ => single
  }

  predicate SingleAfter(single: bool, held: set<string>, events: seq<Event>)
    decreases events
  {
    if events == [] then single
    else SingleAfter(Single(single, held, events[0]), Held(held, events[0]), events[1..])
  }

  lemma {:induction false} AfterSnoc(single: bool, held: set<string>, log: seq<Event>, e: Event)
    ensures HeldAfter(held, log + [e]) == Held(HeldAfter(held, log), e)
    ensures SingleAfter(single, held, log + [e]) == Single(SingleAfter(single, held, log), HeldAfter(held, log), e)
    decreases |log|
  {
    var all := log + [e];
    if log == [] {
      assert all[1..] == [];
    } else {
      assert all[0] == log[0] && all[1..] == log[1..] + [e];
      AfterSnoc(Single(single, held, log[0]), Held(held, log[0]), log[1..], e);
    }
  }

  predicate NoneTwice(ids: seq<string>) {
    forall i, j | 0 <= i < j < |ids| :: ids[i] != ids[j]
  }

  lemma {:induction false} NoneTwiceAppend(a: seq<string>, b: seq<string>)
    ensures NoneTwice(a + b) <==> NoneTwice(a) && NoneTwice(b) && forall id | id in a :: id !in b
  {
    var all := a + b;
    assert forall i | 0 <= i < |a| :: all[i] == a[i];
    assert forall i | 0 <= i < |b| :: all[|a| + i] == b[i];
    if NoneTwice(all) {
      forall i, j | 0 <= i < j < |b|
        ensures b[i] != b[j]
      {
        assert all[|a| + i] != all[|a| + j];
      }
      forall i, j | 0 <= i < |a| && 0 <= j < |b|
        ensures a[i] != b[j]
      {
        assert all[i] != all[|a| + j];
      }
    } else {
      var i, j :| 0 <= i < j < |all| && all[i] == all[j];
      if i < |a| && j >= |a| {
        assert a[i] in a && b[j - |a|] in b;
      } else if i >= |a| {
        assert b[i - |a|] == b[j - |a|];
      }
    }
  }

  /** The tools held, and whether one is listed twice, follow from the events alone. */
  ghost predicate Tracked(s: State, single: bool, held: set<string>) {
    s.tools.Keys == held && (NoneTwice(s.toolOrder) <==> single)
  }

  lemma {:induction false} PlaceTracked(s: State, call: ToolCall)
    requires Indexed(s)
    ensures PlaceCall(s, call).tools.Keys == s.tools.Keys + {call.id}
    ensures NoneTwice(PlaceCall(s, call).toolOrder) <==> NoneTwice(s.toolOrder)
  {
    if call.id !in s.tools { NoneTwiceAppend(s.toolOrder, [call.id]); }
  }

  lemma {:induction false} StepTracked(s: State, e: Event, single: bool, held: set<string>)
    requires Indexed(s) && Tracked(s, single, held)
    ensures Tracked(Step(s, e), Single(single, held, e), Held(held, e))
    decreases e, 0
  {
    StepMoves(s, e);
    if e.TranscriptPrepend? {
      PageTracked(s, e.page, single, held);
    } else if e.ToolEvent? {
      PlaceTracked(s, MergeCall(e.update, s.tools));
    } else if e.ClearTranscript? {
    } else {
    }
  }

  lemma {:induction false} PageTracked(s: State, page: seq<Event>, single: bool, held: set<string>)
    requires Indexed(s) && Tracked(s, single, held)
    ensures Tracked(Step(s, TranscriptPrepend(page)), Single(single, held, TranscriptPrepend(page)),
                    Held(held, TranscriptPrepend(page)))
    decreases page, 1
  {
    var rebuilt := Run(Emptied(s), page);
    RunIndexed(Emptied(s), page);
    RunTracked(Emptied(s), page, true, {});
    NoneTwiceAppend(rebuilt.toolOrder, s.toolOrder);
    assert (forall id | id in rebuilt.toolOrder :: id !in s.toolOrder) <==> rebuilt.tools.Keys !! s.tools.Keys;
  }

  lemma {:induction false} RunTracked(s: State, events: seq<Event>, single: bool, held: set<string>)
    requires Indexed(s) && Tracked(s, single, held)
    ensures Tracked(Run(s, events), SingleAfter(single, held, events), HeldAfter(held, events))
    decreases events, 0
  {
    if events != [] {
      StepIndexed(s, events[0]);
      StepTracked(s, events[0], single, held);
      RunTracked(Step(s, events[0]), events[1..], Single(single, held, events[0]), Held(held, events[0]));
    }
  }

  /** Block `i` is the newest one of a tool. */
  ghost predicate Newest(blocks: seq<Block>, i: nat) {
    && i < |blocks| && blocks[i].body.Tool?
    && forall j | i < j < |blocks| :: !HoldsTool(blocks[j], blocks[i].body.call.id)
  }

  /** The newest block of each tool shows the map's call. */
  ghost predicate NewestShows(s: State) {
    forall i: nat | Newest(s.blocks, i) ::
      var call := s.blocks[i].body.call; call.id in s.tools && s.tools[call.id] == call
  }

  /** A tool's newest block in `after` was its newest in `before`, if that had a block there already and
      every tool block of it is still one of the same tool. */
  lemma {:induction false} NewestBefore(before: seq<Block>, after: seq<Block>, i: nat)
    requires i < |before| <= |after| && Newest(after, i)
    requires before[i].body.Tool? && before[i].body.call.id == after[i].body.call.id
    requires forall j | 0 <= j < |before| && before[j].body.Tool? :: HoldsTool(after[j], before[j].body.call.id)
    ensures Newest(before, i)
  {
    forall j | i < j < |before|
      ensures !HoldsTool(before[j], before[i].body.call.id)
    {
      assert !HoldsTool(after[j], after[i].body.call.id);
    }
  }

  lemma {:induction false} SwapShows(s: State, call: ToolCall)
    requires NewestShows(s)
    ensures NewestShows(s.(blocks := SwapNewest(s.blocks, call), tools := s.tools[call.id := call]))
  {
    var blocks := SwapNewest(s.blocks, call);
    var k := SwapCases(s.blocks, call);
    forall i: nat | Newest(blocks, i)
      ensures var shown := blocks[i].body.call;
              shown.id in s.tools[call.id := call] && s.tools[call.id := call][shown.id] == shown
    {
      NewestBefore(s.blocks, blocks, i);
      assert k >= 0 ==> HoldsTool(blocks[k], call.id);
    }
  }

  lemma {:induction false} AppendShows(s: State, call: ToolCall)
    requires NewestShows(s)
    ensures NewestShows(s.(blocks := s.blocks + [Block(s.nextBlockId, Tool(call))], tools := s.tools[call.id := call]))
  {
    var blocks := s.blocks + [Block(s.nextBlockId, Tool(call))];
    forall i: nat | Newest(blocks, i)
      ensures var shown := blocks[i].body.call;
              shown.id in s.tools[call.id := call] && s.tools[call.id := call][shown.id] == shown
    {
      if i < |s.blocks| {
        NewestBefore(s.blocks, blocks, i);
        assert !HoldsTool(blocks[|s.blocks|], blocks[i].body.call.id);
      }
    }
  }

  lemma {:induction false} PlaceShows(s: State, call: ToolCall)
    requires NewestShows(s)
    ensures NewestShows(PlaceCall(s, call))
  {
    if call.id in s.tools { SwapShows(s, call); } else { AppendShows(s, call); }
  }

  lemma {:induction false} NewestBehind(front: seq<Block>, held: seq<Block>, i: nat)
    requires |front| <= i && Newest(front + held, i)
    ensures Newest(held, i - |front|)
  {
    forall j | i - |front| < j < |held|
      ensures !HoldsTool(held[j], held[i - |front|].body.call.id)
    {
      assert (front + held)[|front| + j] == held[j];
    }
  }

  lemma {:induction false} NotBehind(front: seq<Block>, held: seq<Block>, i: nat)
    requires i < |front| && Newest(front + held, i)
    ensures forall j | 0 <= j < |held| :: !HoldsTool(held[j], front[i].body.call.id)
  {
    forall j | 0 <= j < |held|
      ensures !HoldsTool(held[j], front[i].body.call.id)
    {
      assert (front + held)[|front| + j] == held[j];
    }
  }

  lemma {:induction false} SpliceShows(s: State, rebuilt: State, s': State)
    requires Indexed(s) && NewestShows(s) && NewestShows(rebuilt)
    requires s'.blocks == rebuilt.blocks + s.blocks && s'.tools == rebuilt.tools + s.tools
    ensures NewestShows(s')
  {
    var off := |rebuilt.blocks|;
    forall i: nat | Newest(s'.blocks, i)
      ensures var shown := s'.blocks[i].body.call; shown.id in s'.tools && s'.tools[shown.id] == shown
    {
      var id := s'.blocks[i].body.call.id;
      if i >= off {
        NewestBehind(rebuilt.blocks, s.blocks, i);
      } else {
        NewestBefore(rebuilt.blocks, s'.blocks, i);
        NotBehind(rebuilt.blocks, s.blocks, i);
        BlockToolsMember(s.blocks, id);
      }
    }
  }

  /** Blocks that differ in text blocks only have the same newest blocks. */
  lemma {:induction false} TextShows(s: State, s': State)
    requires NewestShows(s) && s'.tools == s.tools && |s.blocks| <= |s'.blocks|
    requires forall i | 0 <= i < |s'.blocks| && s'.blocks[i].body.Tool? :: i < |s.blocks|
    requires forall i | 0 <= i < |s.blocks| && (s.blocks[i].body.Tool? || s'.blocks[i].body.Tool?) ::
               s'.blocks[i] == s.blocks[i]
    ensures NewestShows(s')
  {
    forall i: nat | Newest(s'.blocks, i)
      ensures var shown := s'.blocks[i].body.call; shown.id in s'.tools && s'.tools[shown.id] == shown
    {
      NewestBefore(s.blocks, s'.blocks, i);
    }
  }

  lemma {:induction false} MarkShows(s: State, voice: Voice, id: string, s': State)
    requires NewestShows(s) && s'.blocks == StampNewest(s.blocks, voice, id) && s'.tools == s.tools
    ensures NewestShows(s')
  {
    var i := StampCases(s.blocks, voice, id);
    TextShows(s, s');
  }

  lemma {:induction false} MoveShows(s: State, f: Effect, s': State)
    requires Indexed(s) && NewestShows(s) && Moves(s, f, s')
    requires f.Splices? ==> NewestShows(Run(Emptied(s), f.page))
    ensures NewestShows(s')
  {
    match f
    case Places(call) => PlaceShows(s, call);
    case Splices(page) => SpliceShows(s, Run(Emptied(s), page), s');
    case Wipes =>
    case Marks(voice, id) => MarkShows(s, voice, id, s');
    case _ => TextShows(s, s');
  }

  lemma {:induction false} StepShows(s: State, e: Event)
    requires Indexed(s) && NewestShows(s)
    ensures NewestShows(Step(s, e))
    decreases e
  {
    StepMoves(s, e);
    if e.TranscriptPrepend? { RunShows(Emptied(s), e.page); }
    MoveShows(s, EffectOf(s, e), Step(s, e));
  }

  lemma {:induction false} RunShows(s: State, events: seq<Event>)
    requires Indexed(s) && NewestShows(s)
    ensures NewestShows(Run(s, events))
    decreases events
  {
    if events != [] {
      StepIndexed(s, events[0]);
      StepShows(s, events[0]);
      RunShows(Step(s, events[0]), events[1..]);
    }
  }

  /** The log since the last clear, after one more action. */
  function LogWith(log: seq<Event>, a: Action): seq<Event> {
    match a
    case Apply(e) => if e.ClearTranscript? then [] else log + [e]
    case Reset => []
    case _ => log
  }

  lemma {:induction false} EventShows(s: State, log: seq<Event>, e: Event)
    requires Indexed(s) && NewestShows(s) && Tracked(s, SingleAfter(true, {}, log), HeldAfter({}, log))
    ensures var log' := if e.ClearTranscript? then [] else log + [e];
            NewestShows(Step(s, e)) && Tracked(Step(s, e), SingleAfter(true, {}, log'), HeldAfter({}, log'))
  {
    StepShows(s, e);
    StepTracked(s, e, SingleAfter(true, {}, log), HeldAfter({}, log));
    AfterSnoc(true, {}, log, e);
  }

  lemma {:induction false} ActionShows(s: State, log: seq<Event>, a: Action)
    requires Indexed(s) && NewestShows(s) && Tracked(s, SingleAfter(true, {}, log), HeldAfter({}, log))
    ensures var s', log' := Perform(s, a), LogWith(log, a);
            NewestShows(s') && Tracked(s', SingleAfter(true, {}, log'), HeldAfter({}, log'))
  {
    if a.Apply? { EventShows(s, log, a.event); }
  }

  /** In every reachable state the newest block of each tool shows its call, and the log since the last
      clear tells which tools are held and whether one has two blocks. */
  lemma {:induction false} ReachableShows(actions: seq<Action>)
    ensures var s := PerformAll(INIT, actions);
            var log := SinceClear(actions);
            Indexed(s) && NewestShows(s) && Tracked(s, SingleAfter(true, {}, log), HeldAfter({}, log))
  {
    ReachableIndexed(actions);
    if actions != [] {
      var before, last := actions[..|actions| - 1], actions[|actions| - 1];
      ReachableShows(before);
      ActionShows(PerformAll(INIT, before), SinceClear(before), last);
    }
  }

  /** The tool has exactly one block, and it shows the map's call. */
  ghost predicate OneBlock(s: State, id: string)
    requires id in s.tools
  {
    exists i | 0 <= i < |s.blocks| ::
      && s.blocks[i].body == Tool(s.tools[id])
      && forall j | 0 <= j < |s.blocks| && HoldsTool(s.blocks[j], id) :: j == i
  }

  ghost predicate OneBlockEach(s: State) {
    forall id | id in s.tools :: OneBlock(s, id)
  }

  /** A tool listed twice has two blocks. */
  lemma {:induction false} TwiceHeld(blocks: seq<Block>) returns (i: nat, j: nat)
    requires !NoneTwice(BlockTools(blocks))
    ensures i < j < |blocks| && blocks[i].body.Tool? && HoldsTool(blocks[j], blocks[i].body.call.id)
  {
    var b, rest := blocks[0], blocks[1..];
    if NoneTwice(BlockTools(rest)) {
      NoneTwiceAppend([b.body.call.id], BlockTools(rest));
      BlockToolsMember(rest, b.body.call.id);
      var k :| 0 <= k < |rest| && HoldsTool(rest[k], b.body.call.id);
      i, j := 0, k + 1;
    } else {
      i, j := TwiceHeld(rest);
      i, j := i + 1, j + 1;
    }
  }

  /** A tool with two blocks is listed twice. */
  lemma {:induction false} HeldTwice(blocks: seq<Block>, i: nat, j: nat, id: string)
    requires i < j < |blocks| && HoldsTool(blocks[i], id) && HoldsTool(blocks[j], id)
    ensures !NoneTwice(BlockTools(blocks))
  {
    var front, back := blocks[..j], blocks[j..];
    assert blocks == front + back && front[i] == blocks[i] && back[0] == blocks[j];
    BlockToolsAppend(front, back);
    BlockToolsMember(front, id);
    BlockToolsMember(back, id);
    NoneTwiceAppend(BlockTools(front), BlockTools(back));
  }

  lemma {:induction false} NewestShown(s: State, id: string) returns (i: nat)
    requires Indexed(s) && NewestShows(s) && id in s.tools
    ensures i < |s.blocks| && s.blocks[i].body == Tool(s.tools[id])
    ensures forall j | i < j < |s.blocks| :: !HoldsTool(s.blocks[j], id)
  {
    BlockToolsMember(s.blocks, id);
    var k := SwapCases(s.blocks, s.tools[id]);
    i := k;
    assert Newest(s.blocks, i);
  }

  /** With the newest blocks showing the map, each tool has one block exactly when none is listed twice. */
  lemma {:induction false} OneBlockListed(s: State)
    requires Indexed(s) && NewestShows(s)
    ensures OneBlockEach(s) <==> NoneTwice(s.toolOrder)
  {
    if NoneTwice(s.toolOrder) {
      forall id | id in s.tools
        ensures OneBlock(s, id)
      {
        var i := NewestShown(s, id);
        forall j | 0 <= j < |s.blocks| && HoldsTool(s.blocks[j], id)
          ensures j == i
        {
          if j < i { HeldTwice(s.blocks, j, i, id); }
        }
      }
    } else {
      var i, j := TwiceHeld(s.blocks);
      var id := s.blocks[i].body.call.id;
      BlockToolsMember(s.blocks, id);
      assert HoldsTool(s.blocks[i], id) && !OneBlock(s, id);
    }
  }

  /** On every run, whatever the pages bring, the newest block of a tool shows the map's call: it is the
      one an update swaps. */
  lemma {:induction false} NewestBlockShowsCall(actions: seq<Action>, id: string) returns (i: nat)
    requires id in PerformAll(INIT, actions).tools
    ensures var s := PerformAll(INIT, actions);
            && i < |s.blocks| && s.blocks[i].body == Tool(s.tools[id])
            && forall j | i < j < |s.blocks| :: !HoldsTool(s.blocks[j], id)
  {
    ReachableShows(actions);
    i := NewestShown(PerformAll(INIT, actions), id);
  }

  /** On every run, each tool has exactly one block, and that block shows the map's call, if and only if
      since the last clear no page brought a tool twice or one that was held already. */
  lemma {:induction false} OneBlockPerTool(actions: seq<Action>)
    ensures OneBlockEach(PerformAll(INIT, actions)) <==> SingleAfter(true, {}, SinceClear(actions))
  {
    ReachableShows(actions);
    OneBlockListed(PerformAll(INIT, actions));
  }

  /** A page put before such a transcript keeps it so if and only if the page itself has one block for
      each of its tools and shares none with what is held. */
  lemma {:induction false} PageKeepsOneBlock(s: State, page: seq<Event>)
    requires Indexed(s) && NewestShows(s) && OneBlockEach(s)
    ensures OneBlockEach(Step(s, TranscriptPrepend(page))) <==>
            SingleAfter(true, {}, page) && HeldAfter({}, page) !! s.tools.Keys
  {
    OneBlockListed(s);
    StepIndexed(s, TranscriptPrepend(page));
    StepShows(s, TranscriptPrepend(page));
    StepTracked(s, TranscriptPrepend(page), true, s.tools.Keys);
    OneBlockListed(Step(s, TranscriptPrepend(page)));
  }

  /** A page that repeats a held id leaves two blocks for it, the older one showing a stale call. */
  lemma {:induction false} RepeatedToolLeavesTwoBlocks()
    ensures var started := ToolUpdate("t", Undefined, Undefined, Value("running"), Null, Null, Null, Null);
            var done := ToolUpdate("t", Undefined, Undefined, Value("completed"), Null, Null, Null, Null);
            var s := Run(INIT, [ToolEvent(done), TranscriptPrepend([ToolEvent(started)])]);
            && |s.blocks| == 2
            && HoldsTool(s.blocks[0], "t") && HoldsTool(s.blocks[1], "t")
            && s.blocks[0].body.call != s.tools["t"] == s.blocks[1].body.call
  {
    var started := ToolUpdate("t", Undefined, Undefined, Value("running"), Null, Null, Null, Null);
    var done := ToolUpdate("t", Undefined, Undefined, Value("completed"), Null, Null, Null, Null);
    var s := Step(INIT, ToolEvent(done));
    var page := [ToolEvent(started)];
    assert Run(Emptied(s), page) == Run(Step(Emptied(s), page[0]), []);
    var two := [ToolEvent(done), TranscriptPrepend(page)];
    assert Run(INIT, two) == Run(s, two[1..]) == Run(Step(s, two[1]), []);
  }

  // ---------- What each field of a call holds ----------

  /** The last present value of a field of tool `id`, read back from the end of the log. */
  function LastField(log: seq<Event>, id: string, field: ToolUpdate -> Nullish<string>,
                     absent: Nullish<string>): Nullish<string> {
    if log == [] then absent
    else
      var n := |log| - 1;
      if log[n].ToolEvent? && log[n].update.id == id && field(log[n].update).Value? then field(log[n].update)
      else LastField(log[..n], id, field, absent)
  }

  /** The last non-empty value of a list field of tool `id`. */
  function LastList(log: seq<Event>, id: string, field: ToolUpdate -> Nullish<seq<ToolContent>>): seq<ToolContent> {
    if log == [] then []
    else
      var n := |log| - 1;
      if log[n].ToolEvent? && log[n].update.id == id
         && field(log[n].update).Value? && field(log[n].update).value != []
      then field(log[n].update).value
      else LastList(log[..n], id, field)
  }

  function LatestCall(log: seq<Event>, id: string): ToolCall {
    ToolCall(id,
             LastField(log, id, (u: ToolUpdate) => u.title, Undefined),
             LastField(log, id, (u: ToolUpdate) => u.kind, Undefined),
             LastField(log, id, (u: ToolUpdate) => u.status, Undefined),
             LastList(log, id, (u: ToolUpdate) => u.content),
             LastList(log, id, (u: ToolUpdate) => u.output),
             LastField(log, id, (u: ToolUpdate) => u.rawInput, Null),
             LastField(log, id, (u: ToolUpdate) => u.oldText, Null))
  }

  /** The log mentions the tool. */
  ghost predicate Seen(log: seq<Event>, id: string) {
    exists i | 0 <= i < |log| :: log[i].ToolEvent? && log[i].update.id == id
  }

  lemma {:induction false} SeenSnoc(log: seq<Event>, e: Event, id: string)
    ensures Seen(log + [e], id) <==> Seen(log, id) || (e.ToolEvent? && e.update.id == id)
  {
    if Seen(log, id) {
      var i :| 0 <= i < |log| && log[i].ToolEvent? && log[i].update.id == id;
      assert (log + [e])[i] == log[i];
    }
    if e.ToolEvent? && e.update.id == id { assert (log + [e])[|log|] == e; }
  }

  lemma {:induction false} LatestUnseen(log: seq<Event>, id: string)
    requires !Seen(log, id)
    ensures LatestCall(log, id) == ToolCall(id, Undefined, Undefined, Undefined, [], [], Null, Null)
  {
    if log != [] {
      var n := |log| - 1;
      assert log[..n] + [log[n]] == log;
      SeenSnoc(log[..n], log[n], id);
      LatestUnseen(log[..n], id);
    }
  }

  /** The map holds, for exactly the tools seen since the last clear, exactly the latest call. */
  ghost predicate HoldsLatest(tools: map<string, ToolCall>, log: seq<Event>) {
    && (forall id :: id in tools <==> Seen(log, id))
    && (forall id | id in tools :: tools[id] == LatestCall(log, id))
  }

  lemma {:induction false} FieldOrAbsent(log: seq<Event>, id: string, field: ToolUpdate -> Nullish<string>,
                                         absent: Nullish<string>)
    ensures LastField(log, id, field, absent).Value? || LastField(log, id, field, absent) == absent
  {
    if log != [] { FieldOrAbsent(log[..|log| - 1], id, field, absent); }
  }

  /** One more update of the tool merges its present fields over the call so far. */
  lemma {:induction false} LatestMerges(log: seq<Event>, u: ToolUpdate, prev: ToolCall)
    requires prev == LatestCall(log, u.id)
    ensures LatestCall(log + [ToolEvent(u)], u.id) == MergeCall(u, map[u.id := prev])
  {
    var log' := log + [ToolEvent(u)];
    assert log'[..|log|] == log && log'[|log|] == ToolEvent(u);
    FieldOrAbsent(log, u.id, (v: ToolUpdate) => v.rawInput, Null);
    FieldOrAbsent(log, u.id, (v: ToolUpdate) => v.oldText, Null);
  }

  lemma {:induction false} LatestOfOther(log: seq<Event>, e: Event, id: string)
    requires !(e.ToolEvent? && e.update.id == id)
    ensures LatestCall(log + [e], id) == LatestCall(log, id)
    ensures Seen(log + [e], id) <==> Seen(log, id)
  {
    assert (log + [e])[..|log|] == log;
    SeenSnoc(log, e, id);
  }

  lemma {:induction false} UpsertLatest(tools: map<string, ToolCall>, log: seq<Event>, u: ToolUpdate)
    requires HoldsLatest(tools, log)
    ensures HoldsLatest(tools[u.id := MergeCall(u, tools)], log + [ToolEvent(u)])
  {
    LatestMerges(log, u, LatestCall(log, u.id));
    if u.id !in tools { LatestUnseen(log, u.id); }
    SeenSnoc(log, ToolEvent(u), u.id);
    forall id | id != u.id
      ensures LatestCall(log + [ToolEvent(u)], id) == LatestCall(log, id)
      ensures Seen(log + [ToolEvent(u)], id) <==> Seen(log, id)
    {
      LatestOfOther(log, ToolEvent(u), id);
    }
  }

  lemma {:induction false} QuietLatest(tools: map<string, ToolCall>, log: seq<Event>, e: Event)
    requires HoldsLatest(tools, log) && !e.ToolEvent?
    ensures HoldsLatest(tools, log + [e])
  {
    forall id
      ensures LatestCall(log + [e], id) == LatestCall(log, id)
      ensures Seen(log + [e], id) <==> Seen(log, id)
    {
      LatestOfOther(log, e, id);
    }
  }

  lemma {:induction false} KeepsTools(s: State, e: Event)
    requires !e.ToolEvent? && !e.TranscriptPrepend? && !e.ClearTranscript?
    ensures Step(s, e).tools == s.tools
  {
    StepMoves(s, e);
  }

  lemma {:induction false} StepLatest(s: State, log: seq<Event>, e: Event)
    requires HoldsLatest(s.tools, log)
    requires !e.TranscriptPrepend? && !e.ClearTranscript?
    ensures HoldsLatest(Step(s, e).tools, log + [e])
  {
    if e.ToolEvent? {
      UpsertLatest(s.tools, log, e.update);
    } else {
      KeepsTools(s, e);
      QuietLatest(s.tools, log, e);
    }
  }

  /** Without prepended pages, every field of every call is its last present value since the last clear. */
  lemma {:induction false} ToolsHoldLatest(actions: seq<Action>)
    requires NoPages(actions)
    ensures HoldsLatest(PerformAll(INIT, actions).tools, SinceClear(actions))
  {
    if actions != [] {
      var n := |actions| - 1;
      ToolsHoldLatest(actions[..n]);
      var s := PerformAll(INIT, actions[..n]);
      if actions[n].Apply? && !actions[n].event.ClearTranscript? {
        StepLatest(s, SinceClear(actions[..n]), actions[n].event);
      }
    }
  }
}
