/** The entry marks on the blocks as a function of the log, pages and clears included. */
module MarkSlots {
  import opened Wrappers
  import opened Transcript
  import opened Effects
  import opened EntryMarks
  import S = Segmentation

  // ---------- The slots of a log ----------

  /** What a block is to an entry mark: a card, which takes none, or text of a voice, marked or not. */
  datatype Slot = Card | Said(voice: Voice, mark: Option<string>)

  /** What of the transcript decides where marks go. `sealed`: the next chunk opens a block of its own. */
  datatype View = View(slots: seq<Slot>, seen: set<string>, sealed: bool)

  const BLANK := View([], {}, false)

  predicate LastSaid(slots: seq<Slot>, voice: Voice) {
    |slots| > 0 && slots[|slots| - 1].Said? && slots[|slots| - 1].voice == voice
  }

  /** The event adds to the run that is open, whose block loses its mark. */
  predicate Regrows(v: View, e: Event) {
    match e
    case UserChunk(_) => LastSaid(v.slots, User)
    case AgentChunk(text) => text != "" && LastSaid(v.slots, Agent) && !v.sealed
    case ThoughtChunk(text) => text != "" && LastSaid(v.slots, Thought) && !v.sealed
    case _ => false
  }

  function FreeLast(slots: seq<Slot>): seq<Slot>
    requires |slots| > 0 && slots[|slots| - 1].Said?
  {
    slots[|slots| - 1 := slots[|slots| - 1].(mark := None)]
  }

  /** A block of its own for the event, if it opens one. */
  function OpenSlot(v: View, e: Event): View {
    match S.Opening(e, v.seen)
    case None => v.(sealed := v.sealed || e.TurnEnded?)
    case Some(Card(id)) => v.(slots := v.slots + [Slot.Card], seen := v.seen + {id})
    case Some(Speech(voice, _)) =>
      v.(slots := v.slots + [Said(voice, None)],
         sealed := !e.AgentChunk? && !e.ThoughtChunk? && (v.sealed || e.TurnEnded?))
  }

  function TakeText(v: View, e: Event): View {
    if Regrows(v, e) then v.(slots := FreeLast(v.slots)) else OpenSlot(v, e)
  }

  predicate IsFree(x: Slot, voice: Voice) {
    x == Said(voice, None) || x == Said(voice, Some(""))
  }

  /** The mark on the newest free slot of the voice. */
  function StampSlot(slots: seq<Slot>, voice: Voice, id: string): seq<Slot> {
    if slots == [] then []
    else
      var n := |slots| - 1;
      if IsFree(slots[n], voice) then slots[..n] + [Said(voice, Some(id))]
      else StampSlot(slots[..n], voice, id) + [slots[n]]
  }

  function Marked(slots: seq<Slot>, voice: Voice, id: string): seq<Slot> {
    if Said(voice, Some(id)) in slots then slots else StampSlot(slots, voice, id)
  }

  /** A page is a log of its own, put in front; it leaves the run behind it sealed, unless nothing opened
      or sealed in it. */
  function StepView(v: View, e: Event): View
    decreases e
  {
    match e
    case TranscriptPrepend(page) =>
      var p := RunView(BLANK, page);
      View(p.slots + v.slots, p.seen + v.seen, p.slots != [] || p.sealed)
    case ClearTranscript => BLANK
    case EntryMark(role, id) => v.(slots := Marked(v.slots, MarkedVoice(role), id))
    case ChunkBoundary => v.(sealed := true)
    case _ => TakeText(v, e)
  }

  function RunView(v: View, events: seq<Event>): View
    decreases events
  {
    if events == [] then v else RunView(StepView(v, events[0]), events[1..])
  }

  function SlotsOf(log: seq<Event>): seq<Slot> {
    RunView(BLANK, log).slots
  }

  // ---------- The reducer's blocks have these slots ----------

  function SlotOf(b: Block): Slot {
    match b.body
    case Text(voice, _, mark) => Said(voice, mark)
    case Tool(_) => Slot.Card
  }

  function Slots(blocks: seq<Block>): seq<Slot> {
    seq(|blocks|, i requires 0 <= i < |blocks| => SlotOf(blocks[i]))
  }

  function ViewOf(s: State): View {
    View(Slots(s.blocks), s.tools.Keys, s.tailSealed || s.chunkSealed)
  }

  lemma {:induction false} SlotsAppend(a: seq<Block>, b: seq<Block>)
    ensures Slots(a + b) == Slots(a) + Slots(b)
  {
  }

  lemma {:induction false} LandedSlots(blocks: seq<Block>, voice: Voice, id: string)
    ensures Landed(blocks, voice, id) <==> Said(voice, Some(id)) in Slots(blocks)
  {
    if Landed(blocks, voice, id) {
      var i :| 0 <= i < |blocks| && IsVoice(blocks[i], voice) && blocks[i].body.entryId == Some(id);
      assert Slots(blocks)[i] == Said(voice, Some(id));
    }
    if Said(voice, Some(id)) in Slots(blocks) {
      var i :| 0 <= i < |blocks| && Slots(blocks)[i] == Said(voice, Some(id));
      assert IsVoice(blocks[i], voice) && blocks[i].body.entryId == Some(id);
    }
  }

  lemma {:induction false} StampSlots(blocks: seq<Block>, voice: Voice, id: string)
    ensures Slots(StampNewest(blocks, voice, id)) == StampSlot(Slots(blocks), voice, id)
  {
    if blocks != [] {
      var rest, b := blocks[..|blocks| - 1], blocks[|blocks| - 1];
      assert Slots(blocks)[..|blocks| - 1] == Slots(rest);
      StampSlots(rest, voice, id);
      SlotsAppend(StampNewest(rest, voice, id), [b]);
    }
  }

  lemma {:induction false} MarkView(s: State, role: string, id: string)
    ensures ViewOf(MarkEntry(s, role, id)) == StepView(ViewOf(s), EntryMark(role, id))
  {
    LandedSlots(s.blocks, MarkedVoice(role), id);
    StampSlots(s.blocks, MarkedVoice(role), id);
  }

  lemma {:induction false} PlaceView(s: State, u: ToolUpdate)
    ensures ViewOf(UpsertTool(s, u)) == StepView(ViewOf(s), ToolEvent(u))
  {
    var call := MergeCall(u, s.tools);
    if u.id in s.tools {
      var i := SwapCases(s.blocks, call);
    } else {
      SlotsAppend(s.blocks, [Block(s.nextBlockId, Tool(call))]);
    }
  }

  lemma {:induction false} ChunkView(s: State, e: Event, s': State)
    requires e.UserChunk? || e.AgentChunk? || e.ThoughtChunk?
    requires Moves(s, EffectOf(s, e), s') && SealsMove(s, e, s')
    ensures ViewOf(s') == TakeText(ViewOf(s), e)
  {
    var f := EffectOf(s, e);
    if f.Opens? { SlotsAppend(s.blocks, [Block(s.nextBlockId, f.body)]); }
  }

  /** Events that are no chunks open a block, or none. */
  lemma {:induction false} OpenView(s: State, e: Event, s': State)
    requires S.IsPlain(e) && !e.EntryMark? && !e.ToolEvent? && !e.ChunkBoundary?
    requires !e.UserChunk? && !e.AgentChunk? && !e.ThoughtChunk?
    requires Moves(s, EffectOf(s, e), s') && SealsMove(s, e, s')
    ensures ViewOf(s') == TakeText(ViewOf(s), e)
  {
    var f := EffectOf(s, e);
    if f.Opens? { SlotsAppend(s.blocks, [Block(s.nextBlockId, f.body)]); }
  }

  lemma {:induction false} StepSlots(s: State, e: Event)
    ensures ViewOf(Step(s, e)) == StepView(ViewOf(s), e)
    decreases e, 0
  {
    StepMoves(s, e);
    if e.TranscriptPrepend? {
      PageSlots(s, e.page);
    } else if e.EntryMark? {
      MarkView(s, e.role, e.entryId);
    } else if e.ToolEvent? {
      PlaceView(s, e.update);
    } else if !e.ClearTranscript? && !e.ChunkBoundary? {
      StepSeals(s, e);
      if e.UserChunk? || e.AgentChunk? || e.ThoughtChunk? {
        ChunkView(s, e, Step(s, e));
      } else {
        OpenView(s, e, Step(s, e));
      }
    }
  }

  lemma {:induction false} PageSlots(s: State, page: seq<Event>)
    ensures ViewOf(Step(s, TranscriptPrepend(page))) == StepView(ViewOf(s), TranscriptPrepend(page))
    decreases page, 1
  {
    var p := Run(Emptied(s), page);
    assert ViewOf(Emptied(s)) == BLANK by { assert Slots([]) == []; }
    RunSlots(Emptied(s), page);
    SlotsAppend(p.blocks, s.blocks);
    assert (p.tools + s.tools).Keys == p.tools.Keys + s.tools.Keys;
  }

  lemma {:induction false} RunSlots(s: State, events: seq<Event>)
    ensures ViewOf(Run(s, events)) == RunView(ViewOf(s), events)
    decreases events, 0
  {
    if events != [] {
      StepSlots(s, events[0]);
      RunSlots(Step(s, events[0]), events[1..]);
    }
  }

  lemma {:induction false} RunViewSnoc(v: View, log: seq<Event>, e: Event)
    ensures RunView(v, log + [e]) == StepView(RunView(v, log), e)
    decreases |log|
  {
    var all := log + [e];
    if log == [] {
      assert all[1..] == [];
    } else {
      assert all[0] == log[0] && all[1..] == log[1..] + [e];
      RunViewSnoc(StepView(v, log[0]), log[1..], e);
    }
  }

  /** On every run the slots are those of the log since the last clear. */
  lemma {:induction false} ReachableSlots(actions: seq<Action>)
    ensures ViewOf(PerformAll(INIT, actions)) == RunView(BLANK, SinceClear(actions))
  {
    if actions != [] {
      var before, last := actions[..|actions| - 1], actions[|actions| - 1];
      var s, log := PerformAll(INIT, before), SinceClear(before);
      ReachableSlots(before);
      if last.Apply? {
        StepSlots(s, last.event);
        RunViewSnoc(BLANK, log, last.event);
      }
    }
  }

  // ---------- When no mark is on two blocks ----------

  predicate NoTwins(slots: seq<Slot>) {
    forall i, j | 0 <= i < j < |slots| && slots[i].Said? && slots[i].mark.Some? :: slots[j] != slots[i]
  }

  /** No mark is on both sides. */
  predicate NoneShared(a: seq<Slot>, b: seq<Slot>) {
    forall x | x in a && x.Said? && x.mark.Some? :: x !in b
  }

  lemma {:induction false} DistinctSlots(blocks: seq<Block>)
    ensures MarksDistinct(blocks) <==> NoTwins(Slots(blocks))
  {
    var slots := Slots(blocks);
    if NoTwins(slots) {
      forall i, j | 0 <= i < j < |blocks| && blocks[i].body.Text? && blocks[i].body.entryId.Some?
        ensures IsVoice(blocks[j], blocks[i].body.voice) ==> blocks[j].body.entryId != blocks[i].body.entryId
      {
        assert slots[j] != slots[i];
      }
    }
    if MarksDistinct(blocks) {
      forall i, j | 0 <= i < j < |slots| && slots[i].Said? && slots[i].mark.Some?
        ensures slots[j] != slots[i]
      {
        assert blocks[i].body.Text? && blocks[i].body.entryId.Some?;
      }
    }
  }

  lemma {:induction false} TwinsApart(a: seq<Slot>, b: seq<Slot>)
    ensures NoTwins(a + b) <==> NoTwins(a) && NoTwins(b) && NoneShared(a, b)
  {
    var all := a + b;
    assert forall i | 0 <= i < |a| :: all[i] == a[i];
    assert forall i | 0 <= i < |b| :: all[|a| + i] == b[i];
    if NoTwins(all) {
      forall i, j | 0 <= i < j < |b| && b[i].Said? && b[i].mark.Some?
        ensures b[j] != b[i]
      {
        assert all[|a| + j] != all[|a| + i];
      }
      forall i, j | 0 <= i < |a| && 0 <= j < |b| && a[i].Said? && a[i].mark.Some?
        ensures b[j] != a[i]
      {
        assert all[|a| + j] != all[i];
      }
    }
  }

  /** What a page brings, by its events: no mark on two of its own blocks, and none that is held. */
  predicate BringsNew(held: seq<Slot>, page: seq<Event>) {
    NoTwins(SlotsOf(page)) && NoneShared(SlotsOf(page), held)
  }

  /** On every run, whether two blocks of one kind share a mark is read off the events since the last clear. */
  lemma {:induction false} MarksDistinctExactly(actions: seq<Action>)
    ensures MarksDistinct(PerformAll(INIT, actions).blocks) <==> NoTwins(SlotsOf(SinceClear(actions)))
  {
    ReachableSlots(actions);
    DistinctSlots(PerformAll(INIT, actions).blocks);
  }

  /** A page keeps the marks on different blocks if and only if it brings new ones. */
  lemma {:induction false} PageMarksDistinct(s: State, page: seq<Event>)
    requires MarksDistinct(s.blocks)
    ensures MarksDistinct(Step(s, TranscriptPrepend(page)).blocks) <==> BringsNew(Slots(s.blocks), page)
  {
    StepSlots(s, TranscriptPrepend(page));
    DistinctSlots(s.blocks);
    DistinctSlots(Step(s, TranscriptPrepend(page)).blocks);
    TwinsApart(SlotsOf(page), Slots(s.blocks));
  }

  /** A page without pages in it never twins a mark of its own, so it keeps the marks on different blocks
      if and only if none that its events leave on a block has landed. */
  lemma {:induction false} FlatPageMarksDistinct(s: State, page: seq<Event>)
    requires MarksDistinct(s.blocks) && Flat(page)
    ensures MarksDistinct(Step(s, TranscriptPrepend(page)).blocks) <==>
            forall voice, id | Said(voice, Some(id)) in SlotsOf(page) :: !Landed(s.blocks, voice, id)
  {
    PageMarksDistinct(s, page);
    FlatRunDistinct(INIT, page);
    RunSlots(INIT, page);
    assert Slots([]) == [] && ViewOf(INIT) == BLANK;
    DistinctSlots(Run(INIT, page).blocks);
    forall voice, id
      ensures Landed(s.blocks, voice, id) <==> Said(voice, Some(id)) in Slots(s.blocks)
    {
      LandedSlots(s.blocks, voice, id);
    }
  }

  /** Every page at the top level brings new marks. */
  predicate PagesBringNew(actions: seq<Action>) {
    actions != [] ==>
      var before, last := actions[..|actions| - 1], actions[|actions| - 1];
      && PagesBringNew(before)
      && (last.Apply? && last.event.TranscriptPrepend? ==> BringsNew(SlotsOf(SinceClear(before)), last.event.page))
  }

  /** At no moment of a run two blocks of one kind share a mark. */
  ghost predicate AlwaysDistinct(actions: seq<Action>) {
    && MarksDistinct(PerformAll(INIT, actions).blocks)
    && (actions != [] ==> AlwaysDistinct(actions[..|actions| - 1]))
  }

  lemma {:induction false} ActionDistinct(s: State, a: Action)
    requires MarksDistinct(s.blocks)
    ensures MarksDistinct(Perform(s, a).blocks) <==>
            (a.Apply? && a.event.TranscriptPrepend? ==> BringsNew(Slots(s.blocks), a.event.page))
  {
    if a.Apply? && a.event.TranscriptPrepend? {
      PageMarksDistinct(s, a.event.page);
    } else {
      PerformMoves(s, a);
      MoveDistinct(s, ActionEffect(s, a), Perform(s, a));
    }
  }

  /** On every run no two blocks of one kind ever share a mark, if and only if every page brings marks of
      its own that are on different blocks and of which none is held. */
  lemma {:induction false} ReachableMarksDistinct(actions: seq<Action>)
    ensures AlwaysDistinct(actions) <==> PagesBringNew(actions)
  {
    if actions != [] {
      var before, last := actions[..|actions| - 1], actions[|actions| - 1];
      ReachableMarksDistinct(before);
      ReachableSlots(before);
      if AlwaysDistinct(before) { ActionDistinct(PerformAll(INIT, before), last); }
    }
  }

  lemma {:induction false} OneMarked(s: State, text: string) returns (s': State)
    requires s.blocks == []
    ensures s' == Run(s, [UserMessage(text), EntryMark("user", "m")])
    ensures |s'.blocks| == 1 && s'.blocks[0].body == Text(User, text, Some("m"))
  {
    var events := [UserMessage(text), EntryMark("user", "m")];
    var t := Step(s, events[0]);
    s' := Step(t, events[1]);
    assert Run(s, events) == Run(t, events[1..]) == Run(s', events[1..][1..]);
    StampNewestAt(t.blocks, 0, User, "m");
  }

  /** The page brings a mark that is held: both blocks carry it. */
  lemma {:induction false} RepeatedMarkLandsTwice()
    ensures var held := [UserMessage("a"), EntryMark("user", "m")];
            var page := [UserMessage("b"), EntryMark("user", "m")];
            var s := Run(INIT, held + [TranscriptPrepend(page)]);
            && |s.blocks| == 2
            && s.blocks[0].body == Text(User, "b", Some("m"))
            && s.blocks[1].body == Text(User, "a", Some("m"))
            && !MarksDistinct(s.blocks)
  {
    var held := [UserMessage("a"), EntryMark("user", "m")];
    var page := [UserMessage("b"), EntryMark("user", "m")];
    RunAppend(INIT, held, [TranscriptPrepend(page)]);
    var s := OneMarked(INIT, "a");
    var p := OneMarked(Emptied(s), "b");
    var all := [TranscriptPrepend(page)];
    assert Run(s, all) == Run(Step(s, all[0]), []);
    assert IsVoice(p.blocks[0], User);
  }
}
