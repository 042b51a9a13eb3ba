/**
 What an event does to the transcript itself (blocks, tools, order and ids), put into seven kinds, so
 that an invariant of the transcript is checked once per kind instead of once per event. The seals,
 which no effect mentions, are described apart from it.
 */
module Effects {
  import opened Wrappers
  import opened Transcript

  datatype Effect =
    | Quiet
    | Opens(body: Body)
    | Grows(text: string)
    | Places(call: ToolCall)
    | Marks(voice: Voice, id: string)
    | Wipes
    | Splices(page: seq<Event>)

  function ChunkEffect(s: State, voice: Voice, text: string): Effect {
    if text == "" then Quiet
    else if Continues(s, voice) then Grows(text)
    else Opens(Text(voice, text, None))
  }

  function EffectOf(s: State, e: Event): Effect {
    match e
    case UserMessage(text) => Opens(Text(User, text, None))
    case QueueDelivered(text) => Opens(Text(User, text, None))
    case UserChunk(text) =>
      if LastIs(s.blocks, User) then Grows(text)
      else if text == "" then Quiet
      else Opens(Text(User, text, None))
    case AgentChunk(text) => ChunkEffect(s, Agent, text)
    case ThoughtChunk(text) => ChunkEffect(s, Thought, text)
    case TranscriptPrepend(page) => Splices(page)
    case ToolEvent(update) => Places(MergeCall(update, s.tools))
    case TurnEnded(parts) => if parts == [] then Quiet else Opens(Text(TurnStats, StatsLine(parts), None))
    case Error(text) => Opens(Text(Failure, text, None))
    case Status(text) => if text == "" then Quiet else Opens(Text(Notice, text, None))
    case ClearTranscript => Wipes
    case EntryMark(role, id) =>
      if Landed(s.blocks, MarkedVoice(role), id) then Quiet else Marks(MarkedVoice(role), id)
    case _ => Quiet
  }

  predicate SameTools(s: State, s': State) {
    s'.tools == s.tools && s'.toolOrder == s.toolOrder
  }

  /** `s'` differs from `s` in the way `f` says. */
  ghost predicate Moves(s: State, f: Effect, s': State) {
    match f
    case Quiet => s'.blocks == s.blocks && SameTools(s, s') && s'.nextBlockId == s.nextBlockId
    case Opens(body) =>
      && body.Text? && body.entryId == None
      && s'.blocks == s.blocks + [Block(s.nextBlockId, body)]
      && SameTools(s, s') && s'.nextBlockId == s.nextBlockId + 1
    case Grows(text) =>
      && |s.blocks| > 0 && s.blocks[|s.blocks| - 1].body.Text?
      && s'.blocks == GrowLast(s.blocks, text)
      && SameTools(s, s') && s'.nextBlockId == s.nextBlockId
    case Places(call) => s' == PlaceCall(s, call)
    case Marks(voice, id) =>
      && !Landed(s.blocks, voice, id)
      && s'.blocks == StampNewest(s.blocks, voice, id)
      && SameTools(s, s') && s'.nextBlockId == s.nextBlockId
    case Wipes =>
      s'.blocks == [] && s'.tools == map[] && s'.toolOrder == [] && s'.nextBlockId == s.nextBlockId
    case Splices(page) =>
      var rebuilt := Run(Emptied(s), page);
      && s'.blocks == rebuilt.blocks + s.blocks
      && s'.tools == rebuilt.tools + s.tools
      && s'.toolOrder == rebuilt.toolOrder + s.toolOrder
      && s'.nextBlockId == rebuilt.nextBlockId
  }

  lemma {:induction false} UserMoves(s: State, e: Event)
    requires e.UserMessage? || e.QueueDelivered? || e.UserChunk?
    ensures Moves(s, EffectOf(s, e), Step(s, e))
  {
  }

  lemma {:induction false} MarkOrTurnMoves(s: State, e: Event)
    requires e.EntryMark? || e.TurnEnded?
    ensures Moves(s, EffectOf(s, e), Step(s, e))
  {
  }

  /** Every event moves the transcript by its effect. */
  lemma {:induction false} StepMoves(s: State, e: Event)
    ensures Moves(s, EffectOf(s, e), Step(s, e))
  {
    if e.UserMessage? || e.QueueDelivered? || e.UserChunk? {
      UserMoves(s, e);
    } else if e.AgentChunk? || e.ThoughtChunk? {
    } else if e.EntryMark? || e.TurnEnded? {
      MarkOrTurnMoves(s, e);
    }
  }

  /** What an event does to the seals. */
  ghost predicate SealsMove(s: State, e: Event, s': State) {
    if (e.AgentChunk? || e.ThoughtChunk?) && EffectOf(s, e).Opens? then !s'.tailSealed && !s'.chunkSealed
    else if e.ClearTranscript? then !s'.tailSealed && !s'.chunkSealed
    else
      && s'.tailSealed == (s.tailSealed || e.TurnEnded?)
      && s'.chunkSealed == (s.chunkSealed || e.ChunkBoundary?)
  }

  lemma {:induction false} CaseSeals(s: State, e: Event)
    requires e.ToolEvent? || e.Plan? || e.TurnEnded? || e.EntryMark? || e.UserChunk?
    ensures SealsMove(s, e, Step(s, e))
  {
  }

  lemma {:induction false} StepSeals(s: State, e: Event)
    requires !e.TranscriptPrepend?
    ensures SealsMove(s, e, Step(s, e))
  {
    if e.AgentChunk? || e.ThoughtChunk? {
    } else if e.ToolEvent? || e.Plan? || e.TurnEnded? || e.EntryMark? || e.UserChunk? {
      CaseSeals(s, e);
    }
  }

  /** What one action does: an event's effect, a wipe for a reset, nothing for a click or a render. */
  function ActionEffect(s: State, a: Action): Effect {
    match a
    case Apply(e) => EffectOf(s, e)
    case Reset => Wipes
    case ToggleDock => Quiet
    case TakeDelta => Quiet
  }

  lemma {:induction false} PerformMoves(s: State, a: Action)
    ensures Moves(s, ActionEffect(s, a), Perform(s, a))
  {
    if a.Apply? { StepMoves(s, a.event); }
  }

  /** A non-empty run is a shorter run and one more move. */
  lemma {:induction false} RunMoves(s: State, events: seq<Event>) returns (t: State)
    requires events != []
    ensures t == Run(s, events[..|events| - 1])
    ensures Moves(t, EffectOf(t, events[|events| - 1]), Run(s, events))
  {
    var n := |events| - 1;
    t := Run(s, events[..n]);
    RunLast(s, events);
    StepMoves(t, events[n]);
  }

  /** `SwapNewest` touches one block of the call's tool, or none when there is none. */
  lemma {:induction false} SwapCases(blocks: seq<Block>, call: ToolCall) returns (i: int)
    ensures -1 <= i < |blocks|
    ensures i == -1 ==>
              && SwapNewest(blocks, call) == blocks
              && forall k | 0 <= k < |blocks| :: !HoldsTool(blocks[k], call.id)
    ensures i >= 0 ==>
              && HoldsTool(blocks[i], call.id)
              && SwapNewest(blocks, call) == blocks[i := blocks[i].(body := Tool(call))]
              && forall k | i < k < |blocks| :: !HoldsTool(blocks[k], call.id)
  {
    i := |blocks| - 1;
    while i >= 0 && !HoldsTool(blocks[i], call.id)
      invariant -1 <= i < |blocks|
      invariant forall k | i < k < |blocks| :: !HoldsTool(blocks[k], call.id)
    {
      i := i - 1;
    }
    if i >= 0 { SwapNewestAt(blocks, i, call); } else { SwapNewestMiss(blocks, call); }
  }

  /** `StampNewest` touches the newest unmarked block of the voice, or none when there is none. */
  lemma {:induction false} StampCases(blocks: seq<Block>, voice: Voice, id: string) returns (i: int)
    ensures -1 <= i < |blocks|
    ensures i == -1 ==>
              && StampNewest(blocks, voice, id) == blocks
              && forall k | 0 <= k < |blocks| :: !Unmarked(blocks[k], voice)
    ensures i >= 0 ==>
              && Unmarked(blocks[i], voice)
              && StampNewest(blocks, voice, id) == blocks[i := Stamp(blocks[i], id)]
              && forall k | i < k < |blocks| :: !Unmarked(blocks[k], voice)
  {
    i := |blocks| - 1;
    while i >= 0 && !Unmarked(blocks[i], voice)
      invariant -1 <= i < |blocks|
      invariant forall k | i < k < |blocks| :: !Unmarked(blocks[k], voice)
    {
      i := i - 1;
    }
    if i >= 0 { StampNewestAt(blocks, i, voice, id); } else { StampNewestMiss(blocks, voice, id); }
  }
}
