/**
 The transcript reducer on values: what one event does to the store's state, and what a list of
 events does. `Store` (in Store.dfy) is the same reducer with mutable fields, proved against `Step`.
 A page inside an event is reduced on an emptied state and put in front of the blocks held.
 */
module Transcript {
  import opened Wrappers

  // ---------- Data ----------

  datatype ToolContent = ToolContent(typ: string, text: Nullish<string>, path: Nullish<string>,
                                     oldText: Nullish<string>, newText: Nullish<string>,
                                     patch: Nullish<string>)

  /** A tool call as the store holds it. `rawInput` stands for its serialised record. */
  datatype ToolCall = ToolCall(id: string, title: Nullish<string>, kind: Nullish<string>,
                               status: Nullish<string>, content: seq<ToolContent>,
                               output: seq<ToolContent>, rawInput: Nullish<string>,
                               oldText: Nullish<string>)

  /** A `toolCall` event: any field but the id may be absent. */
  datatype ToolUpdate = ToolUpdate(id: string, title: Nullish<string>, kind: Nullish<string>,
                                   status: Nullish<string>, content: Nullish<seq<ToolContent>>,
                                   output: Nullish<seq<ToolContent>>, rawInput: Nullish<string>,
                                   oldText: Nullish<string>)

  datatype PlanEntry = PlanEntry(content: string, priority: Nullish<string>, status: Nullish<string>)

  datatype Voice = User | Agent | Thought | TurnStats | Failure | Notice

  /** What a block shows. Only user and agent text ever carries an entry id. */
  datatype Body =
    | Text(voice: Voice, text: string, entryId: Option<string>)
    | Tool(call: ToolCall)

  datatype Block = Block(id: nat, body: Body)

  /** Parsed events. `Other` stands for every event that touches none of the modelled fields;
      `TurnEnded` carries the parts of its statistics line. */
  datatype Event =
    | UserMessage(text: string)
    | QueueMessage(text: string)
    | QueueRemoved(text: string)
    | QueueDelivered(text: string)
    | UserChunk(text: string)
    | AgentChunk(text: string)
    | ThoughtChunk(text: string)
    | ChunkBoundary
    | TranscriptPrepend(page: seq<Event>)
    | ToolEvent(update: ToolUpdate)
    | Plan(entries: Nullish<seq<PlanEntry>>)
    | TurnEnded(parts: seq<string>)
    | Working(value: bool)
    | Error(text: string)
    | Status(text: string)
    | ClearTranscript
    | EntryMark(role: string, entryId: string)
    | Other

  datatype State = State(
    blocks: seq<Block>,
    tools: map<string, ToolCall>,
    toolOrder: seq<string>,
    tailSealed: bool,
    chunkSealed: bool,
    plan: Option<seq<PlanEntry>>,
    planCleared: bool,
    planSettledFold: bool,
    working: bool,
    pendingQueue: seq<string>,
    prependDelta: nat,
    nextBlockId: nat)

  const INIT := State([], map[], [], false, false, None, false, false, false, [], 0, 1)

  // ---------- Blocks ----------

  predicate LastIs(blocks: seq<Block>, voice: Voice) {
    |blocks| > 0 && blocks[|blocks| - 1].body.Text? && blocks[|blocks| - 1].body.voice == voice
  }

  function Push(s: State, body: Body): State {
    s.(blocks := s.blocks + [Block(s.nextBlockId, body)], nextBlockId := s.nextBlockId + 1)
  }

  /** The last block, which is text, grown by `text`. Growing drops its entry id. */
  function GrowLast(blocks: seq<Block>, text: string): seq<Block>
    requires |blocks| > 0 && blocks[|blocks| - 1].body.Text?
  {
    var last := blocks[|blocks| - 1];
    blocks[|blocks| - 1 := last.(body := Text(last.body.voice, last.body.text + text, None))]
  }

  /** The merge guard of agent and thought chunks. */
  predicate Continues(s: State, voice: Voice) {
    LastIs(s.blocks, voice) && !s.tailSealed && !s.chunkSealed
  }

  function AppendChunk(s: State, voice: Voice, text: string): State {
    if text == "" then s
    else if Continues(s, voice) then s.(blocks := GrowLast(s.blocks, text))
    else Push(s.(tailSealed := false, chunkSealed := false), Text(voice, text, None))
  }

  /** The transcript ready for the next chunk of `voice`: its last block is the one that grows. */
  function OpenTail(s: State, voice: Voice): State {
    if Continues(s, voice) then s.(blocks := GrowLast(s.blocks, ""))
    else Push(s.(tailSealed := false, chunkSealed := false), Text(voice, "", None))
  }

  lemma {:induction false} GrowOpenTail(s: State, voice: Voice, text: string)
    requires text != ""
    ensures LastIs(OpenTail(s, voice).blocks, voice)
    ensures AppendChunk(s, voice, text) ==
            OpenTail(s, voice).(blocks := GrowLast(OpenTail(s, voice).blocks, text))
  {
    if Continues(s, voice) {
      assert s.blocks[|s.blocks| - 1].body.text + "" == s.blocks[|s.blocks| - 1].body.text;
    } else {
      assert "" + text == text;
    }
  }

  function AppendUserChunk(s: State, text: string): State {
    if LastIs(s.blocks, User) then s.(blocks := GrowLast(s.blocks, text))
    else if text == "" then s
    else Push(s, Text(User, text, None))
  }

  // ---------- Outbox ----------

  function RemoveFirst(queue: seq<string>, text: string): seq<string> {
    if queue == [] then []
    else if queue[0] == text then queue[1..]
    else [queue[0]] + RemoveFirst(queue[1..], text)
  }

  lemma {:induction false} RemoveFirstAt(queue: seq<string>, i: nat, text: string)
    requires i <= |queue| && text !in queue[..i]
    ensures i == |queue| ==> RemoveFirst(queue, text) == queue
    ensures i < |queue| && queue[i] == text ==> RemoveFirst(queue, text) == queue[..i] + queue[i + 1..]
  {
    if 0 < i {
      assert queue[0] == queue[..i][0];
      assert forall t :: t in queue[1..][..i - 1] ==> t in queue[..i];
      RemoveFirstAt(queue[1..], i - 1, text);
    }
  }

  // ---------- Tools ----------

  /** `(update ?? []).length > 0 ? update : previous`. */
  function NonEmptyOr(update: Nullish<seq<ToolContent>>, previous: seq<ToolContent>): seq<ToolContent> {
    if update.Value? && update.value != [] then update.value else previous
  }

  function MergeCall(u: ToolUpdate, tools: map<string, ToolCall>): (call: ToolCall)
    ensures call.id == u.id
  {
    if u.id in tools then
      var prev := tools[u.id];
      ToolCall(u.id, u.title.Or(prev.title), u.kind.Or(prev.kind), u.status.Or(prev.status),
               NonEmptyOr(u.content, prev.content), NonEmptyOr(u.output, prev.output),
               u.rawInput.Or(prev.rawInput.Or(Null)), u.oldText.Or(prev.oldText.Or(Null)))
    else
      ToolCall(u.id, u.title.Or(Undefined), u.kind.Or(Undefined), u.status.Or(Undefined),
               NonEmptyOr(u.content, []), NonEmptyOr(u.output, []),
               u.rawInput.Or(Null), u.oldText.Or(Null))
  }

  predicate HoldsTool(b: Block, id: string) {
    b.body.Tool? && b.body.call.id == id
  }

  /** The newest block of the call's tool shows `call`; every other block is unchanged. */
  function SwapNewest(blocks: seq<Block>, call: ToolCall): (r: seq<Block>)
    ensures |r| == |blocks|
  {
    if blocks == [] then []
    else
      var n := |blocks| - 1;
      if HoldsTool(blocks[n], call.id) then blocks[n := blocks[n].(body := Tool(call))]
      else SwapNewest(blocks[..n], call) + [blocks[n]]
  }

  lemma {:induction false} SwapNewestAt(blocks: seq<Block>, i: nat, call: ToolCall)
    requires i < |blocks|
    requires HoldsTool(blocks[i], call.id)
    requires forall k | i < k < |blocks| :: !HoldsTool(blocks[k], call.id)
    ensures SwapNewest(blocks, call) == blocks[i := blocks[i].(body := Tool(call))]
  {
    var n := |blocks| - 1;
    if i < n { SwapNewestAt(blocks[..n], i, call); }
  }

  lemma {:induction false} SwapNewestMiss(blocks: seq<Block>, call: ToolCall)
    requires forall k | 0 <= k < |blocks| :: !HoldsTool(blocks[k], call.id)
    ensures SwapNewest(blocks, call) == blocks
  {
    if blocks != [] { SwapNewestMiss(blocks[..|blocks| - 1], call); }
  }

  /** The call replaces the one its tool's newest block shows, or opens a block for a new tool. */
  function PlaceCall(s: State, call: ToolCall): State {
    if call.id in s.tools then
      s.(blocks := SwapNewest(s.blocks, call), tools := s.tools[call.id := call])
    else
      s.(blocks := s.blocks + [Block(s.nextBlockId, Tool(call))], nextBlockId := s.nextBlockId + 1,
         toolOrder := s.toolOrder + [call.id], tools := s.tools[call.id := call])
  }

  function UpsertTool(s: State, u: ToolUpdate): State {
    PlaceCall(s, MergeCall(u, s.tools))
  }

  // ---------- Plan ----------

  predicate AllCompleted(entries: seq<PlanEntry>) {
    forall i | 0 <= i < |entries| :: entries[i].status == Value("completed")
  }

  /** Field-by-field comparison of two snapshots, `null` and `undefined` kept apart. */
  predicate PlanEntriesEqual(a: seq<PlanEntry>, b: seq<PlanEntry>)
    ensures PlanEntriesEqual(a, b) <==> a == b
  {
    && |a| == |b|
    && forall i | 0 <= i < |a| ::
         a[i].content == b[i].content && a[i].priority == b[i].priority && a[i].status == b[i].status
  }

  /** A retired plan goes when the next user block opens. */
  function RetirePlan(s: State): State {
    if s.planCleared then s.(plan := None, planCleared := false, planSettledFold := false) else s
  }

  function ShowPlan(s: State, snapshot: Nullish<seq<PlanEntry>>): State {
    if snapshot.Value? && snapshot.value != [] then
      var entries := snapshot.value;
      if s.planCleared && s.plan.Some? && PlanEntriesEqual(s.plan.value, entries) then s
      else
        var settled := !s.working && AllCompleted(entries);
        s.(plan := Some(entries), planCleared := settled, planSettledFold := settled)
    else s.(planCleared := s.plan.Some?)
  }

  predicate FinishedPlan(s: State) {
    s.plan.Some? && s.plan.value != [] && AllCompleted(s.plan.value)
  }

  /** `parts.join(" · ")`. */
  function StatsLine(parts: seq<string>): string {
    if parts == [] then ""
    else if |parts| == 1 then parts[0]
    else parts[0] + " \U{B7} " + StatsLine(parts[1..])
  }

  /** The parts stand in order, a middle dot between any two. */
  lemma {:induction false} StatsJoin(first: seq<string>, second: seq<string>)
    requires first != [] && second != []
    ensures StatsLine(first + second) == StatsLine(first) + " \U{B7} " + StatsLine(second)
    ensures |first| == 1 ==> StatsLine(first) == first[0]
  {
    if |first| == 1 {
      assert (first + second)[0] == first[0] && (first + second)[1..] == second;
    } else {
      assert (first + second)[0] == first[0] && (first + second)[1..] == first[1..] + second;
      StatsJoin(first[1..], second);
    }
  }

  function EndTurn(s: State, parts: seq<string>): State {
    var stamped := if parts != [] then Push(s, Text(TurnStats, StatsLine(parts), None)) else s;
    var closed := stamped.(tailSealed := true);
    if FinishedPlan(closed) then closed.(planCleared := true, planSettledFold := true) else closed
  }

  // ---------- Entry marks ----------

  function MarkedVoice(role: string): Voice {
    if role == "user" then User else Agent
  }

  predicate IsVoice(b: Block, voice: Voice) {
    b.body.Text? && b.body.voice == voice
  }

  /** The mark has already landed on a block of this voice. */
  predicate Landed(blocks: seq<Block>, voice: Voice, id: string) {
    exists i | 0 <= i < |blocks| :: IsVoice(blocks[i], voice) && blocks[i].body.entryId == Some(id)
  }

  /** A block of the voice with no entry id, or an empty one. */
  predicate Unmarked(b: Block, voice: Voice) {
    IsVoice(b, voice) && (b.body.entryId == None || b.body.entryId == Some(""))
  }

  function Stamp(b: Block, id: string): Block
    requires b.body.Text?
  {
    b.(body := Text(b.body.voice, b.body.text, Some(id)))
  }

  function StampNewest(blocks: seq<Block>, voice: Voice, id: string): (r: seq<Block>)
    ensures |r| == |blocks|
  {
    if blocks == [] then []
    else
      var n := |blocks| - 1;
      if Unmarked(blocks[n], voice) then blocks[n := Stamp(blocks[n], id)]
      else StampNewest(blocks[..n], voice, id) + [blocks[n]]
  }

  lemma {:induction false} StampNewestAt(blocks: seq<Block>, i: nat, voice: Voice, id: string)
    requires i < |blocks|
    requires Unmarked(blocks[i], voice)
    requires forall k | i < k < |blocks| :: !Unmarked(blocks[k], voice)
    ensures StampNewest(blocks, voice, id) == blocks[i := Stamp(blocks[i], id)]
  {
    var n := |blocks| - 1;
    if i < n { StampNewestAt(blocks[..n], i, voice, id); }
  }

  lemma {:induction false} StampNewestMiss(blocks: seq<Block>, voice: Voice, id: string)
    requires forall k | 0 <= k < |blocks| :: !Unmarked(blocks[k], voice)
    ensures StampNewest(blocks, voice, id) == blocks
  {
    if blocks != [] { StampNewestMiss(blocks[..|blocks| - 1], voice, id); }
  }

  function MarkEntry(s: State, role: string, id: string): State {
    var voice := MarkedVoice(role);
    if Landed(s.blocks, voice, id) then s else s.(blocks := StampNewest(s.blocks, voice, id))
  }

  // ---------- Clearing and paging ----------

  /** `clearTranscript`: the plan flags and the id counter survive it. */
  function Clear(s: State): State {
    s.(blocks := [], tools := map[], toolOrder := [], tailSealed := false, chunkSealed := false,
       working := false, pendingQueue := [], plan := None)
  }

  /** `reset`: as `Clear`, but `working` stays. */
  function ResetView(s: State): State {
    s.(blocks := [], tools := map[], toolOrder := [], tailSealed := false, chunkSealed := false,
       pendingQueue := [], plan := None)
  }

  function TogglePlanDock(s: State): State {
    s.(planSettledFold := false)
  }

  /** The view has taken the count of blocks put in front. */
  function TakeDeltaOf(s: State): State {
    s.(prependDelta := 0)
  }

  /** The blank transcript a page of older events is rebuilt into. */
  function Emptied(s: State): State {
    s.(blocks := [], tools := map[], toolOrder := [], tailSealed := false, chunkSealed := false)
  }

  /** The rebuilt page goes in front of what was held. */
  function Splice(held: State, page: State): State {
    page.(blocks := page.blocks + held.blocks,
          tools := page.tools + held.tools,
          toolOrder := page.toolOrder + held.toolOrder,
          tailSealed := page.blocks != [] || page.tailSealed,
          prependDelta := |page.blocks|)
  }

  // ---------- The reducer ----------

  function Step(s: State, e: Event): State
    decreases e
  {
    match e
    case UserMessage(text) => Push(RetirePlan(s), Text(User, text, None))
    case QueueMessage(text) => s.(pendingQueue := s.pendingQueue + [text])
    case QueueRemoved(text) => s.(pendingQueue := RemoveFirst(s.pendingQueue, text))
    case QueueDelivered(text) =>
      Push(RetirePlan(s.(pendingQueue := RemoveFirst(s.pendingQueue, text))), Text(User, text, None))
    case UserChunk(text) => AppendUserChunk(s, text)
    case AgentChunk(text) => AppendChunk(s, Agent, text)
    case ThoughtChunk(text) => AppendChunk(s, Thought, text)
    case ChunkBoundary => s.(chunkSealed := true)
    case TranscriptPrepend(page) => Splice(s, Run(Emptied(s), page))
    case ToolEvent(update) => UpsertTool(s, update)
    case Plan(entries) => ShowPlan(s, entries)
    case TurnEnded(parts) => EndTurn(s, parts)
    case Working(value) => s.(working := value)
    case Error(text) => Push(s.(working := false), Text(Failure, text, None))
    case Status(text) => if text == "" then s else Push(s, Text(Notice, text, None))
    case ClearTranscript => Clear(s)
    case EntryMark(role, id) => MarkEntry(s, role, id)
    case Other => s
  }

  function Run(s: State, events: seq<Event>): State
    decreases events
  {
    if events == [] then s else Run(Step(s, events[0]), events[1..])
  }

  lemma {:induction false} RunAppend(s: State, first: seq<Event>, second: seq<Event>)
    ensures Run(s, first + second) == Run(Run(s, first), second)
    decreases |first|
  {
    if first == [] {
      assert first + second == second;
    } else {
      assert (first + second)[0] == first[0] && (first + second)[1..] == first[1..] + second;
      RunAppend(Step(s, first[0]), first[1..], second);
    }
  }

  /** The last event of a list is applied last. */
  lemma {:induction false} RunLast(s: State, events: seq<Event>)
    requires events != []
    ensures Run(s, events) == Step(Run(s, events[..|events| - 1]), events[|events| - 1])
  {
    var n := |events| - 1;
    assert events == events[..n] + [events[n]];
    RunAppend(s, events[..n], [events[n]]);
    var t := Run(s, events[..n]);
    assert Run(t, [events[n]]) == Run(Step(t, [events[n]][0]), []);
  }

  // ---------- Whole runs of the store ----------

  /** Everything that changes the store: an event, the crash reset, a click on the plan dock, and a
      render that takes the count of blocks put in front. */
  datatype Action = Apply(event: Event) | Reset | ToggleDock | TakeDelta

  function Perform(s: State, a: Action): State {
    match a
    case Apply(e) => Step(s, e)
    case Reset => ResetView(s)
    case ToggleDock => TogglePlanDock(s)
    case TakeDelta => TakeDeltaOf(s)
  }

  function PerformAll(s: State, actions: seq<Action>): State {
    if actions == [] then s
    else Perform(PerformAll(s, actions[..|actions| - 1]), actions[|actions| - 1])
  }

  /** The events since the last clear or reset. */
  function SinceClear(actions: seq<Action>): seq<Event> {
    if actions == [] then []
    else
      var n := |actions| - 1;
      match actions[n]
      case Apply(ClearTranscript) => []
      case Apply(e) => SinceClear(actions[..n]) + [e]
      case Reset => []
      case ToggleDock => SinceClear(actions[..n])
      case TakeDelta => SinceClear(actions[..n])
  }

  predicate NoPages(actions: seq<Action>) {
    forall i | 0 <= i < |actions| && actions[i].Apply? :: !actions[i].event.TranscriptPrepend?
  }
}
