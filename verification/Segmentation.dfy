/** The block list as a function of the log: one block per maximal run of a voice, tool or notice. */
module Segmentation {
  import opened Wrappers
  import opened Sequences
  import opened Transcript
  import opened Effects
  import opened TextConservation

  /** Any event but a page and a clear, which reach further than the tail of the transcript. */
  predicate IsPlain(e: Event) {
    !e.TranscriptPrepend? && !e.ClearTranscript?
  }

  predicate Plain(log: seq<Event>) {
    forall i | 0 <= i < |log| :: IsPlain(log[i])
  }

  datatype Shape = Speech(voice: Voice, text: string) | Card(id: string)

  function ShapeOf(b: Block): Shape {
    match b.body
    case Text(voice, text, _) => Speech(voice, text)
    case Tool(call) => Card(call.id)
  }

  function Shapes(blocks: seq<Block>): seq<Shape> {
    seq(|blocks|, i requires 0 <= i < |blocks| => ShapeOf(blocks[i]))
  }

  // ---------- The segmentation of a log ----------

  /** Text of these voices arrives in chunks that run together. */
  predicate Runs(voice: Voice) {
    voice == User || voice == Agent || voice == Thought
  }

  /** What an event opens when no run goes on over it; `seen` are the tools already on screen. */
  function Opening(e: Event, seen: set<string>): Option<Shape> {
    match e
    case UserMessage(text) => Some(Speech(User, text))
    case QueueDelivered(text) => Some(Speech(User, text))
    case UserChunk(text) => if text == "" then None else Some(Speech(User, text))
    case AgentChunk(text) => if text == "" then None else Some(Speech(Agent, text))
    case ThoughtChunk(text) => if text == "" then None else Some(Speech(Thought, text))
    case ToolEvent(u) => if u.id in seen then None else Some(Card(u.id))
    case TurnEnded(parts) => if parts == [] then None else Some(Speech(TurnStats, StatsLine(parts)))
    case Error(text) => Some(Speech(Failure, text))
    case Status(text) => if text == "" then None else Some(Speech(Notice, text))
    case _ => None
  }

  /** A run of `voice` goes on over `e`: only what opens another block cuts a user run, a chunk boundary
      or the end of a turn cuts the others too. */
  predicate GoesOn(voice: Voice, e: Event, seen: set<string>) {
    match e
    case UserChunk(text) => voice == User || text == ""
    case AgentChunk(text) => voice == Agent || text == ""
    case ThoughtChunk(text) => voice == Thought || text == ""
    case ChunkBoundary => voice == User
    case TurnEnded(parts) => voice == User && parts == []
    case _ => Opening(e, seen) == None
  }

  /** How many events at the front of `log` a run of `voice` goes on over: as many as possible. */
  function RunLength(voice: Voice, log: seq<Event>, seen: set<string>): (n: nat)
    ensures n <= |log|
    ensures forall i | 0 <= i < n :: GoesOn(voice, log[i], seen)
    ensures n < |log| ==> !GoesOn(voice, log[n], seen)
  {
    if log == [] || !GoesOn(voice, log[0], seen) then 0 else 1 + RunLength(voice, log[1..], seen)
  }

  function Words(voice: Voice, log: seq<Event>): string {
    if log == [] then "" else Says(log[0], voice) + Words(voice, log[1..])
  }

  function Segments(log: seq<Event>, seen: set<string>): seq<Shape>
    decreases |log|
  {
    if log == [] then []
    else
      match Opening(log[0], seen)
      case None => Segments(log[1..], seen)
      case Some(Card(id)) => [Card(id)] + Segments(log[1..], seen + {id})
      case Some(Speech(voice, text)) =>
        var rest := log[1..];
        var n := if Runs(voice) then RunLength(voice, rest, seen) else 0;
        [Speech(voice, text + Words(voice, rest[..n]))] + Segments(rest[n..], seen)
  }

  // ---------- The reducer produces it ----------

  /** The voice whose run the transcript's last block still is. */
  function OpenVoice(s: State): Option<Voice> {
    if LastIs(s.blocks, User) then Some(User)
    else if Continues(s, Agent) then Some(Agent)
    else if Continues(s, Thought) then Some(Thought)
    else None
  }

  /** The last shape is text of the voice whose run is open. */
  predicate Ends(shapes: seq<Shape>, open: Option<Voice>) {
    open.Some? ==> |shapes| > 0 && shapes[|shapes| - 1].Speech? && shapes[|shapes| - 1].voice == open.value
  }

  /** What the transcript will show after `log`: an open run takes its share first. */
  function Expected(shapes: seq<Shape>, open: Option<Voice>, seen: set<string>, log: seq<Event>): seq<Shape>
    requires Ends(shapes, open)
  {
    if open.None? then shapes + Segments(log, seen)
    else
      var last := |shapes| - 1;
      var n := RunLength(open.value, log, seen);
      shapes[..last] + [Speech(open.value, shapes[last].text + Words(open.value, log[..n]))] + Segments(log[n..], seen)
  }

  lemma {:induction false} OpenEnds(s: State)
    ensures Ends(Shapes(s.blocks), OpenVoice(s))
  {
  }

  /** Effects other than an opening keep the shapes, and grow at most the last one. */
  lemma {:induction false} MoveShapes(s: State, f: Effect, s': State)
    requires Moves(s, f, s') && !f.Splices? && !f.Wipes? && !f.Opens? && !f.Grows?
    requires f.Places? ==> f.call.id in s.tools
    ensures Shapes(s'.blocks) == Shapes(s.blocks) && s'.tools.Keys == s.tools.Keys
  {
    match f
    case Places(call) =>
      var i := SwapCases(s.blocks, call);
    case Marks(voice, id) =>
      var i := StampCases(s.blocks, voice, id);
    case Quiet =>
  }

  /** The last block's voice is readable from the shapes. */
  lemma {:induction false} LastShape(blocks: seq<Block>, voice: Voice)
    ensures LastIs(blocks, voice) <==>
            |blocks| > 0 && Shapes(blocks)[|blocks| - 1].Speech? && Shapes(blocks)[|blocks| - 1].voice == voice
  {
    if blocks != [] { assert Shapes(blocks)[|blocks| - 1] == ShapeOf(blocks[|blocks| - 1]); }
  }

  /** What an event does over which the open run goes on: grow it by its words, or say nothing in it. */
  lemma {:induction false} GoesOnGrows(s: State, e: Event)
    requires OpenVoice(s).Some? && GoesOn(OpenVoice(s).value, e, s.tools.Keys) && IsPlain(e)
    ensures var f, voice := EffectOf(s, e), OpenVoice(s).value;
            && LastIs(s.blocks, voice)
            && if f.Grows? then f.text == Says(e, voice)
               else Says(e, voice) == "" && !f.Opens? && !f.Splices? && !f.Wipes?
                    && (f.Places? ==> f.call.id in s.tools)
  {
  }

  /** The run that is open goes on over the event, which adds its words to the last shape. */
  lemma {:induction false} RunGoesOn(s: State, e: Event, s': State)
    requires Moves(s, EffectOf(s, e), s')
    requires OpenVoice(s).Some? && GoesOn(OpenVoice(s).value, e, s.tools.Keys)
    requires IsPlain(e)
    ensures s'.tools.Keys == s.tools.Keys
    ensures var n := |s.blocks| - 1;
            var voice := OpenVoice(s).value;
            Shapes(s'.blocks) == Shapes(s.blocks)[n := Speech(voice, s.blocks[n].body.text + Says(e, voice))]
  {
    var n := |s.blocks| - 1;
    GoesOnGrows(s, e);
    if !EffectOf(s, e).Grows? {
      MoveShapes(s, EffectOf(s, e), s');
      assert s.blocks[n].body.text + "" == s.blocks[n].body.text;
      assert Shapes(s.blocks)[n] == ShapeOf(s.blocks[n]);
    }
  }

  lemma {:induction false} RunStaysOpen(s: State, e: Event, s': State)
    requires SealsMove(s, e, s')
    requires OpenVoice(s).Some? && GoesOn(OpenVoice(s).value, e, s.tools.Keys)
    requires IsPlain(e)
    requires LastIs(s'.blocks, OpenVoice(s).value)
    ensures OpenVoice(s') == OpenVoice(s)
  {
  }

  /** What an opening (or nothing) makes of the shapes, the tools seen and the open run. */
  ghost predicate Opened(begun: Option<Shape>, shapes: seq<Shape>, seen: set<string>,
                         shapes': seq<Shape>, seen': set<string>, open': Option<Voice>) {
    match begun
    case None => shapes' == shapes && seen' == seen && open' == None
    case Some(Card(id)) => shapes' == shapes + [begun.value] && seen' == seen + {id} && open' == None
    case Some(Speech(voice, _)) =>
      && shapes' == shapes + [begun.value] && seen' == seen
      && open' == if Runs(voice) then Some(voice) else None
  }

  lemma {:induction false} CutStaysShut(s: State, e: Event, s': State)
    requires SealsMove(s, e, s')
    requires OpenVoice(s).Some? ==> !GoesOn(OpenVoice(s).value, e, s.tools.Keys)
    requires Opening(e, s.tools.Keys).None?
    requires IsPlain(e)
    requires Shapes(s'.blocks) == Shapes(s.blocks)
    ensures OpenVoice(s') == None
  {
    assert |s'.blocks| == |Shapes(s'.blocks)| == |s.blocks|;
    forall voice
      ensures LastIs(s'.blocks, voice) <==> LastIs(s.blocks, voice)
    {
      LastShape(s.blocks, voice);
      LastShape(s'.blocks, voice);
    }
  }

  /** No run goes on over the event: it opens a block of its own, or at most seals. */
  lemma {:induction false} RunIsCut(s: State, e: Event, s': State)
    requires Moves(s, EffectOf(s, e), s') && SealsMove(s, e, s')
    requires OpenVoice(s).Some? ==> !GoesOn(OpenVoice(s).value, e, s.tools.Keys)
    requires IsPlain(e)
    ensures Opened(Opening(e, s.tools.Keys), Shapes(s.blocks), s.tools.Keys,
                   Shapes(s'.blocks), s'.tools.Keys, OpenVoice(s'))
  {
    if Opening(e, s.tools.Keys).None? {
      MoveShapes(s, EffectOf(s, e), s');
      CutStaysShut(s, e, s');
    }
  }

  /** An open run takes one event more. */
  lemma {:induction false} TakesOneMore(shapes: seq<Shape>, voice: Voice, seen: set<string>, e: Event, rest: seq<Event>)
    requires Ends(shapes, Some(voice)) && GoesOn(voice, e, seen)
    ensures var last := |shapes| - 1;
            Expected(shapes, Some(voice), seen, [e] + rest) ==
            Expected(shapes[last := Speech(voice, shapes[last].text + Says(e, voice))], Some(voice), seen, rest)
  {
    var log := [e] + rest;
    var last := |shapes| - 1;
    assert log[1..] == rest;
    var n := RunLength(voice, rest, seen);
    assert RunLength(voice, log, seen) == n + 1;
    assert log[..n + 1] == [e] + rest[..n] && log[n + 1..] == rest[n..];
    assert ([e] + rest[..n])[1..] == rest[..n];
    var before := shapes[last].text;
    assert before + (Says(e, voice) + Words(voice, rest[..n])) == before + Says(e, voice) + Words(voice, rest[..n]);
  }

  /** With no run going on over its first event, a log is segmented from its front. */
  lemma {:induction false} SegmentsFromFront(shapes: seq<Shape>, open: Option<Voice>, seen: set<string>,
                                             log: seq<Event>)
    requires Ends(shapes, open)
    requires open.Some? && log != [] ==> !GoesOn(open.value, log[0], seen)
    ensures Expected(shapes, open, seen, log) == shapes + Segments(log, seen)
  {
    if open.Some? {
      var last := |shapes| - 1;
      assert RunLength(open.value, log, seen) == 0;
      assert shapes[last].text + Words(open.value, log[..0]) == shapes[last].text;
      assert shapes == shapes[..last] + [shapes[last]];
      assert log[0..] == log;
    }
  }

  lemma {:induction false} OpeningSegments(shapes: seq<Shape>, seen: set<string>, e: Event, rest: seq<Event>,
                        shapes': seq<Shape>, seen': set<string>, open': Option<Voice>)
    requires Opened(Opening(e, seen), shapes, seen, shapes', seen', open')
    ensures Ends(shapes', open')
    ensures shapes + Segments([e] + rest, seen) == Expected(shapes', open', seen', rest)
  {
    var log := [e] + rest;
    assert log[0] == e && log[1..] == rest;
    var begun := Opening(e, seen);
    if begun.None? {
    } else if begun.value.Card? {
      Reassociate(shapes, [begun.value], Segments(rest, seen'));
    } else {
      var voice, text := begun.value.voice, begun.value.text;
      var n := if Runs(voice) then RunLength(voice, rest, seen) else 0;
      var speech := Speech(voice, text + Words(voice, rest[..n]));
      assert Segments(log, seen) == [speech] + Segments(rest[n..], seen);
      Reassociate(shapes, [speech], Segments(rest[n..], seen));
      if Runs(voice) {
      } else {
        assert rest[..0] == [] && rest[0..] == rest;
        assert text + "" == text;
      }
    }
  }

  ghost function ExpectedOf(s: State, log: seq<Event>): seq<Shape> {
    OpenEnds(s);
    Expected(Shapes(s.blocks), OpenVoice(s), s.tools.Keys, log)
  }

  lemma {:induction false} GoingOnShapes(s: State, e: Event, s': State)
    requires Moves(s, EffectOf(s, e), s') && SealsMove(s, e, s') && IsPlain(e)
    requires OpenVoice(s).Some? && GoesOn(OpenVoice(s).value, e, s.tools.Keys)
    ensures OpenVoice(s') == OpenVoice(s) && s'.tools.Keys == s.tools.Keys && Ends(Shapes(s.blocks), OpenVoice(s))
    ensures var shapes, voice := Shapes(s.blocks), OpenVoice(s).value;
            var last := |shapes| - 1;
            Shapes(s'.blocks) == shapes[last := Speech(voice, shapes[last].text + Says(e, voice))]
  {
    OpenEnds(s);
    RunGoesOn(s, e, s');
    LastShape(s'.blocks, OpenVoice(s).value);
    RunStaysOpen(s, e, s');
  }

  lemma {:induction false} GoingOnExpected(s: State, e: Event, s': State, rest: seq<Event>)
    requires Moves(s, EffectOf(s, e), s') && SealsMove(s, e, s') && IsPlain(e)
    requires OpenVoice(s).Some? && GoesOn(OpenVoice(s).value, e, s.tools.Keys)
    ensures ExpectedOf(s, [e] + rest) == ExpectedOf(s', rest)
  {
    GoingOnShapes(s, e, s');
    TakesOneMore(Shapes(s.blocks), OpenVoice(s).value, s.tools.Keys, e, rest);
  }

  /** What is expected does not change as the reducer takes an event. */
  lemma {:induction false} StepExpected(s: State, e: Event, s': State, rest: seq<Event>)
    requires Moves(s, EffectOf(s, e), s') && SealsMove(s, e, s')
    requires IsPlain(e)
    ensures ExpectedOf(s, [e] + rest) == ExpectedOf(s', rest)
  {
    OpenEnds(s);
    var shapes := Shapes(s.blocks);
    if OpenVoice(s).Some? && GoesOn(OpenVoice(s).value, e, s.tools.Keys) {
      GoingOnExpected(s, e, s', rest);
    } else {
      RunIsCut(s, e, s');
      SegmentsFromFront(shapes, OpenVoice(s), s.tools.Keys, [e] + rest);
      OpeningSegments(shapes, s.tools.Keys, e, rest, Shapes(s'.blocks), s'.tools.Keys, OpenVoice(s'));
    }
  }

  lemma {:induction false} RunExpected(s: State, log: seq<Event>)
    requires Plain(log)
    ensures Shapes(Run(s, log).blocks) == ExpectedOf(s, log)
    decreases |log|
  {
    if log == [] {
      SegmentsFromFront(Shapes(s.blocks), OpenVoice(s), s.tools.Keys, []);
    } else {
      var next := Step(s, log[0]);
      StepMoves(s, log[0]);
      StepSeals(s, log[0]);
      StepExpected(s, log[0], next, log[1..]);
      assert [log[0]] + log[1..] == log;
      RunExpected(next, log[1..]);
    }
  }

  // ---------- Whole runs ----------

  /** The parts of the state that decide what the transcript shows. */
  predicate SameTranscript(s: State, t: State) {
    && s.blocks == t.blocks && s.tools == t.tools && s.toolOrder == t.toolOrder
    && s.tailSealed == t.tailSealed && s.chunkSealed == t.chunkSealed && s.nextBlockId == t.nextBlockId
  }

  lemma {:induction false} PlaceSameBlocks(s: State, t: State, call: ToolCall)
    requires s.blocks == t.blocks && SameTools(s, t) && s.nextBlockId == t.nextBlockId
    ensures var s', t' := PlaceCall(s, call), PlaceCall(t, call);
            s'.blocks == t'.blocks && SameTools(s', t') && s'.nextBlockId == t'.nextBlockId
  {
    if call.id in s.tools {} else {}
  }

  lemma {:induction false} MoveSameBlocks(s: State, t: State, f: Effect, s': State, t': State)
    requires SameTranscript(s, t) && !f.Splices?
    requires Moves(s, f, s') && Moves(t, f, t')
    ensures s'.blocks == t'.blocks && SameTools(s', t') && s'.nextBlockId == t'.nextBlockId
  {
    if f.Places? { PlaceSameBlocks(s, t, f.call); }
  }

  lemma {:induction false} StepSameTranscript(s: State, t: State, e: Event, s': State, t': State)
    requires SameTranscript(s, t) && !e.TranscriptPrepend?
    requires s' == Step(s, e) && t' == Step(t, e)
    ensures SameTranscript(s', t')
  {
    StepMoves(s, e);
    StepSeals(s, e);
    StepMoves(t, e);
    StepSeals(t, e);
    MoveSameBlocks(s, t, EffectOf(s, e), s', t');
  }

  /** A run without pages shows what its events since the last clear show on an empty transcript. */
  lemma {:induction false} SinceClearDecides(actions: seq<Action>) returns (cleared: State)
    requires NoPages(actions)
    ensures cleared.blocks == [] && cleared.tools == map[] && Plain(SinceClear(actions))
    ensures SameTranscript(PerformAll(INIT, actions), Run(cleared, SinceClear(actions)))
  {
    if actions == [] { return INIT; }
    var n := |actions| - 1;
    var s := PerformAll(INIT, actions[..n]);
    var log := SinceClear(actions[..n]);
    cleared := SinceClearDecides(actions[..n]);
    match actions[n]
    case Reset => cleared := ResetView(s);
    case ToggleDock =>
    case TakeDelta =>
    case Apply(e) =>
      if e.ClearTranscript? {
        cleared := Step(s, e);
      } else {
        var t := Run(cleared, log);
        assert (log + [e])[..|log|] == log;
        RunLast(cleared, log + [e]);
        StepSameTranscript(s, t, e, PerformAll(INIT, actions), Run(cleared, log + [e]));
      }
  }

  lemma {:induction false} BlankExpected(s: State, log: seq<Event>)
    requires s.blocks == [] && s.tools == map[]
    ensures ExpectedOf(s, log) == Segments(log, {})
  {
    assert Shapes(s.blocks) == [];
    assert s.tools.Keys == {};
  }

  /** On every run without prepended pages, the block list is the segmentation of the log. */
  lemma {:induction false} BlocksAreSegments(actions: seq<Action>)
    requires NoPages(actions)
    ensures Shapes(PerformAll(INIT, actions).blocks) == Segments(SinceClear(actions), {})
  {
    var cleared := SinceClearDecides(actions);
    RunExpected(cleared, SinceClear(actions));
    BlankExpected(cleared, SinceClear(actions));
  }
}
