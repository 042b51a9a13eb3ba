/** No text is lost, duplicated or reordered between the events and the blocks. */
module TextConservation {
  import opened Transcript
  import opened Effects

  /** All text of one voice on the transcript, top to bottom. */
  function Spoken(blocks: seq<Block>, voice: Voice): string {
    if blocks == [] then ""
    else
      var n := |blocks| - 1;
      Spoken(blocks[..n], voice) + (if IsVoice(blocks[n], voice) then blocks[n].body.text else "")
  }

  /** The text an event says in a voice. */
  function Says(e: Event, voice: Voice): string {
    match e
    case UserMessage(text) => if voice == User then text else ""
    case QueueDelivered(text) => if voice == User then text else ""
    case UserChunk(text) => if voice == User then text else ""
    case AgentChunk(text) => if voice == Agent then text else ""
    case ThoughtChunk(text) => if voice == Thought then text else ""
    case TurnEnded(parts) => if voice == TurnStats then StatsLine(parts) else ""
    case Error(text) => if voice == Failure then text else ""
    case Status(text) => if voice == Notice then text else ""
    case _ => ""
  }

  /** Everything said in a voice by a log: in arrival order, a page's text in front of what came
      before it, nothing from before a clear. */
  function Uttered(log: seq<Event>, voice: Voice): string
    decreases log
  {
    if log == [] then ""
    else
      var n := |log| - 1;
      match log[n]
      case ClearTranscript => ""
      case TranscriptPrepend(page) => Uttered(page, voice) + Uttered(log[..n], voice)
      case e => Uttered(log[..n], voice) + Says(e, voice)
  }

  lemma {:induction false} SpokenAppend(a: seq<Block>, b: seq<Block>, voice: Voice)
    ensures Spoken(a + b, voice) == Spoken(a, voice) + Spoken(b, voice)
  {
    if b == [] {
      assert a + b == a;
    } else {
      var n := |b| - 1;
      assert (a + b)[..|a + b| - 1] == a + b[..n];
      SpokenAppend(a, b[..n], voice);
    }
  }

  /** Replacing a block by one that says the same leaves the voice's text alone. */
  lemma {:induction false} SpokenUpdate(blocks: seq<Block>, i: nat, b: Block, voice: Voice)
    requires i < |blocks|
    requires IsVoice(b, voice) == IsVoice(blocks[i], voice)
    requires IsVoice(b, voice) ==> b.body.text == blocks[i].body.text
    ensures Spoken(blocks[i := b], voice) == Spoken(blocks, voice)
  {
    var n := |blocks| - 1;
    if i == n {
      assert blocks[i := b][..n] == blocks[..n];
    } else {
      assert blocks[i := b][..n] == blocks[..n][i := b];
      SpokenUpdate(blocks[..n], i, b, voice);
    }
  }

  lemma {:induction false} SpokenGrow(blocks: seq<Block>, text: string, voice: Voice)
    requires |blocks| > 0 && blocks[|blocks| - 1].body.Text?
    ensures Spoken(GrowLast(blocks, text), voice) ==
            Spoken(blocks, voice) + if LastIs(blocks, voice) then text else ""
  {
    var n := |blocks| - 1;
    assert GrowLast(blocks, text)[..n] == blocks[..n];
  }

  /** What an effect adds to a voice. */
  function Adds(s: State, f: Effect, voice: Voice): string {
    match f
    case Opens(body) => if body.Text? && body.voice == voice then body.text else ""
    case Grows(text) => if LastIs(s.blocks, voice) then text else ""
    case _ => ""
  }

  lemma {:induction false} PlaceSpoken(s: State, call: ToolCall, voice: Voice)
    ensures Spoken(PlaceCall(s, call).blocks, voice) == Spoken(s.blocks, voice)
  {
    if call.id in s.tools {
      var i := SwapCases(s.blocks, call);
      if i >= 0 { SpokenUpdate(s.blocks, i, s.blocks[i].(body := Tool(call)), voice); }
    } else {
      SpokenAppend(s.blocks, [Block(s.nextBlockId, Tool(call))], voice);
    }
  }

  lemma {:induction false} MarkSpoken(blocks: seq<Block>, v: Voice, id: string, voice: Voice)
    ensures Spoken(StampNewest(blocks, v, id), voice) == Spoken(blocks, voice)
  {
    var i := StampCases(blocks, v, id);
    if i >= 0 { SpokenUpdate(blocks, i, Stamp(blocks[i], id), voice); }
  }

  lemma {:induction false} MoveSpoken(s: State, f: Effect, s': State, voice: Voice)
    requires Moves(s, f, s') && !f.Splices?
    ensures Spoken(s'.blocks, voice) ==
            if f.Wipes? then "" else Spoken(s.blocks, voice) + Adds(s, f, voice)
  {
    match f
    case Opens(body) => SpokenAppend(s.blocks, [Block(s.nextBlockId, body)], voice);
    case Grows(text) => SpokenGrow(s.blocks, text, voice);
    case Places(call) => PlaceSpoken(s, call, voice);
    case Marks(v, id) => MarkSpoken(s.blocks, v, id, voice);
    case _ =>
  }

  lemma {:induction false} EffectSays(s: State, e: Event, voice: Voice)
    requires !e.TranscriptPrepend? && !e.ClearTranscript?
    ensures !EffectOf(s, e).Splices? && !EffectOf(s, e).Wipes?
    ensures Adds(s, EffectOf(s, e), voice) == Says(e, voice)
  {
  }

  lemma {:induction false} UtteredSnoc(log: seq<Event>, e: Event, voice: Voice)
    ensures Uttered(log + [e], voice) ==
            if e.ClearTranscript? then ""
            else if e.TranscriptPrepend? then Uttered(e.page, voice) + Uttered(log, voice)
            else Uttered(log, voice) + Says(e, voice)
  {
    assert (log + [e])[..|log|] == log;
  }

  lemma {:induction false} ClearSpoken(s: State, log: seq<Event>, e: Event, s': State, voice: Voice)
    requires e.ClearTranscript? && Moves(s, EffectOf(s, e), s')
    ensures Spoken(s'.blocks, voice) == Uttered(log + [e], voice)
  {
    UtteredSnoc(log, e, voice);
  }

  lemma {:induction false} SaysSpoken(s: State, log: seq<Event>, e: Event, s': State, voice: Voice)
    requires !e.TranscriptPrepend? && !e.ClearTranscript?
    requires Spoken(s.blocks, voice) == Uttered(log, voice)
    requires Moves(s, EffectOf(s, e), s')
    ensures Spoken(s'.blocks, voice) == Uttered(log + [e], voice)
  {
    UtteredSnoc(log, e, voice);
    EffectSays(s, e, voice);
    MoveSpoken(s, EffectOf(s, e), s', voice);
  }

  lemma {:induction false} PageSpoken(front: seq<Block>, held: seq<Block>, log: seq<Event>, page: seq<Event>,
                                      voice: Voice)
    requires Spoken(held, voice) == Uttered(log, voice) && Spoken(front, voice) == Uttered(page, voice)
    ensures Spoken(front + held, voice) == Uttered(log + [TranscriptPrepend(page)], voice)
  {
    UtteredSnoc(log, TranscriptPrepend(page), voice);
    SpokenAppend(front, held, voice);
  }

  /** One event, added to a transcript that says what its log utters. */
  lemma {:induction false} EventSpoken(s: State, log: seq<Event>, e: Event, s': State, voice: Voice)
    requires Spoken(s.blocks, voice) == Uttered(log, voice)
    requires Moves(s, EffectOf(s, e), s')
    ensures Spoken(s'.blocks, voice) == Uttered(log + [e], voice)
    decreases e
  {
    if e.TranscriptPrepend? {
      RunSpoken(Emptied(s), e.page, voice);
      PageSpoken(Run(Emptied(s), e.page).blocks, s.blocks, log, e.page, voice);
    } else if e.ClearTranscript? {
      ClearSpoken(s, log, e, s', voice);
    } else {
      SaysSpoken(s, log, e, s', voice);
    }
  }

  lemma {:induction false} RunSpoken(s: State, events: seq<Event>, voice: Voice)
    requires s.blocks == []
    ensures Spoken(Run(s, events).blocks, voice) == Uttered(events, voice)
    decreases events
  {
    if events != [] {
      var n := |events| - 1;
      RunSpoken(s, events[..n], voice);
      var t := RunMoves(s, events);
      EventSpoken(t, events[..n], events[n], Run(s, events), voice);
      assert events[..n] + [events[n]] == events;
    }
  }

  /** On every run the text of each voice on screen is what was said since the last clear, in order,
      with each page's text in front of what it was put before. */
  lemma {:induction false} TextIsConserved(actions: seq<Action>, voice: Voice)
    ensures Spoken(PerformAll(INIT, actions).blocks, voice) == Uttered(SinceClear(actions), voice)
  {
    if actions != [] {
      var n := |actions| - 1;
      TextIsConserved(actions[..n], voice);
      var s := PerformAll(INIT, actions[..n]);
      if actions[n].Apply? {
        StepMoves(s, actions[n].event);
        EventSpoken(s, SinceClear(actions[..n]), actions[n].event, PerformAll(INIT, actions), voice);
      }
    }
  }
}
