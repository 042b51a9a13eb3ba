/** Where an older page meets a newer one: what the seam does to the blocks, entry marks aside. */
module PageSeam {
  import opened Wrappers
  import opened Transcript
  import opened Effects
  import opened ToolIndex
  import opened TextConservation
  import S = Segmentation

  /** What a block shows, without its entry mark. */
  function Content(b: Block): Body {
    if b.body.Text? then Text(b.body.voice, b.body.text, None) else b.body
  }

  /** The blocks without their ids and marks. */
  function Contents(blocks: seq<Block>): seq<Body> {
    seq(|blocks|, i requires 0 <= i < |blocks| => Content(blocks[i]))
  }

  /** Same blocks up to ids and marks, same tools, same order. */
  ghost predicate SameContent(s: State, t: State) {
    Contents(s.blocks) == Contents(t.blocks) && SameTools(s, t)
  }

  predicate Blank(s: State) {
    s.blocks == [] && s.tools == map[] && s.toolOrder == []
  }

  /** The first event of `events` that opens a block or grows one grows the last block of `s`. */
  ghost predicate Fuses(s: State, events: seq<Event>)
    decreases events
  {
    events != [] &&
    match EffectOf(s, events[0])
    case Grows(text) => text != "" || Fuses(Step(s, events[0]), events[1..])
    case Opens(_) => false
    case Places(call) => call.id in s.tools && Fuses(Step(s, events[0]), events[1..])
    case _ => Fuses(Step(s, events[0]), events[1..])
  }

  // ---------- Without fusion and repetition: the two views move together ----------

  /** The whole replay `t` shows the older page `p` followed by what the newer page alone, `s`, shows. */
  ghost predicate Follows(p: State, s: State, t: State) {
    && Contents(t.blocks) == Contents(p.blocks) + Contents(s.blocks)
    && t.tools == p.tools + s.tools
    && t.toolOrder == p.toolOrder + s.toolOrder
    && p.tools.Keys !! s.tools.Keys
    && (forall i | 0 <= i < |p.blocks| && p.blocks[i].body.Tool? :: p.blocks[i].body.call.id in p.tools)
  }

  /** Inside the newer page, a run that is open is sealed alike in both views. */
  predicate SealedAlike(s: State, t: State) {
    LastIs(s.blocks, Agent) || LastIs(s.blocks, Thought) ==>
      s.tailSealed == t.tailSealed && s.chunkSealed == t.chunkSealed
  }

  /** The newer page has begun, so nothing reaches back into the older one. */
  ghost predicate Begun(p: State, s: State, t: State) {
    && Follows(p, s, t) && SealedAlike(s, t)
    && (s.blocks == [] ==> p.blocks == [])
  }

  lemma {:induction false} ContentsUpdate(blocks: seq<Block>, i: nat, body: Body)
    requires i < |blocks|
    ensures Contents(blocks[i := blocks[i].(body := body)]) == Contents(blocks)[i := Content(Block(0, body))]
  {
  }

  lemma {:induction false} ContentsSnoc(blocks: seq<Block>, b: Block)
    ensures Contents(blocks + [b]) == Contents(blocks) + [Content(b)]
  {
  }

  lemma {:induction false} FollowsAt(p: State, s: State, t: State, i: nat)
    requires Follows(p, s, t) && i < |t.blocks|
    ensures |t.blocks| == |p.blocks| + |s.blocks|
    ensures Content(t.blocks[i]) ==
            if i < |p.blocks| then Content(p.blocks[i]) else Content(s.blocks[i - |p.blocks|])
  {
    assert Contents(t.blocks)[i] == (Contents(p.blocks) + Contents(s.blocks))[i];
  }

  lemma {:induction false} LastFollows(p: State, s: State, t: State, voice: Voice)
    requires Follows(p, s, t) && s.blocks != []
    ensures LastIs(s.blocks, voice) <==> LastIs(t.blocks, voice)
    ensures t.blocks != [] && Content(t.blocks[|t.blocks| - 1]) == Content(s.blocks[|s.blocks| - 1])
  {
    assert |Contents(t.blocks)| == |p.blocks| + |s.blocks|;
    FollowsAt(p, s, t, |t.blocks| - 1);
  }

  /** Both views swap the same call in the same block. */
  lemma {:induction false} SwapFollows(p: State, s: State, t: State, call: ToolCall)
    requires Follows(p, s, t) && call.id !in p.tools
    ensures Contents(SwapNewest(t.blocks, call)) == Contents(p.blocks) + Contents(SwapNewest(s.blocks, call))
  {
    var i := SwapCases(s.blocks, call);
    var j := SwapCases(t.blocks, call);
    var off := |p.blocks|;
    assert |Contents(t.blocks)| == off + |s.blocks|;
    forall k | 0 <= k < |t.blocks|
      ensures HoldsTool(t.blocks[k], call.id) <==> off <= k && HoldsTool(s.blocks[k - off], call.id)
    {
      FollowsAt(p, s, t, k);
    }
    if i >= 0 {
      assert HoldsTool(t.blocks[off + i], call.id);
      assert j == off + i;
      ContentsUpdate(s.blocks, i, Tool(call));
      ContentsUpdate(t.blocks, j, Tool(call));
    }
  }

  lemma {:induction false} PlaceFollows(p: State, s: State, t: State, call: ToolCall)
    requires Follows(p, s, t) && call.id !in p.tools
    ensures Follows(p, PlaceCall(s, call), PlaceCall(t, call))
    ensures |s.blocks| <= |PlaceCall(s, call).blocks|
  {
    var s', t' := PlaceCall(s, call), PlaceCall(t, call);
    if call.id in s.tools {
      SwapFollows(p, s, t, call);
      var j := SwapCases(t.blocks, call);
    } else {
      ContentsSnoc(s.blocks, Block(s.nextBlockId, Tool(call)));
      ContentsSnoc(t.blocks, Block(t.nextBlockId, Tool(call)));
    }
  }

  lemma {:induction false} OpenFollows(p: State, s: State, t: State, body: Body, s': State, t': State)
    requires Follows(p, s, t)
    requires Moves(s, Opens(body), s') && Moves(t, Opens(body), t')
    ensures Follows(p, s', t')
  {
    ContentsSnoc(s.blocks, Block(s.nextBlockId, body));
    ContentsSnoc(t.blocks, Block(t.nextBlockId, body));
  }

  lemma {:induction false} GrowFollows(p: State, s: State, t: State, text: string, s': State, t': State)
    requires Follows(p, s, t) && s.blocks != []
    requires Moves(s, Grows(text), s') && Moves(t, Grows(text), t')
    ensures Follows(p, s', t')
  {
    var last := s.blocks[|s.blocks| - 1].body;
    LastFollows(p, s, t, last.voice);
    var grown := Text(last.voice, last.text + text, None);
    ContentsUpdate(s.blocks, |s.blocks| - 1, grown);
    ContentsUpdate(t.blocks, |t.blocks| - 1, grown);
    assert |Contents(t.blocks)| == |p.blocks| + |s.blocks|;
  }

  /** A mark changes no content. */
  lemma {:induction false} MarkMoves(s: State, e: Event, s': State)
    requires e.EntryMark? && Moves(s, EffectOf(s, e), s')
    ensures Contents(s'.blocks) == Contents(s.blocks) && SameTools(s, s')
    ensures forall voice :: LastIs(s'.blocks, voice) <==> LastIs(s.blocks, voice)
  {
    if EffectOf(s, e).Marks? {
      var voice := MarkedVoice(e.role);
      var i := StampCases(s.blocks, voice, e.entryId);
      if i >= 0 { ContentsUpdate(s.blocks, i, Stamp(s.blocks[i], e.entryId).body); }
    }
  }

  lemma {:induction false} MarkFollows(p: State, s: State, t: State, e: Event, s': State, t': State)
    requires Follows(p, s, t) && e.EntryMark?
    requires Moves(s, EffectOf(s, e), s') && Moves(t, EffectOf(t, e), t')
    ensures Follows(p, s', t') && |s'.blocks| == |s.blocks|
  {
    MarkMoves(s, e, s');
    MarkMoves(t, e, t');
    assert |Contents(s'.blocks)| == |Contents(s.blocks)|;
  }

  /** Once the newer page has begun, an event but a mark does the same to both views. */
  lemma {:induction false} SameMove(p: State, s: State, t: State, e: Event)
    requires Begun(p, s, t) && S.IsPlain(e) && !e.EntryMark?
    requires forall id | id in Mentions(e) :: id !in p.tools
    ensures EffectOf(s, e) == EffectOf(t, e)
  {
    if s.blocks != [] {
      LastFollows(p, s, t, User);
      LastFollows(p, s, t, Agent);
      LastFollows(p, s, t, Thought);
    } else {
      assert |Contents(t.blocks)| == 0;
    }
    if e.ToolEvent? {
      assert MergeCall(e.update, s.tools) == MergeCall(e.update, t.tools);
    }
  }

  lemma {:induction false} MoveFollows(p: State, s: State, t: State, f: Effect, s': State, t': State)
    requires Follows(p, s, t) && !f.Splices? && !f.Wipes? && !f.Marks?
    requires f.Places? ==> f.call.id !in p.tools
    requires f.Grows? ==> s.blocks != []
    requires Moves(s, f, s') && Moves(t, f, t')
    ensures Follows(p, s', t')
    ensures |s.blocks| <= |s'.blocks|
  {
    match f
    case Opens(body) => OpenFollows(p, s, t, body, s', t');
    case Grows(text) => GrowFollows(p, s, t, text, s', t');
    case Places(call) => PlaceFollows(p, s, t, call);
    case Quiet =>
  }

  lemma {:induction false} SwapKeepsLast(blocks: seq<Block>, call: ToolCall, voice: Voice)
    ensures LastIs(SwapNewest(blocks, call), voice) <==> LastIs(blocks, voice)
  {
    var i := SwapCases(blocks, call);
  }

  lemma {:induction false} LastOpened(blocks: seq<Block>, b: Block, voice: Voice)
    ensures LastIs(blocks + [b], voice) <==> IsVoice(b, voice)
  {
  }

  lemma {:induction false} LastPlaced(s: State, call: ToolCall, voice: Voice)
    ensures LastIs(PlaceCall(s, call).blocks, voice) <==> call.id in s.tools && LastIs(s.blocks, voice)
  {
    if call.id in s.tools {
      SwapKeepsLast(s.blocks, call, voice);
    } else {
      LastOpened(s.blocks, Block(s.nextBlockId, Tool(call)), voice);
    }
  }

  lemma {:induction false} LastGrown(blocks: seq<Block>, text: string, voice: Voice)
    requires |blocks| > 0 && blocks[|blocks| - 1].body.Text?
    ensures LastIs(GrowLast(blocks, text), voice) <==> LastIs(blocks, voice)
  {
  }

  /** The last block keeps its voice unless another is opened after it. */
  lemma {:induction false} LastKept(s: State, f: Effect, s': State, voice: Voice)
    requires Moves(s, f, s') && !f.Splices? && !f.Wipes? && !f.Marks?
    ensures LastIs(s'.blocks, voice) <==>
            if f.Opens? then f.body.voice == voice
            else if f.Places? then f.call.id in s.tools && LastIs(s.blocks, voice)
            else LastIs(s.blocks, voice)
  {
    match f
    case Opens(body) => LastOpened(s.blocks, Block(s.nextBlockId, body), voice);
    case Grows(text) => LastGrown(s.blocks, text, voice);
    case Places(call) => LastPlaced(s, call, voice);
    case _ =>
  }

  lemma {:induction false} SealsFollow(s: State, t: State, e: Event, s': State, t': State)
    requires SealedAlike(s, t) && S.IsPlain(e) && !e.EntryMark?
    requires EffectOf(s, e) == EffectOf(t, e)
    requires Moves(s, EffectOf(s, e), s') && SealsMove(s, e, s') && SealsMove(t, e, t')
    ensures SealedAlike(s', t')
  {
    LastKept(s, EffectOf(s, e), s', Agent);
    LastKept(s, EffectOf(s, e), s', Thought);
  }

  lemma {:induction false} StepBegun(p: State, s: State, t: State, e: Event, s': State, t': State)
    requires Begun(p, s, t) && S.IsPlain(e)
    requires forall id | id in Mentions(e) :: id !in p.tools
    requires Moves(s, EffectOf(s, e), s') && SealsMove(s, e, s')
    requires Moves(t, EffectOf(t, e), t') && SealsMove(t, e, t')
    ensures Begun(p, s', t')
  {
    if e.EntryMark? {
      MarkFollows(p, s, t, e, s', t');
      MarkMoves(s, e, s');
    } else {
      SameMove(p, s, t, e);
      MoveFollows(p, s, t, EffectOf(s, e), s', t');
      SealsFollow(s, t, e, s', t');
    }
  }

  lemma {:induction false} RunBegun(p: State, s: State, t: State, events: seq<Event>)
    requires Begun(p, s, t) && S.Plain(events)
    requires p.tools.Keys !! PageTools(events)
    ensures Begun(p, Run(s, events), Run(t, events))
    decreases events
  {
    if events != [] {
      var e := events[0];
      StepMoves(s, e);
      StepSeals(s, e);
      StepMoves(t, e);
      StepSeals(t, e);
      var s', t' := Step(s, e), Step(t, e);
      StepBegun(p, s, t, e, s', t');
      RunBegun(p, s', t', events[1..]);
    }
  }

  /** Before the newer page opens its first block, only the older page shows. */
  ghost predicate Waiting(p: State, s: State, t: State) {
    Follows(p, s, t) && Blank(s)
  }

  lemma {:induction false} WaitingBegins(p: State, s: State, t: State, e: Event, s': State, t': State)
    requires Waiting(p, s, t) && S.IsPlain(e)
    requires forall id | id in Mentions(e) :: id !in p.tools
    requires EffectOf(t, e).Opens? || EffectOf(t, e).Places?
    requires Moves(s, EffectOf(s, e), s') && SealsMove(s, e, s')
    requires Moves(t, EffectOf(t, e), t') && SealsMove(t, e, t')
    ensures Begun(p, s', t')
  {
    var f := EffectOf(t, e);
    assert EffectOf(s, e) == f;
    if f.Places? {
      PlaceFollows(p, s, t, f.call);
    } else {
      OpenFollows(p, s, t, f.body, s', t');
    }
  }

  lemma {:induction false} GrowNothing(blocks: seq<Block>)
    requires |blocks| > 0 && blocks[|blocks| - 1].body.Text?
    ensures Contents(GrowLast(blocks, "")) == Contents(blocks)
  {
    var n := |blocks| - 1;
    assert blocks[n].body.text + "" == blocks[n].body.text;
    assert Contents(GrowLast(blocks, ""))[n] == Contents(blocks)[n];
  }

  /** An event that fuses nothing either keeps the newer page waiting or begins it. */
  lemma {:induction false} StepWaiting(p: State, s: State, t: State, e: Event, s': State, t': State)
    requires Waiting(p, s, t) && S.IsPlain(e)
    requires forall id | id in Mentions(e) :: id !in p.tools
    requires EffectOf(t, e).Grows? ==> EffectOf(t, e).text == ""
    requires Moves(s, EffectOf(s, e), s') && SealsMove(s, e, s')
    requires Moves(t, EffectOf(t, e), t') && SealsMove(t, e, t')
    ensures if EffectOf(t, e).Opens? || EffectOf(t, e).Places? then Begun(p, s', t') else Waiting(p, s', t')
  {
    assert Contents(s.blocks) == [];
    var f := EffectOf(t, e);
    if e.EntryMark? {
      MarkFollows(p, s, t, e, s', t');
    } else if f.Grows? {
      GrowNothing(t.blocks);
    } else if !f.Quiet? {
      WaitingBegins(p, s, t, e, s', t');
    }
  }

  lemma {:induction false} RunWaiting(p: State, s: State, t: State, events: seq<Event>)
    requires Waiting(p, s, t) && S.Plain(events)
    requires p.tools.Keys !! PageTools(events)
    requires !Fuses(t, events)
    ensures Follows(p, Run(s, events), Run(t, events))
    decreases events
  {
    if events != [] {
      var e := events[0];
      StepMoves(s, e);
      StepSeals(s, e);
      StepMoves(t, e);
      StepSeals(t, e);
      var s', t' := Step(s, e), Step(t, e);
      StepWaiting(p, s, t, e, s', t');
      if EffectOf(t, e).Opens? || EffectOf(t, e).Places? {
        RunBegun(p, s', t', events[1..]);
      } else {
        RunWaiting(p, s', t', events[1..]);
      }
    }
  }

  // ---------- With fusion or repetition: the whole replay has fewer blocks ----------

  /** The voice whose run is open after an event, when `open` was before and the tools `seen` have cards. */
  function NextOpen(open: Option<Voice>, seen: set<string>, e: Event): Option<Voice> {
    if open.Some? && S.GoesOn(open.value, e, seen) then open
    else
      match S.Opening(e, seen)
      case Some(Speech(voice, _)) => if S.Runs(voice) then Some(voice) else None
      case _ => None
  }

  function OpenAfter(open: Option<Voice>, seen: set<string>, events: seq<Event>): Option<Voice>
    decreases |events|
  {
    if events == [] then open else OpenAfter(NextOpen(open, seen, events[0]), seen + Mentions(events[0]), events[1..])
  }

  /** How many blocks an event opens. */
  function NewBlocks(open: Option<Voice>, seen: set<string>, e: Event): nat {
    if open.Some? && S.GoesOn(open.value, e, seen) then 0 else if S.Opening(e, seen).Some? then 1 else 0
  }

  function BlocksOpened(open: Option<Voice>, seen: set<string>, events: seq<Event>): nat
    decreases |events|
  {
    if events == [] then 0
    else
      var e := events[0];
      NewBlocks(open, seen, e) + BlocksOpened(NextOpen(open, seen, e), seen + Mentions(e), events[1..])
  }

  /** The open run goes on over the first events, and one of them adds text to it. */
  predicate Joins(open: Option<Voice>, seen: set<string>, events: seq<Event>)
    decreases |events|
  {
    && events != [] && open.Some? && S.GoesOn(open.value, events[0], seen)
    && (Says(events[0], open.value) != "" || Joins(open, seen + Mentions(events[0]), events[1..]))
  }

  lemma {:induction false} GoingOnOpensNone(s: State, e: Event, s': State)
    requires S.IsPlain(e) && Moves(s, EffectOf(s, e), s') && SealsMove(s, e, s')
    requires S.OpenVoice(s).Some? && S.GoesOn(S.OpenVoice(s).value, e, s.tools.Keys)
    ensures S.OpenVoice(s') == S.OpenVoice(s)
    ensures s'.tools.Keys == s.tools.Keys + Mentions(e) && |s'.blocks| == |s.blocks|
  {
    var voice := S.OpenVoice(s).value;
    S.RunGoesOn(s, e, s');
    S.LastShape(s'.blocks, voice);
    assert |s'.blocks| == |S.Shapes(s'.blocks)| == |S.Shapes(s.blocks)| == |s.blocks|;
    assert Mentions(e) <= s.tools.Keys;
    S.RunStaysOpen(s, e, s');
  }

  /** What an opening amounts to, in blocks, tools and the open run. */
  lemma {:induction false} OpenedAs(begun: Option<S.Shape>, e: Event, s: State, s': State)
    requires S.IsPlain(e) && begun == S.Opening(e, s.tools.Keys)
    requires S.Opened(begun, S.Shapes(s.blocks), s.tools.Keys, S.Shapes(s'.blocks), s'.tools.Keys, S.OpenVoice(s'))
    ensures S.OpenVoice(s') ==
            if begun.Some? && begun.value.Speech? && S.Runs(begun.value.voice) then Some(begun.value.voice) else None
    ensures s'.tools.Keys == s.tools.Keys + Mentions(e)
    ensures |s'.blocks| == |s.blocks| + if begun.Some? then 1 else 0
  {
    assert |S.Shapes(s.blocks)| == |s.blocks| && |S.Shapes(s'.blocks)| == |s'.blocks|;
  }

  lemma {:induction false} CutOpens(s: State, e: Event, s': State)
    requires S.IsPlain(e) && Moves(s, EffectOf(s, e), s') && SealsMove(s, e, s')
    requires S.OpenVoice(s).Some? ==> !S.GoesOn(S.OpenVoice(s).value, e, s.tools.Keys)
    ensures S.OpenVoice(s') == NextOpen(S.OpenVoice(s), s.tools.Keys, e)
    ensures s'.tools.Keys == s.tools.Keys + Mentions(e)
    ensures |s'.blocks| == |s.blocks| + NewBlocks(S.OpenVoice(s), s.tools.Keys, e)
  {
    S.RunIsCut(s, e, s');
    OpenedAs(S.Opening(e, s.tools.Keys), e, s, s');
  }

  lemma {:induction false} StepOpens(s: State, e: Event)
    requires S.IsPlain(e)
    ensures var s', open, seen := Step(s, e), S.OpenVoice(s), s.tools.Keys;
            && S.OpenVoice(s') == NextOpen(open, seen, e)
            && s'.tools.Keys == seen + Mentions(e)
            && |s'.blocks| == |s.blocks| + NewBlocks(open, seen, e)
  {
    StepMoves(s, e);
    StepSeals(s, e);
    if S.OpenVoice(s).Some? && S.GoesOn(S.OpenVoice(s).value, e, s.tools.Keys) {
      GoingOnOpensNone(s, e, Step(s, e));
    } else {
      CutOpens(s, e, Step(s, e));
    }
  }

  lemma {:induction false} RunOpens(s: State, events: seq<Event>)
    requires S.Plain(events)
    ensures var s', open, seen := Run(s, events), S.OpenVoice(s), s.tools.Keys;
            && S.OpenVoice(s') == OpenAfter(open, seen, events)
            && s'.tools.Keys == seen + PageTools(events)
            && |s'.blocks| == |s.blocks| + BlocksOpened(open, seen, events)
    decreases |events|
  {
    if events != [] {
      StepOpens(s, events[0]);
      RunOpens(Step(s, events[0]), events[1..]);
    }
  }

  lemma {:induction false} BlankOpens(start: State, events: seq<Event>)
    requires Blank(start) && S.Plain(events)
    ensures var s' := Run(start, events);
            && S.OpenVoice(s') == OpenAfter(None, {}, events)
            && s'.tools.Keys == PageTools(events)
            && |s'.blocks| == BlocksOpened(None, {}, events)
  {
    assert start.tools.Keys == {} && S.OpenVoice(start) == None;
    RunOpens(start, events);
    assert {} + PageTools(events) == PageTools(events);
  }

  /** `open'` and `seen'` hold whatever `open` and `seen` do. */
  predicate Wider(open: Option<Voice>, seen: set<string>, open': Option<Voice>, seen': set<string>) {
    (open.Some? ==> open' == open) && seen <= seen'
  }

  lemma {:induction false} WiderStep(open: Option<Voice>, seen: set<string>, open': Option<Voice>, seen': set<string>,
                                     e: Event)
    requires Wider(open, seen, open', seen')
    ensures NewBlocks(open', seen', e) <= NewBlocks(open, seen, e)
    ensures Wider(NextOpen(open, seen, e), seen + Mentions(e), NextOpen(open', seen', e), seen' + Mentions(e))
  {
  }

  lemma {:induction false} WiderOpensFewer(open: Option<Voice>, seen: set<string>,
                                           open': Option<Voice>, seen': set<string>, events: seq<Event>)
    requires Wider(open, seen, open', seen')
    ensures BlocksOpened(open', seen', events) <= BlocksOpened(open, seen, events)
    decreases |events|
  {
    if events != [] {
      var e := events[0];
      WiderStep(open, seen, open', seen', e);
      WiderOpensFewer(NextOpen(open, seen, e), seen + Mentions(e), NextOpen(open', seen', e), seen' + Mentions(e),
                      events[1..]);
    }
  }

  /** A repeated tool costs the whole replay a block. */
  lemma {:induction false} RepeatedOpensFewer(open: Option<Voice>, seen: set<string>,
                                              open': Option<Voice>, seen': set<string>, events: seq<Event>, id: string)
    requires Wider(open, seen, open', seen') && S.Plain(events)
    requires id in PageTools(events) && id in seen' && id !in seen
    ensures BlocksOpened(open', seen', events) < BlocksOpened(open, seen, events)
    decreases |events|
  {
    var e := events[0];
    var next, next' := NextOpen(open, seen, e), NextOpen(open', seen', e);
    WiderStep(open, seen, open', seen', e);
    if id in Mentions(e) {
      WiderOpensFewer(next, seen + Mentions(e), next', seen' + Mentions(e), events[1..]);
    } else {
      RepeatedOpensFewer(next, seen + Mentions(e), next', seen' + Mentions(e), events[1..], id);
    }
  }

  /** A run that is joined costs the whole replay a block. */
  lemma {:induction false} JoinedOpensFewer(seen: set<string>, open': Option<Voice>, seen': set<string>,
                                            events: seq<Event>)
    requires seen <= seen' && Joins(open', seen', events)
    ensures BlocksOpened(open', seen', events) < BlocksOpened(None, seen, events)
    decreases |events|
  {
    var e := events[0];
    WiderStep(None, seen, open', seen', e);
    if NewBlocks(None, seen, e) == 0 {
      JoinedOpensFewer(seen + Mentions(e), open', seen' + Mentions(e), events[1..]);
    } else {
      WiderOpensFewer(NextOpen(None, seen, e), seen + Mentions(e), NextOpen(open', seen', e), seen' + Mentions(e),
                      events[1..]);
    }
  }

  /** Growing text is what the open run goes on over and says; opening and quiet effects say nothing in it. */
  lemma {:induction false} EffectJoins(s: State, e: Event)
    requires S.IsPlain(e)
    ensures var f, open := EffectOf(s, e), S.OpenVoice(s);
            var goesOn := open.Some? && S.GoesOn(open.value, e, s.tools.Keys);
            && (f.Grows? ==> goesOn && Says(e, open.value) == f.text)
            && (f.Opens? || (f.Places? && f.call.id !in s.tools) ==> !goesOn)
            && ((f.Quiet? || f.Places?) && goesOn ==> Says(e, open.value) == "")
  {
  }

  lemma {:induction false} FusesJoins(s: State, events: seq<Event>)
    requires S.Plain(events)
    ensures Fuses(s, events) <==> Joins(S.OpenVoice(s), s.tools.Keys, events)
    decreases |events|
  {
    if events != [] {
      StepOpens(s, events[0]);
      FusesJoins(Step(s, events[0]), events[1..]);
      EffectJoins(s, events[0]);
    }
  }

  // ---------- The theorem ----------

  /** A content page rebuilt on any blank transcript shows the same. */
  lemma {:induction false} SamePage(s: State, t: State, page: seq<Event>)
    requires Blank(s) && Blank(t) && S.Plain(page)
    ensures SameContent(Run(s, page), Run(t, page))
  {
    RunBegun(t, s, t, page);
    assert Contents(t.blocks) == [];
    var s', t' := Run(s, page), Run(t, page);
    assert Contents(t'.blocks) == Contents(s'.blocks);
    assert t'.tools == s'.tools;
  }

  /** No run is cut at the seam, and no tool is mentioned on both sides of it. */
  predicate CleanSeam(older: seq<Event>, newer: seq<Event>) {
    !Joins(OpenAfter(None, {}, older), PageTools(older), newer) && PageTools(older) !! PageTools(newer)
  }

  lemma {:induction false} UncleanIsShorter(start: State, older: seq<Event>, newer: seq<Event>)
    requires Blank(start) && S.Plain(older) && S.Plain(newer) && !CleanSeam(older, newer)
    ensures |Run(Run(start, older), newer).blocks| < |Run(start, older).blocks| + |Run(start, newer).blocks|
  {
    var open, seen := OpenAfter(None, {}, older), PageTools(older);
    BlankOpens(start, older);
    BlankOpens(start, newer);
    RunOpens(Run(start, older), newer);
    if Joins(open, seen, newer) {
      JoinedOpensFewer({}, open, seen, newer);
    } else {
      var id :| id in PageTools(older) && id in PageTools(newer);
      RepeatedOpensFewer(None, {}, open, seen, newer, id);
    }
  }

  lemma {:induction false} SplicedView(tail: State, older: seq<Event>, p: State, paged: State)
    requires Moves(tail, Splices(older), paged)
    requires SameContent(Run(Emptied(tail), older), p)
    ensures Contents(paged.blocks) == Contents(p.blocks) + Contents(tail.blocks)
    ensures paged.tools == p.tools + tail.tools && paged.toolOrder == p.toolOrder + tail.toolOrder
  {
    var front := Run(Emptied(tail), older);
    assert Contents(front.blocks + tail.blocks) == Contents(front.blocks) + Contents(tail.blocks);
  }

  lemma {:induction false} BlankFollows(start: State, p: State, older: seq<Event>)
    requires Blank(start) && S.Plain(older) && p == Run(start, older)
    ensures Waiting(p, start, p)
  {
    assert Contents(start.blocks) == [];
    SamePage(start, start, older);
    RunIndexed(start, older);
    forall i | 0 <= i < |p.blocks| && p.blocks[i].body.Tool?
      ensures p.blocks[i].body.call.id in p.tools
    {
      assert HoldsTool(p.blocks[i], p.blocks[i].body.call.id);
      BlockToolsMember(p.blocks, p.blocks[i].body.call.id);
    }
  }

  /** The older page put in front of the newer one has the content that replaying both has, marks aside,
      if and only if the seam is clean. */
  lemma {:induction false} ContentEqualsReplay(start: State, older: seq<Event>, newer: seq<Event>)
    requires Blank(start) && S.Plain(older) && S.Plain(newer)
    ensures SameContent(Step(Run(start, newer), TranscriptPrepend(older)), Run(start, older + newer)) <==>
            CleanSeam(older, newer)
  {
    var tail := Run(start, newer);
    var p := Run(start, older);
    RunAppend(start, older, newer);
    SamePage(Emptied(tail), start, older);
    BlankOpens(start, older);
    FusesJoins(p, newer);
    var paged := Step(tail, TranscriptPrepend(older));
    StepMoves(tail, TranscriptPrepend(older));
    SplicedView(tail, older, p, paged);
    if CleanSeam(older, newer) {
      BlankFollows(start, p, older);
      RunWaiting(p, start, p, newer);
    } else {
      UncleanIsShorter(start, older, newer);
      assert |Contents(paged.blocks)| == |p.blocks| + |tail.blocks|;
    }
  }

  lemma {:induction false} OpenAfterLast(open: Option<Voice>, seen: set<string>, events: seq<Event>)
    requires events != [] && events[|events| - 1].TurnEnded?
    ensures OpenAfter(open, seen, events) in {None, Some(User)}
    decreases |events|
  {
    if |events| > 1 { OpenAfterLast(NextOpen(open, seen, events[0]), seen + Mentions(events[0]), events[1..]); }
  }

  /** What the events at the end of a turn leave open: nothing of the agent's, but the user's own run goes
      on. So a page that ends its turn has a clean seam with a newer page that repeats no tool if and only
      if no user run is joined across it. */
  lemma {:induction false} TurnEndJoinsUserOnly(older: seq<Event>, newer: seq<Event>, parts: seq<string>)
    requires older != [] && older[|older| - 1] == TurnEnded(parts)
    requires S.Plain(older) && PageTools(older) !! PageTools(newer)
    ensures OpenAfter(None, {}, older) in {None, Some(User)}
    ensures CleanSeam(older, newer) <==>
            OpenAfter(None, {}, older) == None || !Joins(Some(User), PageTools(older), newer)
  {
    OpenAfterLast(None, {}, older);
  }

  // ---------- A page and the tools held ----------

  lemma {:induction false} PlainHeld(single: bool, held: set<string>, page: seq<Event>)
    requires S.Plain(page)
    ensures HeldAfter(held, page) == held + PageTools(page) && SingleAfter(single, held, page) == single
    decreases |page|
  {
    if page != [] { PlainHeld(Single(single, held, page[0]), Held(held, page[0]), page[1..]); }
  }

  /** A page without clears and nested pages keeps one block for each tool, showing the map's call, if and
      only if it mentions no tool that is held. */
  lemma {:induction false} PlainPageKeepsOneBlock(s: State, page: seq<Event>)
    requires Indexed(s) && NewestShows(s) && OneBlockEach(s) && S.Plain(page)
    ensures OneBlockEach(Step(s, TranscriptPrepend(page))) <==> PageTools(page) !! s.tools.Keys
  {
    PageKeepsOneBlock(s, page);
    PlainHeld(true, {}, page);
  }
}
