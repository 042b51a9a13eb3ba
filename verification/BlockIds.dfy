/** Block identity, and what putting a page in front leaves alone. */
module BlockIds {
  import opened Transcript
  import opened Effects

  /** Ids are pairwise distinct, at least `floor`, and below the next one to be given out. */
  ghost predicate Stamped(s: State, floor: nat) {
    && floor <= s.nextBlockId
    && (forall i | 0 <= i < |s.blocks| :: floor <= s.blocks[i].id < s.nextBlockId)
    && (forall i, j | 0 <= i < j < |s.blocks| :: s.blocks[i].id != s.blocks[j].id)
  }

  lemma {:induction false} PlaceStamped(s: State, call: ToolCall, floor: nat)
    requires Stamped(s, floor)
    ensures Stamped(PlaceCall(s, call), floor) && s.nextBlockId <= PlaceCall(s, call).nextBlockId
  {
    if call.id in s.tools {
      var i := SwapCases(s.blocks, call);
    }
  }

  lemma {:induction false} MarkStamped(s: State, voice: Voice, id: string, s': State, floor: nat)
    requires Stamped(s, floor)
    requires s'.blocks == StampNewest(s.blocks, voice, id) && s'.nextBlockId == s.nextBlockId
    ensures Stamped(s', floor)
  {
    var i := StampCases(s.blocks, voice, id);
  }

  /** Every effect keeps the ids in order, a splice provided the rebuilt page's are new. */
  lemma {:induction false} MoveStamped(s: State, f: Effect, s': State, floor: nat)
    requires Stamped(s, floor) && Moves(s, f, s')
    requires f.Splices? ==> Stamped(Run(Emptied(s), f.page), s.nextBlockId)
    ensures Stamped(s', floor) && s.nextBlockId <= s'.nextBlockId
  {
    match f
    case Places(call) => PlaceStamped(s, call, floor);
    case Marks(voice, id) => MarkStamped(s, voice, id, s', floor);
    case _ =>
  }

  lemma {:induction false} StepStamped(s: State, e: Event, floor: nat)
    requires Stamped(s, floor)
    ensures Stamped(Step(s, e), floor) && s.nextBlockId <= Step(s, e).nextBlockId
    decreases e
  {
    StepMoves(s, e);
    if e.TranscriptPrepend? { RunStamped(Emptied(s), e.page, s.nextBlockId); }
    MoveStamped(s, EffectOf(s, e), Step(s, e), floor);
  }

  lemma {:induction false} RunStamped(s: State, events: seq<Event>, floor: nat)
    requires Stamped(s, floor)
    ensures Stamped(Run(s, events), floor) && s.nextBlockId <= Run(s, events).nextBlockId
    decreases events
  {
    if events != [] {
      StepStamped(s, events[0], floor);
      RunStamped(Step(s, events[0]), events[1..], floor);
    }
  }

  /** On every run, clears, resets and pages included, no two blocks share an id. */
  lemma {:induction false} ReachableStamped(actions: seq<Action>)
    ensures Stamped(PerformAll(INIT, actions), 1)
  {
    if actions != [] {
      var n := |actions| - 1;
      ReachableStamped(actions[..n]);
      var s := PerformAll(INIT, actions[..n]);
      PerformMoves(s, actions[n]);
      if actions[n].Apply? {
        StepStamped(s, actions[n].event, 1);
      } else {
        MoveStamped(s, ActionEffect(s, actions[n]), PerformAll(INIT, actions), 1);
      }
    }
  }

  /** A page lands in front: what was held is an unchanged suffix, and everything before it is new. */
  lemma {:induction false} PrependKeepsHeld(s: State, page: seq<Event>)
    requires Stamped(s, 1)
    ensures var s' := Step(s, TranscriptPrepend(page));
            && |s'.blocks| == s'.prependDelta + |s.blocks|
            && s'.blocks[s'.prependDelta..] == s.blocks
            && forall i | 0 <= i < s'.prependDelta :: s.nextBlockId <= s'.blocks[i].id
  {
    RunStamped(Emptied(s), page, s.nextBlockId);
  }

  /** The blocks of `before` are those of `after` from position `at` on, by their ids. */
  ghost predicate KeptAt(before: seq<Block>, after: seq<Block>, at: nat) {
    at + |before| <= |after| && forall k | at <= k < at + |before| :: after[k].id == before[k - at].id
  }

  /** Events but pages and clears leave the blocks where they are, and append. */
  lemma {:induction false} MoveKeeps(s: State, f: Effect, s': State)
    requires Moves(s, f, s') && !f.Splices? && !f.Wipes?
    ensures KeptAt(s.blocks, s'.blocks, 0)
  {
    match f
    case Places(call) =>
      if call.id in s.tools {
        var i := SwapCases(s.blocks, call);
      }
    case Marks(voice, id) =>
      var i := StampCases(s.blocks, voice, id);
    case _ =>
  }

  lemma {:induction false} KeptOn(before: seq<Block>, between: seq<Block>, after: seq<Block>, at: nat, further: nat)
    requires KeptAt(before, between, at) && KeptAt(between, after, further)
    ensures KeptAt(before, after, at + further)
  {
    forall k | at + further <= k < at + further + |before|
      ensures after[k].id == before[k - at - further].id
    {
      assert after[k].id == between[k - further].id;
    }
  }
}
