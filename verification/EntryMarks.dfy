/**
 Where entry marks land: a batch of them, newest first, goes one by one to the newest blocks of its kind that
 carry none. Nothing but a page ever puts one mark on two blocks of one kind; `MarkSlots` says exactly when a
 page does.
 */
module EntryMarks {
  import opened Wrappers
  import opened Transcript
  import opened Effects

  // ---------- A batch of marks ----------

  /** The positions of a voice's unmarked blocks, newest first. */
  function UnmarkedNewestFirst(blocks: seq<Block>, voice: Voice): seq<nat> {
    if blocks == [] then []
    else
      var n := |blocks| - 1;
      (if Unmarked(blocks[n], voice) then [n] else []) + UnmarkedNewestFirst(blocks[..n], voice)
  }

  /** It lists every unmarked position exactly once, in descending order. */
  lemma {:induction false} NewestFirstIsComplete(blocks: seq<Block>, voice: Voice)
    ensures var at := UnmarkedNewestFirst(blocks, voice);
            && (forall p: nat :: p in at <==> p < |blocks| && Unmarked(blocks[p], voice))
            && (forall i, j | 0 <= i < j < |at| :: at[i] > at[j])
  {
    if blocks != [] {
      var n := |blocks| - 1;
      NewestFirstIsComplete(blocks[..n], voice);
      var rest := UnmarkedNewestFirst(blocks[..n], voice);
      forall k | 0 <= k < |rest|
        ensures rest[k] < n
      {
        assert rest[k] in rest;
      }
      forall p: nat
        ensures p in UnmarkedNewestFirst(blocks, voice) <==> p < |blocks| && Unmarked(blocks[p], voice)
      {
      }
    }
  }

  lemma {:induction false} NoneUnmarked(blocks: seq<Block>, voice: Voice)
    requires forall p | 0 <= p < |blocks| :: !Unmarked(blocks[p], voice)
    ensures UnmarkedNewestFirst(blocks, voice) == []
  {
    if blocks != [] { NoneUnmarked(blocks[..|blocks| - 1], voice); }
  }

  function MarkEvents(role: string, ids: seq<string>): seq<Event> {
    if ids == [] then [] else [EntryMark(role, ids[0])] + MarkEvents(role, ids[1..])
  }

  /** Distinct, non-empty ids, none of which has landed on the voice yet. */
  ghost predicate FreshBatch(blocks: seq<Block>, voice: Voice, ids: seq<string>) {
    && (forall i | 0 <= i < |ids| :: ids[i] != "" && !Landed(blocks, voice, ids[i]))
    && (forall i, j | 0 <= i < j < |ids| :: ids[i] != ids[j])
  }

  /** The i-th id is on the block at `at[i]`, as far as both lists go; every other block is unchanged. */
  ghost predicate LandedAt(old': seq<Block>, new': seq<Block>, at: seq<nat>, ids: seq<string>) {
    && |new'| == |old'|
    && (forall i | 0 <= i < |at| :: at[i] < |old'| && old'[at[i]].body.Text?)
    && (forall i | 0 <= i < |at| && i < |ids| :: new'[at[i]] == Stamp(old'[at[i]], ids[i]))
    && (forall p | 0 <= p < |old'| && p !in at :: new'[p] == old'[p])
    && (forall i | |ids| <= i < |at| :: new'[at[i]] == old'[at[i]])
  }

  lemma {:induction false} UpdateSnoc(rest: seq<Block>, b: Block, i: nat, x: Block)
    requires i < |rest|
    ensures (rest + [b])[i := x] == rest[i := x] + [b]
  {
  }

  /** With `at` the unmarked blocks of `blocks`, newest first, `r` has the id on the first of them, and
      the others are what is left unmarked. */
  ghost predicate TakesFirst(blocks: seq<Block>, at: seq<nat>, r: seq<Block>, left: seq<nat>, id: string) {
    if at == [] then r == blocks && left == []
    else
      && at[0] < |blocks| && blocks[at[0]].body.Text?
      && r == blocks[at[0] := Stamp(blocks[at[0]], id)]
      && left == at[1..]
  }

  /** Stamping takes one block off the list of unmarked ones. */
  ghost predicate StampTakes(blocks: seq<Block>, voice: Voice, id: string) {
    var r := StampNewest(blocks, voice, id);
    TakesFirst(blocks, UnmarkedNewestFirst(blocks, voice), r, UnmarkedNewestFirst(r, voice), id)
  }

  lemma {:induction false} StampTakesFirstSnoc(rest: seq<Block>, b: Block, voice: Voice, id: string)
    requires id != ""
    requires StampTakes(rest, voice, id)
    ensures StampTakes(rest + [b], voice, id)
  {
    var at := UnmarkedNewestFirst(rest, voice);
    if !Unmarked(b, voice) && at != [] { UpdateSnoc(rest, b, at[0], Stamp(rest[at[0]], id)); }
  }

  lemma {:induction false} StampTakesFirst(blocks: seq<Block>, voice: Voice, id: string)
    requires id != ""
    ensures StampTakes(blocks, voice, id)
  {
    if blocks != [] {
      var rest, b := blocks[..|blocks| - 1], blocks[|blocks| - 1];
      assert blocks == rest + [b];
      StampTakesFirst(rest, voice, id);
      StampTakesFirstSnoc(rest, b, voice, id);
    }
  }

  /** The blocks after a batch of marks of one voice. */
  function MarkAll(blocks: seq<Block>, voice: Voice, ids: seq<string>): seq<Block>
    decreases ids
  {
    if ids == [] then blocks
    else
      var next := if Landed(blocks, voice, ids[0]) then blocks else StampNewest(blocks, voice, ids[0]);
      MarkAll(next, voice, ids[1..])
  }

  lemma {:induction false} RunMarkEvents(s: State, role: string, ids: seq<string>)
    ensures Run(s, MarkEvents(role, ids)) == s.(blocks := MarkAll(s.blocks, MarkedVoice(role), ids))
    decreases ids
  {
    if ids != [] {
      var next := MarkEntry(s, role, ids[0]);
      RunMarkEvents(next, role, ids[1..]);
      assert next == s.(blocks := next.blocks);
    }
  }

  lemma {:induction false} StampLands(blocks: seq<Block>, voice: Voice, id: string, other: string)
    requires other != id && !Landed(blocks, voice, other)
    ensures !Landed(StampNewest(blocks, voice, id), voice, other)
  {
    var i := StampCases(blocks, voice, id);
  }

  lemma {:induction false} FreshRest(blocks: seq<Block>, voice: Voice, ids: seq<string>)
    requires FreshBatch(blocks, voice, ids) && ids != []
    ensures FreshBatch(StampNewest(blocks, voice, ids[0]), voice, ids[1..])
  {
    forall i | 0 <= i < |ids[1..]|
      ensures ids[1..][i] != "" && !Landed(StampNewest(blocks, voice, ids[0]), voice, ids[1..][i])
    {
      assert ids[1..][i] == ids[i + 1];
      StampLands(blocks, voice, ids[0], ids[i + 1]);
    }
  }

  /** A list of text blocks, newest first. */
  ghost predicate Listed(blocks: seq<Block>, at: seq<nat>) {
    && (forall i | 0 <= i < |at| :: at[i] < |blocks| && blocks[at[i]].body.Text?)
    && (forall i, j | 0 <= i < j < |at| :: at[i] > at[j])
  }

  lemma {:induction false} UnmarkedAreListed(blocks: seq<Block>, voice: Voice)
    ensures Listed(blocks, UnmarkedNewestFirst(blocks, voice))
  {
    NewestFirstIsComplete(blocks, voice);
    var at := UnmarkedNewestFirst(blocks, voice);
    forall i | 0 <= i < |at|
      ensures at[i] < |blocks| && blocks[at[i]].body.Text?
    {
      assert at[i] in at;
    }
  }

  lemma {:induction false} LandedAtCons(old': seq<Block>, next: seq<Block>, new': seq<Block>,
                                        at: seq<nat>, left: seq<nat>, ids: seq<string>)
    requires ids != [] && Listed(old', at)
    requires TakesFirst(old', at, next, left, ids[0])
    requires LandedAt(next, new', left, ids[1..])
    ensures LandedAt(old', new', at, ids)
  {
    if at != [] {
      assert at[0] !in left;
      forall i | 0 < i < |at|
        ensures next[at[i]] == old'[at[i]]
        ensures i < |ids| ==> new'[at[i]] == Stamp(old'[at[i]], ids[i])
        ensures i >= |ids| ==> new'[at[i]] == old'[at[i]]
      {
        assert at[i] == left[i - 1];
        if i < |ids| { assert ids[i] == ids[1..][i - 1]; }
      }
    }
  }

  lemma {:induction false} MarkAllLandsAt(blocks: seq<Block>, voice: Voice, ids: seq<string>)
    requires FreshBatch(blocks, voice, ids)
    ensures LandedAt(blocks, MarkAll(blocks, voice, ids), UnmarkedNewestFirst(blocks, voice), ids)
    decreases ids
  {
    UnmarkedAreListed(blocks, voice);
    if ids != [] {
      var next := StampNewest(blocks, voice, ids[0]);
      assert MarkAll(blocks, voice, ids) == MarkAll(next, voice, ids[1..]);
      FreshRest(blocks, voice, ids);
      MarkAllLandsAt(next, voice, ids[1..]);
      StampTakesFirst(blocks, voice, ids[0]);
      LandedAtCons(blocks, next, MarkAll(next, voice, ids[1..]), UnmarkedNewestFirst(blocks, voice),
                   UnmarkedNewestFirst(next, voice), ids);
    }
  }

  /** A batch that meets every id landed, or no unmarked block left, changes nothing. */
  lemma {:induction false} SurplusMarks(blocks: seq<Block>, voice: Voice, ids: seq<string>)
    requires forall i | 0 <= i < |ids| ::
               Landed(blocks, voice, ids[i]) || UnmarkedNewestFirst(blocks, voice) == []
    requires forall i | 0 <= i < |ids| :: ids[i] != ""
    ensures MarkAll(blocks, voice, ids) == blocks
  {
    if ids != [] {
      StampTakesFirst(blocks, voice, ids[0]);
      SurplusMarks(blocks, voice, ids[1..]);
    }
  }

  /** A batch longer than the list of unmarked blocks leaves none unmarked. */
  lemma {:induction false} AllStamped(old': seq<Block>, new': seq<Block>, at: seq<nat>, ids: seq<string>, voice: Voice)
    requires LandedAt(old', new', at, ids) && |at| <= |ids|
    requires forall i | 0 <= i < |ids| :: ids[i] != ""
    requires forall p: nat :: p in at <==> p < |old'| && Unmarked(old'[p], voice)
    ensures UnmarkedNewestFirst(new', voice) == []
  {
    forall p | 0 <= p < |new'|
      ensures !Unmarked(new'[p], voice)
    {
      if p in at {
        var k :| 0 <= k < |at| && at[k] == p;
        assert new'[p] == Stamp(old'[p], ids[k]);
      }
    }
    NoneUnmarked(new', voice);
  }

  /** A newest-first batch of fresh marks puts the i-th mark on the i-th newest unmarked block of its
      role and touches nothing else; the same batch again changes nothing. */
  lemma {:induction false} BatchLands(s: State, role: string, ids: seq<string>)
    requires FreshBatch(s.blocks, MarkedVoice(role), ids)
    ensures var voice := MarkedVoice(role);
            var s' := Run(s, MarkEvents(role, ids));
            && s' == s.(blocks := s'.blocks)
            && LandedAt(s.blocks, s'.blocks, UnmarkedNewestFirst(s.blocks, voice), ids)
            && Run(s', MarkEvents(role, ids)) == s'
  {
    var voice := MarkedVoice(role);
    var blocks' := MarkAll(s.blocks, voice, ids);
    var at := UnmarkedNewestFirst(s.blocks, voice);
    RunMarkEvents(s, role, ids);
    MarkAllLandsAt(s.blocks, voice, ids);
    NewestFirstIsComplete(s.blocks, voice);
    forall i | 0 <= i < |ids| && i < |at|
      ensures Landed(blocks', voice, ids[i])
    {
      assert at[i] in at;
      assert IsVoice(blocks'[at[i]], voice) && blocks'[at[i]].body.entryId == Some(ids[i]);
    }
    if |at| < |ids| { AllStamped(s.blocks, blocks', at, ids, voice); }
    SurplusMarks(blocks', voice, ids);
    RunMarkEvents(s.(blocks := blocks'), role, ids);
  }

  // ---------- No mark on two blocks ----------

  /** No two blocks of one voice carry one entry id. */
  ghost predicate MarksDistinct(blocks: seq<Block>) {
    forall i, j | 0 <= i < j < |blocks| && blocks[i].body.Text? && blocks[i].body.entryId.Some? ::
      IsVoice(blocks[j], blocks[i].body.voice) ==> blocks[j].body.entryId != blocks[i].body.entryId
  }

  lemma {:induction false} PlaceDistinct(s: State, call: ToolCall)
    requires MarksDistinct(s.blocks)
    ensures MarksDistinct(PlaceCall(s, call).blocks)
  {
    if call.id in s.tools {
      var i := SwapCases(s.blocks, call);
    }
  }

  lemma {:induction false} StampDistinct(blocks: seq<Block>, voice: Voice, id: string)
    requires MarksDistinct(blocks) && !Landed(blocks, voice, id)
    ensures MarksDistinct(StampNewest(blocks, voice, id))
  {
    var i := StampCases(blocks, voice, id);
  }

  /** Whatever an event but a page does to the blocks, it leaves no mark on two of them. */
  lemma {:induction false} MoveDistinct(s: State, f: Effect, s': State)
    requires MarksDistinct(s.blocks) && Moves(s, f, s') && !f.Splices?
    ensures MarksDistinct(s'.blocks)
  {
    match f
    case Places(call) => PlaceDistinct(s, call);
    case Marks(voice, id) => StampDistinct(s.blocks, voice, id);
    case _ =>
  }

  /** No page among them. */
  predicate Flat(events: seq<Event>) {
    forall i | 0 <= i < |events| :: !events[i].TranscriptPrepend?
  }

  lemma {:induction false} FlatRunDistinct(s: State, events: seq<Event>)
    requires MarksDistinct(s.blocks) && Flat(events)
    ensures MarksDistinct(Run(s, events).blocks)
    decreases |events|
  {
    if events != [] {
      StepMoves(s, events[0]);
      MoveDistinct(s, EffectOf(s, events[0]), Step(s, events[0]));
      FlatRunDistinct(Step(s, events[0]), events[1..]);
    }
  }
}
