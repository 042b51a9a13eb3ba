/** The window of blocks the view mounts, and how it follows a page put in front. */
module RenderWindow {
  import opened Sequences
  import opened Transcript
  import opened Effects
  import opened MarkSlots
  import BlockIds
  import Folding

  const INITIAL_WINDOW := 60

  /** The first position a window can begin at without hanging off the tail. */
  function TailStart(total: nat): nat {
    Max(0, total - INITIAL_WINDOW)
  }

  /** Where the mounted slice begins. */
  function Begin(start: nat, total: nat): (begin: nat)
    ensures begin <= total
  {
    Min(start, TailStart(total))
  }

  function Visible(blocks: seq<Block>, start: nat): seq<Block> {
    blocks[Begin(start, |blocks|)..]
  }

  ghost predicate IsSuffix<T>(s: seq<T>, of: seq<T>) {
    |s| <= |of| && of[|of| - |s|..] == s
  }

  /** Blocks `front` arrive before `held` and `start` moves by any `shift`: when the old slice is a suffix
      of the new one, and when it is the same slice. */
  lemma {:induction false} ShiftedWindow(front: seq<Block>, held: seq<Block>, start: nat, shift: nat)
    ensures IsSuffix(Visible(held, start), Visible(front + held, start + shift)) <==>
            shift <= |front| || start >= TailStart(|held|)
    ensures Visible(front + held, start + shift) == Visible(held, start) <==>
            if start < TailStart(|held|) then shift == |front|
            else front == [] || (|held| >= 60
                                 && start + shift >= |front| + |held| - 60)
  {
  }

  lemma {:induction false} FrontKeepsVisible(s: State, front: seq<Block>, start: nat, s': State)
    requires s'.blocks == front + s.blocks && s'.prependDelta == |front|
    ensures IsSuffix(Visible(s.blocks, start), Visible(s'.blocks, start + s'.prependDelta))
    ensures Visible(s'.blocks, start + s'.prependDelta) == Visible(s.blocks, start) <==>
            s'.prependDelta == 0 || |s.blocks| >= 60
  {
    ShiftedWindow(front, s.blocks, start, |front|);
  }

  /** The view consumes `prependDelta` after one page: what was mounted stays mounted, and nothing else
      is mounted exactly when the page was empty or a window's worth of blocks was held. */
  lemma {:induction false} PageKeepsVisible(s: State, page: seq<Event>, start: nat, s': State)
    requires s' == Step(s, TranscriptPrepend(page))
    ensures IsSuffix(Visible(s.blocks, start), Visible(s'.blocks, start + s'.prependDelta))
    ensures Visible(s'.blocks, start + s'.prependDelta) == Visible(s.blocks, start) <==>
            s'.prependDelta == 0 || |s.blocks| >= 60
  {
    FrontKeepsVisible(s, Run(Emptied(s), page).blocks, start, s');
  }

  /** `newer` arrives before what `s` holds, then `older` before both, and the window moves by the second
      only: what was mounted stays mounted, and exactly when nothing else is mounted. */
  lemma {:induction false} TwoFronts(older: seq<Block>, newer: seq<Block>, held: seq<Block>, all: seq<Block>,
                                     start: nat)
    requires all == older + newer + held
    ensures IsSuffix(Visible(held, start), Visible(all, start + |older|))
    ensures Visible(all, start + |older|) == Visible(held, start) <==>
            if start < TailStart(|held|) then |newer| == 0
            else |newer| + |older| == 0
                 || (|held| >= 60 && start + |older| >= |all| - 60)
  {
    ShiftedWindow(older + newer, held, start, |older|);
  }

  lemma {:induction false} PageInFront(s: State, page: seq<Event>, s': State) returns (front: seq<Block>)
    requires s' == Step(s, TranscriptPrepend(page))
    ensures s'.blocks == front + s.blocks && s'.prependDelta == |front|
  {
    front := Run(Emptied(s), page).blocks;
  }

  /** Two pages reduced before the view consumes the first: only the second one's count is left. What was
      mounted stays mounted; exactly when nothing else is mounted is stated outright. */
  lemma {:induction false} SecondPageHidesFirstShift(s: State, first: seq<Event>, second: seq<Event>, start: nat,
                                                     s1: State, s2: State)
    requires s1 == Step(s, TranscriptPrepend(first)) && s2 == Step(s1, TranscriptPrepend(second))
    ensures |s2.blocks| == s2.prependDelta + s1.prependDelta + |s.blocks|
    ensures IsSuffix(Visible(s.blocks, start), Visible(s2.blocks, start + s2.prependDelta))
    ensures Visible(s2.blocks, start + s2.prependDelta) == Visible(s.blocks, start) <==>
            if start < TailStart(|s.blocks|) then s1.prependDelta == 0
            else s1.prependDelta + s2.prependDelta == 0
                 || (|s.blocks| >= 60 && start + s2.prependDelta >= |s2.blocks| - 60)
  {
    var newer := PageInFront(s, first, s1);
    var older := PageInFront(s1, second, s2);
    Reassociate(older, newer, s.blocks);
    TwoFronts(older, newer, s.blocks, s2.blocks, start);
  }

  // ---------- A whole batch between two renders ----------

  /** How many blocks an event puts in front. */
  function InFront(e: Event): nat {
    if e.TranscriptPrepend? then |SlotsOf(e.page)| else 0
  }

  function PutInFront(events: seq<Event>): nat {
    if events == [] then 0 else InFront(events[0]) + PutInFront(events[1..])
  }

  /** What is left for the view to take: what the last page put in front. */
  function DeltaAfter(delta: nat, events: seq<Event>): nat
    decreases |events|
  {
    if events == [] then delta
    else DeltaAfter(if events[0].TranscriptPrepend? then InFront(events[0]) else delta, events[1..])
  }

  /** No clear between two renders: a clear unmounts everything. */
  predicate NoClear(events: seq<Event>) {
    forall i | 0 <= i < |events| :: !events[i].ClearTranscript?
  }

  lemma {:induction false} PageSize(s: State, page: seq<Event>)
    ensures |Run(Emptied(s), page).blocks| == |SlotsOf(page)|
  {
    assert ViewOf(Emptied(s)) == BLANK by { assert Slots([]) == []; }
    RunSlots(Emptied(s), page);
  }

  lemma {:induction false} KeepsDelta(s: State, e: Event)
    requires !e.TranscriptPrepend?
    ensures Step(s, e).prependDelta == s.prependDelta
  {
    if e.UserMessage? || e.QueueDelivered? || e.UserChunk? {
    } else if e.AgentChunk? || e.ThoughtChunk? {
    } else if e.ToolEvent? || e.Plan? {
    }
  }

  lemma {:induction false} EventKeeps(s: State, e: Event, s': State)
    requires !e.ClearTranscript? && s' == Step(s, e)
    ensures BlockIds.KeptAt(s.blocks, s'.blocks, InFront(e))
    ensures s'.prependDelta == if e.TranscriptPrepend? then InFront(e) else s.prependDelta
  {
    if e.TranscriptPrepend? {
      var front := PageInFront(s, e.page, s');
      PageSize(s, e.page);
    } else {
      StepMoves(s, e);
      BlockIds.MoveKeeps(s, EffectOf(s, e), s');
      KeepsDelta(s, e);
    }
  }

  lemma {:induction false} EventKeepsOn(s: State, e: Event, next: State, after: State, further: nat)
    requires !e.ClearTranscript? && next == Step(s, e)
    requires BlockIds.KeptAt(next.blocks, after.blocks, further)
    ensures BlockIds.KeptAt(s.blocks, after.blocks, InFront(e) + further)
  {
    EventKeeps(s, e, next);
    BlockIds.KeptOn(s.blocks, next.blocks, after.blocks, InFront(e), further);
  }

  /** After a batch the blocks held before are where the pages' blocks moved them. */
  lemma {:induction false} BatchKeeps(s: State, events: seq<Event>)
    requires NoClear(events)
    ensures BlockIds.KeptAt(s.blocks, Run(s, events).blocks, PutInFront(events))
    decreases |events|
  {
    if events != [] {
      var next := Step(s, events[0]);
      BatchKeeps(next, events[1..]);
      EventKeepsOn(s, events[0], next, Run(s, events), PutInFront(events[1..]));
    }
  }

  /** The count left for the view is the last page's. */
  lemma {:induction false} BatchLeaves(s: State, events: seq<Event>)
    requires NoClear(events)
    ensures Run(s, events).prependDelta == DeltaAfter(s.prependDelta, events)
    decreases |events|
  {
    if events != [] {
      EventKeeps(s, events[0], Step(s, events[0]));
      BatchLeaves(Step(s, events[0]), events[1..]);
    }
  }

  lemma {:induction false} LastOfFront(delta: nat, events: seq<Event>)
    ensures DeltaAfter(delta, events) <= delta + PutInFront(events)
    decreases |events|
  {
    if events != [] {
      LastOfFront(if events[0].TranscriptPrepend? then InFront(events[0]) else delta, events[1..]);
    }
  }

  ghost predicate HasId(blocks: seq<Block>, id: nat) {
    exists j | 0 <= j < |blocks| :: blocks[j].id == id
  }

  /** Every block of `old'` is in `new'`, by its id. */
  ghost predicate StillMounted(old': seq<Block>, new': seq<Block>) {
    forall i | 0 <= i < |old'| :: HasId(new', old'[i].id)
  }

  lemma {:induction false} MountedExactly(held: seq<Block>, all: seq<Block>, at: nat, from: nat, begin: nat)
    requires BlockIds.KeptAt(held, all, at) && Folding.DistinctIds(all)
    requires from < |held| && begin <= |all|
    ensures StillMounted(held[from..], all[begin..]) <==> begin <= at + from
  {
    var old', new' := held[from..], all[begin..];
    assert old'[0] == held[from] && all[at + from].id == held[from].id;
    if begin <= at + from {
      forall i | 0 <= i < |old'|
        ensures HasId(new', old'[i].id)
      {
        assert new'[at + from + i - begin] == all[at + (from + i)] && old'[i] == held[from + i];
      }
    }
  }

  /** Any batch but a clear between two renders, pages and new blocks mixed, on a reachable transcript whose
      count the view has taken: exactly when all that was mounted still is, and that a window that begins
      no later than its tail keeps it always. With a window's worth held it then mounts, besides what came
      behind, exactly the blocks of all pages but the last. */
  lemma {:induction false} BatchKeepsMounted(s: State, events: seq<Event>, start: nat, s': State)
    requires BlockIds.Stamped(s, 1) && s.prependDelta == 0 && s.blocks != []
    requires NoClear(events) && s' == Run(s, events)
    ensures var n, front, delta := |s.blocks|, PutInFront(events), DeltaAfter(0, events);
            && s'.prependDelta == delta <= front && front + n <= |s'.blocks|
            && (StillMounted(Visible(s.blocks, start), Visible(s'.blocks, start + delta)) <==>
                start + delta <= front + Begin(start, n) || |s'.blocks| <= 60 + front + Begin(start, n))
            && (start <= TailStart(n) ==> StillMounted(Visible(s.blocks, start), Visible(s'.blocks, start + delta)))
            && (start <= TailStart(n) && n >= 60 ==>
                front + Begin(start, n) - Begin(start + delta, |s'.blocks|) == front - delta)
  {
    BatchKeeps(s, events);
    BatchLeaves(s, events);
    LastOfFront(0, events);
    BlockIds.RunStamped(s, events, 1);
    var n, front, delta := |s.blocks|, PutInFront(events), DeltaAfter(0, events);
    MountedExactly(s.blocks, s'.blocks, front, Begin(start, n), Begin(start + delta, |s'.blocks|));
  }

  // ---------- Pages that change what is mounted ----------

  lemma {:induction false} OneMessage(s: State, text: string)
    ensures |Run(s, [UserMessage(text)]).blocks| == |s.blocks| + 1
  {
    var events := [UserMessage(text)];
    assert Run(s, events) == Run(Step(s, events[0]), events[1..]);
  }

  /** With one block held, a page of one more mounts both. */
  lemma {:induction false} ShortTranscriptMountsPage()
    ensures var s := Run(INIT, [UserMessage("b")]);
            var s' := Step(s, TranscriptPrepend([UserMessage("a")]));
            && s'.prependDelta == 1 && |Visible(s.blocks, 0)| == 1 && |Visible(s'.blocks, 0 + s'.prependDelta)| == 2
  {
    var s := Run(INIT, [UserMessage("b")]);
    OneMessage(INIT, "b");
    OneMessage(Emptied(s), "a");
  }

  /** Two pages of one block before one render, with a window's worth held: one block more is mounted. */
  lemma {:induction false} SecondPageMountsMore(s: State, start: nat)
    requires |s.blocks| >= 60 && start <= TailStart(|s.blocks|)
    ensures var s1 := Step(s, TranscriptPrepend([UserMessage("b")]));
            var s2 := Step(s1, TranscriptPrepend([UserMessage("a")]));
            |Visible(s2.blocks, start + s2.prependDelta)| == |Visible(s.blocks, start)| + 1
  {
    var s1 := Step(s, TranscriptPrepend([UserMessage("b")]));
    OneMessage(Emptied(s), "b");
    OneMessage(Emptied(s1), "a");
  }

  /** No two mounted blocks share an id, on any run: the folding walk can recognise the tail by its id. */
  lemma {:induction false} VisibleIdsDiffer(actions: seq<Action>, start: nat)
    ensures Folding.DistinctIds(Visible(PerformAll(INIT, actions).blocks, start))
  {
    BlockIds.ReachableStamped(actions);
    var blocks := PerformAll(INIT, actions).blocks;
    var begin := Begin(start, |blocks|);
    forall k, l | 0 <= k < l < |blocks[begin..]|
      ensures blocks[begin..][k].id != blocks[begin..][l].id
    {
      assert blocks[begin..][k] == blocks[begin + k] && blocks[begin..][l] == blocks[begin + l];
    }
  }
}
