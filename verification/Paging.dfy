/** Tail-first paging: when an older page put in front shows what replaying everything shows. */
module Paging {
  import opened Wrappers
  import opened Transcript
  import opened Effects
  import opened ToolIndex
  import opened TextConservation
  import opened MarkSlots
  import opened PageSeam
  import S = Segmentation

  /** The blocks without their ids. */
  function Bodies(blocks: seq<Block>): seq<Body> {
    seq(|blocks|, i requires 0 <= i < |blocks| => blocks[i].body)
  }

  /** Same blocks up to ids, marks included, same tools, same order. */
  ghost predicate SameView(s: State, t: State) {
    Bodies(s.blocks) == Bodies(t.blocks) && SameTools(s, t)
  }

  /** The blocks are the same when their content is and their marks are. */
  lemma {:induction false} SameParts(a: seq<Block>, b: seq<Block>)
    ensures Bodies(a) == Bodies(b) <==> Contents(a) == Contents(b) && Slots(a) == Slots(b)
  {
    if Bodies(a) == Bodies(b) {
      assert |Bodies(a)| == |a| && |Bodies(b)| == |b|;
      forall i | 0 <= i < |a|
        ensures a[i].body == b[i].body
      {
        assert Bodies(a)[i] == Bodies(b)[i];
      }
    }
    if Contents(a) == Contents(b) && Slots(a) == Slots(b) {
      assert |Contents(a)| == |a| && |Contents(b)| == |b|;
      forall i | 0 <= i < |a|
        ensures a[i].body == b[i].body
      {
        assert Contents(a)[i] == Contents(b)[i] && Slots(a)[i] == Slots(b)[i];
      }
    }
  }

  // ---------- The slots of the two views ----------

  /** Views that differ in a seal at most, where no run is open that it could cut. */
  predicate ViewsAlike(v: View, w: View) {
    && v.slots == w.slots && v.seen == w.seen
    && (LastSaid(v.slots, Agent) || LastSaid(v.slots, Thought) ==> v.sealed == w.sealed)
  }

  lemma {:induction false} StepAlike(v: View, w: View, e: Event)
    requires ViewsAlike(v, w) && S.IsPlain(e)
    ensures ViewsAlike(StepView(v, e), StepView(w, e))
  {
  }

  lemma {:induction false} RunAlike(v: View, w: View, events: seq<Event>)
    requires ViewsAlike(v, w) && S.Plain(events)
    ensures ViewsAlike(RunView(v, events), RunView(w, events))
    decreases |events|
  {
    if events != [] {
      StepAlike(v, w, events[0]);
      RunAlike(StepView(v, events[0]), StepView(w, events[0]), events[1..]);
    }
  }

  lemma {:induction false} BlankSlots(start: State, events: seq<Event>)
    requires Blank(start) && S.Plain(events)
    ensures Slots(Run(start, events).blocks) == SlotsOf(events)
  {
    assert Slots([]) == [] && start.tools.Keys == {};
    RunSlots(start, events);
    RunAlike(ViewOf(start), BLANK, events);
  }

  lemma {:induction false} PagedSlots(tail: State, older: seq<Event>)
    ensures Slots(Step(tail, TranscriptPrepend(older)).blocks) == SlotsOf(older) + Slots(tail.blocks)
  {
    StepSlots(tail, TranscriptPrepend(older));
  }

  // ---------- The theorem ----------

  /** The marks of the newer page go where they go without the older one: to nothing of the older page. */
  predicate MarksAgree(older: seq<Event>, newer: seq<Event>) {
    SlotsOf(older + newer) == SlotsOf(older) + SlotsOf(newer)
  }

  /** The older page put in front of the newer one shows what replaying both shows, entry marks included,
      if and only if the seam is clean and the marks agree. */
  lemma {:induction false} PagingEqualsReplay(start: State, older: seq<Event>, newer: seq<Event>)
    requires Blank(start) && S.Plain(older) && S.Plain(newer)
    ensures SameView(Step(Run(start, newer), TranscriptPrepend(older)), Run(start, older + newer)) <==>
            CleanSeam(older, newer) && MarksAgree(older, newer)
  {
    var tail, replay := Run(start, newer), Run(start, older + newer);
    ContentEqualsReplay(start, older, newer);
    SameParts(Step(tail, TranscriptPrepend(older)).blocks, replay.blocks);
    PagedSlots(tail, older);
    BlankSlots(start, newer);
    BlankSlots(start, older + newer);
  }

  // ---------- When the marks agree, mark by mark ----------

  predicate HasFree(slots: seq<Slot>, voice: Voice) {
    exists i | 0 <= i < |slots| :: IsFree(slots[i], voice)
  }

  predicate HasMark(slots: seq<Slot>, voice: Voice, id: string) {
    Said(voice, Some(id)) in slots
  }

  /** With the older page's slots `p` in front of the newer page's `v`, the event changes `v` as it does
      alone, and `p` not at all: a mark has landed in `v`; or has landed in `p` and finds nothing free in
      `v`; or finds a free slot in `v`, or none anywhere. And no empty chunk unmarks the end of `p`. */
  predicate Fits(p: seq<Slot>, v: seq<Slot>, e: Event) {
    match e
    case EntryMark(role, id) =>
      var voice := MarkedVoice(role);
      || HasMark(v, voice, id)
      || if HasMark(p, voice, id) then !HasFree(v, voice) else HasFree(v, voice) || !HasFree(p, voice)
    case UserChunk(_) => v == [] && LastSaid(p, User) ==> p[|p| - 1].mark == None
    case _ => true
  }

  /** Every event of the newer page fits, at its place in it. */
  predicate AllFit(older: seq<Event>, newer: seq<Event>) {
    forall k | 0 <= k < |newer| :: Fits(SlotsOf(older), SlotsOf(newer[..k]), newer[k])
  }

  lemma {:induction false} FreeSnoc(rest: seq<Slot>, x: Slot, voice: Voice)
    ensures HasFree(rest + [x], voice) <==> HasFree(rest, voice) || IsFree(x, voice)
  {
    var all := rest + [x];
    if HasFree(rest, voice) {
      var i :| 0 <= i < |rest| && IsFree(rest[i], voice);
      assert all[i] == rest[i];
    }
    if IsFree(x, voice) { assert all[|rest|] == x; }
  }

  lemma {:induction false} StampSnoc(rest: seq<Slot>, x: Slot, voice: Voice, id: string)
    ensures StampSlot(rest + [x], voice, id) ==
            if IsFree(x, voice) then rest + [Said(voice, Some(id))] else StampSlot(rest, voice, id) + [x]
  {
    assert (rest + [x])[..|rest|] == rest;
  }

  lemma {:induction false} StampBehind(p: seq<Slot>, v: seq<Slot>, voice: Voice, id: string)
    ensures StampSlot(p + v, voice, id) ==
            if HasFree(v, voice) then p + StampSlot(v, voice, id) else StampSlot(p, voice, id) + v
  {
    if v == [] {
      assert p + v == p;
    } else {
      var rest, x := v[..|v| - 1], v[|v| - 1];
      assert v == rest + [x] && p + v == (p + rest) + [x];
      StampBehind(p, rest, voice, id);
      FreeSnoc(rest, x, voice);
      StampSnoc(rest, x, voice, id);
      StampSnoc(p + rest, x, voice, id);
    }
  }

  /** Without a free slot a stamp changes nothing; with one, it adds the mark. */
  lemma {:induction false} StampAdds(slots: seq<Slot>, voice: Voice, id: string)
    ensures |StampSlot(slots, voice, id)| == |slots|
    ensures if HasFree(slots, voice) then HasMark(StampSlot(slots, voice, id), voice, id)
            else StampSlot(slots, voice, id) == slots
  {
    if slots != [] {
      var rest, x := slots[..|slots| - 1], slots[|slots| - 1];
      assert slots == rest + [x];
      StampAdds(rest, voice, id);
      FreeSnoc(rest, x, voice);
    }
  }

  lemma {:induction false} HalvesSame(a: seq<Slot>, b: seq<Slot>, c: seq<Slot>, d: seq<Slot>)
    requires |a| == |c|
    ensures a + b == c + d <==> a == c && b == d
  {
    if a + b == c + d { assert (a + b)[..|a|] == a && (c + d)[..|a|] == c && (a + b)[|a|..] == b; }
  }

  /** Where a mark goes behind the older page, when it has landed on neither side. */
  lemma {:induction false} FreshMarkFits(p: seq<Slot>, v: seq<Slot>, voice: Voice, id: string)
    requires !HasMark(p, voice, id) && !HasMark(v, voice, id)
    ensures StampSlot(p + v, voice, id) == p + StampSlot(v, voice, id) <==> HasFree(v, voice) || !HasFree(p, voice)
  {
    StampBehind(p, v, voice, id);
    StampAdds(p, voice, id);
    StampAdds(v, voice, id);
    HalvesSame(StampSlot(p, voice, id), v, p, StampSlot(v, voice, id));
  }

  lemma {:induction false} MarkFits(p: seq<Slot>, v: seq<Slot>, role: string, id: string)
    ensures var voice := MarkedVoice(role);
            Marked(p + v, voice, id) == p + Marked(v, voice, id) <==> Fits(p, v, EntryMark(role, id))
  {
    var voice := MarkedVoice(role);
    if !HasMark(p, voice, id) && !HasMark(v, voice, id) {
      FreshMarkFits(p, v, voice, id);
    } else if !HasMark(v, voice, id) {
      StampAdds(v, voice, id);
      HalvesSame(p, StampSlot(v, voice, id), p, v);
    }
  }

  lemma {:induction false} OpensSame(p: seq<Slot>, v: View, t: View, e: Event)
    requires t.slots == p + v.slots && (S.Opening(e, v.seen).Some? <==> S.Opening(e, t.seen).Some?)
    ensures OpenSlot(t, e).slots == p + OpenSlot(v, e).slots
  {
  }

  /** Text that opens as many blocks behind the older page as alone grows the same run. */
  lemma {:induction false} TextFits(p: seq<Slot>, v: View, t: View, e: Event)
    requires S.IsPlain(e) && !e.EntryMark? && t.slots == p + v.slots
    requires |TakeText(t, e).slots| == |p| + |TakeText(v, e).slots|
    ensures TakeText(t, e).slots == p + TakeText(v, e).slots <==> Fits(p, v.slots, e)
  {
    if !Regrows(t, e) && !Regrows(v, e) {
      OpensSame(p, v, t, e);
    } else if v.slots != [] {
      assert Regrows(t, e) && Regrows(v, e);
    }
  }

  /** An event that opens as many blocks behind the older page as alone leaves the same slots there, if
      and only if it fits. */
  lemma {:induction false} EventFits(p: seq<Slot>, v: View, t: View, e: Event)
    requires S.IsPlain(e) && t.slots == p + v.slots
    requires |StepView(t, e).slots| == |p| + |StepView(v, e).slots|
    ensures StepView(t, e).slots == p + StepView(v, e).slots <==> Fits(p, v.slots, e)
  {
    if e.EntryMark? {
      MarkFits(p, v.slots, e.role, e.entryId);
    } else if !e.ChunkBoundary? {
      TextFits(p, v, t, e);
    }
  }

  // ---------- Clean seams open as many blocks ----------

  lemma {:induction false} JoinsPrefix(open: Option<Voice>, seen: set<string>, events: seq<Event>, k: nat)
    requires k <= |events| && Joins(open, seen, events[..k])
    ensures Joins(open, seen, events)
    decreases k
  {
    var e := events[0];
    assert events[..k][0] == e && events[..k][1..] == events[1..][..k - 1];
    if Says(e, open.value) == "" { JoinsPrefix(open, seen + Mentions(e), events[1..], k - 1); }
  }

  lemma {:induction false} ToolsPrefix(events: seq<Event>, k: nat)
    requires k <= |events|
    ensures PageTools(events[..k]) <= PageTools(events)
    decreases k
  {
    if k > 0 {
      assert events[..k][1..] == events[1..][..k - 1];
      ToolsPrefix(events[1..], k - 1);
    }
  }

  lemma {:induction false} CleanPrefix(older: seq<Event>, newer: seq<Event>, k: nat)
    requires CleanSeam(older, newer) && k <= |newer|
    ensures CleanSeam(older, newer[..k])
  {
    ToolsPrefix(newer, k);
    if Joins(OpenAfter(None, {}, older), PageTools(older), newer[..k]) {
      JoinsPrefix(OpenAfter(None, {}, older), PageTools(older), newer, k);
    }
  }

  lemma {:induction false} CleanCounts(older: seq<Event>, newer: seq<Event>)
    requires S.Plain(older) && S.Plain(newer) && CleanSeam(older, newer)
    ensures |SlotsOf(older + newer)| == |SlotsOf(older)| + |SlotsOf(newer)|
  {
    var tail := Run(INIT, newer);
    var paged, replay := Step(tail, TranscriptPrepend(older)), Run(INIT, older + newer);
    ContentEqualsReplay(INIT, older, newer);
    assert |Contents(paged.blocks)| == |paged.blocks| && |Contents(replay.blocks)| == |replay.blocks|;
    PagedSlots(tail, older);
    BlankSlots(INIT, newer);
    BlankSlots(INIT, older + newer);
    assert |Slots(paged.blocks)| == |paged.blocks| && |Slots(replay.blocks)| == |replay.blocks|;
  }

  lemma {:induction false} NextAgrees(older: seq<Event>, newer: seq<Event>, k: nat)
    requires S.Plain(older) && S.Plain(newer) && CleanSeam(older, newer) && k < |newer|
    requires MarksAgree(older, newer[..k])
    ensures MarksAgree(older, newer[..k + 1]) <==> Fits(SlotsOf(older), SlotsOf(newer[..k]), newer[k])
  {
    var before, e := newer[..k], newer[k];
    assert newer[..k + 1] == before + [e] && older + newer[..k + 1] == (older + before) + [e];
    RunViewSnoc(BLANK, before, e);
    RunViewSnoc(BLANK, older + before, e);
    CleanPrefix(older, newer, k + 1);
    CleanCounts(older, newer[..k + 1]);
    EventFits(SlotsOf(older), RunView(BLANK, before), RunView(BLANK, older + before), e);
  }

  lemma {:induction false} FittingAgrees(older: seq<Event>, newer: seq<Event>, k: nat)
    requires S.Plain(older) && S.Plain(newer) && CleanSeam(older, newer) && k <= |newer|
    requires AllFit(older, newer)
    ensures MarksAgree(older, newer[..k])
  {
    if k == 0 {
      assert newer[..0] == [] && older + [] == older && SlotsOf(older) + [] == SlotsOf(older);
    } else {
      FittingAgrees(older, newer, k - 1);
      NextAgrees(older, newer, k - 1);
    }
  }

  /** The older page shows the same at whatever moment of the newer events it arrives. */
  ghost predicate SameAtEveryMoment(start: State, older: seq<Event>, newer: seq<Event>) {
    forall k | 0 <= k <= |newer| ::
      SameView(Step(Run(start, newer[..k]), TranscriptPrepend(older)), Run(start, older + newer[..k]))
  }

  /** An older page that may arrive after any of the newer events always shows what the whole replay
      shows, if and only if the seam is clean and every newer event fits. */
  lemma {:induction false} PagingEqualsReplayThroughout(start: State, older: seq<Event>, newer: seq<Event>)
    requires Blank(start) && S.Plain(older) && S.Plain(newer)
    ensures SameAtEveryMoment(start, older, newer) <==> CleanSeam(older, newer) && AllFit(older, newer)
  {
    forall k | 0 <= k <= |newer|
      ensures SameView(Step(Run(start, newer[..k]), TranscriptPrepend(older)), Run(start, older + newer[..k])) <==>
              CleanSeam(older, newer[..k]) && MarksAgree(older, newer[..k])
    {
      PagingEqualsReplay(start, older, newer[..k]);
    }
    assert newer[..|newer|] == newer;
    if SameAtEveryMoment(start, older, newer) {
      assert CleanSeam(older, newer);
      forall k | 0 <= k < |newer|
        ensures Fits(SlotsOf(older), SlotsOf(newer[..k]), newer[k])
      {
        NextAgrees(older, newer, k);
      }
    }
    if CleanSeam(older, newer) && AllFit(older, newer) {
      forall k | 0 <= k <= |newer|
        ensures CleanSeam(older, newer[..k]) && MarksAgree(older, newer[..k])
      {
        CleanPrefix(older, newer, k);
        FittingAgrees(older, newer, k);
      }
    }
  }

  // ---------- Newer pages that start with the user's own message ----------

  lemma {:induction false} StepStays(v: View, e: Event)
    requires S.IsPlain(e)
    ensures |v.slots| <= |StepView(v, e).slots|
  {
    if e.EntryMark? { StampAdds(v.slots, MarkedVoice(e.role), e.entryId); }
  }

  lemma {:induction false} SlotsStay(v: View, events: seq<Event>)
    requires S.Plain(events)
    ensures |v.slots| <= |RunView(v, events).slots|
    decreases |events|
  {
    if events != [] {
      StepStays(v, events[0]);
      SlotsStay(StepView(v, events[0]), events[1..]);
    }
  }

  /** Each mark of the page has landed in it already, or finds a free block in it, without having landed
      in the older page. */
  predicate MarksAtHome(older: seq<Event>, newer: seq<Event>) {
    forall k | 0 <= k < |newer| && newer[k].EntryMark? ::
      var voice, id, v := MarkedVoice(newer[k].role), newer[k].entryId, SlotsOf(newer[..k]);
      HasMark(v, voice, id) || (HasFree(v, voice) && !HasMark(SlotsOf(older), voice, id))
  }

  /** A newer page that starts with the user's own message, repeats no tool and has its marks at home shows
      the same, at whatever moment the older page arrives. */
  lemma {:induction false} UserMessageIsCleanSeam(start: State, older: seq<Event>, newer: seq<Event>)
    requires Blank(start) && S.Plain(older) && S.Plain(newer)
    requires newer != [] && newer[0].UserMessage?
    requires PageTools(older) !! PageTools(newer) && MarksAtHome(older, newer)
    ensures SameAtEveryMoment(start, older, newer)
    ensures SameView(Step(Run(start, newer), TranscriptPrepend(older)), Run(start, older + newer))
  {
    forall k | 0 <= k < |newer|
      ensures Fits(SlotsOf(older), SlotsOf(newer[..k]), newer[k])
    {
      if 0 < k {
        var v := StepView(BLANK, newer[0]);
        assert newer[..k][0] == newer[0];
        SlotsStay(v, newer[..k][1..]);
      }
    }
    PagingEqualsReplayThroughout(start, older, newer);
    assert newer[..|newer|] == newer;
  }

  // ---------- Pages that show differently ----------

  /** An older page that ends its turn is not enough: user chunks run on across the end of a turn, so
      paging shows two blocks where the whole replay shows one. */
  lemma {:induction false} TurnEndIsNotEnough()
    ensures var older, newer := [UserMessage("a"), TurnEnded([])], [UserChunk("b")];
            && !CleanSeam(older, newer)
            && !SameView(Step(Run(INIT, newer), TranscriptPrepend(older)), Run(INIT, older + newer))
  {
    var older, newer := [UserMessage("a"), TurnEnded([])], [UserChunk("b")];
    assert OpenAfter(None, {}, older) == OpenAfter(Some(User), {}, older[1..])
        == OpenAfter(Some(User), {}, older[1..][1..]);
    assert S.GoesOn(User, newer[0], PageTools(older)) && Says(newer[0], User) == "b";
    PagingEqualsReplay(INIT, older, newer);
  }

  lemma {:induction false} StraySlots(older: seq<Event>, newer: seq<Event>)
    requires older == [AgentChunk("x"), TurnEnded([])] && newer == [UserMessage("u")]
    ensures SlotsOf(older) == [Said(Agent, None)] && SlotsOf(newer) == [Said(User, None)]
  {
    var said := StepView(BLANK, older[0]);
    assert RunView(BLANK, older) == RunView(said, older[1..]) == RunView(StepView(said, older[1]), older[1..][1..]);
    assert RunView(BLANK, newer) == RunView(StepView(BLANK, newer[0]), newer[1..]);
  }

  /** Up to one event that does not fit the views are the same, with it they are not. */
  lemma {:induction false} MisfitShows(start: State, older: seq<Event>, newer: seq<Event>, e: Event)
    requires Blank(start) && S.Plain(older) && S.Plain(newer + [e]) && CleanSeam(older, newer + [e])
    requires MarksAgree(older, newer) && !Fits(SlotsOf(older), SlotsOf(newer), e)
    ensures !SameView(Step(Run(start, newer + [e]), TranscriptPrepend(older)), Run(start, older + (newer + [e])))
  {
    var all := newer + [e];
    assert all[..|newer|] == newer && all[|newer|] == e && all[..|newer| + 1] == all;
    NextAgrees(older, all, |newer|);
    PagingEqualsReplay(start, older, all);
  }

  lemma {:induction false} StrayMisfit(older: seq<Event>, newer: seq<Event>)
    requires older == [AgentChunk("x"), TurnEnded([])] && newer == [UserMessage("u")]
    ensures CleanSeam(older, newer + [EntryMark("agent", "m")]) && CleanSeam(older, newer)
    ensures AllFit(older, newer) && !Fits(SlotsOf(older), SlotsOf(newer), EntryMark("agent", "m"))
  {
    StraySlots(older, newer);
    assert IsFree(SlotsOf(older)[0], Agent);
    var all := newer + [EntryMark("agent", "m")];
    assert all[1..] == [EntryMark("agent", "m")] && all[1..][1..] == [] && newer[1..] == [];
    assert PageTools(all[1..]) == PageTools([]) == {};
    assert PageTools(all) == {} && PageTools(newer) == {};
  }

  /** A clean seam is not enough either: a mark that finds no block of its kind in the newer page reaches
      back, in the whole replay, to a block of the older one. */
  lemma {:induction false} StrayMarkReachesBack()
    ensures var older, newer := [AgentChunk("x"), TurnEnded([])], [UserMessage("u")] + [EntryMark("agent", "m")];
            && CleanSeam(older, newer)
            && !SameView(Step(Run(INIT, newer), TranscriptPrepend(older)), Run(INIT, older + newer))
  {
    var older, newer := [AgentChunk("x"), TurnEnded([])], [UserMessage("u")];
    StrayMisfit(older, newer);
    FittingAgrees(older, newer, 1);
    assert newer[..1] == newer;
    MisfitShows(INIT, older, newer, EntryMark("agent", "m"));
  }
}
