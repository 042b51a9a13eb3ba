/** The plan panel: a finished plan stays until the next user message, and folds only when finished. */
module PlanDock {
  import opened Wrappers
  import opened Transcript

  // ---------- The panel as a fold of the log ----------

  /** What the store holds of the plan panel, and whether the agent works. `retiring`: the user's next
      message takes the plan away. */
  datatype Panel = Panel(plan: Option<seq<PlanEntry>>, retiring: bool, folded: bool, working: bool)

  function PanelOf(s: State): Panel {
    Panel(s.plan, s.planCleared, s.planSettledFold, s.working)
  }

  predicate Done(entries: seq<PlanEntry>) {
    forall i | 0 <= i < |entries| :: entries[i].status == Value("completed")
  }

  /** A snapshot replaces the plan, and one that comes completed while the agent is idle retires at once;
      the same snapshot again does not bring a retiring plan back. */
  function Snapshot(p: Panel, entries: seq<PlanEntry>): Panel {
    if p.retiring && p.plan == Some(entries) then p
    else Panel(Some(entries), !p.working && Done(entries), !p.working && Done(entries), p.working)
  }

  /** One of the user's own messages: a retiring plan goes. */
  function Asked(p: Panel): Panel {
    if p.retiring then Panel(None, false, false, p.working) else p
  }

  /** The end of a turn: a finished plan retires, folded. */
  function Settled(p: Panel): Panel {
    var finished := p.plan.Some? && p.plan.value != [] && Done(p.plan.value);
    p.(retiring := p.retiring || finished, folded := p.folded || finished)
  }

  function PanelAfter(p: Panel, e: Event): Panel
    decreases e
  {
    match e
    case Plan(snapshot) =>
      if snapshot.Value? && snapshot.value != [] then Snapshot(p, snapshot.value)
      else p.(retiring := p.plan.Some?)
    case UserMessage(_) => Asked(p)
    case QueueDelivered(_) => Asked(p)
    case TurnEnded(_) => Settled(p)
    case Working(value) => p.(working := value)
    case Error(_) => p.(working := false)
    case ClearTranscript => p.(plan := None, working := false)
    case TranscriptPrepend(page) => PanelAfterAll(p, page)
    case _ => p
  }

  function PanelAfterAll(p: Panel, events: seq<Event>): Panel
    decreases events
  {
    if events == [] then p else PanelAfterAll(PanelAfter(p, events[0]), events[1..])
  }

  function PanelOnRun(actions: seq<Action>): Panel {
    if actions == [] then Panel(None, false, false, false)
    else
      var p := PanelOnRun(actions[..|actions| - 1]);
      match actions[|actions| - 1]
      case Apply(e) => PanelAfter(p, e)
      case Reset => p.(plan := None)
      case ToggleDock => p.(folded := false)
      case TakeDelta => p
  }

  /** Events that have to do with the panel. */
  predicate TouchesPanel(e: Event) {
    e.UserMessage? || e.QueueDelivered? || e.Plan? || e.TurnEnded? || e.Working? || e.Error? || e.ClearTranscript?
  }

  lemma {:induction false} ChunkKeepsPanel(s: State, e: Event)
    requires e.UserChunk? || e.AgentChunk? || e.ThoughtChunk? || e.ToolEvent? || e.EntryMark?
    ensures PanelOf(Step(s, e)) == PanelOf(s)
  {
  }

  lemma {:induction false} OthersKeepPanel(s: State, e: Event)
    requires !TouchesPanel(e) && !e.TranscriptPrepend?
    ensures PanelOf(Step(s, e)) == PanelOf(s)
  {
    if e.UserChunk? || e.AgentChunk? || e.ThoughtChunk? || e.ToolEvent? || e.EntryMark? { ChunkKeepsPanel(s, e); }
  }

  lemma {:induction false} EndTurnPanel(s: State, parts: seq<string>)
    ensures PanelOf(EndTurn(s, parts)) == Settled(PanelOf(s))
  {
  }

  /** What a snapshot does to the fields: a non-empty one is the plan shown from then on, always. It is
      retired and folded when it comes completed while the agent is idle, and otherwise neither, unless it
      repeats a retired plan, whose flags stand. An empty one only retires the plan there is. */
  lemma {:induction false} SnapshotReplaces(s: State, snapshot: Nullish<seq<PlanEntry>>, s': State)
    requires s' == Step(s, Plan(snapshot))
    ensures s'.working == s.working
    ensures snapshot.Value? && snapshot.value != [] ==>
              var over := !s.working
                          && forall i | 0 <= i < |snapshot.value| :: snapshot.value[i].status == Value("completed");
              && s'.plan == Some(snapshot.value)
              && (if s.planCleared && s.plan == Some(snapshot.value)
                  then s'.planCleared && s'.planSettledFold == s.planSettledFold
                  else s'.planCleared == s'.planSettledFold == over)
    ensures !(snapshot.Value? && snapshot.value != []) ==>
              s'.plan == s.plan && s'.planCleared == s.plan.Some? && s'.planSettledFold == s.planSettledFold
  {
  }

  lemma {:induction false} MessagePanel(s: State, e: Event)
    requires e.UserMessage? || e.QueueDelivered?
    ensures PanelOf(Step(s, e)) == Asked(PanelOf(s))
  {
  }

  lemma {:induction false} TouchPanel(s: State, e: Event)
    requires TouchesPanel(e)
    ensures PanelOf(Step(s, e)) == PanelAfter(PanelOf(s), e)
  {
    if e.TurnEnded? {
      EndTurnPanel(s, e.parts);
    } else if e.Plan? {
      SnapshotReplaces(s, e.entries, Step(s, e));
    } else if e.UserMessage? || e.QueueDelivered? {
      MessagePanel(s, e);
    }
  }

  lemma {:induction false} StepPanel(s: State, e: Event)
    ensures PanelOf(Step(s, e)) == PanelAfter(PanelOf(s), e)
    decreases e, 0
  {
    if e.TranscriptPrepend? {
      RunPanel(Emptied(s), e.page);
    } else if TouchesPanel(e) {
      TouchPanel(s, e);
    } else {
      OthersKeepPanel(s, e);
    }
  }

  lemma {:induction false} RunPanel(s: State, events: seq<Event>)
    ensures PanelOf(Run(s, events)) == PanelAfterAll(PanelOf(s), events)
    decreases events, 0
  {
    if events != [] {
      StepPanel(s, events[0]);
      RunPanel(Step(s, events[0]), events[1..]);
    }
  }

  /** On every run, pages at whatever depth, resets, clicks and renders included, the panel is the fold of
      the log. */
  lemma {:induction false} ReachablePanel(actions: seq<Action>)
    ensures PanelOf(PerformAll(INIT, actions)) == PanelOnRun(actions)
  {
    if actions != [] {
      var before, last := actions[..|actions| - 1], actions[|actions| - 1];
      ReachablePanel(before);
      if last.Apply? { StepPanel(PerformAll(INIT, before), last.event); }
    }
  }

  /** Whatever an older page holds, it does to the plan panel what its events would do if they happened
      now, at the end of the transcript. */
  lemma {:induction false} PageActsLive(s: State, page: seq<Event>)
    ensures PanelOf(Step(s, TranscriptPrepend(page))) == PanelOf(Run(s, page)) == PanelAfterAll(PanelOf(s), page)
  {
    RunPanel(Emptied(s), page);
    RunPanel(s, page);
  }

  // ---------- Whether the agent works ----------

  /** What an event says of the agent's working, if anything; a page says what its last such event says. */
  function SaysWorking(e: Event): Option<bool>
    decreases e
  {
    match e
    case Working(value) => Some(value)
    case Error(_) => Some(false)
    case ClearTranscript => Some(false)
    case TranscriptPrepend(page) => LastSaid(page)
    case _ => None
  }

  function LastSaid(events: seq<Event>): Option<bool>
    decreases events
  {
    if events == [] then None
    else
      var later := LastSaid(events[1..]);
      if later.Some? then later else SaysWorking(events[0])
  }

  /** What the last action that speaks of it says, and false before any does. */
  function WorkingAfter(actions: seq<Action>): bool {
    if actions == [] then false
    else
      var last := actions[|actions| - 1];
      if last.Apply? && SaysWorking(last.event).Some? then SaysWorking(last.event).value
      else WorkingAfter(actions[..|actions| - 1])
  }

  lemma {:induction false} PanelWorking(p: Panel, e: Event)
    ensures PanelAfter(p, e).working == if SaysWorking(e).Some? then SaysWorking(e).value else p.working
    decreases e, 0
  {
    if e.TranscriptPrepend? { PanelWorkingAll(p, e.page); }
  }

  lemma {:induction false} PanelWorkingAll(p: Panel, events: seq<Event>)
    ensures PanelAfterAll(p, events).working == if LastSaid(events).Some? then LastSaid(events).value else p.working
    decreases events, 0
  {
    if events != [] {
      PanelWorking(p, events[0]);
      PanelWorkingAll(PanelAfter(p, events[0]), events[1..]);
    }
  }

  /** On every run the agent works if and only if the last thing said of it is that it does. */
  lemma {:induction false} WorkingIsLastSaid(actions: seq<Action>)
    ensures PerformAll(INIT, actions).working == WorkingAfter(actions)
  {
    if actions != [] {
      var before, last := actions[..|actions| - 1], actions[|actions| - 1];
      WorkingIsLastSaid(before);
      if last.Apply? {
        StepPanel(PerformAll(INIT, before), last.event);
        PanelWorking(PanelOf(PerformAll(INIT, before)), last.event);
      }
    }
  }

  // ---------- The plan shown is the last one ----------

  /** The last non-empty snapshot of an event, if it has one; a clear forgets. */
  function LastPlan(held: Option<seq<PlanEntry>>, e: Event): Option<seq<PlanEntry>>
    decreases e
  {
    match e
    case Plan(snapshot) => if snapshot.Value? && snapshot.value != [] then Some(snapshot.value) else held
    case ClearTranscript => None
    case TranscriptPrepend(page) => LastPlanOf(held, page)
    case _ => held
  }

  function LastPlanOf(held: Option<seq<PlanEntry>>, events: seq<Event>): Option<seq<PlanEntry>>
    decreases events
  {
    if events == [] then held else LastPlanOf(LastPlan(held, events[0]), events[1..])
  }

  lemma {:induction false} LastPlanSnoc(held: Option<seq<PlanEntry>>, log: seq<Event>, e: Event)
    ensures LastPlanOf(held, log + [e]) == LastPlan(LastPlanOf(held, log), e)
    decreases |log|
  {
    var all := log + [e];
    if log == [] {
      assert all[1..] == [];
    } else {
      assert all[0] == log[0] && all[1..] == log[1..] + [e];
      LastPlanSnoc(LastPlan(held, log[0]), log[1..], e);
    }
  }

  lemma {:induction false} ShownAfter(p: Panel, held: Option<seq<PlanEntry>>, e: Event)
    requires p.plan.Some? ==> p.plan == held
    ensures var p' := PanelAfter(p, e);
            p'.plan.Some? ==> p'.plan == LastPlan(held, e)
    decreases e, 0
  {
    if e.TranscriptPrepend? { ShownAfterAll(p, held, e.page); }
  }

  lemma {:induction false} ShownAfterAll(p: Panel, held: Option<seq<PlanEntry>>, events: seq<Event>)
    requires p.plan.Some? ==> p.plan == held
    ensures var p' := PanelAfterAll(p, events);
            p'.plan.Some? ==> p'.plan == LastPlanOf(held, events)
    decreases events, 0
  {
    if events != [] {
      ShownAfter(p, held, events[0]);
      ShownAfterAll(PanelAfter(p, events[0]), LastPlan(held, events[0]), events[1..]);
    }
  }

  /** On every run a plan that shows is the last snapshot since the last clear. */
  lemma {:induction false} ShownIsLast(actions: seq<Action>)
    ensures var plan := PerformAll(INIT, actions).plan;
            plan.Some? ==> plan == LastPlanOf(None, SinceClear(actions))
  {
    if actions != [] {
      var before, last := actions[..|actions| - 1], actions[|actions| - 1];
      var s, log := PerformAll(INIT, before), SinceClear(before);
      ShownIsLast(before);
      if last.Apply? {
        StepPanel(s, last.event);
        ShownAfter(PanelOf(s), LastPlanOf(None, log), last.event);
        LastPlanSnoc(None, log, last.event);
      }
    }
  }

  // ---------- The fold ----------

  /** A plan presented folded by a settle has only completed entries. */
  ghost predicate FoldIsSettled(s: State) {
    s.planSettledFold && s.plan.Some? ==> AllCompleted(s.plan.value)
  }

  lemma {:induction false} StepFold(s: State, e: Event)
    requires FoldIsSettled(s)
    ensures FoldIsSettled(Step(s, e))
    decreases e
  {
    if e.TranscriptPrepend? {
      RunFold(Emptied(s), e.page);
    } else if e.UserMessage? || e.QueueDelivered? || e.Plan? || e.TurnEnded? {
    } else {
    }
  }

  lemma {:induction false} RunFold(s: State, events: seq<Event>)
    requires FoldIsSettled(s)
    ensures FoldIsSettled(Run(s, events))
    decreases events
  {
    if events != [] {
      StepFold(s, events[0]);
      RunFold(Step(s, events[0]), events[1..]);
    }
  }

  /** In every reachable state, pages, clears, resets and clicks included. */
  lemma {:induction false} ReachableFoldIsSettled(actions: seq<Action>)
    ensures FoldIsSettled(PerformAll(INIT, actions))
  {
    if actions != [] {
      var n := |actions| - 1;
      ReachableFoldIsSettled(actions[..n]);
      if actions[n].Apply? { StepFold(PerformAll(INIT, actions[..n]), actions[n].event); }
    }
  }

  // ---------- Retirement ----------

  /** The plan is `entries`, and the next message of the user's own takes it away. */
  ghost predicate Retiring(s: State, entries: seq<PlanEntry>) {
    s.plan == Some(entries) && s.planCleared
  }

  /** The end of a turn retires a finished plan, and folds it, without taking it away. */
  lemma {:induction false} TurnEndRetires(s: State, parts: seq<string>)
    requires FinishedPlan(s)
    ensures var s' := Step(s, TurnEnded(parts));
            Retiring(s', s.plan.value) && s'.planSettledFold
  {
  }

  /** What leaves a retiring plan alone: no message of the user's own and no clear, at whatever depth of a
      page, and no snapshot but an empty one or the same one again. */
  predicate HarmlessEvent(e: Event, entries: seq<PlanEntry>)
    decreases e
  {
    match e
    case UserMessage(_) => false
    case QueueDelivered(_) => false
    case ClearTranscript => false
    case Plan(snapshot) => snapshot.Value? && snapshot.value != [] ==> snapshot.value == entries
    case TranscriptPrepend(page) => HarmlessPage(page, entries)
    case _ => true
  }

  predicate HarmlessPage(events: seq<Event>, entries: seq<PlanEntry>)
    decreases events
  {
    events != [] ==> HarmlessEvent(events[0], entries) && HarmlessPage(events[1..], entries)
  }

  predicate Harmless(a: Action, entries: seq<PlanEntry>) {
    match a
    case ToggleDock => true
    case TakeDelta => true
    case Reset => false
    case Apply(e) => HarmlessEvent(e, entries)
  }

  /** The event brings no plan, at whatever depth of a page. */
  predicate BringsNoPlan(e: Event)
    decreases e
  {
    match e
    case Plan(snapshot) => snapshot.Value? ==> snapshot.value == []
    case TranscriptPrepend(page) => PageBringsNoPlan(page)
    case _ => true
  }

  predicate PageBringsNoPlan(events: seq<Event>)
    decreases events
  {
    events != [] ==> BringsNoPlan(events[0]) && PageBringsNoPlan(events[1..])
  }

  lemma {:induction false} TurnEndKeeps(s: State, parts: seq<string>)
    requires s.planCleared
    ensures EndTurn(s, parts).plan == s.plan && EndTurn(s, parts).planCleared
  {
  }

  lemma {:induction false} HarmlessKeeps(s: State, e: Event, entries: seq<PlanEntry>)
    requires Retiring(s, entries) && HarmlessEvent(e, entries)
    ensures Retiring(Step(s, e), entries)
    decreases e
  {
    if e.TurnEnded? { TurnEndKeeps(s, e.parts); }
    if e.TranscriptPrepend? { HarmlessPageKeeps(Emptied(s), e.page, entries); }
  }

  /** A page rebuilt in the middle of a read leaves a retiring plan alone if all its events do. */
  lemma {:induction false} HarmlessPageKeeps(s: State, events: seq<Event>, entries: seq<PlanEntry>)
    requires Retiring(s, entries) && HarmlessPage(events, entries)
    ensures Retiring(Run(s, events), entries)
    decreases events
  {
    if events != [] {
      HarmlessKeeps(s, events[0], entries);
      HarmlessPageKeeps(Step(s, events[0]), events[1..], entries);
    }
  }

  /** Without a snapshot no plan appears. */
  lemma {:induction false} StaysGone(s: State, e: Event)
    requires s.plan == None && BringsNoPlan(e)
    ensures Step(s, e).plan == None
    decreases e
  {
    if e.TranscriptPrepend? { RunStaysGone(Emptied(s), e.page); }
  }

  lemma {:induction false} RunStaysGone(s: State, events: seq<Event>)
    requires s.plan == None && PageBringsNoPlan(events)
    ensures Run(s, events).plan == None
    decreases events
  {
    if events != [] {
      StaysGone(s, events[0]);
      RunStaysGone(Step(s, events[0]), events[1..]);
    }
  }

  lemma {:induction false} HarmTakes(s: State, e: Event, entries: seq<PlanEntry>)
    requires Retiring(s, entries) && BringsNoPlan(e) && !HarmlessEvent(e, entries)
    ensures Step(s, e).plan == None
    decreases e
  {
    if e.TranscriptPrepend? { HarmInPageTakes(Emptied(s), e.page, entries); }
  }

  lemma {:induction false} HarmInPageTakes(s: State, events: seq<Event>, entries: seq<PlanEntry>)
    requires Retiring(s, entries) && PageBringsNoPlan(events) && !HarmlessPage(events, entries)
    ensures Run(s, events).plan == None
    decreases events
  {
    var next := Step(s, events[0]);
    if HarmlessEvent(events[0], entries) {
      HarmlessKeeps(s, events[0], entries);
      HarmInPageTakes(next, events[1..], entries);
    } else {
      HarmTakes(s, events[0], entries);
      RunStaysGone(next, events[1..]);
    }
  }

  lemma {:induction false} SnapshotDecides(s: State, snapshot: Nullish<seq<PlanEntry>>, entries: seq<PlanEntry>)
    requires Retiring(s, entries)
    ensures Retiring(Step(s, Plan(snapshot)), entries) <==> HarmlessEvent(Plan(snapshot), entries)
  {
  }

  /** An action leaves a retiring plan as it is exactly when it is harmless; of a page, provided it brings
      no plan of its own. */
  lemma {:induction false} HarmlessExactly(s: State, a: Action, entries: seq<PlanEntry>)
    requires Retiring(s, entries)
    requires a.Apply? && a.event.TranscriptPrepend? ==> PageBringsNoPlan(a.event.page)
    ensures Retiring(Perform(s, a), entries) <==> Harmless(a, entries)
  {
    if a.Apply? {
      if a.event.Plan? {
        SnapshotDecides(s, a.event.entries, entries);
      } else if HarmlessEvent(a.event, entries) {
        HarmlessKeeps(s, a.event, entries);
      } else {
        HarmTakes(s, a.event, entries);
      }
    }
  }

  /** So an older page takes a retiring plan away in the middle of a read, with nothing sent: every page
      with one of the user's own messages, or a clear, and no snapshot. */
  lemma {:induction false} OlderMessageTakesPlan(s: State, page: seq<Event>, entries: seq<PlanEntry>)
    requires Retiring(s, entries) && PageBringsNoPlan(page)
    ensures Step(s, TranscriptPrepend(page)).plan == (if HarmlessPage(page, entries) then Some(entries) else None)
  {
    if HarmlessPage(page, entries) {
      HarmlessKeeps(s, TranscriptPrepend(page), entries);
    } else {
      HarmTakes(s, TranscriptPrepend(page), entries);
    }
  }

  /** A page that brings the plan itself can retire it anew: only for these the harm inside does not decide. */
  lemma {:induction false} SnapshotRestores(s: State, text: string, entries: seq<PlanEntry>)
    requires Retiring(s, entries) && entries != [] && AllCompleted(entries) && !s.working
    ensures var page := [UserMessage(text), Plan(Value(entries))];
            !HarmlessPage(page, entries) && Retiring(Step(s, TranscriptPrepend(page)), entries)
  {
    var page := [UserMessage(text), Plan(Value(entries))];
    var t := Step(Emptied(s), page[0]);
    assert Run(Emptied(s), page) == Run(t, page[1..]) == Run(Step(t, page[1]), page[1..][1..]);
  }

  function PerformFrom(s: State, actions: seq<Action>): State
    decreases |actions|
  {
    if actions == [] then s else PerformFrom(Perform(s, actions[0]), actions[1..])
  }

  lemma {:induction false} HarmlessRunKeeps(s: State, actions: seq<Action>, entries: seq<PlanEntry>)
    requires Retiring(s, entries)
    requires forall i | 0 <= i < |actions| :: Harmless(actions[i], entries)
    ensures Retiring(PerformFrom(s, actions), entries)
    decreases |actions|
  {
    if actions != [] {
      if actions[0].Apply? { HarmlessKeeps(s, actions[0].event, entries); }
      HarmlessRunKeeps(Perform(s, actions[0]), actions[1..], entries);
    }
  }

  /** A finished plan survives its turn end and any harmless run after it; the user's next message,
      typed or delivered from the outbox, then removes it and its fold. */
  lemma {:induction false} FinishedPlanStaysUntilNextMessage(s: State, parts: seq<string>,
                                                             actions: seq<Action>, text: string)
    requires FinishedPlan(s)
    requires forall i | 0 <= i < |actions| :: Harmless(actions[i], s.plan.value)
    ensures var s' := PerformFrom(Step(s, TurnEnded(parts)), actions);
            && s'.plan == s.plan
            && Step(s', UserMessage(text)).plan == None
            && Step(s', QueueDelivered(text)).plan == None
            && !Step(s', UserMessage(text)).planSettledFold
            && !Step(s', QueueDelivered(text)).planSettledFold
  {
    TurnEndRetires(s, parts);
    HarmlessRunKeeps(Step(s, TurnEnded(parts)), actions, s.plan.value);
  }
}
