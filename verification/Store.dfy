/**
 The store itself: mutable fields, updated by one method per event kind as the source does.
 Every method is proved to move the fields exactly as the reducer on values (`Transcript.Step`) says,
 and a ghost log ties the fields to the whole history of the store.
 */
module TranscriptStore {
  import opened Wrappers
  import T = Transcript

  /** The actions a batch of raw messages amounts to. */
  function Parsed(rawList: seq<Option<T.Event>>): seq<T.Action> {
    if rawList == [] then []
    else (if rawList[0].None? then [] else [T.Apply(rawList[0].value)]) + Parsed(rawList[1..])
  }

  lemma {:induction false} ParsedOne(raw: Option<T.Event>)
    ensures Parsed([raw]) == if raw.None? then [] else [T.Apply(raw.value)]
  {
  }

  lemma {:induction false} ParsedStep(log: seq<T.Action>, rawList: seq<Option<T.Event>>, i: nat)
    requires i < |rawList|
    ensures log + Parsed(rawList[i..]) ==
            (if rawList[i].None? then log else log + [T.Apply(rawList[i].value)]) + Parsed(rawList[i + 1..])
  {
    assert rawList[i..][1..] == rawList[i + 1..];
  }

  class Store {
    var blocks: seq<T.Block>
    var tools: map<string, T.ToolCall>
    var toolOrder: seq<string>
    var tailSealed: bool
    var chunkSealed: bool
    var plan: Option<seq<T.PlanEntry>>
    var planCleared: bool
    var planSettledFold: bool
    var working: bool
    var pendingQueue: seq<string>
    var prependDelta: nat
    var nextBlockId: nat

    var appliedCount: nat
    var rejectedCount: nat
    var revision: nat

    ghost var log: seq<T.Action>

    /** The transcript fields as one value. */
    ghost function Snapshot(): T.State
      reads this
    {
      T.State(blocks, tools, toolOrder, tailSealed, chunkSealed, plan, planCleared, planSettledFold,
              working, pendingQueue, prependDelta, nextBlockId)
    }

    /** The fields are what the reducer makes of everything logged so far. */
    ghost predicate Valid()
      reads this
    {
      Snapshot() == T.PerformAll(T.INIT, log)
    }

    constructor ()
      ensures Valid() && log == []
      ensures appliedCount == rejectedCount == revision == 0
    {
      blocks, tools, toolOrder, tailSealed, chunkSealed := [], map[], [], false, false;
      plan, planCleared, planSettledFold := None, false, false;
      working, pendingQueue, prependDelta, nextBlockId := false, [], 0, 1;
      appliedCount, rejectedCount, revision, log := 0, 0, 0, [];
    }

    method Push(body: T.Body)
      modifies `blocks, `nextBlockId
      ensures Snapshot() == T.Push(old(Snapshot()), body)
    {
      var stamped := T.Block(nextBlockId, body);
      nextBlockId := nextBlockId + 1;
      blocks := blocks + [stamped];
    }

    method Enqueue(text: string)
      modifies `pendingQueue
      ensures Snapshot() == T.Step(old(Snapshot()), T.QueueMessage(text))
    {
      pendingQueue := pendingQueue + [text];
    }

    method SealChunk()
      modifies `chunkSealed
      ensures Snapshot() == T.Step(old(Snapshot()), T.ChunkBoundary)
    {
      chunkSealed := true;
    }

    method Dequeue(text: string) returns (found: bool)
      modifies `pendingQueue
      ensures found <==> text in old(pendingQueue)
      ensures pendingQueue == T.RemoveFirst(old(pendingQueue), text)
    {
      var idx := 0;
      while idx < |pendingQueue| && pendingQueue[idx] != text
        invariant idx <= |pendingQueue| && text !in pendingQueue[..idx]
        invariant pendingQueue == old(pendingQueue)
      {
        idx := idx + 1;
      }
      T.RemoveFirstAt(pendingQueue, idx, text);
      if idx == |pendingQueue| {
        assert pendingQueue[..idx] == pendingQueue;
        return false;
      }
      pendingQueue := pendingQueue[..idx] + pendingQueue[idx + 1..];
      return true;
    }

    /** Opens or keeps the block the next chunk of `voice` goes to, and leaves it last. */
    method Tail(voice: T.Voice)
      modifies `blocks, `nextBlockId, `tailSealed, `chunkSealed
      ensures Snapshot() == T.OpenTail(old(Snapshot()), voice)
    {
      if |blocks| > 0 {
        var last := blocks[|blocks| - 1];
        if last.body.Text? && last.body.voice == voice && !tailSealed && !chunkSealed {
          assert last.body.text + "" == last.body.text;
          blocks := blocks[|blocks| - 1 := T.Block(last.id, T.Text(voice, last.body.text, None))];
          return;
        }
      }
      tailSealed := false;
      chunkSealed := false;
      Push(T.Text(voice, "", None));
    }

    method AppendChunk(voice: T.Voice, text: string)
      modifies `blocks, `nextBlockId, `tailSealed, `chunkSealed
      ensures Snapshot() == T.AppendChunk(old(Snapshot()), voice, text)
    {
      if text != "" {
        T.GrowOpenTail(Snapshot(), voice, text);
        Tail(voice);
        var last := blocks[|blocks| - 1];
        blocks := blocks[|blocks| - 1 :=
                         T.Block(last.id, T.Text(last.body.voice, last.body.text + text, None))];
      }
    }

    method UserTail(text: string)
      modifies `blocks, `nextBlockId
      ensures Snapshot() == T.Step(old(Snapshot()), T.UserChunk(text))
    {
      if |blocks| > 0 {
        var last := blocks[|blocks| - 1];
        if last.body.Text? && last.body.voice == T.User {
          blocks := blocks[|blocks| - 1 := T.Block(last.id, T.Text(T.User, last.body.text + text, None))];
          return;
        }
      }
      if text == "" { return; }
      Push(T.Text(T.User, text, None));
    }

    method RetirePlan()
      modifies `plan, `planCleared, `planSettledFold
      ensures Snapshot() == T.RetirePlan(old(Snapshot()))
    {
      if planCleared {
        plan := None;
        planCleared := false;
        planSettledFold := false;
      }
    }

    /** A message of the user's own: it opens a turn, so a retired plan goes. */
    method OpenTurn(text: string)
      modifies `blocks, `nextBlockId, `plan, `planCleared, `planSettledFold
      ensures Snapshot() == T.Step(old(Snapshot()), T.UserMessage(text))
    {
      RetirePlan();
      Push(T.Text(T.User, text, None));
    }

    method Deliver(text: string)
      modifies `blocks, `nextBlockId, `plan, `planCleared, `planSettledFold, `pendingQueue
      ensures Snapshot() == T.Step(old(Snapshot()), T.QueueDelivered(text))
    {
      var _ := Dequeue(text);
      OpenTurn(text);
    }

    method Fail(text: string)
      modifies `blocks, `nextBlockId, `working
      ensures Snapshot() == T.Step(old(Snapshot()), T.Error(text))
    {
      working := false;
      Push(T.Text(T.Failure, text, None));
    }

    method Notify(text: string)
      modifies `blocks, `nextBlockId
      ensures Snapshot() == T.Step(old(Snapshot()), T.Status(text))
    {
      if text != "" { Push(T.Text(T.Notice, text, None)); }
    }

    method Blank()
      modifies `blocks, `tools, `toolOrder, `tailSealed, `chunkSealed
      ensures Snapshot() == T.Emptied(old(Snapshot()))
    {
      blocks := [];
      toolOrder := [];
      tools := map[];
      tailSealed := false;
      chunkSealed := false;
    }

    /** The newest block of the call's tool gets the new call. */
    method SwapCall(call: T.ToolCall)
      modifies `blocks
      ensures blocks == T.SwapNewest(old(blocks), call)
    {
      var i := |blocks|;
      while i > 0
        invariant 0 <= i <= |blocks| && blocks == old(blocks)
        invariant forall k | i <= k < |blocks| :: !T.HoldsTool(blocks[k], call.id)
      {
        i := i - 1;
        var b := blocks[i];
        if b.body.Tool? && b.body.call.id == call.id {
          T.SwapNewestAt(blocks, i, call);
          blocks := blocks[i := T.Block(b.id, T.Tool(call))];
          return;
        }
      }
      T.SwapNewestMiss(blocks, call);
    }

    method UpsertTool(u: T.ToolUpdate)
      modifies `blocks, `nextBlockId, `tools, `toolOrder
      ensures Snapshot() == T.Step(old(Snapshot()), T.ToolEvent(u))
    {
      var call := T.MergeCall(u, tools);
      if u.id !in tools {
        toolOrder := toolOrder + [u.id];
        Push(T.Tool(call));
      } else {
        SwapCall(call);
      }
      tools := tools[u.id := call];
    }

    method ShowPlan(snapshot: Nullish<seq<T.PlanEntry>>)
      modifies `plan, `planCleared, `planSettledFold
      ensures Snapshot() == T.Step(old(Snapshot()), T.Plan(snapshot))
      ensures snapshot.Value? && snapshot.value != [] ==> plan == Some(snapshot.value)
      ensures snapshot.Value? && snapshot.value != [] && !(old(planCleared) && old(plan) == plan) ==>
                planCleared == planSettledFold
                == (!working && forall i | 0 <= i < |snapshot.value| :: snapshot.value[i].status == Value("completed"))
      ensures !(snapshot.Value? && snapshot.value != []) ==> plan == old(plan) && planCleared == plan.Some?
    {
      if snapshot.Value? && |snapshot.value| > 0 {
        if planCleared && plan.Some? && T.PlanEntriesEqual(plan.value, snapshot.value) { return; }
        plan := Some(snapshot.value);
        var settled := !working && T.AllCompleted(snapshot.value);
        planCleared := settled;
        planSettledFold := settled;
      } else {
        planCleared := plan.Some?;
      }
    }

    method EndTurn(parts: seq<string>)
      modifies `blocks, `nextBlockId, `tailSealed, `planCleared, `planSettledFold
      ensures Snapshot() == T.Step(old(Snapshot()), T.TurnEnded(parts))
    {
      if |parts| > 0 { Push(T.Text(T.TurnStats, T.StatsLine(parts), None)); }
      tailSealed := true;
      if plan.Some? && |plan.value| > 0 && T.AllCompleted(plan.value) {
        planCleared := true;
        planSettledFold := true;
      }
    }

    method MarkEntry(role: string, entryId: string)
      modifies `blocks
      ensures Snapshot() == T.Step(old(Snapshot()), T.EntryMark(role, entryId))
    {
      var voice := T.MarkedVoice(role);
      if T.Landed(blocks, voice, entryId) { return; }
      var i := |blocks|;
      while i > 0
        invariant 0 <= i <= |blocks| && blocks == old(blocks)
        invariant forall k | i <= k < |blocks| :: !T.Unmarked(blocks[k], voice)
      {
        i := i - 1;
        var b := blocks[i];
        if !T.IsVoice(b, voice) || !(b.body.entryId == None || b.body.entryId == Some("")) { continue; }
        T.StampNewestAt(blocks, i, voice, entryId);
        blocks := blocks[i := T.Stamp(b, entryId)];
        return;
      }
      T.StampNewestMiss(blocks, voice, entryId);
    }

    method ClearTranscript()
      modifies `blocks, `tools, `toolOrder, `tailSealed, `chunkSealed, `plan, `working, `pendingQueue
      ensures Snapshot() == T.Step(old(Snapshot()), T.ClearTranscript)
    {
      Blank();
      working := false;
      pendingQueue := [];
      plan := None;
    }

    /** Applies a page event by event. */
    method Replay(page: seq<T.Event>)
      modifies `blocks, `tools, `toolOrder, `tailSealed, `chunkSealed, `plan, `planCleared,
               `planSettledFold, `working, `pendingQueue, `prependDelta, `nextBlockId
      ensures Snapshot() == T.Run(old(Snapshot()), page)
      decreases page, 0
    {
      for i := 0 to |page|
        invariant T.Run(Snapshot(), page[i..]) == T.Run(old(Snapshot()), page)
      {
        ApplyParsed(page[i]);
        assert page[i..][1..] == page[i + 1..];
      }
    }

    /** Rebuilds an older page through the reducer itself, then splices it in front. */
    method PrependPage(page: seq<T.Event>)
      modifies `blocks, `tools, `toolOrder, `tailSealed, `chunkSealed, `plan, `planCleared,
               `planSettledFold, `working, `pendingQueue, `prependDelta, `nextBlockId
      ensures Snapshot() == T.Splice(old(Snapshot()), T.Run(T.Emptied(old(Snapshot())), page))
      decreases page, 1
    {
      var savedBlocks := blocks;
      var savedTools := tools;
      var savedOrder := toolOrder;
      Blank();
      Replay(page);
      assert Snapshot() == T.Run(T.Emptied(old(Snapshot())), page);
      if |blocks| > 0 {
        tailSealed := true;
      }
      blocks := blocks + savedBlocks;
      tools := tools + savedTools;
      toolOrder := toolOrder + savedOrder;
      prependDelta := |blocks| - |savedBlocks|;
    }

    method ApplyParsed(event: T.Event)
      modifies `blocks, `tools, `toolOrder, `tailSealed, `chunkSealed, `plan, `planCleared,
               `planSettledFold, `working, `pendingQueue, `prependDelta, `nextBlockId
      ensures Snapshot() == T.Step(old(Snapshot()), event)
      ensures event.Working? ==> working == event.value
      decreases event
    {
      match event
      case UserMessage(text) => OpenTurn(text);
      case QueueMessage(text) => Enqueue(text);
      case QueueRemoved(text) =>
        var _ := Dequeue(text);
      case QueueDelivered(text) => Deliver(text);
      case UserChunk(text) => UserTail(text);
      case AgentChunk(text) => AppendChunk(T.Agent, text);
      case ThoughtChunk(text) => AppendChunk(T.Thought, text);
      case ChunkBoundary => SealChunk();
      case TranscriptPrepend(page) => PrependPage(page);
      case ToolEvent(update) => UpsertTool(update);
      case Plan(entries) => ShowPlan(entries);
      case TurnEnded(parts) => EndTurn(parts);
      case Working(value) => working := value;
      case Error(text) => Fail(text);
      case Status(text) => Notify(text);
      case ClearTranscript => ClearTranscript();
      case EntryMark(role, entryId) => MarkEntry(role, entryId);
      case Other =>
    }

    /** Logs an action the fields have just been moved by. */
    ghost method Record(a: T.Action)
      requires Snapshot() == T.Perform(T.PerformAll(T.INIT, log), a)
      modifies `log
      ensures Valid() && log == old(log) + [a]
    {
      assert (log + [a])[..|log|] == log;
      log := log + [a];
    }

    /** Reduces one parsed event and logs it. */
    method Receive(event: T.Event)
      requires Valid()
      modifies `blocks, `tools, `toolOrder, `tailSealed, `chunkSealed, `plan, `planCleared,
               `planSettledFold, `working, `pendingQueue, `prependDelta, `nextBlockId, `log
      ensures Valid() && log == old(log) + [T.Apply(event)]
    {
      ApplyParsed(event);
      Record(T.Apply(event));
    }

    /** One raw message from the host: `None` when it does not parse. */
    method Apply(raw: Option<T.Event>)
      requires Valid()
      modifies this
      ensures Valid() && log == old(log) + Parsed([raw])
      ensures appliedCount == old(appliedCount) + if raw.Some? then 1 else 0
      ensures rejectedCount == old(rejectedCount) + if raw.None? then 1 else 0
      ensures revision == old(revision) + if raw.Some? then 1 else 0
    {
      ParsedOne(raw);
      if raw.None? {
        rejectedCount := rejectedCount + 1;
        return;
      }
      Receive(raw.value);
      appliedCount := appliedCount + 1;
      revision := revision + 1;
    }

    /** Applies every message that parses, in order, and counts both kinds. */
    method ReceiveAll(rawList: seq<Option<T.Event>>) returns (applied: nat, rejected: nat)
      requires Valid()
      modifies `blocks, `tools, `toolOrder, `tailSealed, `chunkSealed, `plan, `planCleared,
               `planSettledFold, `working, `pendingQueue, `prependDelta, `nextBlockId, `log
      ensures Valid() && log == old(log) + Parsed(rawList)
      ensures applied == |Parsed(rawList)| && applied + rejected == |rawList|
    {
      applied, rejected := 0, 0;
      ghost var first := log;
      for i := 0 to |rawList|
        invariant Valid() && log + Parsed(rawList[i..]) == first + Parsed(rawList)
        invariant |log| == |first| + applied && applied + rejected == i
      {
        ParsedStep(log, rawList, i);
        if rawList[i].None? {
          rejected := rejected + 1;
        } else {
          Receive(rawList[i].value);
          applied := applied + 1;
        }
      }
    }

    /** A batch: every message is counted exactly once, and one that parses is applied in order. */
    method ApplyAll(rawList: seq<Option<T.Event>>)
      requires Valid()
      modifies this
      ensures Valid() && log == old(log) + Parsed(rawList)
      ensures appliedCount == old(appliedCount) + |Parsed(rawList)|
      ensures appliedCount + rejectedCount == old(appliedCount + rejectedCount) + |rawList|
      ensures revision == old(revision) + if Parsed(rawList) == [] then 0 else 1
    {
      var applied, rejected := ReceiveAll(rawList);
      rejectedCount := rejectedCount + rejected;
      if applied == 0 { return; }
      appliedCount := appliedCount + applied;
      revision := revision + 1;
    }

    method Reset()
      requires Valid()
      modifies this
      ensures Valid() && log == old(log) + [T.Reset]
      ensures working == old(working) && revision == old(revision) + 1
      ensures appliedCount == old(appliedCount) && rejectedCount == old(rejectedCount)
    {
      Blank();
      plan := None;
      pendingQueue := [];
      Record(T.Reset);
      revision := revision + 1;
    }

    /** The settle fold yields to a click on the plan dock. */
    method TogglePlanDock()
      requires Valid()
      modifies `planSettledFold, `log
      ensures Valid() && log == old(log) + [T.ToggleDock]
    {
      planSettledFold := false;
      Record(T.ToggleDock);
    }

    /** The view takes the count of blocks put in front, and shifts its window by it. */
    method TakePrependDelta(start: nat) returns (shifted: nat)
      requires Valid()
      modifies `prependDelta, `log
      ensures Valid() && shifted == start + old(prependDelta)
      ensures prependDelta == 0 && log == old(log) + if old(prependDelta) > 0 then [T.TakeDelta] else []
    {
      shifted := start;
      if prependDelta > 0 {
        var delta := prependDelta;
        prependDelta := 0;
        Record(T.TakeDelta);
        shifted := start + delta;
      }
    }
  }
}
