/**
 The mirror of the outbox: how often each text waits, after any run. The host owns the queue and reports what
 happens to it by text, so a report may come too late or twice; `Left` says what each event leaves waiting.
 */
module Outbox {
  import opened Transcript

  /** How often `text` waits after an event, having waited `n` times: queueing adds one, removal or
      delivery takes one that is there, a clear takes all, a page counts event by event. */
  function Left(n: nat, e: Event, text: string): nat
    decreases e
  {
    match e
    case QueueMessage(t) => if t == text then n + 1 else n
    case QueueRemoved(t) => if t == text && n > 0 then n - 1 else n
    case QueueDelivered(t) => if t == text && n > 0 then n - 1 else n
    case ClearTranscript => 0
    case TranscriptPrepend(page) => LeftAfter(n, page, text)
    case _ => n
  }

  function LeftAfter(n: nat, log: seq<Event>, text: string): nat
    decreases log
  {
    if log == [] then n else LeftAfter(Left(n, log[0], text), log[1..], text)
  }

  function Waiting(s: State, text: string): nat {
    multiset(s.pendingQueue)[text]
  }

  lemma {:induction false} RemoveTakesOne(queue: seq<string>, t: string, text: string)
    ensures var n := multiset(queue)[text];
            multiset(RemoveFirst(queue, t))[text] == if t == text && n > 0 then n - 1 else n
  {
    if queue != [] {
      var head, rest := queue[0], queue[1..];
      assert queue == [head] + rest;
      if head != t {
        RemoveTakesOne(rest, t, text);
      }
    }
  }

  lemma {:induction false} AddAddsOne(queue: seq<string>, t: string, text: string)
    ensures multiset(queue + [t])[text] == multiset(queue)[text] + if t == text then 1 else 0
  {
  }

  /** Only the outbox events and a clear touch the outbox. */
  lemma {:induction false} StepQueue(s: State, e: Event)
    requires !e.TranscriptPrepend?
    ensures Step(s, e).pendingQueue ==
            if e.QueueMessage? then s.pendingQueue + [e.text]
            else if e.QueueRemoved? || e.QueueDelivered? then RemoveFirst(s.pendingQueue, e.text)
            else if e.ClearTranscript? then []
            else s.pendingQueue
  {
    if e.UserChunk? || e.AgentChunk? || e.ThoughtChunk? {
    } else if e.UserMessage? || e.ToolEvent? {
    } else if e.Plan? || e.TurnEnded? || e.EntryMark? || e.Error? || e.Status? {
    }
  }

  lemma {:induction false} MovedLeaves(queue: seq<string>, e: Event, text: string)
    requires e.QueueMessage? || e.QueueRemoved? || e.QueueDelivered?
    ensures var moved := if e.QueueMessage? then queue + [e.text] else RemoveFirst(queue, e.text);
            multiset(moved)[text] == Left(multiset(queue)[text], e, text)
  {
    if e.QueueMessage? { AddAddsOne(queue, e.text, text); } else { RemoveTakesOne(queue, e.text, text); }
  }

  lemma {:induction false} EventLeaves(s: State, e: Event, text: string)
    requires !e.TranscriptPrepend?
    ensures Waiting(Step(s, e), text) == Left(Waiting(s, text), e, text)
  {
    StepQueue(s, e);
    if e.QueueMessage? || e.QueueRemoved? || e.QueueDelivered? { MovedLeaves(s.pendingQueue, e, text); }
  }

  lemma {:induction false} StepLeaves(s: State, e: Event, text: string)
    ensures Waiting(Step(s, e), text) == Left(Waiting(s, text), e, text)
    decreases e
  {
    if e.TranscriptPrepend? {
      RunLeaves(Emptied(s), e.page, text);
    } else {
      EventLeaves(s, e, text);
    }
  }

  lemma {:induction false} RunLeaves(s: State, events: seq<Event>, text: string)
    ensures Waiting(Run(s, events), text) == LeftAfter(Waiting(s, text), events, text)
    decreases events
  {
    if events != [] {
      StepLeaves(s, events[0], text);
      RunLeaves(Step(s, events[0]), events[1..], text);
    }
  }

  lemma {:induction false} LeftAfterSnoc(n: nat, log: seq<Event>, e: Event, text: string)
    ensures LeftAfter(n, log + [e], text) == Left(LeftAfter(n, log, text), e, text)
    decreases |log|
  {
    var all := log + [e];
    if log == [] {
      assert all[1..] == [];
    } else {
      assert all[0] == log[0] && all[1..] == log[1..] + [e];
      LeftAfterSnoc(Left(n, log[0], text), log[1..], e, text);
    }
  }

  /** On every run each text waits exactly as often as the log since the last clear leaves it waiting:
      no text is lost, none is removed twice, and a removal that comes too late takes nothing. */
  lemma {:induction false} OutboxIsConserved(actions: seq<Action>, text: string)
    ensures Waiting(PerformAll(INIT, actions), text) == LeftAfter(0, SinceClear(actions), text)
  {
    if actions != [] {
      var before, last := actions[..|actions| - 1], actions[|actions| - 1];
      OutboxIsConserved(before, text);
      if last.Apply? {
        StepLeaves(PerformAll(INIT, before), last.event, text);
        LeftAfterSnoc(0, SinceClear(before), last.event, text);
      }
    }
  }

  // ---------- The order of what waits ----------

  /** The texts queued, in order, after an event when `sent` were before; a clear forgets them. */
  function Sent(sent: seq<string>, e: Event): seq<string>
    decreases e
  {
    match e
    case QueueMessage(t) => sent + [t]
    case ClearTranscript => []
    case TranscriptPrepend(page) => SentAfter(sent, page)
    case _ => sent
  }

  function SentAfter(sent: seq<string>, log: seq<Event>): seq<string>
    decreases log
  {
    if log == [] then sent else SentAfter(Sent(sent, log[0]), log[1..])
  }

  /** Of the texts sent, in order, the newest copies, as many of each as `m` has. */
  function KeepNewest(sent: seq<string>, m: multiset<string>): seq<string> {
    if sent == [] then []
    else
      var front, last := sent[..|sent| - 1], sent[|sent| - 1];
      if last in m then KeepNewest(front, m - multiset{last}) + [last] else KeepNewest(front, m)
  }

  /** Where the first `t` is, or the end. */
  lemma {:induction false} FirstOf(queue: seq<string>, t: string) returns (i: nat)
    ensures i <= |queue| && t !in queue[..i] && (i < |queue| ==> queue[i] == t)
  {
    i := 0;
    while i < |queue| && queue[i] != t
      invariant i <= |queue| && t !in queue[..i]
    {
      i := i + 1;
    }
  }

  lemma {:induction false} RemoveFirstMiss(queue: seq<string>, t: string)
    requires t !in queue
    ensures RemoveFirst(queue, t) == queue
  {
    assert queue[..|queue|] == queue;
    RemoveFirstAt(queue, |queue|, t);
  }

  /** With one text more at the end, the first copy is still the one removed. */
  lemma {:induction false} RemoveFirstSnoc(queue: seq<string>, x: string, t: string)
    ensures RemoveFirst(queue + [x], t) ==
            if t in queue then RemoveFirst(queue, t) + [x] else if x == t then queue else queue + [x]
  {
    var i := FirstOf(queue, t);
    var all := queue + [x];
    assert all[..i] == queue[..i];
    if i < |queue| {
      RemoveFirstAt(queue, i, t);
      RemoveFirstAt(all, i, t);
      assert all[i + 1..] == queue[i + 1..] + [x];
    } else if x == t {
      assert queue[..i] == queue;
      RemoveFirstAt(all, i, t);
    } else {
      assert queue[..i] == queue;
      RemoveFirstMiss(all, t);
    }
  }

  lemma {:induction false} KeepSnoc(front: seq<string>, last: string, m: multiset<string>)
    ensures KeepNewest(front + [last], m) ==
            if last in m then KeepNewest(front, m - multiset{last}) + [last] else KeepNewest(front, m)
  {
    assert (front + [last])[..|front|] == front;
  }

  lemma {:induction false} KeptRest(kept: seq<string>, last: string, m: multiset<string>)
    requires multiset(kept + [last]) == m
    ensures multiset(kept) == m - multiset{last}
  {
    assert multiset(kept + [last]) == multiset(kept) + multiset{last};
  }

  lemma {:induction false} OldestBehind(front: seq<string>, last: string, m: multiset<string>, t: string)
    requires last in m && t in m
    requires var less := m - multiset{last};
             && multiset(KeepNewest(front, less)) == less
             && (t in less ==> KeepNewest(front, less - multiset{t}) == RemoveFirst(KeepNewest(front, less), t))
    ensures KeepNewest(front + [last], m - multiset{t}) == RemoveFirst(KeepNewest(front + [last], m), t)
  {
    var less := m - multiset{last};
    KeepSnoc(front, last, m);
    KeepSnoc(front, last, m - multiset{t});
    RemoveFirstSnoc(KeepNewest(front, less), last, t);
    assert t in KeepNewest(front, less) <==> t in less;
    if t in less {
      assert less - multiset{t} == m - multiset{t} - multiset{last};
    } else {
      assert m - multiset{t} == less;
    }
  }

  /** Without one copy of `t` the newest are those without the oldest copy of it. */
  lemma {:induction false} RemoveOldest(sent: seq<string>, m: multiset<string>, t: string)
    requires t in m && multiset(KeepNewest(sent, m)) == m
    ensures KeepNewest(sent, m - multiset{t}) == RemoveFirst(KeepNewest(sent, m), t)
  {
    var front, last := sent[..|sent| - 1], sent[|sent| - 1];
    assert sent == front + [last];
    KeepSnoc(front, last, m);
    if last in m {
      var less := m - multiset{last};
      KeptRest(KeepNewest(front, less), last, m);
      if t in less { RemoveOldest(front, less, t); }
      OldestBehind(front, last, m, t);
    } else {
      KeepSnoc(front, last, m - multiset{t});
      RemoveOldest(front, m, t);
    }
  }

  /** The queue is the newest copies of what was sent, in the order of sending. */
  ghost predicate InOrder(queue: seq<string>, sent: seq<string>) {
    queue == KeepNewest(sent, multiset(queue))
  }

  lemma {:induction false} QueuedInOrder(queue: seq<string>, sent: seq<string>, t: string)
    requires InOrder(queue, sent)
    ensures InOrder(queue + [t], sent + [t])
  {
    assert (sent + [t])[..|sent|] == sent;
    assert multiset(queue + [t]) - multiset{t} == multiset(queue);
  }

  lemma {:induction false} RemovedInOrder(queue: seq<string>, sent: seq<string>, t: string)
    requires InOrder(queue, sent)
    ensures InOrder(RemoveFirst(queue, t), sent)
  {
    if t !in queue {
      RemoveFirstMiss(queue, t);
    } else {
      RemoveOldest(sent, multiset(queue), t);
      forall text
        ensures multiset(RemoveFirst(queue, t))[text] == (multiset(queue) - multiset{t})[text]
      {
        RemoveTakesOne(queue, t, text);
      }
      assert multiset(RemoveFirst(queue, t)) == multiset(queue) - multiset{t};
    }
  }

  lemma {:induction false} EventInOrder(s: State, e: Event, sent: seq<string>)
    requires InOrder(s.pendingQueue, sent) && !e.TranscriptPrepend?
    ensures InOrder(Step(s, e).pendingQueue, Sent(sent, e))
  {
    StepQueue(s, e);
    if e.QueueMessage? {
      QueuedInOrder(s.pendingQueue, sent, e.text);
    } else if e.QueueRemoved? || e.QueueDelivered? {
      RemovedInOrder(s.pendingQueue, sent, e.text);
    }
  }

  lemma {:induction false} StepInOrder(s: State, e: Event, sent: seq<string>)
    requires InOrder(s.pendingQueue, sent)
    ensures InOrder(Step(s, e).pendingQueue, Sent(sent, e))
    decreases e
  {
    if e.TranscriptPrepend? { RunInOrder(Emptied(s), e.page, sent); } else { EventInOrder(s, e, sent); }
  }

  lemma {:induction false} RunInOrder(s: State, events: seq<Event>, sent: seq<string>)
    requires InOrder(s.pendingQueue, sent)
    ensures InOrder(Run(s, events).pendingQueue, SentAfter(sent, events))
    decreases events
  {
    if events != [] {
      StepInOrder(s, events[0], sent);
      RunInOrder(Step(s, events[0]), events[1..], Sent(sent, events[0]));
    }
  }

  lemma {:induction false} SentSnoc(sent: seq<string>, log: seq<Event>, e: Event)
    ensures SentAfter(sent, log + [e]) == Sent(SentAfter(sent, log), e)
    decreases |log|
  {
    var all := log + [e];
    if log == [] {
      assert all[1..] == [];
    } else {
      assert all[0] == log[0] && all[1..] == log[1..] + [e];
      SentSnoc(Sent(sent, log[0]), log[1..], e);
    }
  }

  lemma {:induction false} LoggedInOrder(s: State, log: seq<Event>, e: Event)
    requires InOrder(s.pendingQueue, SentAfter([], log))
    ensures InOrder(Step(s, e).pendingQueue, SentAfter([], if e.ClearTranscript? then [] else log + [e]))
  {
    StepInOrder(s, e, SentAfter([], log));
    SentSnoc([], log, e);
  }

  lemma {:induction false} ActionInOrder(s: State, log: seq<Event>, a: Action)
    requires InOrder(s.pendingQueue, SentAfter([], log))
    ensures a.Apply? ==> InOrder(Perform(s, a).pendingQueue,
                                 SentAfter([], if a.event.ClearTranscript? then [] else log + [a.event]))
    ensures a.Reset? ==> InOrder(Perform(s, a).pendingQueue, SentAfter([], []))
    ensures a.ToggleDock? || a.TakeDelta? ==> InOrder(Perform(s, a).pendingQueue, SentAfter([], log))
  {
    if a.Apply? { LoggedInOrder(s, log, a.event); }
  }

  /** On every run what waits stands in the order it was queued in, and of equal texts the newest wait: a
      removal takes the oldest. */
  lemma {:induction false} OutboxIsInOrder(actions: seq<Action>)
    ensures InOrder(PerformAll(INIT, actions).pendingQueue, SentAfter([], SinceClear(actions)))
  {
    if actions != [] {
      var before, last := actions[..|actions| - 1], actions[|actions| - 1];
      OutboxIsInOrder(before);
      ActionInOrder(PerformAll(INIT, before), SinceClear(before), last);
    }
  }
}
