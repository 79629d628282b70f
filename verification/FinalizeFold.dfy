/**
 * The finalize judgments: two scans over a session's whole event list, and the fold that answers
 * both in constant time as events are appended.
 */
module FinalizeFold {
  import opened Prelude

  const ASSISTANT := "assistant"
  const MASTER_DONE := "master_done"
  const ASSISTANT_ERROR := "assistant_error"
  const WORKER_SUMMARY := "worker_summary"

  /** A thread_id field: missing, some other JSON value, or a string. */
  datatype ThreadRef = Absent | NotText | Thread(id: string)

  datatype ChatEvent = ChatEvent(kind: string, thread: ThreadRef, status: Option<string>)

  predicate IsMasterOutput(ev: ChatEvent) {
    ev.kind == ASSISTANT || ev.kind == MASTER_DONE || ev.kind == ASSISTANT_ERROR
  }

  predicate IsTerminalWorkerSummary(ev: ChatEvent, threadId: string) {
    ev.kind == WORKER_SUMMARY && ev.thread == Thread(threadId) && ev.status != Some("running")
  }

  /** Which events count: three kinds of output, and a summary of the thread in any state but "running", or in none. */
  lemma {:induction false} EventsCount(kind: string, thread: ThreadRef, status: Option<string>, threadId: string)
    ensures var ev := ChatEvent(kind, thread, status);
            && (IsMasterOutput(ev) <==> kind in {"assistant", "master_done", "assistant_error"})
            && (IsTerminalWorkerSummary(ev, threadId) <==>
                  kind == "worker_summary" && thread == Thread(threadId) && (status.None? || status.value != "running"))
  {
  }

  /** terminal_summary_present: any(...) over the list. */
  predicate TerminalSummaryPresent(events: seq<ChatEvent>, threadId: string) {
    exists i :: 0 <= i < |events| && IsTerminalWorkerSummary(events[i], threadId)
  }

  /** Some master output comes after the last terminal summary of the thread. */
  ghost predicate WokeAfterLastSummary(events: seq<ChatEvent>, threadId: string) {
    exists i, j ::
      && 0 <= i < j < |events|
      && IsTerminalWorkerSummary(events[i], threadId)
      && IsMasterOutput(events[j])
      && forall k :: i < k < |events| ==> !IsTerminalWorkerSummary(events[k], threadId)
  }

  /** master_woke_after_summary: find the last summary, then scan what follows it. */
  method MasterWokeAfterSummary(events: seq<ChatEvent>, threadId: string) returns (woke: bool)
    ensures woke <==> WokeAfterLastSummary(events, threadId)
  {
    var lastSummary: Option<nat> := None;
    for idx := 0 to |events|
      invariant lastSummary.None? ==>
                  forall k :: 0 <= k < idx ==> !IsTerminalWorkerSummary(events[k], threadId)
      invariant lastSummary.Some? ==>
                  && lastSummary.value < idx
                  && IsTerminalWorkerSummary(events[lastSummary.value], threadId)
                  && forall k :: lastSummary.value < k < idx ==> !IsTerminalWorkerSummary(events[k], threadId)
    {
      if IsTerminalWorkerSummary(events[idx], threadId) {
        lastSummary := Some(idx);
      }
    }
    if lastSummary.None? {
      return false;
    }
    woke := false;
    for idx := lastSummary.value + 1 to |events|
      invariant woke <==> exists j :: lastSummary.value < j < idx && IsMasterOutput(events[j])
    {
      if IsMasterOutput(events[idx]) {
        woke := true;
      }
    }
  }

  function MasterOutputCount(events: seq<ChatEvent>): nat {
    if events == [] then 0
    else MasterOutputCount(events[..|events| - 1]) + (if IsMasterOutput(events[|events| - 1]) then 1 else 0)
  }

  lemma {:induction false} CountsGrow(events: seq<ChatEvent>, n: nat)
    requires n <= |events|
    ensures MasterOutputCount(events[..n]) <= MasterOutputCount(events)
    ensures MasterOutputCount(events[..n]) < MasterOutputCount(events) <==>
            exists j :: n <= j < |events| && IsMasterOutput(events[j])
  {
    if n == |events| {
      assert events[..n] == events;
    } else {
      var init := events[..|events| - 1];
      CountsGrow(init, n);
      assert init[..n] == events[..n];
      if j :| n <= j < |events| && IsMasterOutput(events[j]) && j < |events| - 1 {
        assert IsMasterOutput(init[j]);
      }
    }
  }

  /** What the marks must hold for an event list: the output count at each thread's last summary. */
  ghost predicate MarksSummarize(marks: map<string, nat>, events: seq<ChatEvent>) {
    && (forall t :: t in marks <==> TerminalSummaryPresent(events, t))
    && (forall t :: t in marks ==> MarkAt(marks[t], events, t))
  }

  ghost predicate MarkAt(mark: nat, events: seq<ChatEvent>, t: string) {
    exists i ::
      && 0 <= i < |events|
      && IsTerminalWorkerSummary(events[i], t)
      && mark == MasterOutputCount(events[..i])
      && forall k :: i < k < |events| ==> !IsTerminalWorkerSummary(events[k], t)
  }

  lemma {:induction false} MarkSurvives(mark: nat, events: seq<ChatEvent>, ev: ChatEvent, t: string)
    requires MarkAt(mark, events, t) && !IsTerminalWorkerSummary(ev, t)
    ensures MarkAt(mark, events + [ev], t)
  {
    var i :| 0 <= i < |events| && IsTerminalWorkerSummary(events[i], t)
             && mark == MasterOutputCount(events[..i])
             && forall k :: i < k < |events| ==> !IsTerminalWorkerSummary(events[k], t);
    assert (events + [ev])[..i] == events[..i];
    assert IsTerminalWorkerSummary((events + [ev])[i], t);
  }

  lemma {:induction false} PresenceGrows(events: seq<ChatEvent>, ev: ChatEvent, t: string)
    ensures TerminalSummaryPresent(events + [ev], t) <==>
            TerminalSummaryPresent(events, t) || IsTerminalWorkerSummary(ev, t)
  {
    var grown := events + [ev];
    if i :| 0 <= i < |events| && IsTerminalWorkerSummary(events[i], t) {
      assert IsTerminalWorkerSummary(grown[i], t);
    }
    if IsTerminalWorkerSummary(ev, t) {
      assert IsTerminalWorkerSummary(grown[|events|], t);
    }
  }

  /** Outputs minus mark counts exactly the outputs after the thread's last summary. */
  lemma {:induction false} MarkDecidesWake(mark: nat, events: seq<ChatEvent>, t: string)
    requires MarkAt(mark, events, t)
    ensures MasterOutputCount(events) > mark <==> WokeAfterLastSummary(events, t)
  {
    var i :| 0 <= i < |events| && IsTerminalWorkerSummary(events[i], t)
             && mark == MasterOutputCount(events[..i])
             && forall k :: i < k < |events| ==> !IsTerminalWorkerSummary(events[k], t);
    CountsGrow(events, i);
    if j :| i <= j < |events| && IsMasterOutput(events[j]) {
      assert j != i;
      assert WokeAfterLastSummary(events, t);
    }
  }

  class Fold {
    var summaryMarks: map<string, nat>
    var masterOutputs: nat
    ghost var absorbed: seq<ChatEvent>

    ghost predicate Valid()
      reads this
    {
      masterOutputs == MasterOutputCount(absorbed) && MarksSummarize(summaryMarks, absorbed)
    }

    constructor ()
      ensures Valid() && absorbed == []
    {
      summaryMarks, masterOutputs, absorbed := map[], 0, [];
    }

    /** Advance by one appended event. */
    method Absorb(ev: ChatEvent)
      requires Valid()
      modifies this
      ensures Valid() && absorbed == old(absorbed) + [ev]
    {
      ghost var grown := absorbed + [ev];
      assert grown[..|grown| - 1] == absorbed;
      forall t ensures TerminalSummaryPresent(grown, t) <==>
                       TerminalSummaryPresent(absorbed, t) || IsTerminalWorkerSummary(ev, t)
      {
        PresenceGrows(absorbed, ev, t);
      }
      forall t | t in summaryMarks && !IsTerminalWorkerSummary(ev, t)
        ensures MarkAt(summaryMarks[t], grown, t)
      {
        MarkSurvives(summaryMarks[t], absorbed, ev, t);
      }
      if IsMasterOutput(ev) {
        masterOutputs := masterOutputs + 1;
      } else if ev.thread.Thread? && IsTerminalWorkerSummary(ev, ev.thread.id) {
        summaryMarks := summaryMarks[ev.thread.id := masterOutputs];
        assert grown[..|absorbed|] == absorbed;
        assert MarkAt(masterOutputs, grown, ev.thread.id) by {
          assert IsTerminalWorkerSummary(grown[|absorbed|], ev.thread.id);
        }
      }
      absorbed := grown;
    }

    /** The fold of a freshly parsed list, then advanced by each later append. */
    constructor Build(events: seq<ChatEvent>)
      ensures Valid() && absorbed == events
    {
      summaryMarks, masterOutputs, absorbed := map[], 0, [];
      new;
      for i := 0 to |events|
        invariant Valid() && absorbed == events[..i]
      {
        Absorb(events[i]);
        assert events[..i] + [events[i]] == events[..i + 1];
      }
      assert events[..|events|] == events;
    }

    predicate SummaryPresent(threadId: string)
      reads this
      requires Valid()
      ensures SummaryPresent(threadId) <==> TerminalSummaryPresent(absorbed, threadId)
    {
      threadId in summaryMarks
    }

    predicate MasterWoke(threadId: string)
      reads this
      requires Valid()
      ensures MasterWoke(threadId) <==> WokeAfterLastSummary(absorbed, threadId)
    {
      assert threadId in summaryMarks ==> MarkAt(summaryMarks[threadId], absorbed, threadId);
      assert threadId in summaryMarks ==>
          (masterOutputs > summaryMarks[threadId] <==> WokeAfterLastSummary(absorbed, threadId)) by {
        if threadId in summaryMarks {
          MarkDecidesWake(summaryMarks[threadId], absorbed, threadId);
        }
      }
      threadId in summaryMarks && masterOutputs > summaryMarks[threadId]
    }
  }

  /** Load any prefix, absorb the rest: the fold and the scans give the same answers. */
  method FoldMatchesScans(prefix: seq<ChatEvent>, rest: seq<ChatEvent>, threadId: string)
    returns (present: bool, woke: bool, scannedWoke: bool)
    ensures present <==> TerminalSummaryPresent(prefix + rest, threadId)
    ensures woke == scannedWoke
    ensures scannedWoke <==> WokeAfterLastSummary(prefix + rest, threadId)
  {
    var fold := new Fold.Build(prefix);
    for i := 0 to |rest|
      invariant fresh(fold) && fold.Valid() && fold.absorbed == prefix + rest[..i]
    {
      fold.Absorb(rest[i]);
      assert prefix + rest[..i] + [rest[i]] == prefix + rest[..i + 1];
    }
    assert rest[..|rest|] == rest;
    present := fold.SummaryPresent(threadId);
    woke := fold.MasterWoke(threadId);
    scannedWoke := MasterWokeAfterSummary(prefix + rest, threadId);
  }
}
