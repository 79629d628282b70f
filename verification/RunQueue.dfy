/**
 * The per-session master run queue: callers enqueue work items, one consumer task per session
 * drains them.  Tasks interleave only at awaits, so every method below is one await-free block;
 * a run is any interleaving of enqueues and task resumptions.
 *
 * A lane holds what the module-level dictionaries keep under one session id.
 */
module RunQueue {
  import opened Prelude

  /** A work item: its caller's future, and the chat event it answers ("" for none). */
  datatype Item = Item(future: nat, userEventId: string)

  datatype Outcome = Returned | Raised

  datatype FutureState = Pending | Settled(outcome: Outcome)

  /** Where a consumer task is suspended. */
  datatype Pc =
    | Created                            // create_task, not yet run
    | Running(queue: nat, item: Item)    // somewhere in the awaits of one item
    | Broadcasting                       // past teardown, awaiting the idle broadcast
    | Finished

  predicate IsLive(pc: Pc) {
    pc.Created? || pc.Running?
  }

  datatype Step =
    | Enqueued(item: Item, now: int, resumedAt: Option<int>)
    | Resumed(task: nat, outcome: Outcome)

  // ---------------------------------------------------------------------------
  // The ledger: what a lane amounts to, without queue objects, registries or current items
  // ---------------------------------------------------------------------------

  datatype Phase = Waiting | Working | Leaving | Gone

  function PhaseOf(pc: Pc): Phase {
    match pc
    case Created => Waiting
    case Running(_, _) => Working
    case Broadcasting => Leaving
    case Finished => Gone
  }

  function Phases(tasks: map<nat, Pc>): map<nat, Phase> {
    map t | t in tasks :: PhaseOf(tasks[t])
  }

  lemma {:induction false} PhasesUpdate(tasks: map<nat, Pc>, t: nat, pc: Pc)
    ensures Phases(tasks[t := pc]) == Phases(tasks)[t := PhaseOf(pc)]
  {
  }

  /** Every item ever put, how many of them are done, every future, every consumer task, and the busy interval. */
  datatype Ledger = Ledger(enqueued: seq<Item>, done: nat, futures: map<nat, FutureState>,
                           phases: map<nat, Phase>, nextTask: nat, busySince: Option<int>)

  /** A step on the ledger: first come, first served, by one consumer while anything is open. */
  function Next(l: Ledger, step: Step): Ledger {
    match step
    case Enqueued(item, now, resumedAt) =>
      if item.future in l.futures then l else Admit(l, item, if resumedAt.Some? then resumedAt.value else now)
    case Resumed(task, outcome) =>
      if task !in l.phases then l
      else
        match l.phases[task]
        case Waiting => l.(phases := l.phases[task := Working])
        case Working => Finish(l, task, outcome)
        case Leaving => l.(phases := l.phases[task := Gone])
        case Gone => l
  }

  /** A new item; an idle session becomes busy and gets a new consumer. */
  function Admit(l: Ledger, item: Item, since: int): Ledger {
    var put := l.(enqueued := l.enqueued + [item], futures := l.futures[item.future := Pending]);
    if l.busySince.Some? then put
    else put.(busySince := Some(since), phases := l.phases[l.nextTask := Waiting], nextTask := l.nextTask + 1)
  }

  /** The oldest open item is done; its consumer leaves when it was the last. */
  function Finish(l: Ledger, task: nat, outcome: Outcome): Ledger {
    if |l.enqueued| <= l.done then l
    else
      var settled := l.(futures := l.futures[l.enqueued[l.done].future := Settled(outcome)], done := l.done + 1);
      if l.done + 1 < |l.enqueued| then settled
      else settled.(phases := l.phases[task := Leaving], busySince := None)
  }

  function NextAll(l: Ledger, steps: seq<Step>): Ledger {
    if steps == [] then l else Next(NextAll(l, steps[..|steps| - 1]), steps[|steps| - 1])
  }

  class SessionLane {
    var queue: Option<nat>          // _session_queues entry: the queue object's identity
    var items: map<nat, seq<Item>>  // what each queue object holds
    var consumer: Option<nat>       // _session_consumers entry
    var tasks: map<nat, Pc>         // every consumer task ever created
    var current: Option<Item>       // _current_items entry
    var busySince: Option<int>      // thinking_state entry
    var futures: map<nat, FutureState>
    var nextQueue: nat              // fresh object identities
    var nextTask: nat
    ghost var enqueued: seq<Item>   // every item ever put, in order
    ghost var settled: seq<Item>    // every item whose future was settled, in order

    function QueueItems(): seq<Item>
      reads this
    {
      if queue.Some? && queue.value in items then items[queue.value] else []
    }

    /** Enqueued and not settled: the running item, then the queued ones. */
    function Owned(): seq<Item>
      reads this
    {
      (if current.Some? then [current.value] else []) + QueueItems()
    }

    ghost function View(): Ledger
      reads this
    {
      Ledger(enqueued, |settled|, futures, Phases(tasks), nextTask, busySince)
    }

    ghost predicate FuturesMatch()
      reads this
    {
      && |settled| <= |enqueued|
      && (forall i, j :: 0 <= i < j < |enqueued| ==> enqueued[i].future != enqueued[j].future)
      && (forall i :: 0 <= i < |enqueued| ==> enqueued[i].future in futures)
      && (forall i :: 0 <= i < |enqueued| ==> (futures[enqueued[i].future].Pending? <==> |settled| <= i))
    }

    /** The registered consumer waits to start on a non-empty queue, or runs the current item. */
    ghost predicate RegisteredOk()
      reads this
      requires consumer.Some? && queue.Some? && queue.value in items
    {
      && consumer.value in tasks
      && IsLive(tasks[consumer.value])
      && (tasks[consumer.value].Created? ==> current.None? && items[queue.value] != [])
      && (tasks[consumer.value].Running? ==>
            tasks[consumer.value].queue == queue.value && current == Some(tasks[consumer.value].item))
    }

    ghost predicate ConsumerOk()
      reads this
    {
      && (consumer.Some? <==> queue.Some?)
      && (consumer.Some? <==> busySince.Some?)
      && (queue.Some? ==> queue.value in items)
      && (consumer.None? ==> current.None?)
      && (consumer.Some? ==> RegisteredOk())
      && (forall t :: t in tasks ==> t < nextTask && (IsLive(tasks[t]) ==> consumer == Some(t)))
      && (forall q :: q in items ==> q < nextQueue)
    }

    ghost predicate Valid()
      reads this
    {
      ConsumerOk() && FuturesMatch() && enqueued == settled + Owned()
    }

    constructor ()
      ensures Valid() && enqueued == [] && settled == [] && consumer.None?
    {
      queue, items, consumer, tasks := None, map[], None, map[];
      current, busySince, futures := None, None, map[];
      nextQueue, nextTask := 0, 0;
      enqueued, settled := [], [];
    }

    /** mark_busy: an already busy session keeps its interval start. */
    method MarkBusy(now: int, resumedAt: Option<int>) returns (since: int, created: bool)
      modifies this`busySince
      ensures busySince == Some(since) && (created <==> old(busySince).None?)
      ensures !created ==> busySince == old(busySince)
      ensures created ==> since == if resumedAt.Some? then resumedAt.value else now
    {
      if busySince.Some? {
        return busySince.value, false;
      }
      since := if resumedAt.Some? then resumedAt.value else now;
      busySince := Some(since);
      return since, true;
    }

    /** Create the queue on first use, then put_nowait. */
    method Put(item: Item)
      requires ConsumerOk()
      modifies this`queue, this`items, this`nextQueue
      ensures queue.Some? && queue.value in items && (old(queue).Some? ==> queue == old(queue))
      ensures items[queue.value] == old(QueueItems()) + [item]
      ensures forall q :: q in items ==> q < nextQueue
    {
      if queue.None? {
        queue := Some(nextQueue);
        items := items[nextQueue := []];
        nextQueue := nextQueue + 1;
      }
      items := items[queue.value := items[queue.value] + [item]];
    }

    /** loop.create_future() for a new work item. */
    method CreateFuture(item: Item)
      requires FuturesMatch() && forall i :: 0 <= i < |enqueued| ==> enqueued[i].future != item.future
      modifies this`futures, this`enqueued
      ensures FuturesMatch() && enqueued == old(enqueued) + [item]
      ensures futures == old(futures)[item.future := Pending]
    {
      futures := futures[item.future := Pending];
      enqueued := enqueued + [item];
    }

    /** A consumer is registered, and it is not done. */
    predicate HasLiveConsumer()
      reads this
    {
      consumer.Some? && consumer.value in tasks && IsLive(tasks[consumer.value])
    }

    /** Register a new consumer task unless a live one is registered. */
    method EnsureConsumer()
      requires queue.Some? && busySince.Some? && queue.value in items && items[queue.value] != []
      requires forall q :: q in items ==> q < nextQueue
      requires consumer.Some? ==> consumer.value in tasks
      requires if HasLiveConsumer() then RegisteredOk() else current.None?
      requires forall t :: t in tasks ==> t < nextTask && (IsLive(tasks[t]) ==> consumer == Some(t))
      modifies this`tasks, this`consumer, this`nextTask
      ensures ConsumerOk() && HasLiveConsumer()
      ensures old(HasLiveConsumer()) ==> consumer == old(consumer) && tasks == old(tasks) && nextTask == old(nextTask)
      ensures !old(HasLiveConsumer()) ==>
                && consumer == Some(old(nextTask)) && nextTask == old(nextTask) + 1
                && tasks == old(tasks)[old(nextTask) := Created]
    {
      if consumer.None? || !IsLive(tasks[consumer.value]) {
        tasks := tasks[nextTask := Created];
        consumer := Some(nextTask);
        nextTask := nextTask + 1;
      }
    }

    /**
     * _enqueue_work_item: mark busy, queue the item, make sure a live consumer is registered.
     * The caller has just created the item's future.
     */
    method Enqueue(item: Item, now: int, resumedAt: Option<int>) returns (since: int, created: bool)
      requires Valid()
      requires forall i :: 0 <= i < |enqueued| ==> enqueued[i].future != item.future
      modifies this`queue, this`items, this`nextQueue, this`busySince, this`tasks, this`consumer, this`nextTask
      modifies this`futures, this`enqueued
      ensures Valid() && busySince == Some(since) && consumer.Some?
      ensures enqueued == old(enqueued) + [item]
      ensures Owned() == old(Owned()) + [item]
      ensures created <==> old(busySince).None?
      ensures !created ==> Some(since) == old(busySince) && consumer == old(consumer)
      ensures created ==> since == if resumedAt.Some? then resumedAt.value else now
      ensures settled == old(settled)
      ensures item.future !in old(futures) ==> View() == Next(old(View()), Enqueued(item, now, resumedAt))
    {
      CreateFuture(item);
      since, created := Schedule(item, now, resumedAt);
      PhasesUpdate(old(tasks), old(nextTask), Created);
    }

    method Schedule(item: Item, now: int, resumedAt: Option<int>) returns (since: int, created: bool)
      requires ConsumerOk()
      modifies this`queue, this`items, this`nextQueue, this`busySince, this`tasks, this`consumer, this`nextTask
      ensures ConsumerOk() && busySince == Some(since) && consumer.Some?
      ensures Owned() == old(Owned()) + [item]
      ensures created <==> old(busySince).None?
      ensures !created ==> Some(since) == old(busySince) && consumer == old(consumer)
      ensures created ==> since == if resumedAt.Some? then resumedAt.value else now
      ensures tasks == if created then old(tasks)[old(nextTask) := Created] else old(tasks)
      ensures nextTask == if created then old(nextTask) + 1 else old(nextTask)
    {
      Put(item);
      since, created := MarkBusy(now, resumedAt);
      EnsureConsumer();
      assert Owned() == old(Owned()) + [item];
    }

    /** queue.get() on a queue that holds something: it returns without suspending. */
    method Take(task: nat, q: nat)
      requires q in items && items[q] != []
      modifies this`current, this`items, this`tasks
      ensures current == Some(old(items[q][0]))
      ensures items == old(items)[q := old(items[q])[1..]]
      ensures tasks == old(tasks)[task := Running(q, old(items[q][0]))]
    {
      var item := items[q][0];
      items := items[q := items[q][1..]];
      current := Some(item);
      tasks := tasks[task := Running(q, item)];
    }

    /** A created task runs for the first time: its first get finds the item it was made for. */
    method StartConsumer(task: nat)
      requires Valid() && task in tasks && tasks[task].Created?
      modifies this`current, this`items, this`tasks
      ensures Valid() && current.Some? && task in tasks && tasks[task].Running?
      ensures Owned() == old(Owned())
      ensures View() == old(View()).(phases := old(View()).phases[task := Working])
    {
      PhasesUpdate(tasks, task, Running(queue.value, items[queue.value][0]));
      assert items[queue.value] == [items[queue.value][0]] + items[queue.value][1..];
      Take(task, queue.value);
    }

    /** `if not future.done(): set` for the running item, which then leaves _current_items. */
    method Settle(task: nat, outcome: Outcome)
      requires Valid() && task in tasks && tasks[task].Running?
      modifies this`futures, this`current, this`settled
      ensures FuturesMatch() && current.None?
      ensures settled == old(settled) + [tasks[task].item] && enqueued == settled + QueueItems()
      ensures var f := tasks[task].item.future;
              f in old(futures) && old(futures)[f].Pending? && futures == old(futures)[f := Settled(outcome)]
    {
      var item := tasks[task].item;
      assert Owned() == [item] + QueueItems();
      assert enqueued[|settled|] == item;
      if futures[item.future].Pending? {
        futures := futures[item.future := Settled(outcome)];
      }
      current := None;
      settled := settled + [item];
    }

    /** The await-free teardown: deregister, drop the empty queue, clear the busy state. */
    method Teardown(task: nat)
      requires ConsumerOkExceptCurrent(task) && QueueItems() == [] && current.None?
      modifies this`consumer, this`queue, this`busySince, this`tasks
      ensures ConsumerOk() && consumer.None? && busySince.None? && queue.None? && QueueItems() == []
      ensures tasks == old(tasks)[task := Broadcasting]
    {
      consumer := None;
      if queue.Some? && items[queue.value] == [] {
        queue := None;
      }
      busySince := None;
      tasks := tasks[task := Broadcasting];
    }

    /** ConsumerOk between the end of one item and the next get or the teardown. */
    ghost predicate ConsumerOkExceptCurrent(task: nat)
      reads this
    {
      && queue.Some? && busySince.Some? && queue.value in items
      && consumer == Some(task) && task in tasks && tasks[task].Running? && tasks[task].queue == queue.value
      && (forall t :: t in tasks ==> t < nextTask && (IsLive(tasks[t]) ==> consumer == Some(t)))
      && (forall q :: q in items ==> q < nextQueue)
    }

    /** The end of one item: settle its future once, then exit if the queue is empty, else go on. */
    method FinishItem(task: nat, outcome: Outcome)
      requires Valid() && task in tasks && tasks[task].Running?
      modifies this
      ensures Valid() && enqueued == old(enqueued) && task in tasks
      ensures settled == old(settled) + [old(tasks[task].item)]
      ensures var f := old(tasks[task].item.future);
              f in old(futures) && old(futures)[f].Pending? && futures == old(futures)[f := Settled(outcome)]
      ensures Owned() == old(QueueItems())
      ensures old(QueueItems()) == [] ==>
                consumer.None? && busySince.None? && queue.None? && tasks[task] == Broadcasting
      ensures old(QueueItems()) != [] ==>
                consumer == Some(task) && busySince == old(busySince) && current == Some(old(QueueItems())[0])
                && tasks[task].Running?
      ensures View() == Finish(old(View()), task, outcome)
    {
      Settle(task, outcome);
      GoOn(task);
    }

    /** After an item: exit if the queue is empty, else get the next one. */
    method GoOn(task: nat)
      requires ConsumerOkExceptCurrent(task) && current.None?
      modifies this`consumer, this`queue, this`items, this`busySince, this`tasks, this`current
      ensures ConsumerOk() && Owned() == old(QueueItems()) && task in tasks
      ensures old(QueueItems()) == [] ==>
                consumer.None? && busySince.None? && queue.None? && tasks[task] == Broadcasting
      ensures old(QueueItems()) != [] ==>
                consumer == Some(task) && busySince == old(busySince) && current == Some(old(QueueItems())[0])
                && tasks[task].Running?
      ensures Phases(tasks) == if old(QueueItems()) == [] then Phases(old(tasks))[task := Leaving] else Phases(old(tasks))
    {
      var q := tasks[task].queue;
      if items[q] == [] {
        PhasesUpdate(tasks, task, Broadcasting);
        Teardown(task);
      } else {
        assert items[q] == [items[q][0]] + items[q][1..];
        PhasesUpdate(tasks, task, Running(q, items[q][0]));
        Take(task, q);
      }
    }

    /** The idle broadcast returns; the consumer is done. */
    method FinishTail(task: nat)
      requires Valid() && task in tasks && tasks[task].Broadcasting?
      modifies this`tasks
      ensures Valid() && tasks == old(tasks)[task := Finished]
      ensures View() == old(View()).(phases := old(View()).phases[task := Gone])
    {
      PhasesUpdate(tasks, task, Finished);
      tasks := tasks[task := Finished];
    }

    /** queued_user_event_ids: the running item's id and the queued ones'. */
    method QueuedUserEventIds() returns (ids: set<string>)
      requires Valid()
      ensures ids == EventIds(enqueued[|settled|..])
    {
      ids := {};
      if current.Some? && current.value.userEventId != "" {
        ids := ids + {current.value.userEventId};
      }
      ids := WithQueuedIds(ids, QueueItems());
      assert enqueued[|settled|..] == Owned();
      assert if current.Some? then Owned()[1..] == QueueItems() else Owned() == QueueItems();
    }

    /** One scheduler step; a resumption of a task that is not suspended does nothing. */
    method Do(step: Step)
      requires Valid()
      modifies this
      ensures Valid() && View() == Next(old(View()), step)
      ensures old(enqueued) <= enqueued && old(settled) <= settled
    {
      match step
      case Enqueued(item, now, resumedAt) =>
        if item.future !in futures {
          var since, created := Enqueue(item, now, resumedAt);
        }
      case Resumed(task, outcome) =>
        if task in tasks {
          match tasks[task]
          case Created => StartConsumer(task);
          case Running(_, _) => FinishItem(task, outcome);
          case Broadcasting => FinishTail(task);
          case Finished =>
        }
    }

    /** The consumer alone, from any reachable state: every owned item settles, then the lane idles. */
    method Drain(outcomes: nat -> Outcome)
      requires Valid()
      modifies this
      ensures Valid() && enqueued == old(enqueued) && settled == enqueued
      ensures consumer.None? && busySince.None? && queue.None? && current.None?
    {
      if consumer.Some? && tasks[consumer.value].Created? {
        StartConsumer(consumer.value);
      }
      while consumer.Some?
        invariant Valid() && enqueued == old(enqueued)
        invariant consumer.Some? ==> tasks[consumer.value].Running?
        decreases |enqueued| - |settled|
      {
        var task := consumer.value;
        FinishItem(task, outcomes(task));
      }
    }
  }

  /** The non-empty event ids of some items. */
  function EventIds(items: seq<Item>): set<string> {
    if items == [] then {}
    else (if items[0].userEventId == "" then {} else {items[0].userEventId}) + EventIds(items[1..])
  }

  lemma {:induction false} EventIdsAre(items: seq<Item>, id: string)
    ensures id in EventIds(items) <==> id != "" && exists i :: 0 <= i < |items| && items[i].userEventId == id
  {
    if items != [] {
      EventIdsAre(items[1..], id);
      assert forall i :: 0 < i < |items| ==> items[i] == items[1..][i - 1];
    }
  }

  /** The loop over list(queue._queue). */
  method WithQueuedIds(first: set<string>, queued: seq<Item>) returns (ids: set<string>)
    ensures ids == first + EventIds(queued)
  {
    ids := first;
    assert queued[0..] == queued;
    for k := 0 to |queued|
      invariant ids + EventIds(queued[k..]) == first + EventIds(queued)
    {
      assert queued[k..][1..] == queued[k + 1..];
      if queued[k].userEventId != "" {
        ids := ids + {queued[k].userEventId};
      }
    }
  }

  // ---------------------------------------------------------------------------
  // What every run of steps amounts to
  // ---------------------------------------------------------------------------

  /** The open items are the last ones, exactly their futures are pending, and one consumer serves them. */
  ghost predicate Sound(l: Ledger) {
    FuturesSound(l) && ConsumersSound(l)
  }

  ghost predicate FuturesSound(l: Ledger) {
    && l.done <= |l.enqueued|
    && (forall i, j :: 0 <= i < j < |l.enqueued| ==> l.enqueued[i].future != l.enqueued[j].future)
    && (forall i :: 0 <= i < |l.enqueued| ==> l.enqueued[i].future in l.futures)
    && (forall i :: 0 <= i < |l.enqueued| ==> (l.futures[l.enqueued[i].future].Pending? <==> l.done <= i))
  }

  predicate Serves(phase: Phase) {
    phase.Waiting? || phase.Working?
  }

  ghost predicate ConsumersSound(l: Ledger) {
    && (l.busySince.Some? <==> l.done < |l.enqueued|)
    && (forall t :: t in l.phases ==> t < l.nextTask && (Serves(l.phases[t]) ==> l.busySince.Some?))
    && (forall t, u :: t in l.phases && u in l.phases && Serves(l.phases[t]) && Serves(l.phases[u]) ==> t == u)
  }

  lemma {:induction false} ViewIsSound(lane: SessionLane)
    requires lane.Valid()
    ensures Sound(lane.View())
  {
    assert lane.consumer.None? ==> lane.Owned() == [];
    assert lane.consumer.Some? ==> lane.Owned() != [];
    forall t | t in lane.View().phases ensures t < lane.nextTask && (Serves(lane.View().phases[t]) ==> lane.consumer == Some(t)) {
      assert t in lane.tasks && lane.View().phases[t] == PhaseOf(lane.tasks[t]);
    }
  }

  lemma {:induction false} NextKeepsFutures(l: Ledger, step: Step)
    requires Sound(l)
    ensures FuturesSound(Next(l, step))
  {
  }

  lemma {:induction false} NextKeepsConsumers(l: Ledger, step: Step)
    requires Sound(l)
    ensures ConsumersSound(Next(l, step))
  {
  }

  lemma {:induction false} NextAllIsSound(l: Ledger, steps: seq<Step>)
    requires Sound(l)
    ensures Sound(NextAll(l, steps))
  {
    if steps != [] {
      NextAllIsSound(l, steps[..|steps| - 1]);
      NextKeepsFutures(NextAll(l, steps[..|steps| - 1]), steps[|steps| - 1]);
      NextKeepsConsumers(NextAll(l, steps[..|steps| - 1]), steps[|steps| - 1]);
    }
  }

  /** A future is one of those known, or of these items. */
  predicate Known(known: set<nat>, items: seq<Item>, f: nat) {
    f in known || exists i :: 0 <= i < |items| && items[i].future == f
  }

  /** The items of some steps whose futures are new when they come. */
  function NewItems(known: set<nat>, steps: seq<Step>): seq<Item> {
    if steps == [] then []
    else
      var before, step := NewItems(known, steps[..|steps| - 1]), steps[|steps| - 1];
      if step.Enqueued? && !Known(known, before, step.item.future) then before + [step.item] else before
  }

  /** Exactly the new items are added, in order. */
  lemma {:induction false} AdmittedAre(l: Ledger, steps: seq<Step>)
    requires Sound(l)
    ensures NextAll(l, steps).enqueued == l.enqueued + NewItems(l.futures.Keys, steps)
    ensures forall f :: f in NextAll(l, steps).futures <==> Known(l.futures.Keys, NewItems(l.futures.Keys, steps), f)
  {
    if steps != [] {
      var front, step := steps[..|steps| - 1], steps[|steps| - 1];
      AdmittedAre(l, front);
      NextAllIsSound(l, front);
      AdmitOne(l, NextAll(l, front), NewItems(l.futures.Keys, front), step);
    }
  }

  lemma {:induction false} AdmitOne(l: Ledger, m: Ledger, items: seq<Item>, step: Step)
    requires FuturesSound(m) && m.enqueued == l.enqueued + items
    requires forall f :: f in m.futures <==> Known(l.futures.Keys, items, f)
    ensures var more := if step.Enqueued? && !Known(l.futures.Keys, items, step.item.future) then items + [step.item] else items;
            && Next(m, step).enqueued == l.enqueued + more
            && forall f :: f in Next(m, step).futures <==> Known(l.futures.Keys, more, f)
  {
    if step.Enqueued? && !Known(l.futures.Keys, items, step.item.future) {
      var more := items + [step.item];
      assert more[|items|] == step.item;
      forall f ensures Known(l.futures.Keys, more, f) <==> Known(l.futures.Keys, items, f) || f == step.item.future {
        assert forall i :: 0 <= i < |items| ==> more[i] == items[i];
      }
    }
  }

  /** The step resumes a task that works on an item. */
  predicate Settles(l: Ledger, step: Step) {
    step.Resumed? && step.task in l.phases && l.phases[step.task].Working?
  }

  /** The outcomes of the steps that end an item, in order. */
  function Outcomes(l: Ledger, steps: seq<Step>): seq<Outcome> {
    if steps == [] then []
    else
      var front, step := steps[..|steps| - 1], steps[|steps| - 1];
      Outcomes(l, front) + (if Settles(NextAll(l, front), step) then [step.outcome] else [])
  }

  /** One item is done for every such step, oldest first, with that step's outcome; no other future settles. */
  lemma {:induction false} SettledAre(l: Ledger, steps: seq<Step>)
    requires Sound(l)
    ensures var m, done := NextAll(l, steps), Outcomes(l, steps);
            && m.done == l.done + |done| <= |m.enqueued| && l.enqueued <= m.enqueued
            && (forall i :: 0 <= i < |done| ==>
                  m.enqueued[l.done + i].future in m.futures
                  && m.futures[m.enqueued[l.done + i].future] == Settled(done[i]))
  {
    if steps != [] {
      var front, step := steps[..|steps| - 1], steps[|steps| - 1];
      SettledAre(l, front);
      NextAllIsSound(l, front);
      SettleOne(l.done, NextAll(l, front), Outcomes(l, front), step);
    }
  }

  lemma {:induction false} SettleOne(first: nat, m: Ledger, done: seq<Outcome>, step: Step)
    requires Sound(m) && m.done == first + |done|
    requires forall i :: 0 <= i < |done| ==> m.futures[m.enqueued[first + i].future] == Settled(done[i])
    ensures var n, more := Next(m, step), done + (if Settles(m, step) then [step.outcome] else []);
            && n.done == first + |more| <= |n.enqueued| && m.enqueued <= n.enqueued
            && (forall i :: 0 <= i < |more| ==>
                  n.enqueued[first + i].future in n.futures && n.futures[n.enqueued[first + i].future] == Settled(more[i]))
  {
    NextKeepsFutures(m, step);
  }

  /** A future once settled keeps its outcome. */
  lemma {:induction false} SettledStays(l: Ledger, steps: seq<Step>, k: nat, f: nat)
    requires Sound(l) && k <= |steps|
    requires f in NextAll(l, steps[..k]).futures && NextAll(l, steps[..k]).futures[f].Settled?
    ensures f in NextAll(l, steps).futures && NextAll(l, steps).futures[f] == NextAll(l, steps[..k]).futures[f]
  {
    if k == |steps| {
      assert steps[..k] == steps;
    } else {
      var front := steps[..|steps| - 1];
      assert front[..k] == steps[..k];
      SettledStays(l, front, k, f);
      NextAllIsSound(l, front);
    }
  }

  /**
   * What steps from l to m account for: exactly the new items were added; one item is done, oldest
   * first, for every step that resumed a working task, with that step's outcome; what was settled
   * keeps its outcome.
   */
  ghost predicate Accounted(l: Ledger, m: Ledger, steps: seq<Step>) {
    var done := Outcomes(l, steps);
    && m.enqueued == l.enqueued + NewItems(l.futures.Keys, steps)
    && m.done == l.done + |done| <= |m.enqueued|
    && (forall i :: 0 <= i < |done| ==>
          m.enqueued[l.done + i].future in m.futures && m.futures[m.enqueued[l.done + i].future] == Settled(done[i]))
    && (forall f :: f in l.futures && l.futures[f].Settled? ==> f in m.futures && m.futures[f] == l.futures[f])
  }

  lemma {:induction false} AllAccounted(l: Ledger, steps: seq<Step>)
    requires Sound(l)
    ensures Accounted(l, NextAll(l, steps), steps)
  {
    AdmittedAre(l, steps);
    SettledAre(l, steps);
    assert steps[..0] == [];
    forall f | f in l.futures && l.futures[f].Settled?
      ensures f in NextAll(l, steps).futures && NextAll(l, steps).futures[f] == l.futures[f]
    {
      SettledStays(l, steps, 0, f);
    }
  }

  /**
   * Any interleaving: the lane is what the ledger's steps make of it, which accounts for every item
   * and every outcome.  Items are done in the order they were put, and while one is open the session
   * is busy and has a live consumer.
   */
  method Interleave(lane: SessionLane, steps: seq<Step>)
    requires lane.Valid()
    modifies lane
    ensures lane.Valid() && lane.View() == NextAll(old(lane.View()), steps)
    ensures Accounted(old(lane.View()), lane.View(), steps)
    ensures lane.settled <= lane.enqueued && old(lane.settled) <= lane.settled
    ensures lane.consumer.None? ==> lane.busySince.None? && lane.settled == lane.enqueued
    ensures |lane.settled| < |lane.enqueued| ==>
              lane.busySince.Some? && lane.consumer.Some? && lane.consumer.value in lane.tasks
              && IsLive(lane.tasks[lane.consumer.value])
    ensures forall i :: 0 <= i < |lane.enqueued| ==>
              lane.enqueued[i].future in lane.futures
              && (lane.futures[lane.enqueued[i].future].Settled? <==> i < |lane.settled|)
  {
    ViewIsSound(lane);
    AllAccounted(lane.View(), steps);
    RunSteps(lane, steps);
  }

  method RunSteps(lane: SessionLane, steps: seq<Step>)
    requires lane.Valid()
    modifies lane
    ensures lane.Valid() && lane.View() == NextAll(old(lane.View()), steps)
    ensures old(lane.enqueued) <= lane.enqueued && old(lane.settled) <= lane.settled
    ensures lane.settled <= lane.enqueued
  {
    assert steps[..0] == [];
    for k := 0 to |steps|
      invariant lane.Valid() && lane.View() == NextAll(old(lane.View()), steps[..k])
      invariant old(lane.enqueued) <= lane.enqueued && old(lane.settled) <= lane.settled
    {
      assert steps[..k + 1][..k] == steps[..k];
      lane.Do(steps[k]);
    }
    assert steps[..|steps|] == steps;
  }
}
