/**
 * A worker's log over its life: the worker appends, also in the middle of a line, the cache entry
 * is evicted now and then, and a panel polls.
 */
module WorkerSession {
  import opened Prelude
  import opened PhysicalLines
  import opened WorkerLog
  import opened WorkerReader

  datatype Act = Appended(bytes: Bytes) | Evicted | Polled

  /** What the log holds after some acts. */
  function LogAfter(start: Bytes, acts: seq<Act>): Bytes {
    if acts == [] then start
    else
      var before, act := LogAfter(start, acts[..|acts| - 1]), acts[|acts| - 1];
      if act.Appended? then before + act.bytes else before
  }

  /** What the panel shows: the projection of the complete lines at the last poll that did not raise. */
  function ShownAfter(parse: Parser, start: Bytes, acts: seq<Act>): seq<Row> {
    if acts == [] then []
    else
      var front := acts[..|acts| - 1];
      var whole := WholeRead(parse, LogAfter(start, front));
      if acts[|acts| - 1].Polled? && whole.Some? then whole.value else ShownAfter(parse, start, front)
  }

  /** The log at that poll. */
  function ReadAt(parse: Parser, start: Bytes, acts: seq<Act>): Bytes {
    if acts == [] then []
    else
      var front := acts[..|acts| - 1];
      if acts[|acts| - 1].Polled? && WholeRead(parse, LogAfter(start, front)).Some? then LogAfter(start, front)
      else ReadAt(parse, start, front)
  }

  lemma {:induction false} ShownIsRead(parse: Parser, start: Bytes, acts: seq<Act>)
    ensures ReadAt(parse, start, acts) <= LogAfter(start, acts)
    ensures WholeRead(parse, ReadAt(parse, start, acts)) == Some(ShownAfter(parse, start, acts))
  {
    if acts == [] {
      DatasEmpty(parse);
    } else {
      ShownIsRead(parse, start, acts[..|acts| - 1]);
    }
  }

  /** No row the panel has shown is ever changed, moved or taken away. */
  lemma {:induction false} ShownGrows(parse: Parser, start: Bytes, acts: seq<Act>, k: nat)
    requires k <= |acts|
    ensures ShownAfter(parse, start, acts[..k]) <= ShownAfter(parse, start, acts)
  {
    if k == |acts| {
      assert acts[..k] == acts;
    } else {
      var front := acts[..|acts| - 1];
      assert front[..k] == acts[..k];
      ShownGrows(parse, start, front, k);
      if acts[|acts| - 1].Polled? && WholeRead(parse, LogAfter(start, front)).Some? {
        ShownIsRead(parse, start, front);
        RowsGrow(parse, ReadAt(parse, start, front), LogAfter(start, front));
      }
    }
  }

  method Perform(log: WorkerLogReader, client: Client, act: Act, ghost since: Bytes)
    requires log.Valid() && log.file.Some? && log.InReach()
    requires since <= log.file.value && WholeRead(log.parse, since) == Some(client.shown)
    modifies log, log.entry, client
    ensures log.Valid() && log.InReach() && (log.entry == null || log.entry == old(log.entry) || fresh(log.entry))
    ensures log.file == Some(if act.Appended? then old(log.file.value) + act.bytes else old(log.file.value))
    ensures client.shown == if act.Polled? && WholeRead(log.parse, old(log.file.value)).Some?
                            then WholeRead(log.parse, old(log.file.value)).value else old(client.shown)
  {
    match act
    case Appended(bytes) => log.AppendToLog(bytes);
    case Evicted => log.Evict();
    case Polled => var ok := client.Poll(log, since);
  }

  /** After the first k acts the log and the panel are what the acts say. */
  ghost predicate InSession(log: WorkerLogReader, client: Client, start: Bytes, acts: seq<Act>, k: nat)
    requires k <= |acts|
    reads log, log.entry, client
  {
    && log.Valid() && log.InReach()
    && log.file == Some(LogAfter(start, acts[..k]))
    && client.shown == ShownAfter(log.parse, start, acts[..k])
  }

  /** The k-th act of a life. */
  method Step(log: WorkerLogReader, client: Client, ghost start: Bytes, acts: seq<Act>, k: nat)
    requires k < |acts| && InSession(log, client, start, acts, k)
    modifies log, log.entry, client
    ensures InSession(log, client, start, acts, k + 1)
    ensures log.entry == null || log.entry == old(log.entry) || fresh(log.entry)
  {
    assert acts[..k + 1][..k] == acts[..k];
    ShownIsRead(log.parse, start, acts[..k]);
    Perform(log, client, acts[k], ReadAt(log.parse, start, acts[..k]));
  }

  /**
   * Over any such life of a log: after every act the panel shows the whole projection of the
   * complete lines of the log at the last poll for which that projection does not raise.
   */
  method Session(log: WorkerLogReader, client: Client, acts: seq<Act>) returns (views: seq<seq<Row>>)
    requires log.entry == null && log.file.Some? && client.shown == []
    modifies log, client
    ensures log.Valid() && log.file == Some(LogAfter(old(log.file.value), acts))
    ensures |views| == |acts|
    ensures forall k :: 0 <= k < |acts| ==> views[k] == ShownAfter(log.parse, old(log.file.value), acts[..k + 1])
  {
    ghost var start := log.file.value;
    views := [];
    for k := 0 to |acts|
      invariant InSession(log, client, start, acts, k) && (log.entry == null || fresh(log.entry))
      invariant |views| == k
      invariant forall i :: 0 <= i < k ==> views[i] == ShownAfter(log.parse, start, acts[..i + 1])
    {
      Step(log, client, start, acts, k);
      views := views + [client.shown];
    }
    assert acts[..|acts|] == acts;
  }
}
