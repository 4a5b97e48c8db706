/**
 * The synchronisation task and the handle the application holds, as
 * objects updated in place. The task owns the `subs` and `pubs` maps,
 * the accumulated table and the protocol client; each call of `Cycle`
 * is one turn of its loop and is proved to follow `Nt4Loop.Cycle`. The
 * handle owns the sending ends of the two bounded queues and the reading
 * end of the latest-value slot.
 */
module NetworkTableHandler {
  import opened Common
  import opened MushroomValues
  import opened MushroomPaths
  import opened MushroomTables
  import opened NetworkTableClientIds
  import opened Channels
  import opened Nt4Protocol
  import opened Nt4Loop

  /** Both request queues are created with room for 255 requests. */
  const QueueCapacity: nat := 255

  /** The first element, as `try_recv` sees the queue. */
  function Head<T>(s: seq<T>): (r: Option<T>)
    ensures r.None? <==> s == []
    ensures r.Some? ==> r.value == s[0]
  {
    if |s| == 0 then None else Some(s[0])
  }

  /** The queue after `try_recv`. */
  function Tail<T>(s: seq<T>): (r: seq<T>)
    ensures |s| > 0 ==> s == [s[0]] + r
    ensures |s| == 0 ==> r == []
  {
    if |s| == 0 then [] else s[1..]
  }

  /** The spawned `nt4` task. */
  class Nt4Task {
    var subs: map<string, Subscription>
    var pubs: map<string, PublishedTopic>
    var running: bool
    const table: MushroomTable
    const client: ProtocolClient
    const subscriptions: BoundedQueue<seq<SubscriptionPackage>>
    const input: BoundedQueue<TableSnapshot>
    const output: LatestSlot<TableSnapshot>

    /** The task's state as `Nt4Loop` describes it. */
    ghost function State(): LoopState
      reads this, table, client, output
    {
      LoopState(subs, pubs, client.State(), table.Snapshot(), output.value, running)
    }

    ghost predicate Valid()
      reads this, table, client, subscriptions, input, output
    {
      && table.Valid() && subscriptions.Valid() && input.Valid()
      && output.value.entryPaths == IndexMap(output.value.entries)
      && (running ==> Invariant(State()) && !subscriptions.closed && !input.closed)
      && (!running ==> subscriptions.closed && input.closed)
    }

    /**
     * The task right after it connected (`connected`) or failed to
     * connect, which panics the task before its loop starts.
     */
    constructor (client: ProtocolClient, subscriptions: BoundedQueue<seq<SubscriptionPackage>>,
                 input: BoundedQueue<TableSnapshot>, output: LatestSlot<TableSnapshot>, serverTime: Timestamp)
      requires client.trace == [] && client.nextUid == 0
      requires subscriptions.Valid() && input.Valid() && output.value == EmptySnapshot(0)
      requires subscriptions.closed == input.closed
      ensures Valid()
      ensures State() == InitialState(serverTime).(running := !subscriptions.closed)
      ensures this.client == client && this.subscriptions == subscriptions && this.input == input && this.output == output
      ensures fresh(table)
    {
      subs := map[];
      pubs := map[];
      running := !subscriptions.closed;
      table := new MushroomTable.New(serverTime);
      this.client := client;
      this.subscriptions := subscriptions;
      this.input := input;
      this.output := output;
    }

    /** The task ends (a panic or `abort`): its receivers are dropped, so both queues close. */
    method Abort()
      requires table.Valid() && subscriptions.Valid() && input.Valid()
      requires output.value.entryPaths == IndexMap(output.value.entries)
      modifies this`running, subscriptions, input
      ensures Valid() && !running
      ensures subscriptions.closed && subscriptions.items == [] && input.closed && input.items == []
    {
      running := false;
      subscriptions.Close();
      input.Close();
    }

    /** Lines 218-234: every package of one batch, in order. */
    method ApplySubscriptions(batch: seq<SubscriptionPackage>) returns (ok: bool)
      modifies this`subs, client
      ensures SubPhase(subs, client.State(), ok) ==
                ApplyBatch(SubPhase(old(subs), old(client.State()), true), batch, client.refusals.subscriptions)
    {
      ghost var init := SubPhase(subs, client.State(), true);
      var refused := client.refusals.subscriptions;
      var i := 0;
      while i < |batch|
        invariant 0 <= i <= |batch|
        invariant SubPhase(subs, client.State(), true) == ApplyBatch(init, batch[..i], refused)
      {
        assert batch[..i + 1][..i] == batch[..i];
        var pkg := batch[i];
        if pkg.name in subs {
          var previous := subs[pkg.name];
          subs := subs - {pkg.name};
          client.Unsubscribe(previous);
        }
        var sub := client.SubscribeWithOptions(pkg.name, pkg.options);
        if sub.None? {
          ok := false;
          ApplyBatchStaysFailed(init, batch, i + 1, refused);
          return;
        }
        subs := subs[pkg.name := sub.value];
        i := i + 1;
      }
      assert batch[..i] == batch;
      ok := true;
    }

    /** Lines 239-254: every entry of one outbound table, in table order. */
    method PublishEntries(entries: seq<MushroomEntry>) returns (ok: bool)
      modifies this`pubs, client
      ensures PubPhase(pubs, client.State(), ok) ==
                PublishAll(PubPhase(old(pubs), old(client.State()), true), entries, client.refusals.topics)
    {
      ghost var init := PubPhase(pubs, client.State(), true);
      var refused := client.refusals.topics;
      var i := 0;
      while i < |entries|
        invariant 0 <= i <= |entries|
        invariant PubPhase(pubs, client.State(), true) == PublishAll(init, entries[..i], refused)
      {
        assert entries[..i + 1][..i] == entries[..i];
        var entry := entries[i];
        var path := ToString(entry.path);
        if path !in pubs {
          var topic := client.PublishTopic(path, ToNtType(entry.value));
          if topic.None? {
            ok := false;
            PublishAllStaysFailed(init, entries, i + 1, refused);
            return;
          }
          pubs := pubs[path := topic.value];
        }
        client.PublishValue(pubs[path], ToRmpv(entry.value));
        i := i + 1;
      }
      assert entries[..i] == entries;
      ok := true;
    }

    /** Lines 216-235: at most one batch is taken off its queue and applied. */
    method SubscribeQueued() returns (ok: bool)
      requires subscriptions.Valid()
      modifies this`subs, client, subscriptions
      ensures subscriptions.Valid() && subscriptions.closed == old(subscriptions.closed)
      ensures subscriptions.items == Tail(old(subscriptions.items))
      ensures SubPhase(subs, client.State(), ok) ==
                ApplyBatch(SubPhase(old(subs), old(client.State()), true), Head(old(subscriptions.items)).GetOr([]),
                           client.refusals.subscriptions)
    {
      var batch := subscriptions.TryRecv();
      ok := ApplySubscriptions(batch.GetOr([]));
    }

    /** Lines 237-256: at most one table is taken off its queue and published. */
    method PublishQueued() returns (ok: bool)
      requires input.Valid()
      modifies this`pubs, client, input
      ensures input.Valid() && input.closed == old(input.closed)
      ensures input.items == Tail(old(input.items))
      ensures var outgoing := Head(old(input.items));
              PubPhase(pubs, client.State(), ok) ==
                PublishAll(PubPhase(old(pubs), old(client.State()), true),
                           if outgoing.Some? then outgoing.value.entries else [], client.refusals.topics)
    {
      var outgoing := input.TryRecv();
      ok := PublishEntries(if outgoing.Some? then outgoing.value.entries else []);
    }

    /**
     * Lines 258-277: the inbound messages become a fresh table that is
     * merged into the accumulated one, which is then stored in the slot;
     * nothing changes where a payload makes the conversion panic.
     */
    method MergeInbound(serverTime: Timestamp, inbound: seq<Message>) returns (converted: bool)
      requires table.Valid()
      modifies table, output
      ensures table.Valid()
      ensures converted <==> InboundEntries(inbound).Some?
      ensures converted ==> table.Snapshot() == Accumulate(old(table.Snapshot()), InboundEntries(inbound).value, serverTime)
      ensures converted ==> output.value == table.Snapshot()
      ensures !converted ==> unchanged(table) && unchanged(output)
    {
      var incoming;
      incoming, converted := CollectInbound(serverTime, inbound);
      if converted {
        table.UpdateAll(incoming);
        output.Update(table.Snapshot());
      }
    }

    /**
     * One turn of the loop (lines 214-278): at most one batch and at most
     * one table are taken off the queues, then the inbound messages are
     * merged and the result is stored in the slot. `serverTime` is the
     * server time the fresh table is stamped with, `inbound` the
     * messages drained from the subscriptions and `elapsed` the time the
     * turn took; `sleep` is the pause before the next turn.
     */
    method Cycle(serverTime: Timestamp, inbound: seq<Message>, elapsed: nat) returns (sleep: real)
      requires Valid() && running
      modifies this, table, client, subscriptions, input, output
      ensures Valid()
      ensures State() == Nt4Loop.Cycle(old(State()), Head(old(subscriptions.items)), Head(old(input.items)),
                                       serverTime, inbound, client.refusals)
      ensures running ==> subscriptions.items == Tail(old(subscriptions.items)) && input.items == Tail(old(input.items))
      ensures !running ==> subscriptions.items == [] && input.items == []
      ensures running ==> sleep == PacingDelay(elapsed)
    {
      sleep := 0.0;
      ghost var s := State();
      ghost var batchIn := Head(subscriptions.items);
      ghost var outIn := Head(input.items);
      var ok := SubscribeQueued();
      if !ok {
        Abort();
        return;
      }
      ok := PublishQueued();
      if !ok {
        Abort();
        return;
      }
      ok := MergeInbound(serverTime, inbound);
      if !ok {
        Abort();
        return;
      }
      CycleKeepsInvariant(s, batchIn, outIn, serverTime, inbound, client.refusals);
      sleep := PacingDelay(elapsed);
    }
  }

  /**
   * Lines 258-269: a fresh table at `serverTime`, with an `add_entry` for
   * every inbound message in order; `converted` is false where a payload
   * makes the conversion panic.
   */
  method CollectInbound(serverTime: Timestamp, inbound: seq<Message>) returns (incoming: MushroomTable, converted: bool)
    ensures fresh(incoming) && incoming.Valid() && incoming.timestamp == serverTime
    ensures converted <==> InboundEntries(inbound).Some?
    ensures converted ==> incoming.entries == InboundEntries(inbound).value
  {
    incoming := new MushroomTable.New(serverTime);
    var i := 0;
    while i < |inbound|
      invariant 0 <= i <= |inbound|
      invariant fresh(incoming) && incoming.Valid() && incoming.timestamp == serverTime
      invariant InboundEntries(inbound[..i]) == Some(incoming.entries)
    {
      InboundEntriesStep(inbound, i);
      var entry := MessageEntry(inbound[i]);
      if entry.None? {
        InboundEntriesOk(inbound);
        converted := false;
        return;
      }
      ghost var before := incoming.entries;
      incoming.AddEntry(entry.value);
      assert InboundEntries(inbound[..i + 1]) == Some(Upsert(before, entry.value));
      i := i + 1;
    }
    assert inbound[..i] == inbound;
    converted := true;
  }

  /** An error the handle logs instead of returning. */
  datatype Failure = PublishFailed(publishReason: TrySendError) | SubscribeFailed(subscribeReason: TrySendError)

  /** The handle the application keeps per connection. */
  class NetworkTableClient {
    const id: NetworkTableClientId
    const subscriptions: BoundedQueue<seq<SubscriptionPackage>>
    const input: BoundedQueue<TableSnapshot>
    const output: LatestSlot<TableSnapshot>
    const thread: Nt4Task
    /** The failures logged so far. */
    var failures: seq<Failure>

    ghost predicate Valid()
      reads this, thread, thread.table, thread.client, subscriptions, input, output
    {
      && thread.subscriptions == subscriptions && thread.input == input && thread.output == output
      && subscriptions.capacity == QueueCapacity && input.capacity == QueueCapacity
      && thread.Valid()
    }

    constructor (id: NetworkTableClientId, thread: Nt4Task)
      requires thread.Valid()
      requires thread.subscriptions.capacity == QueueCapacity && thread.input.capacity == QueueCapacity
      ensures Valid()
      ensures this.id == id && this.thread == thread && failures == []
      ensures subscriptions == thread.subscriptions && input == thread.input && output == thread.output
    {
      this.id := id;
      this.thread := thread;
      subscriptions := thread.subscriptions;
      input := thread.input;
      output := thread.output;
      failures := [];
    }

    /** `stop`: aborts the task. */
    method Stop()
      requires Valid()
      modifies thread`running, subscriptions, input
      ensures Valid() && !thread.running
      ensures subscriptions.closed && input.closed
    {
      thread.Abort();
    }

    /** `publish`: queue a clone of `table` for the task; a full or closed queue drops it and logs why. */
    method Publish(table: MushroomTable)
      requires Valid()
      modifies this`failures, input
      ensures Valid()
      ensures !old(input.closed) && old(|input.items|) < QueueCapacity ==>
                input.items == old(input.items) + [old(table.Snapshot())] && failures == old(failures)
      ensures old(input.closed) ==> input.items == old(input.items) && failures == old(failures) + [PublishFailed(Closed)]
      ensures !old(input.closed) && old(|input.items|) == QueueCapacity ==>
                input.items == old(input.items) && failures == old(failures) + [PublishFailed(Full)]
    {
      var r := input.TrySend(table.Snapshot());
      if r.Some? {
        failures := failures + [PublishFailed(r.value)];
      }
    }

    /** `subscribe`: queue a batch for the task; a full or closed queue drops it and logs why. */
    method Subscribe(batch: seq<SubscriptionPackage>)
      requires Valid()
      modifies this`failures, subscriptions
      ensures Valid()
      ensures !old(subscriptions.closed) && old(|subscriptions.items|) < QueueCapacity ==>
                subscriptions.items == old(subscriptions.items) + [batch] && failures == old(failures)
      ensures old(subscriptions.closed) ==>
                subscriptions.items == old(subscriptions.items) && failures == old(failures) + [SubscribeFailed(Closed)]
      ensures !old(subscriptions.closed) && old(|subscriptions.items|) == QueueCapacity ==>
                subscriptions.items == old(subscriptions.items) && failures == old(failures) + [SubscribeFailed(Full)]
    {
      var r := subscriptions.TrySend(batch);
      if r.Some? {
        failures := failures + [SubscribeFailed(r.value)];
      }
    }

    /** `poll`: a clone of the table the task stored last. */
    method Poll() returns (t: TableSnapshot)
      requires Valid()
      ensures t == output.value
      ensures t.entryPaths == IndexMap(t.entries)
    {
      t := output.Latest();
    }
  }

  /** Why `start_nt4_client` refused to start. */
  datatype StartOutcome = Started(client: NetworkTableClient) | NotMainThread(threadName: string)

  /**
   * `start_nt4_client`: only the thread named `main` may start a client.
   * `connected` says whether the task's connection attempt succeeds and
   * `serverTime` is the server time it reads on success; `refusals` is
   * what the server will refuse.
   */
  method StartNt4Client(address: Ipv4, port: U16, identity: string, threadName: string,
                        connected: bool, serverTime: Timestamp, refusals: Refusals) returns (r: StartOutcome)
    ensures r.NotMainThread? <==> threadName != "main"
    ensures r.NotMainThread? ==> r.threadName == threadName
    ensures r.Started? ==>
              && fresh(r.client) && r.client.Valid()
              && r.client.id == NetworkTableClientId(address, port, identity)
              && r.client.output.value == EmptySnapshot(0)
              && r.client.input.items == [] && r.client.subscriptions.items == []
              && r.client.thread.running == connected
              && r.client.thread.client.refusals == refusals
  {
    if threadName != "main" {
      return NotMainThread(threadName);
    }
    var input := new BoundedQueue<TableSnapshot>(QueueCapacity);
    var output := new LatestSlot<TableSnapshot>(EmptySnapshot(0));
    var subscriptions := new BoundedQueue<seq<SubscriptionPackage>>(QueueCapacity);
    var id := NetworkTableClientId(address, port, identity);
    var client := new ProtocolClient(refusals);
    if !connected {
      subscriptions.Close();
      input.Close();
    }
    var thread := new Nt4Task(client, subscriptions, input, output, serverTime);
    var handle := new NetworkTableClient(id, thread);
    return Started(handle);
  }
}
