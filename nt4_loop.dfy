/**
 * One cycle of the NT4 synchronisation loop as a function of the state
 * before it: apply at most one subscription batch, publish at most one
 * outbound table, collect the inbound messages into a fresh table
 * stamped with the server time, merge it into the accumulated table and
 * publish the result to the latest-value slot. A panic in any phase ends
 * the task (`running` becomes false).
 *
 * The task object in `NetworkTableHandler` is proved to follow `Cycle`.
 */
module Nt4Loop {
  import opened Common
  import Rmpv
  import NT = NetworkTablesV4
  import opened MushroomValues
  import opened MushroomPaths
  import opened MushroomTables
  import opened Nt4Protocol

  /** A request to (re)subscribe to one topic name. */
  datatype SubscriptionPackage = SubscriptionPackage(name: string, options: Option<NT.SubscriptionOptions>)

  /** `SubscriptionPackage::new`: the options are always present. */
  function NewPackage(name: string, options: NT.SubscriptionOptions): (p: SubscriptionPackage)
    ensures p.name == name && p.options == Some(options)
  {
    SubscriptionPackage(name, Some(options))
  }

  /**
   * An inbound message as the subscription yields it; `realTime` is the
   * message timestamp already converted to the client's real time.
   */
  datatype Message = Message(topicName: string, data: Rmpv.Value, realTime: real)

  // ---------------------------------------------------------------------
  // Subscription batch
  // ---------------------------------------------------------------------

  /** The `subs` map and the client while a batch is applied; `ok` is false once a subscribe failed. */
  datatype SubPhase = SubPhase(subs: map<string, Subscription>, client: ClientState, ok: bool)

  /**
   * One package: drop and unsubscribe an existing subscription of the same
   * name, then subscribe; a refused subscription panics.
   */
  function SubscribeOne(s: SubPhase, pkg: SubscriptionPackage, refused: set<string>): SubPhase {
    if !s.ok then s
    else
      var c := if pkg.name in s.subs then s.client.Record(Unsubscribe(s.subs[pkg.name].uid)) else s.client;
      var c' := c.Record(Subscribe([pkg.name], pkg.options));
      if pkg.name in refused then SubPhase(s.subs - {pkg.name}, c', false)
      else SubPhase(s.subs[pkg.name := Subscription(c'.nextUid, [pkg.name], pkg.options)],
                    c'.(nextUid := c'.nextUid + 1), true)
  }

  /** The packages of a batch, in order. */
  function ApplyBatch(s: SubPhase, batch: seq<SubscriptionPackage>, refused: set<string>): SubPhase
    decreases |batch|
  {
    if |batch| == 0 then s
    else SubscribeOne(ApplyBatch(s, batch[..|batch| - 1], refused), batch[|batch| - 1], refused)
  }

  /** The last position of a package named `n`, or -1. */
  function LastNamed(batch: seq<SubscriptionPackage>, n: string): (r: int)
    ensures -1 <= r < |batch|
    ensures r >= 0 ==> batch[r].name == n
    ensures forall j :: r < j < |batch| ==> batch[j].name != n
  {
    if |batch| == 0 then -1
    else if batch[|batch| - 1].name == n then |batch| - 1
    else LastNamed(batch[..|batch| - 1], n)
  }

  /**
   * Re-subscribing: a name already subscribed is unsubscribed (outcome
   * ignored) before the new subscribe call; a new name gets only the
   * subscribe call.
   */
  lemma ResubscribeUnsubscribesFirst(s: SubPhase, pkg: SubscriptionPackage, refused: set<string>)
    requires s.ok
    ensures SubscribeOne(s, pkg, refused).client.trace ==
              s.client.trace
              + (if pkg.name in s.subs then [Unsubscribe(s.subs[pkg.name].uid)] else [])
              + [Subscribe([pkg.name], pkg.options)]
  {
  }

  /** After a failed subscribe the rest of the batch does nothing. */
  lemma {:induction false} ApplyBatchStaysFailed(s: SubPhase, batch: seq<SubscriptionPackage>, k: nat, refused: set<string>)
    requires k <= |batch| && !ApplyBatch(s, batch[..k], refused).ok
    ensures ApplyBatch(s, batch, refused) == ApplyBatch(s, batch[..k], refused)
    decreases |batch| - k
  {
    if k < |batch| {
      assert batch[..|batch|] == batch;
      var b' := batch[..|batch| - 1];
      assert b'[..k] == batch[..k];
      ApplyBatchStaysFailed(s, b', k, refused);
    } else {
      assert batch[..k] == batch;
    }
  }

  /** A batch goes through exactly when the server accepts every name in it. */
  lemma {:induction false} ApplyBatchOk(s: SubPhase, batch: seq<SubscriptionPackage>, refused: set<string>)
    requires s.ok
    ensures ApplyBatch(s, batch, refused).ok <==> forall i :: 0 <= i < |batch| ==> batch[i].name !in refused
    decreases |batch|
  {
    if |batch| > 0 {
      ApplyBatchOk(s, batch[..|batch| - 1], refused);
    }
  }

  /**
   * A batch that goes through leaves exactly one subscription per name:
   * a name of the batch maps to a subscription of that one topic with the
   * options of the LAST package naming it; other names are untouched.
   */
  lemma {:induction false} ApplyBatchSubs(s: SubPhase, batch: seq<SubscriptionPackage>, refused: set<string>)
    requires s.ok && ApplyBatch(s, batch, refused).ok
    ensures var r := ApplyBatch(s, batch, refused);
            forall n :: n in r.subs <==> n in s.subs || LastNamed(batch, n) >= 0
    ensures var r := ApplyBatch(s, batch, refused);
            forall n :: n in r.subs && LastNamed(batch, n) >= 0 ==>
              r.subs[n].topics == [n] && r.subs[n].options == batch[LastNamed(batch, n)].options
    ensures var r := ApplyBatch(s, batch, refused);
            forall n :: n in s.subs && LastNamed(batch, n) < 0 ==> r.subs[n] == s.subs[n]
    decreases |batch|
  {
    if |batch| > 0 {
      var b' := batch[..|batch| - 1];
      assert ApplyBatch(s, b', refused).ok;
      ApplyBatchSubs(s, b', refused);
    }
  }

  // ---------------------------------------------------------------------
  // Publishing one outbound table
  // ---------------------------------------------------------------------

  /** The `pubs` map and the client while a table is published; `ok` is false once an announcement failed. */
  datatype PubPhase = PubPhase(pubs: map<string, PublishedTopic>, client: ClientState, ok: bool)

  /**
   * One entry: announce its path with the type of its value unless the
   * path already has a topic (a refused announcement panics), then send
   * the value on the path's topic.
   */
  function PublishOne(s: PubPhase, e: MushroomEntry, refused: set<string>): PubPhase {
    if !s.ok then s
    else
      var path := ToString(e.path);
      if path in s.pubs then
        PubPhase(s.pubs, s.client.Record(PublishValue(s.pubs[path].uid, ToRmpv(e.value))), true)
      else
        var ty := ToNtType(e.value);
        var c := s.client.Record(PublishTopic(path, ty));
        if path in refused then PubPhase(s.pubs, c, false)
        else
          var topic := PublishedTopic(c.nextUid, path, ty);
          PubPhase(s.pubs[path := topic], c.(nextUid := c.nextUid + 1).Record(PublishValue(topic.uid, ToRmpv(e.value))), true)
  }

  /** The entries of a table, in table order. */
  function PublishAll(s: PubPhase, entries: seq<MushroomEntry>, refused: set<string>): PubPhase
    decreases |entries|
  {
    if |entries| == 0 then s
    else PublishOne(PublishAll(s, entries[..|entries| - 1], refused), entries[|entries| - 1], refused)
  }

  /** The first position of an entry whose path renders as `p`, or -1. */
  function FirstPublished(entries: seq<MushroomEntry>, p: string): (r: int)
    ensures -1 <= r < |entries|
    ensures r >= 0 ==> ToString(entries[r].path) == p
    ensures forall j :: 0 <= j < |entries| && (r < 0 || j < r) ==> ToString(entries[j].path) != p
  {
    if |entries| == 0 then -1
    else
      var k := FirstPublished(entries[..|entries| - 1], p);
      if k >= 0 then k
      else if ToString(entries[|entries| - 1].path) == p then |entries| - 1
      else -1
  }

  /** Every path has a topic of its own name, and each path was announced once exactly when it has a topic. */
  ghost predicate AnnounceInvariant(pubs: map<string, PublishedTopic>, trace: seq<Call>) {
    && (forall p :: p in pubs ==> pubs[p].name == p)
    && (forall p :: AnnounceCount(trace, p) == if p in pubs then 1 else 0)
  }

  /** After a failed announcement the rest of the table does nothing. */
  lemma {:induction false} PublishAllStaysFailed(s: PubPhase, entries: seq<MushroomEntry>, k: nat, refused: set<string>)
    requires k <= |entries| && !PublishAll(s, entries[..k], refused).ok
    ensures PublishAll(s, entries, refused) == PublishAll(s, entries[..k], refused)
    decreases |entries| - k
  {
    if k < |entries| {
      var e' := entries[..|entries| - 1];
      assert e'[..k] == entries[..k];
      PublishAllStaysFailed(s, e', k, refused);
    } else {
      assert entries[..k] == entries;
    }
  }

  /** One entry: which maps and outcomes it can lead to. */
  lemma PublishOneShape(s: PubPhase, e: MushroomEntry, refused: set<string>)
    requires s.ok
    ensures var r := PublishOne(s, e, refused);
            var path := ToString(e.path);
            && (r.ok <==> path in s.pubs || path !in refused)
            && (forall p :: p in s.pubs ==> p in r.pubs && r.pubs[p] == s.pubs[p])
            && (r.ok ==> r.pubs.Keys == s.pubs.Keys + {path})
            && (r.ok && path !in s.pubs ==> r.pubs[path].ty == ToNtType(e.value))
            && (!r.ok ==> r.pubs == s.pubs)
  {
  }

  /** Every path of `entries` either has a topic in `pubs` or is one the server accepts. */
  predicate Announceable(pubs: map<string, PublishedTopic>, entries: seq<MushroomEntry>, refused: set<string>) {
    forall i :: 0 <= i < |entries| ==> ToString(entries[i].path) in pubs || ToString(entries[i].path) !in refused
  }

  lemma AnnounceableSnoc(pubs: map<string, PublishedTopic>, entries: seq<MushroomEntry>, refused: set<string>)
    requires |entries| > 0
    ensures var path := ToString(entries[|entries| - 1].path);
            Announceable(pubs, entries, refused) <==>
              Announceable(pubs, entries[..|entries| - 1], refused) && (path in pubs || path !in refused)
  {
    var e' := entries[..|entries| - 1];
    assert forall i :: 0 <= i < |e'| ==> e'[i] == entries[i];
  }

  /** Publishing never removes or changes a topic already announced. */
  lemma {:induction false} PublishAllGrows(s: PubPhase, entries: seq<MushroomEntry>, refused: set<string>)
    ensures var r := PublishAll(s, entries, refused);
            forall p :: p in s.pubs ==> p in r.pubs && r.pubs[p] == s.pubs[p]
    decreases |entries|
  {
    if |entries| > 0 {
      var m := PublishAll(s, entries[..|entries| - 1], refused);
      PublishAllGrows(s, entries[..|entries| - 1], refused);
      if m.ok {
        PublishOneShape(m, entries[|entries| - 1], refused);
      }
    }
  }

  /** A table goes through exactly when every path it has to announce is accepted. */
  lemma {:induction false} PublishAllOk(s: PubPhase, entries: seq<MushroomEntry>, refused: set<string>)
    requires s.ok
    ensures PublishAll(s, entries, refused).ok <==> Announceable(s.pubs, entries, refused)
    decreases |entries|
  {
    if |entries| > 0 {
      var e' := entries[..|entries| - 1];
      var e := entries[|entries| - 1];
      PublishAllOk(s, e', refused);
      AnnounceableSnoc(s.pubs, entries, refused);
      var m := PublishAll(s, e', refused);
      if m.ok {
        PublishAllKeys(s, e', refused);
        PublishOneShape(m, e, refused);
        var path := ToString(e.path);
        if path in m.pubs && path !in s.pubs {
          var k := FirstPublished(e', path);
          assert ToString(e'[k].path) == path;
        }
      }
    }
  }

  /** A table that goes through announces exactly its paths that had no topic. */
  lemma {:induction false} PublishAllKeys(s: PubPhase, entries: seq<MushroomEntry>, refused: set<string>)
    requires s.ok && PublishAll(s, entries, refused).ok
    ensures forall p :: p in PublishAll(s, entries, refused).pubs <==> p in s.pubs || FirstPublished(entries, p) >= 0
    decreases |entries|
  {
    if |entries| > 0 {
      var e' := entries[..|entries| - 1];
      var m := PublishAll(s, e', refused);
      assert m.ok;
      PublishAllKeys(s, e', refused);
      PublishOneShape(m, entries[|entries| - 1], refused);
    }
  }

  /** Publishing `e` announces `e`'s path when it has no topic yet, and nothing else. */
  lemma PublishOneAnnounces(s: PubPhase, e: MushroomEntry, refused: set<string>, p: string)
    requires s.ok
    ensures AnnounceCount(PublishOne(s, e, refused).client.trace, p) ==
              AnnounceCount(s.client.trace, p) + if p == ToString(e.path) && p !in s.pubs then 1 else 0
  {
    var path := ToString(e.path);
    var t := s.client.trace;
    if path in s.pubs {
      var c := PublishValue(s.pubs[path].uid, ToRmpv(e.value));
      assert PublishOne(s, e, refused).client.trace == t + [c];
      AnnounceCountSnoc(t, c, p);
    } else {
      var c := PublishTopic(path, ToNtType(e.value));
      AnnounceCountSnoc(t, c, p);
      if path !in refused {
        var c' := PublishValue(s.client.nextUid, ToRmpv(e.value));
        assert PublishOne(s, e, refused).client.trace == t + [c] + [c'];
        AnnounceCountSnoc(t + [c], c', p);
      }
    }
  }

  /** Announce-once: a table that goes through keeps every path announced exactly once. */
  lemma {:induction false} PublishAllKeepsAnnounceInvariant(s: PubPhase, entries: seq<MushroomEntry>, refused: set<string>)
    requires s.ok && AnnounceInvariant(s.pubs, s.client.trace)
    requires PublishAll(s, entries, refused).ok
    ensures var r := PublishAll(s, entries, refused);
            AnnounceInvariant(r.pubs, r.client.trace)
    decreases |entries|
  {
    if |entries| > 0 {
      var e' := entries[..|entries| - 1];
      var e := entries[|entries| - 1];
      var m := PublishAll(s, e', refused);
      assert m.ok;
      PublishAllKeepsAnnounceInvariant(s, e', refused);
      PublishOneShape(m, e, refused);
      var r := PublishOne(m, e, refused);
      forall p ensures AnnounceCount(r.client.trace, p) == if p in r.pubs then 1 else 0 {
        PublishOneAnnounces(m, e, refused, p);
      }
    }
  }

  /** The value sends `e` adds: one, on the topic of `e`'s path. */
  lemma PublishOneSends(s: PubPhase, e: MushroomEntry, refused: set<string>)
    requires s.ok && PublishOne(s, e, refused).ok
    ensures var r := PublishOne(s, e, refused);
            ToString(e.path) in r.pubs && Sent(r.client.trace) == Sent(s.client.trace) + [(r.pubs[ToString(e.path)].uid, ToRmpv(e.value))]
  {
    var path := ToString(e.path);
    var t := s.client.trace;
    if path in s.pubs {
      var c := PublishValue(s.pubs[path].uid, ToRmpv(e.value));
      assert PublishOne(s, e, refused).client.trace == t + [c];
      SentSnoc(t, c);
    } else {
      var c := PublishTopic(path, ToNtType(e.value));
      var c' := PublishValue(s.client.nextUid, ToRmpv(e.value));
      assert PublishOne(s, e, refused).client.trace == t + [c] + [c'];
      SentSnoc(t, c);
      SentSnoc(t + [c], c');
    }
  }

  /** The sends a table makes once every path has a topic: one per entry, in table order. */
  function SendsOf(pubs: map<string, PublishedTopic>, entries: seq<MushroomEntry>): (r: seq<(nat, Rmpv.Value)>)
    requires forall i :: 0 <= i < |entries| ==> ToString(entries[i].path) in pubs
    ensures |r| == |entries|
  {
    seq(|entries|, i requires 0 <= i < |entries| && ToString(entries[i].path) in pubs =>
                     (pubs[ToString(entries[i].path)].uid, ToRmpv(entries[i].value)))
  }

  /** A table that goes through leaves a topic for every one of its paths. */
  lemma {:induction false} PublishAllCovers(s: PubPhase, entries: seq<MushroomEntry>, refused: set<string>)
    requires s.ok && PublishAll(s, entries, refused).ok
    ensures forall i :: 0 <= i < |entries| ==> ToString(entries[i].path) in PublishAll(s, entries, refused).pubs
    decreases |entries|
  {
    if |entries| > 0 {
      var e' := entries[..|entries| - 1];
      var m := PublishAll(s, e', refused);
      assert m.ok;
      PublishAllCovers(s, e', refused);
      PublishOneShape(m, entries[|entries| - 1], refused);
      forall i | 0 <= i < |entries| ensures ToString(entries[i].path) in PublishAll(s, entries, refused).pubs {
        if i < |e'| {
          assert entries[i] == e'[i];
        }
      }
    }
  }

  /**
   * Send-many: a table that goes through sends one value per entry, in
   * table order, each on the topic of the entry's path.
   */
  lemma {:induction false} PublishAllSends(s: PubPhase, entries: seq<MushroomEntry>, refused: set<string>)
    requires s.ok && PublishAll(s, entries, refused).ok
    ensures var r := PublishAll(s, entries, refused);
            && (forall i :: 0 <= i < |entries| ==> ToString(entries[i].path) in r.pubs)
            && Sent(r.client.trace) == Sent(s.client.trace) + SendsOf(r.pubs, entries)
    decreases |entries|
  {
    PublishAllCovers(s, entries, refused);
    if |entries| > 0 {
      var e' := entries[..|entries| - 1];
      var e := entries[|entries| - 1];
      var m := PublishAll(s, e', refused);
      assert m.ok;
      PublishAllSends(s, e', refused);
      PublishOneSends(m, e, refused);
      PublishOneShape(m, e, refused);
      var r := PublishOne(m, e, refused);
      SendsOfSnoc(m.pubs, r.pubs, e', e);
      assert entries == e' + [e];
    }
  }

  lemma SendsOfSnoc(m: map<string, PublishedTopic>, r: map<string, PublishedTopic>, es: seq<MushroomEntry>, e: MushroomEntry)
    requires forall i :: 0 <= i < |es| ==> ToString(es[i].path) in m
    requires forall p :: p in m ==> p in r && r[p] == m[p]
    requires ToString(e.path) in r
    ensures forall i :: 0 <= i < |es + [e]| ==> ToString((es + [e])[i].path) in r
    ensures SendsOf(m, es) + [(r[ToString(e.path)].uid, ToRmpv(e.value))] == SendsOf(r, es + [e])
  {
    forall i | 0 <= i < |es + [e]| ensures ToString((es + [e])[i].path) in r {
      if i < |es| { assert (es + [e])[i] == es[i]; }
    }
  }

  /**
   * The type a path is announced with is the type of the first value
   * published on it; later values reuse the topic whatever their kind.
   */
  lemma {:induction false} AnnouncedTypeIsFirst(s: PubPhase, entries: seq<MushroomEntry>, refused: set<string>, p: string)
    requires s.ok && PublishAll(s, entries, refused).ok
    requires p in PublishAll(s, entries, refused).pubs && p !in s.pubs
    ensures FirstPublished(entries, p) >= 0
    ensures PublishAll(s, entries, refused).pubs[p].ty == ToNtType(entries[FirstPublished(entries, p)].value)
    decreases |entries|
  {
    var e' := entries[..|entries| - 1];
    var e := entries[|entries| - 1];
    var m := PublishAll(s, e', refused);
    assert m.ok;
    PublishOneShape(m, e, refused);
    if p in m.pubs {
      AnnouncedTypeIsFirst(s, e', refused, p);
      var k := FirstPublished(e', p);
      assert FirstPublished(entries, p) == k;
      assert entries[k] == e'[k];
    } else {
      PublishAllKeys(s, e', refused);
      assert FirstPublished(entries, p) == |e'|;
    }
  }

  // ---------------------------------------------------------------------
  // Inbound messages
  // ---------------------------------------------------------------------

  /** `MushroomEntry::new(msg.data.into(), msg.topic_name.into(), Some(real time))`; `None` where the conversion panics. */
  function MessageEntry(m: Message): (r: Option<MushroomEntry>)
    ensures r.None? <==> RmpvPanics(m.data)
    ensures r.Some? ==> r.value.path == FromString(m.topicName) && r.value.timestamp == Some(m.realTime)
                        && Some(r.value.value) == FromRmpv(m.data)
  {
    var v :- FromRmpv(m.data);
    Some(MushroomEntry(v, FromString(m.topicName), Some(m.realTime)))
  }

  /** The fresh table's entries after `add_entry` of every message in order; `None` where a conversion panics. */
  function InboundEntries(msgs: seq<Message>): Option<seq<MushroomEntry>>
    decreases |msgs|
  {
    if |msgs| == 0 then Some([])
    else
      var t :- InboundEntries(msgs[..|msgs| - 1]);
      var e :- MessageEntry(msgs[|msgs| - 1]);
      Some(Upsert(t, e))
  }

  /** One more message: its entry is added, or the conversion panics. */
  lemma InboundEntriesStep(msgs: seq<Message>, i: nat)
    requires i < |msgs|
    ensures InboundEntries(msgs[..i + 1]) ==
              if InboundEntries(msgs[..i]).None? || MessageEntry(msgs[i]).None? then None
              else Some(Upsert(InboundEntries(msgs[..i]).value, MessageEntry(msgs[i]).value))
  {
    assert msgs[..i + 1][..i] == msgs[..i];
    assert msgs[..i + 1][i] == msgs[i];
  }

  /** The last message on path `p`, or -1. */
  function LastMessageOn(msgs: seq<Message>, p: MushroomPath): (r: int)
    ensures -1 <= r < |msgs|
    ensures r >= 0 ==> FromString(msgs[r].topicName) == p
    ensures forall j :: r < j < |msgs| ==> FromString(msgs[j].topicName) != p
  {
    if |msgs| == 0 then -1
    else if FromString(msgs[|msgs| - 1].topicName) == p then |msgs| - 1
    else LastMessageOn(msgs[..|msgs| - 1], p)
  }

  /** The messages convert exactly when none of their payloads makes the conversion panic. */
  lemma {:induction false} InboundEntriesOk(msgs: seq<Message>)
    ensures InboundEntries(msgs).Some? <==> forall i :: 0 <= i < |msgs| ==> !RmpvPanics(msgs[i].data)
    decreases |msgs|
  {
    if |msgs| > 0 {
      var init := msgs[..|msgs| - 1];
      InboundEntriesOk(init);
      if InboundEntries(msgs).Some? {
        forall i | 0 <= i < |msgs| ensures !RmpvPanics(msgs[i].data) {
          if i < |init| {
            assert msgs[i] == init[i];
          }
        }
      } else if InboundEntries(init).None? {
        var i :| 0 <= i < |init| && RmpvPanics(init[i].data);
        assert msgs[i] == init[i];
      }
    }
  }

  /**
   * Last message wins: in the fresh table each path holds the entry of the
   * last message on it, and each path appears once.
   */
  lemma {:induction false} LastMessageWins(msgs: seq<Message>, p: MushroomPath)
    requires InboundEntries(msgs).Some?
    ensures var t := InboundEntries(msgs).value;
            var k := LastMessageOn(msgs, p);
            Lookup(t, p) == if k >= 0 then MessageEntry(msgs[k]) else None
    ensures Unique(InboundEntries(msgs).value)
    decreases |msgs|
  {
    if |msgs| > 0 {
      var m' := msgs[..|msgs| - 1];
      LastMessageWins(m', p);
      var t' := InboundEntries(m').value;
      var e := MessageEntry(msgs[|msgs| - 1]).value;
      UpsertLookup(t', e, p);
      UpsertUnique(t', e);
    }
  }

  // ---------------------------------------------------------------------
  // The whole cycle
  // ---------------------------------------------------------------------

  /** The task's state: its maps, the client, the accumulated table, the slot's value and whether it still runs. */
  datatype LoopState = LoopState(
    subs: map<string, Subscription>,
    pubs: map<string, PublishedTopic>,
    client: ClientState,
    table: TableSnapshot,
    published: TableSnapshot,
    running: bool)

  /** The table's contents after `update_all` with a table of `incoming` entries stamped `serverTime`. */
  function Accumulate(table: TableSnapshot, incoming: seq<MushroomEntry>, serverTime: Timestamp): (t: TableSnapshot)
    ensures t.timestamp == serverTime && t.entryPaths == IndexMap(t.entries)
  {
    var merged := Merge(table.entries, incoming);
    TableSnapshot(serverTime, merged, IndexMap(merged))
  }

  /**
   * One cycle. `batch` and `outgoing` are what the two `try_recv` calls
   * returned, `serverTime` the server time read for the fresh table and
   * `inbound` every message drained from the subscriptions.
   */
  function Cycle(s: LoopState, batch: Option<seq<SubscriptionPackage>>, outgoing: Option<TableSnapshot>,
                 serverTime: Timestamp, inbound: seq<Message>, refusals: Refusals): LoopState
    requires s.running
  {
    var sp := ApplyBatch(SubPhase(s.subs, s.client, true), batch.GetOr([]), refusals.subscriptions);
    if !sp.ok then s.(subs := sp.subs, client := sp.client, running := false)
    else
      var pp := PublishAll(PubPhase(s.pubs, sp.client, true), if outgoing.Some? then outgoing.value.entries else [], refusals.topics);
      if !pp.ok then s.(subs := sp.subs, pubs := pp.pubs, client := pp.client, running := false)
      else
        match InboundEntries(inbound)
        case None => s.(subs := sp.subs, pubs := pp.pubs, client := pp.client, running := false)
        case Some(incoming) =>
          var t := Accumulate(s.table, incoming, serverTime);
          LoopState(sp.subs, pp.pubs, pp.client, t, t, true)
  }

  /** What the task keeps true while it runs. */
  ghost predicate Invariant(s: LoopState) {
    && (forall n :: n in s.subs ==> s.subs[n].topics == [n])
    && AnnounceInvariant(s.pubs, s.client.trace)
    && s.table.entryPaths == IndexMap(s.table.entries)
    && Unique(s.table.entries)
  }

  /** The cycle keeps going exactly when no phase panics. */
  lemma CycleRunning(s: LoopState, batch: Option<seq<SubscriptionPackage>>, outgoing: Option<TableSnapshot>,
                     serverTime: Timestamp, inbound: seq<Message>, refusals: Refusals)
    requires s.running
    ensures Cycle(s, batch, outgoing, serverTime, inbound, refusals).running <==>
              && (forall i :: 0 <= i < |batch.GetOr([])| ==> batch.GetOr([])[i].name !in refusals.subscriptions)
              && (var es := if outgoing.Some? then outgoing.value.entries else [];
                  forall i :: 0 <= i < |es| ==> ToString(es[i].path) in s.pubs || ToString(es[i].path) !in refusals.topics)
              && (forall i :: 0 <= i < |inbound| ==> !RmpvPanics(inbound[i].data))
  {
    var sp := ApplyBatch(SubPhase(s.subs, s.client, true), batch.GetOr([]), refusals.subscriptions);
    ApplyBatchOk(SubPhase(s.subs, s.client, true), batch.GetOr([]), refusals.subscriptions);
    var es := if outgoing.Some? then outgoing.value.entries else [];
    PublishAllOk(PubPhase(s.pubs, sp.client, true), es, refusals.topics);
    InboundEntriesOk(inbound);
  }

  /** One package adds an unsubscribe and a subscribe call at most, never an announcement. */
  lemma SubscribeOnePublishesNothing(s: SubPhase, pkg: SubscriptionPackage, refused: set<string>, p: string)
    ensures AnnounceCount(SubscribeOne(s, pkg, refused).client.trace, p) == AnnounceCount(s.client.trace, p)
  {
    if s.ok {
      ResubscribeUnsubscribesFirst(s, pkg, refused);
      var added := (if pkg.name in s.subs then [Unsubscribe(s.subs[pkg.name].uid)] else [])
                   + [Subscribe([pkg.name], pkg.options)];
      assert SubscribeOne(s, pkg, refused).client.trace == s.client.trace + added;
      AnnounceCountAppend(s.client.trace, added, p);
      assert added[..|added| - 1] == if pkg.name in s.subs then [Unsubscribe(s.subs[pkg.name].uid)] else [];
    }
  }

  /** The subscription phase makes no announcement. */
  lemma {:induction false} ApplyBatchPublishesNothing(s: SubPhase, batch: seq<SubscriptionPackage>, refused: set<string>, p: string)
    ensures AnnounceCount(ApplyBatch(s, batch, refused).client.trace, p) == AnnounceCount(s.client.trace, p)
    decreases |batch|
  {
    if |batch| > 0 {
      ApplyBatchPublishesNothing(s, batch[..|batch| - 1], refused, p);
      SubscribeOnePublishesNothing(ApplyBatch(s, batch[..|batch| - 1], refused), batch[|batch| - 1], refused, p);
    }
  }

  /**
   * Merge-then-publish: a cycle that keeps running merges the fresh table
   * into the accumulated one, stamps it with the server time and stores
   * exactly that table in the slot. Entries already present keep their
   * positions, and those whose path got no message keep their contents.
   */
  lemma CycleMergesThenPublishes(s: LoopState, batch: Option<seq<SubscriptionPackage>>, outgoing: Option<TableSnapshot>,
                                 serverTime: Timestamp, inbound: seq<Message>, refusals: Refusals)
    requires s.running
    requires Cycle(s, batch, outgoing, serverTime, inbound, refusals).running
    ensures var r := Cycle(s, batch, outgoing, serverTime, inbound, refusals);
            && InboundEntries(inbound).Some?
            && r.table.entries == Merge(s.table.entries, InboundEntries(inbound).value)
            && r.table.timestamp == serverTime
            && r.published == r.table
            && |r.table.entries| >= |s.table.entries|
            && forall i :: 0 <= i < |s.table.entries| ==>
                 && r.table.entries[i].path == s.table.entries[i].path
                 && (LastMessageOn(inbound, s.table.entries[i].path) < 0 ==> r.table.entries[i] == s.table.entries[i])
  {
    var incoming := InboundEntries(inbound).value;
    MergeKeepsPositions(s.table.entries, incoming);
    forall q | q in PathsOf(incoming) ensures LastMessageOn(inbound, q) >= 0 {
      LastMessageWins(inbound, q);
    }
  }

  /**
   * Last message wins across the merge: after `update_all` with the fresh
   * table, a path with an inbound message holds the last such message and
   * any other path answers as before.
   */
  lemma MergeInboundLookup(table: seq<MushroomEntry>, inbound: seq<Message>, p: MushroomPath)
    requires InboundEntries(inbound).Some?
    ensures Lookup(Merge(table, InboundEntries(inbound).value), p) ==
              if LastMessageOn(inbound, p) >= 0 then MessageEntry(inbound[LastMessageOn(inbound, p)])
              else Lookup(table, p)
  {
    var incoming := InboundEntries(inbound).value;
    var k := LastMessageOn(inbound, p);
    LastMessageWins(inbound, p);
    InboundEntriesOk(inbound);
    if k >= 0 {
      assert !RmpvPanics(inbound[k].data);
      assert Lookup(incoming, p).Some?;
    } else {
      assert Lookup(incoming, p).None?;
    }
    MergeLookup(table, incoming, p);
  }

  /** A running cycle keeps the task's invariant. */
  lemma CycleKeepsInvariant(s: LoopState, batch: Option<seq<SubscriptionPackage>>, outgoing: Option<TableSnapshot>,
                            serverTime: Timestamp, inbound: seq<Message>, refusals: Refusals)
    requires s.running && Invariant(s)
    requires Cycle(s, batch, outgoing, serverTime, inbound, refusals).running
    ensures Invariant(Cycle(s, batch, outgoing, serverTime, inbound, refusals))
  {
    var s0 := SubPhase(s.subs, s.client, true);
    var b := batch.GetOr([]);
    var sp := ApplyBatch(s0, b, refusals.subscriptions);
    ApplyBatchSubs(s0, b, refusals.subscriptions);
    forall p ensures AnnounceCount(sp.client.trace, p) == AnnounceCount(s.client.trace, p) {
      ApplyBatchPublishesNothing(s0, b, refusals.subscriptions, p);
    }
    var es := if outgoing.Some? then outgoing.value.entries else [];
    PublishAllKeepsAnnounceInvariant(PubPhase(s.pubs, sp.client, true), es, refusals.topics);
    MergeUnique(s.table.entries, InboundEntries(inbound).value);
  }

  /** The initial state: nothing subscribed or announced, an empty table at the connection's server time, an empty slot at 0. */
  function InitialState(serverTime: Timestamp): (s: LoopState)
    ensures Invariant(s) && s.running
    ensures s.table.entries == [] && s.table.timestamp == serverTime
    ensures s.published == EmptySnapshot(0)
  {
    LoopState(map[], map[], ClientState([], 0), EmptySnapshot(serverTime), EmptySnapshot(0), true)
  }

  /**
   * Announce once, send many: publishing a table holding `/y` and then
   * another table holding `/y` announces `/y` once, with the type of the
   * first value, and sends both values on that one topic.
   */
  lemma PublishTwiceAnnouncesOnce(s: PubPhase, e1: MushroomEntry, e2: MushroomEntry, refused: set<string>)
    requires s.ok && AnnounceInvariant(s.pubs, s.client.trace)
    requires ToString(e1.path) == "/y" && ToString(e2.path) == "/y"
    requires "/y" !in s.pubs && "/y" !in refused
    ensures var r := PublishAll(PublishAll(s, [e1], refused), [e2], refused);
            && r.ok
            && "/y" in r.pubs && r.pubs["/y"].ty == ToNtType(e1.value)
            && AnnounceCount(r.client.trace, "/y") == 1
            && Sent(r.client.trace) == Sent(s.client.trace) + [(r.pubs["/y"].uid, ToRmpv(e1.value)), (r.pubs["/y"].uid, ToRmpv(e2.value))]
  {
    assert [e1][..0] == [] && [e2][..0] == [];
    var m := PublishOne(s, e1, refused);
    PublishOneShape(s, e1, refused);
    PublishOneAnnounces(s, e1, refused, "/y");
    PublishOneSends(s, e1, refused);
    PublishOneShape(m, e2, refused);
    PublishOneAnnounces(m, e2, refused, "/y");
    PublishOneSends(m, e2, refused);
  }

  /** Two messages on `/x` in one cycle: the fresh table holds one entry, the second value. */
  lemma LastOfTwoMessagesWins(t1: real, t2: real)
    ensures InboundEntries([Message("/x", Rmpv.F64(1.0), t1), Message("/x", Rmpv.F64(2.0), t2)]) ==
              Some([MushroomEntry(Double(2.0), FromString("/x"), Some(t2))])
  {
    var msgs := [Message("/x", Rmpv.F64(1.0), t1), Message("/x", Rmpv.F64(2.0), t2)];
    var e1 := MushroomEntry(Double(1.0), FromString("/x"), Some(t1));
    var e2 := MushroomEntry(Double(2.0), FromString("/x"), Some(t2));
    assert MessageEntry(msgs[0]) == Some(e1);
    assert MessageEntry(msgs[1]) == Some(e2);
    assert msgs[..1][..0] == [];
    assert msgs[..1] == [msgs[0]];
    assert InboundEntries([]) == Some([]);
    assert InboundEntries(msgs[..1]) == Some(Upsert([], e1));
    UpsertSamePathTwice(e1, e2);
  }

  // ---------------------------------------------------------------------
  // Pacing (lines 280-285)
  // ---------------------------------------------------------------------

  /** The loop aims at one turn per 15 ms; durations are counted in nanoseconds. */
  const Period: nat := 15_000_000
  const NanosPerSecond: real := 1_000_000_000.0

  /** `clamp(0.0, 0.015)` on a number of seconds. */
  function Clamp(x: real): (r: real)
    ensures 0.0 <= r <= 0.015
    ensures 0.0 <= x <= 0.015 ==> r == x
  {
    if x < 0.0 then 0.0 else if x > 0.015 then 0.015 else x
  }

  /**
   * The sleep as written: `Duration::from_millis(15) - elapsed` panics
   * (None) once the turn took longer than 15 ms, before the clamp is
   * reached.
   */
  function PacingDelayAsWritten(elapsed: nat): (r: Option<real>)
    ensures r.None? <==> elapsed > Period
  {
    if elapsed > Period then None
    else Some(Clamp((Period - elapsed) as real / NanosPerSecond))
  }

  /** A turn of 20 ms ends the task instead of skipping the sleep. */
  lemma SlowTurnPanics()
    ensures PacingDelayAsWritten(20_000_000).None?
  {
  }

  /**
   * The sleep as intended: the rest of the 15 ms period, and no sleep at
   * all once the period is used up.
   */
  function PacingDelay(elapsed: nat): (r: real)
    ensures 0.0 <= r <= 0.015
    ensures elapsed >= Period ==> r == 0.0
    ensures elapsed <= Period ==> r == (Period - elapsed) as real / NanosPerSecond
  {
    if elapsed >= Period then 0.0 else Clamp((Period - elapsed) as real / NanosPerSecond)
  }

  /** Where the written code does not panic, it sleeps as intended; a turn plus its sleep lasts at least 15 ms. */
  lemma PacingDelayAgrees(elapsed: nat)
    ensures PacingDelayAsWritten(elapsed).Some? ==> PacingDelayAsWritten(elapsed).value == PacingDelay(elapsed)
    ensures elapsed as real / NanosPerSecond + PacingDelay(elapsed) >= Period as real / NanosPerSecond
  {
  }
}
