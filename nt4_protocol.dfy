/**
 * The NT4 protocol client the synchronisation task drives, abstracted as
 * an object that records every call made on it. The server's answers
 * that matter to the task are whether a subscription and a topic
 * announcement succeed; they are fixed per client as sets of refused
 * topic names.
 */
module Nt4Protocol {
  import opened Common
  import Rmpv
  import NT = NetworkTablesV4

  /** A live subscription, identified by the client-assigned `uid`. */
  datatype Subscription = Subscription(uid: nat, topics: seq<string>, options: Option<NT.SubscriptionOptions>)

  /** An announced topic, identified by the client-assigned `uid`. */
  datatype PublishedTopic = PublishedTopic(uid: nat, name: string, ty: NT.Type)

  /** One call on the client, in the order the task makes them. */
  datatype Call =
    | Subscribe(topics: seq<string>, options: Option<NT.SubscriptionOptions>)
    | Unsubscribe(subscription: nat)
    | PublishTopic(name: string, ty: NT.Type)
    | PublishValue(topic: nat, value: Rmpv.Value)

  /** Which requests the server side refuses. */
  datatype Refusals = Refusals(subscriptions: set<string>, topics: set<string>)

  /** The recorded calls and the next identifier the client hands out. */
  datatype ClientState = ClientState(trace: seq<Call>, nextUid: nat) {
    function Record(c: Call): (r: ClientState)
      ensures r.trace == trace + [c] && r.nextUid == nextUid
    {
      this.(trace := trace + [c])
    }
  }

  /** How many times `publish_topic` was called for `name`. */
  function AnnounceCount(trace: seq<Call>, name: string): nat {
    if |trace| == 0 then 0
    else AnnounceCount(trace[..|trace| - 1], name)
         + (if trace[|trace| - 1].PublishTopic? && trace[|trace| - 1].name == name then 1 else 0)
  }

  lemma AnnounceCountSnoc(trace: seq<Call>, c: Call, name: string)
    ensures AnnounceCount(trace + [c], name) == AnnounceCount(trace, name) + if c.PublishTopic? && c.name == name then 1 else 0
  {
    assert (trace + [c])[..|trace|] == trace;
  }

  lemma {:induction false} AnnounceCountAppend(a: seq<Call>, b: seq<Call>, name: string)
    ensures AnnounceCount(a + b, name) == AnnounceCount(a, name) + AnnounceCount(b, name)
    decreases |b|
  {
    if |b| == 0 {
      assert a + b == a;
    } else {
      assert (a + b)[..|a + b| - 1] == a + b[..|b| - 1];
      AnnounceCountAppend(a, b[..|b| - 1], name);
    }
  }

  /** The values sent with `publish_value`, with the topic each went to, in order. */
  function Sent(trace: seq<Call>): seq<(nat, Rmpv.Value)> {
    if |trace| == 0 then []
    else
      var last := trace[|trace| - 1];
      Sent(trace[..|trace| - 1]) + (if last.PublishValue? then [(last.topic, last.value)] else [])
  }

  lemma SentSnoc(trace: seq<Call>, c: Call)
    ensures Sent(trace + [c]) == Sent(trace) + if c.PublishValue? then [(c.topic, c.value)] else []
  {
    assert (trace + [c])[..|trace|] == trace;
  }

  lemma {:induction false} SentAppend(a: seq<Call>, b: seq<Call>)
    ensures Sent(a + b) == Sent(a) + Sent(b)
    decreases |b|
  {
    if |b| == 0 {
      assert a + b == a;
    } else {
      assert (a + b)[..|a + b| - 1] == a + b[..|b| - 1];
      SentAppend(a, b[..|b| - 1]);
    }
  }

  /** The client object: every call is appended to `trace`. */
  class ProtocolClient {
    var trace: seq<Call>
    var nextUid: nat
    const refusals: Refusals

    constructor (refusals: Refusals)
      ensures trace == [] && nextUid == 0 && this.refusals == refusals
    {
      trace := [];
      nextUid := 0;
      this.refusals := refusals;
    }

    function State(): ClientState
      reads this
    {
      ClientState(trace, nextUid)
    }

    /** `subscribe_w_options(&[name], options)`: a fresh subscription unless the server refuses `name`. */
    method SubscribeWithOptions(name: string, options: Option<NT.SubscriptionOptions>) returns (r: Option<Subscription>)
      modifies this
      ensures trace == old(trace) + [Subscribe([name], options)]
      ensures r.None? <==> name in refusals.subscriptions
      ensures r.Some? ==> r.value == Subscription(old(nextUid), [name], options) && nextUid == old(nextUid) + 1
      ensures r.None? ==> nextUid == old(nextUid)
    {
      trace := trace + [Subscribe([name], options)];
      if name in refusals.subscriptions {
        r := None;
      } else {
        r := Some(Subscription(nextUid, [name], options));
        nextUid := nextUid + 1;
      }
    }

    /** `unsubscribe`: recorded; its outcome is ignored by the caller. */
    method Unsubscribe(sub: Subscription)
      modifies this
      ensures State() == old(State()).Record(Call.Unsubscribe(sub.uid))
    {
      trace := trace + [Call.Unsubscribe(sub.uid)];
    }

    /** `publish_topic(name, ty, None)`: a fresh topic unless the server refuses `name`. */
    method PublishTopic(name: string, ty: NT.Type) returns (r: Option<PublishedTopic>)
      modifies this
      ensures trace == old(trace) + [Call.PublishTopic(name, ty)]
      ensures r.None? <==> name in refusals.topics
      ensures r.Some? ==> r.value == PublishedTopic(old(nextUid), name, ty) && nextUid == old(nextUid) + 1
      ensures r.None? ==> nextUid == old(nextUid)
    {
      trace := trace + [Call.PublishTopic(name, ty)];
      if name in refusals.topics {
        r := None;
      } else {
        r := Some(PublishedTopic(nextUid, name, ty));
        nextUid := nextUid + 1;
      }
    }

    /** `publish_value`: recorded; its outcome is ignored by the caller. */
    method PublishValue(topic: PublishedTopic, value: Rmpv.Value)
      modifies this
      ensures State() == old(State()).Record(Call.PublishValue(topic.uid, value))
    {
      trace := trace + [Call.PublishValue(topic.uid, value)];
    }
  }
}
