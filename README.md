# robodash core, modelled in Dafny

robodash is a robot dashboard. A Rust back end keeps one NT4
(NetworkTables 4) connection per robot and exchanges telemetry with the
TypeScript front end as `MushroomTable`s. A `MushroomTable` is a
timestamped, ordered vector of `(value, path, timestamp)` entries with a
side map from path to index. The front end reads its dashboard layout from
JSON. This project models three parts of that system and proves
properties of the model.

- **Telemetry types** (`mushroom_values.dfy`, `mushroom_paths.dfy`,
  `mushroom_tables.dfy`):
  - the 12-variant `MushroomValue`, its classifiers and indexed access;
  - its conversions to and from the MessagePack wire value, the NT4 type
    tag, the data-log value and host types;
  - `MushroomPath` (split on `/` and joined back);
  - `MushroomTable` as a class whose fields `add_entry`,
    `update_entries`, `update_timestamp` and `update_all` update in
    place. Each is proved against specification functions on the entry
    vector (`Upsert`, `Merge`, `Lookup`, `IndexMap`).
- **The NT4 synchronisation task** (`nt_client_id.dfy`, `channels.dfy`,
  `nt4_protocol.dfy`, `nt4_loop.dfy`, `nt_handler.dfy`):
  - the connection identity and its `Display` form;
  - the bounded request queues and the latest-value slot;
  - the protocol client, modelled as an object that records the trace of
    `subscribe` / `unsubscribe` / `publish_topic` / `publish_value` calls;
  - the task object, whose `Cycle` method is one turn of the `nt4` loop.
    It is proved equal to the pure `Nt4Loop.Cycle`, and the
    replace-on-resubscribe, announce-once/send-many, last-message-wins
    and merge-then-publish properties are proved about that function;
  - the handle's `publish` / `subscribe` / `poll` / `stop`, and
    `start_nt4_client`.
- **The layout loader** (`layout_config.dfy`): `loadLayoutFromJSON` over a
  JSON datatype. Its loops are methods proved against closed-form
  functions. The module-level `layout` is a field of `LayoutStore`.

Modelling conventions:
- Floating-point numbers are reals.
- A Rust panic is a `None` result, or, inside the task, the end of the
  task (`running` becomes false and both request queues close, because
  their receivers are dropped).
- The server's time, the inbound messages, the time a loop turn took and
  the names the server refuses are parameters.
- The uuid keys of the layout are replaced by positions in sequences.

Paths follow `str::split("/")`, which keeps the empty segment before a
leading `/`: `/a/b/c` gives the segments `""`, `a`, `b`, `c`, and joining
them with `/` gives `/a/b/c` back.

## Model

| member | source | states |
|---|---|---|
| MushroomValues.ClassifiersPartition | src-tauri/src/mushroom_types.rs:134-192 | every variant is exactly one of single/array; binary implies array; binary, numeric, string and boolean are pairwise disjoint and cover all variants |
| MushroomValues.MushroomValue.GetLen | src-tauri/src/mushroom_types.rs:207-218 | a length exists exactly for the array variants |
| MushroomValues.MushroomValue.GetIndex | src-tauri/src/mushroom_types.rs:194-205 | an element exists iff the value is an array and the index is below its length; the element is a single value of the same family; binary bytes come back as `Int` |
| MushroomValues.RemoveQuotes | src-tauri/src/mushroom_types.rs:403 | the result has no double quote, holds every other character of the input as often as the input does, equals an input that had none, and distributes over concatenation (`RemoveQuotesAppend`), so it deletes exactly the quotes and keeps the order |
| MushroomValues.ToRmpv | src-tauri/src/mushroom_types.rs:364-395 | binary variants become wire binary; other arrays become wire arrays of the same length; never nil, map or ext |
| MushroomValues.FromRmpv | src-tauri/src/mushroom_types.rs:397-442 | fails (the panic) exactly on nil, map, ext and arrays whose first item is of another kind; arrays keep their length; binary becomes `ByteArray`; scalars become single values |
| MushroomValues.RmpvRoundTrip | src-tauri/src/mushroom_types.rs:364-442 | wire round trip never panics; Int, Boolean, Double, ByteArray and non-empty Int/Double/Boolean/String arrays come back unchanged; a String loses its quotes; Protobuf comes back as ByteArray; every empty array comes back as an empty FloatArray |
| MushroomValues.UnquotedStringRoundTrip | src-tauri/src/mushroom_types.rs:403 | a string without double quotes survives the wire round trip |
| MushroomValues.GetIndexAgreesWithRmpv | src-tauri/src/mushroom_types.rs:194-205 | element `i` of a non-binary array encodes to item `i` of the array's wire encoding |
| MushroomValues.ToNtType | src-tauri/src/mushroom_types.rs:444-461 | the type tag is never Json, Rpc or MsgPack; it is Raw exactly for ByteArray and ProtoBuf exactly for Protobuf |
| MushroomValues.NtTypeIdentifiesVariant | src-tauri/src/mushroom_types.rs:444-461 | two values get the same tag iff they are the same variant (the mapping is total and one-to-one) |
| MushroomValues.FromDataLog | src-tauri/src/mushroom_types.rs:463-481 | never produces Protobuf; array variants come from exactly the array and raw log values |
| MushroomValues.ToDataLog | src-tauri/src/mushroom_types.rs:483-502 | fails (the panic) exactly on Protobuf |
| MushroomValues.DataLogRoundTrip | src-tauri/src/mushroom_types.rs:463-502 | log value to value to log value is the identity; value to log value and back is the identity except for Protobuf and the float variants |
| MushroomValues.SaturatingToI64 | src-tauri/src/mushroom_types.rs:275-276 | `as i64` truncates toward zero and saturates at the `i64` bounds |
| MushroomValues.ToBool | src-tauri/src/mushroom_types.rs:295-302 | only Boolean converts, to its payload |
| MushroomValues.ToI64 | src-tauri/src/mushroom_types.rs:271-280 | Int converts to itself, Float and Double to the saturating truncation of their payload; everything else panics |
| MushroomValues.ToF64 | src-tauri/src/mushroom_types.rs:260-269 | Double and Float convert to their payload, Int exactly; everything else panics |
| MushroomValues.ToBytes | src-tauri/src/mushroom_types.rs:304-311 | only ByteArray converts, to its bytes, which are the `Int` elements `GetIndex` yields; Protobuf panics |
| MushroomValues.ToF64s | src-tauri/src/mushroom_types.rs:324-333 | Double, Float and Int arrays convert, keeping their length, each item being `ToF64` of the element at its index |
| MushroomValues.ToI64s | src-tauri/src/mushroom_types.rs:335-344 | Int, Float and Double arrays convert, keeping their length, each item being `ToI64` of the element at its index |
| MushroomValues.ToStrings | src-tauri/src/mushroom_types.rs:346-353 | only StringArray converts, to its strings, which are the elements `GetIndex` yields |
| MushroomValues.ToBools | src-tauri/src/mushroom_types.rs:355-362 | only BooleanArray converts, to its booleans, which are the elements `GetIndex` yields |
| MushroomPaths.FromString | src-tauri/src/mushroom_types.rs:515-529 | `From<String>` and `From<&str>` split on `/`; with `ToString`, every string survives the round trip (`StringRoundTrip`) and distinct strings give distinct paths (`FromStringInjective`) |
| MushroomPaths.ToString | src-tauri/src/mushroom_types.rs:509-513 | `From<MushroomPath> for String` joins with `/`; a non-empty list of `/`-free segments survives join then split (`PathRoundTrip`) |
| MushroomPaths.Join | src-tauri/src/mushroom_types.rs:511 | `join("/")`, the inverse of `Split` on every string (`StringRoundTrip`) |
| MushroomPaths.Split | src-tauri/src/mushroom_types.rs:515-521 | splitting gives at least one segment and no segment contains `/` |
| MushroomPaths.StringRoundTrip | src-tauri/src/mushroom_types.rs:509-521 | any string converts to a path and back unchanged |
| MushroomPaths.PathRoundTrip | src-tauri/src/mushroom_types.rs:509-521 | a non-empty list of `/`-free segments converts to a string and back unchanged |
| MushroomPaths.FromStringInjective | src-tauri/src/mushroom_types.rs:515-529 | two strings give the same path iff they are equal |
| MushroomTables.LastIndex | src-tauri/src/mushroom_types.rs:626-636 | the last slot holding a path, or -1: no later slot holds it |
| MushroomTables.IndexMap | src-tauri/src/mushroom_types.rs:626-636 | the side map's keys are exactly the paths present, and each points at a slot holding that path |
| MushroomTables.Lookup | src-tauri/src/mushroom_types.rs:649-656 | a lookup succeeds iff the path is present, and returns an entry with that path |
| MushroomTables.Upsert | src-tauri/src/mushroom_types.rs:638-647 | `add_entry` on the entry vector; `UpsertLookup`, `UpsertShape`, `UpsertPaths`, `UpsertIndexMap` and `UpsertUnique` state what it does to lookups, slots, paths, the side map and uniqueness |
| MushroomTables.UpsertLookup | src-tauri/src/mushroom_types.rs:638-647 | after `add_entry(e)` a lookup of `e`'s path gives `e` and every other lookup is unchanged |
| MushroomTables.UpsertShape | src-tauri/src/mushroom_types.rs:638-647 | a present path is overwritten at its indexed slot with length and other slots unchanged; a new path is appended at the end |
| MushroomTables.UpsertPaths | src-tauri/src/mushroom_types.rs:638-647 | `add_entry` adds exactly the new entry's path to the set of paths |
| MushroomTables.UpsertIndexMap | src-tauri/src/mushroom_types.rs:638-647 | the side map changes only at `e`'s path, which keeps its index or gets `len - 1` |
| MushroomTables.UpsertUnique | src-tauri/src/mushroom_types.rs:638-647 | `add_entry` keeps paths unique |
| MushroomTables.UniqueIffExactIndex | src-tauri/src/mushroom_types.rs:626-636 | `entry_paths[p] == i` iff `entries[i].path == p` holds exactly when the paths are unique |
| MushroomTables.UpsertSamePathTwice | src-tauri/src/mushroom_types.rs:638-647 | two entries for one path leave one entry, the second |
| MushroomTables.UpsertIndexMapSnoc | src-tauri/src/mushroom_types.rs:630-633 | inserting `(path, i)` for a new last slot `i` gives the side map of the longer vector |
| MushroomTables.Merge | src-tauri/src/mushroom_types.rs:678-686 | `update_entries` on the entry vector, one `add_entry` per incoming entry in order; `MergeLookup` (right-biased lookups), `MergePaths`, `MergeKeepsPositions` and `MergeUnique` state its meaning |
| MushroomTables.MergePaths | src-tauri/src/mushroom_types.rs:678-682 | a merge holds the paths of both tables |
| MushroomTables.MergeLookup | src-tauri/src/mushroom_types.rs:678-682 | paths of the incoming table map to its entry; other paths keep their old entry |
| MushroomTables.MergeKeepsPositions | src-tauri/src/mushroom_types.rs:678-682 | no old slot moves, and a slot whose path the incoming table lacks keeps its entry |
| MushroomTables.MergeUnique | src-tauri/src/mushroom_types.rs:678-682 | merging keeps paths unique |
| MushroomTables.MergeEmpty | src-tauri/src/mushroom_types.rs:678-682 | merging an empty table changes no entry |
| MushroomTables.MergeAppend | src-tauri/src/mushroom_types.rs:678-682 | merging `b ++ c` is merging `b`, then `c` |
| MushroomTables.MergeLookupAssociative | src-tauri/src/mushroom_types.rs:678-682 | merging `b` then `c` answers every lookup as merging `c` into `b` first |
| MushroomTables.EmptySnapshot | src-tauri/src/mushroom_types.rs:618-624 | the clone of a new table: no entries, a consistent side map, the given timestamp |
| MushroomTables.MushroomTable.New | src-tauri/src/mushroom_types.rs:618-624 | an empty, valid table with the given timestamp |
| MushroomTables.MushroomTable.NewFromEntries | src-tauri/src/mushroom_types.rs:626-636 | the vector is kept as given (duplicates included) and the side map is the one it determines, the later index winning |
| MushroomTables.MushroomTable.AddEntry | src-tauri/src/mushroom_types.rs:638-647 | entries become `Upsert(old, e)`; the index map keeps its old index or gets `len - 1`; the invariant is preserved |
| MushroomTables.MushroomTable.GetEntry | src-tauri/src/mushroom_types.rs:649-656 | returns an entry with the path exactly when `has_entry`, and agrees with `Lookup` |
| MushroomTables.MushroomTable.HasEntry | src-tauri/src/mushroom_types.rs:666-668 | true iff some entry carries the path |
| MushroomTables.MushroomTable.IsEmpty | src-tauri/src/mushroom_types.rs:670-676 | true iff `len` (the vector length, duplicates included) is 0 |
| MushroomTables.MushroomTable.UpdateEntries | src-tauri/src/mushroom_types.rs:678-682 | entries become `Merge(old, other)`, timestamp unchanged, invariant kept |
| MushroomTables.MushroomTable.UpdateTimestamp | src-tauri/src/mushroom_types.rs:684-686 | the timestamp becomes `other`'s and nothing else changes |
| MushroomTables.MushroomTable.UpdateAll | src-tauri/src/mushroom_types.rs:688-691 | entries become `Merge(old, other)` and the timestamp `other`'s |
| NetworkTableClientIds.New | src-tauri/src/networktable/handler.rs:36-42 | the id holds the given octets, port and identity |
| NetworkTableClientIds.EqualityIsFieldwise | src-tauri/src/networktable/handler.rs:29-34 | two ids are equal iff ip, port and identity are |
| NetworkTableClientIds.Repr | src-tauri/src/networktable/handler.rs:44-58 | the `Display` form `a.b.c.d:port:identity`; it parses back to the id (`ParseReprOfRepr`), so distinct ids render distinctly (`ReprInjective`) |
| NetworkTableClientIds.ParseReprOfRepr | src-tauri/src/networktable/handler.rs:44-58 | `a.b.c.d:port:identity` parses back to the id: the rendering loses nothing |
| NetworkTableClientIds.ReprInjective | src-tauri/src/networktable/handler.rs:44-58 | two ids render the same iff they are equal |
| Channels.BoundedQueue.TrySend | src-tauri/src/networktable/handler.rs:91 | a closed queue refuses with Closed and a full one with Full, both unchanged; otherwise the item is appended |
| Channels.BoundedQueue.TryRecv | src-tauri/src/networktable/handler.rs:216 | an empty queue yields nothing; otherwise exactly the oldest item is removed |
| Channels.BoundedQueue.Close | src-tauri/src/networktable/handler.rs:86 | a dropped receiver closes the queue and discards its items |
| Channels.LatestSlot.Update | src-tauri/src/networktable/handler.rs:271 | the slot holds the new value |
| Nt4Protocol.ProtocolClient.SubscribeWithOptions | src-tauri/src/networktable/handler.rs:224-231 | records one subscribe call; fails iff the server refuses the name; otherwise a fresh uid |
| Nt4Protocol.ProtocolClient.Unsubscribe | src-tauri/src/networktable/handler.rs:222 | records one unsubscribe call |
| Nt4Protocol.ProtocolClient.PublishTopic | src-tauri/src/networktable/handler.rs:242-245 | records one announce; fails iff the server refuses the name; otherwise a fresh uid |
| Nt4Protocol.ProtocolClient.PublishValue | src-tauri/src/networktable/handler.rs:249-252 | records one send on the topic's uid |
| Nt4Loop.NewPackage | src-tauri/src/networktable/handler.rs:126-131 | the package holds the name and `Some(options)` |
| Nt4Loop.SubscribeOne | src-tauri/src/networktable/handler.rs:218-233 | one package: unsubscribe a replaced subscription, then subscribe, failing iff the name is refused (`ResubscribeUnsubscribesFirst`, `SubscribeOnePublishesNothing`) |
| Nt4Loop.ApplyBatch | src-tauri/src/networktable/handler.rs:216-235 | the packages of one batch in order; succeeds iff no name is refused (`ApplyBatchOk`), keeps the latest package per name (`ApplyBatchSubs`) and announces nothing (`ApplyBatchPublishesNothing`) |
| Nt4Loop.ResubscribeUnsubscribesFirst | src-tauri/src/networktable/handler.rs:221-225 | a name already subscribed is unsubscribed before it is subscribed again |
| Nt4Loop.ApplyBatchStaysFailed | src-tauri/src/networktable/handler.rs:227-231 | after a failed subscribe nothing more of the batch is applied |
| Nt4Loop.ApplyBatchOk | src-tauri/src/networktable/handler.rs:218-234 | a batch succeeds iff no name in it is refused |
| Nt4Loop.ApplyBatchSubs | src-tauri/src/networktable/handler.rs:218-234 | after a batch, `subs` has one subscription per name, the one made for its latest package |
| Nt4Loop.ApplyBatchPublishesNothing | src-tauri/src/networktable/handler.rs:216-235 | the subscription phase announces no topic |
| Nt4Loop.SubscribeOnePublishesNothing | src-tauri/src/networktable/handler.rs:218-233 | one package (with its unsubscribe of a replaced subscription) announces no topic |
| Nt4Loop.PublishOne | src-tauri/src/networktable/handler.rs:240-254 | one entry: announce its path if new (failing iff refused), then one send on its topic (`PublishOneShape`, `PublishOneAnnounces`, `PublishOneSends`) |
| Nt4Loop.PublishAll | src-tauri/src/networktable/handler.rs:237-255 | the entries of one table in order; succeeds iff every new path is accepted (`PublishAllOk`), sends one value per entry in order (`PublishAllSends`) and announces each path once (`PublishAllKeepsAnnounceInvariant`) |
| Nt4Loop.PublishAllStaysFailed | src-tauri/src/networktable/handler.rs:242-245 | after a failed announce nothing more of the table is published |
| Nt4Loop.PublishOneShape | src-tauri/src/networktable/handler.rs:240-252 | one entry: announce only if absent from `pubs`, then exactly one send |
| Nt4Loop.PublishAllGrows | src-tauri/src/networktable/handler.rs:241-247 | `pubs` never shrinks and no cached topic changes |
| Nt4Loop.PublishAllOk | src-tauri/src/networktable/handler.rs:239-254 | publishing succeeds iff every path that needs announcing is not refused |
| Nt4Loop.PublishAllKeys | src-tauri/src/networktable/handler.rs:239-254 | afterwards `pubs` holds exactly the old paths and the table's paths |
| Nt4Loop.PublishOneAnnounces | src-tauri/src/networktable/handler.rs:241-247 | an announce is recorded for a path exactly when it was absent from `pubs` |
| Nt4Loop.PublishAllKeepsAnnounceInvariant | src-tauri/src/networktable/handler.rs:239-254 | each path in `pubs` was announced exactly once, and no other path was announced |
| Nt4Loop.PublishOneSends | src-tauri/src/networktable/handler.rs:248-252 | one entry adds exactly one send, on its path's cached topic |
| Nt4Loop.PublishAllSends | src-tauri/src/networktable/handler.rs:239-254 | the sends added are one per entry, in table order, each on its path's topic |
| Nt4Loop.PublishAllCovers | src-tauri/src/networktable/handler.rs:239-254 | after publishing a table every entry's path has a topic |
| Nt4Loop.AnnouncedTypeIsFirst | src-tauri/src/networktable/handler.rs:243 | a newly announced topic's type is the type of the first value published on its path |
| Nt4Loop.PublishTwiceAnnouncesOnce | src-tauri/src/networktable/handler.rs:239-254 | publishing `/y` twice records one announce and two sends |
| Nt4Loop.MessageEntry | src-tauri/src/networktable/handler.rs:262-266 | a message becomes an entry on its topic path with its real time, and fails iff the payload conversion panics |
| Nt4Loop.InboundEntries | src-tauri/src/networktable/handler.rs:257-269 | the fresh table's entries, one `add_entry` per message in order; fails iff a payload panics (`InboundEntriesOk`), and the last message per path wins (`LastMessageWins`) |
| Nt4Loop.InboundEntriesOk | src-tauri/src/networktable/handler.rs:260-269 | collecting the inbound messages fails iff one payload conversion panics |
| Nt4Loop.InboundEntriesStep | src-tauri/src/networktable/handler.rs:260-269 | one more message extends the collected entries by its `add_entry`, or fails when its conversion panics |
| Nt4Loop.LastMessageWins | src-tauri/src/networktable/handler.rs:258-269 | in the fresh table each path holds the entry of its last message, once |
| Nt4Loop.LastOfTwoMessagesWins | src-tauri/src/networktable/handler.rs:258-269 | two messages on `/x` leave the second value |
| Nt4Loop.MergeInboundLookup | src-tauri/src/networktable/handler.rs:258-270 | after the merge each path holds its last inbound message's entry, or its old entry if it got none |
| Nt4Loop.Accumulate | src-tauri/src/networktable/handler.rs:258-270 | the merged table carries the server time and a consistent side map |
| Nt4Loop.Cycle | src-tauri/src/networktable/handler.rs:213-278 | one turn as a function of the state: it ends the task exactly on a refusal or a panicking payload (`CycleRunning`), merges then publishes (`CycleMergesThenPublishes`) and keeps the invariant (`CycleKeepsInvariant`) |
| Nt4Loop.CycleRunning | src-tauri/src/networktable/handler.rs:213-278 | a turn ends the task iff a subscribe is refused, an announce is refused or an inbound payload panics |
| Nt4Loop.CycleMergesThenPublishes | src-tauri/src/networktable/handler.rs:270-271 | the slot receives the accumulated table after the merge; paths without inbound messages keep position and entry |
| Nt4Loop.CycleKeepsInvariant | src-tauri/src/networktable/handler.rs:213-278 | a turn preserves the loop invariant (consistent side maps, unique paths, announce-once bookkeeping) |
| Nt4Loop.InitialState | src-tauri/src/networktable/handler.rs:211 | the loop starts running with an empty table at the server time and an empty slot at time 0 |
| Nt4Loop.PacingDelayAsWritten | src-tauri/src/networktable/handler.rs:280-285 | the written sleep panics exactly when the turn took longer than 15 ms |
| Nt4Loop.SlowTurnPanics | src-tauri/src/networktable/handler.rs:282 | a 20 ms turn panics |
| Nt4Loop.PacingDelay | src-tauri/src/networktable/handler.rs:280-285 | the intended sleep lies in [0, 15 ms], is the rest of the period when there is one, and is 0 otherwise |
| Nt4Loop.PacingDelayAgrees | src-tauri/src/networktable/handler.rs:280-285 | where the written sleep does not panic it equals the intended one; turn plus sleep lasts at least 15 ms |
| NetworkTableHandler.Nt4Task.constructor | src-tauri/src/networktable/handler.rs:171-211 | empty `subs` and `pubs`, an empty table at the server time; running iff the connection succeeded |
| NetworkTableHandler.Nt4Task.Abort | src-tauri/src/networktable/handler.rs:86 | the task stops and both request queues are closed and emptied |
| NetworkTableHandler.Nt4Task.ApplySubscriptions | src-tauri/src/networktable/handler.rs:216-235 | the loop over a batch yields exactly `ApplyBatch` |
| NetworkTableHandler.Nt4Task.PublishEntries | src-tauri/src/networktable/handler.rs:237-255 | the loop over a table yields exactly `PublishAll` |
| NetworkTableHandler.Nt4Task.SubscribeQueued | src-tauri/src/networktable/handler.rs:216-235 | at most one batch leaves the queue and the task follows `ApplyBatch` on it |
| NetworkTableHandler.Nt4Task.PublishQueued | src-tauri/src/networktable/handler.rs:237-256 | at most one table leaves the queue and the task follows `PublishAll` on its entries |
| NetworkTableHandler.Nt4Task.MergeInbound | src-tauri/src/networktable/handler.rs:257-278 | on success the table becomes `Accumulate` of the inbound entries and the slot receives it; on a panicking payload nothing changes |
| NetworkTableHandler.Nt4Task.Cycle | src-tauri/src/networktable/handler.rs:213-286 | a turn takes at most one item off each queue, follows `Nt4Loop.Cycle`, keeps the invariant and sleeps the corrected `PacingDelay` (see Findings) |
| NetworkTableHandler.CollectInbound | src-tauri/src/networktable/handler.rs:258-269 | the fresh table holds `InboundEntries` of the messages, stamped with the server time |
| NetworkTableHandler.NetworkTableClient.constructor | src-tauri/src/networktable/handler.rs:69-83 | the handle holds the id, the task and the task's queues and slot |
| NetworkTableHandler.NetworkTableClient.Stop | src-tauri/src/networktable/handler.rs:85-87 | the task stops and its queues close |
| NetworkTableHandler.NetworkTableClient.Publish | src-tauri/src/networktable/handler.rs:89-98 | the table's clone is queued if the queue is open and below 255; otherwise dropped and the reason logged |
| NetworkTableHandler.NetworkTableClient.Subscribe | src-tauri/src/networktable/handler.rs:100-108 | the batch is queued if the queue is open and below 255; otherwise dropped and the reason logged |
| NetworkTableHandler.NetworkTableClient.Poll | src-tauri/src/networktable/handler.rs:110-112 | returns the slot's latest table, with a consistent side map |
| NetworkTableHandler.StartNt4Client | src-tauri/src/networktable/handler.rs:134-160 | refuses off the main thread; otherwise empty queues of capacity 255, a slot holding an empty table at time 0, the id from the arguments |
| LayoutConfig.IsObject | src/lib/config.ts:71 | true exactly for JSON objects (arrays and primitives excluded) |
| LayoutConfig.StringField | src/lib/config.ts:94 | a key is present with a string value, and that value |
| LayoutConfig.ObjectsPartition | src/lib/config.ts:79-83 | filtering keeps each object and counts each non-object, once |
| LayoutConfig.FilterObjects | src/lib/config.ts:79-83 | the filter keeps the objects in order with one warning per non-object |
| LayoutConfig.ConvertData | src/lib/config.ts:135-149 | a string array is kept, a string becomes a one-element list, missing or other data gives `[]` and its warning |
| LayoutConfig.Dimension | src/lib/config.ts:161-175 | `max(1, v)` for a number, 1 otherwise |
| LayoutConfig.ConvertLayout | src/lib/config.ts:152-176 | each number of an object layout becomes `Dimension` of its field (`max(1, v)` for a number, 1 otherwise); a warning and all ones iff the layout is missing or not an object |
| LayoutConfig.ConvertElement | src/lib/config.ts:125-176 | skipped with one warning iff there is no string type; named after its name or its type; its data and layout are `ConvertData`'s and `ConvertLayout`'s, whose warnings it reports in that order, so it is warned about iff data or layout is malformed |
| LayoutConfig.ConvertElements | src/lib/config.ts:112-182 | the elements of one tab in order, each by `ConvertElement`, with warnings in order; `ConvertElementsShape` counts what is kept and warned about |
| LayoutConfig.ConvertElementsShape | src/lib/config.ts:112-182 | a tab keeps exactly its typed elements, all with layout numbers at least 1 |
| LayoutConfig.BuildElements | src/lib/config.ts:112-182 | the element loop yields exactly `ConvertElements` |
| LayoutConfig.ConvertElementsStep | src/lib/config.ts:112-182 | one more element appends its outcome to the element fold |
| LayoutConfig.ConvertTab | src/lib/config.ts:94-110 | a tab is output iff its `elements` is an array, with a warning otherwise; its name is its own or `New Tab k` |
| LayoutConfig.ConvertTabsStep | src/lib/config.ts:86-184 | one more tab appends its outcome, numbered by the unnamed tabs before it, and bumps the counter iff it is unnamed |
| LayoutConfig.BuildTab | src/lib/config.ts:88-183 | the body for one tab yields exactly `ConvertTab` and the next `tabIdx` |
| LayoutConfig.BuildTabs | src/lib/config.ts:86-184 | the tab loop with its `tabIdx` counter yields exactly `ConvertTabs` |
| LayoutConfig.ConvertTabs | src/lib/config.ts:86-184 | the tabs in order, each by `ConvertTab` numbered by the unnamed tabs before it; `ConvertTabsShape`, `UnnamedTabNamesDistinct` and `NamedTabKeepsName` state its meaning |
| LayoutConfig.ConvertTabsShape | src/lib/config.ts:86-184 | exactly the tabs with an `elements` array are output, each other tab is warned about, and every layout number is at least 1 |
| LayoutConfig.UnnamedCountMonotone | src/lib/config.ts:95 | the unnamed-tab counter never decreases and grows past each unnamed tab |
| LayoutConfig.UnnamedTabNamesDistinct | src/lib/config.ts:94-98 | two unnamed tabs never get the same `New Tab k` name |
| LayoutConfig.NamedTabKeepsName | src/lib/config.ts:96-97 | a tab with a string name keeps it whatever precedes it |
| LayoutConfig.Load | src/lib/config.ts:73-189 | the whole loader on one input: errors for a missing or non-array `tabs` (`LoadErrors`), otherwise one warning per non-object tab followed by the tabs' warnings and one output tab per object tab with elements (`LoadShape`) |
| LayoutConfig.LoadErrors | src/lib/config.ts:77-78 | missing or non-array `tabs` gives exactly one error, no warning and leaves `layout` alone; past those checks there is no error and `layout` is replaced |
| LayoutConfig.LoadShape | src/lib/config.ts:79-188 | warnings start with one per non-object tab; the new layout has one tab per object tab with `elements`, with every layout number at least 1 |
| LayoutConfig.LayoutStore.LoadLayoutFromJSON | src/lib/config.ts:73-189 | returns `{errors, warnings}` as `Load` describes and replaces `layout` exactly when there are no errors |

## Left out

- The tokio runtime, task spawning, `.await` and the `network_tables` client's network behaviour. They are modelled as sequential calls, and a turn of the loop is one `Nt4Task.Cycle` call.
- Rust's connection-time behaviour (`Client::try_new_w_config`, its reconnect callbacks and the 30 s timeout) is reduced to the `connected` parameter of `StartNt4Client`.
- `check_if_main_thread` is reduced to comparing a `threadName` parameter with `main`. The refusal becomes `NotMainThread` instead of an `EnokiError`.
- Server time (`real_server_time`, `to_real_time`) is replaced by parameters, and so is the `now()` clock (`src-tauri/src/mushroom_types.rs:12-14`). The time a loop turn took is a parameter of `Nt4Task.Cycle`.
- The order in which `subs.values_mut()` is drained is a `HashMap` order. The model folds it into the order of the `inbound` messages.
- `tracing` logging is not modelled, except that the handle records the failures `publish` and `subscribe` log. The failure of `output.update` is ignored, as in the code.
- `ToRmpv`, `FromRmpv`, `ToF64`, `ToI64`: floating-point numbers are reals, so `f64 -> f32` narrowing and rounding are not modelled. No round trip is claimed for `Float` and `FloatArray`.
- The conversions to `f32` and `Vec<f32>` (`src-tauri/src/mushroom_types.rs:249-258`, `313-322`) narrow floats. They are not modelled.
- The conversion to `String` (`src-tauri/src/mushroom_types.rs:282-293`) depends on float and integer `to_string`. It is not modelled.
- `get` / `get_unwrap` (`src-tauri/src/mushroom_types.rs:220-246`) rebuild the same value and call the conversion, and never return `Err`. The model calls the conversions directly.
- The serde `Serialize`/`Deserialize` plumbing and every `Display` implementation are library formatting. The one exception is the identity's `Display`, which is modelled.
- `get_entries`, `get_timestamp`, `len` and the `MushroomEntry` getters are plain field reads and carry no contract of their own.
- `get_connect_client_names` and the thread-local client map, and the Tauri command shims that use them, are not part of this model.
- The Svelte `writable` stores of the layout become plain values. uuid keys become positions in sequences. A JS object keeps non-numeric string keys in insertion order, so the positions follow the order in which the loops add tabs and elements.
- `loadLayoutFromJSON` is modelled for inputs that are JSON objects or arrays (`Load` requires it). On any other input the `in` test throws.
- NaN and infinite layout numbers are not modelled (JSON text cannot produce them).
- `src/lib/util/NT.ts`, `src/lib/widgets.ts`, the data-log handler, `src-tauri/src/error.rs`, `src-tauri/src/main.rs` and `src/app.d.ts` are not part of this model.
- NetworkTableHandler.Nt4Task.Cycle: the pause after a turn is the corrected `PacingDelay`, so a turn longer than 15 ms keeps the task running with no pause. The code as written panics there and ends the task (`PacingDelayAsWritten`, `SlowTurnPanics`).

## Findings

| source | as written | input that shows it | evidently intended | confidence | as-written member | corrected member |
|---|---|---|---|---|---|---|
| src-tauri/src/networktable/handler.rs:281-285 | `Duration::from_millis(15) - elapsed` is a `Duration` subtraction. It panics when `elapsed` exceeds 15 ms, before `clamp(0.0, 0.015)` runs, and the panic ends the synchronisation task. | a loop turn of 20 ms (`elapsed = 20_000_000` ns) | skip the sleep when the turn already used the 15 ms period, which is what the clamp to 0 is there for (e.g. `saturating_sub`) | high (not executed) | Nt4Loop.PacingDelayAsWritten, Nt4Loop.SlowTurnPanics | Nt4Loop.PacingDelay, Nt4Loop.PacingDelayAgrees |
