# Gate proxy coordination layer, modelled in Dafny

This project models the coordination core of the community-sourced Minecraft proxy, which is built on Gate:

- **Key-value stores.** A JSON-document store keeps every bucket in one document and rewrites it to an in-memory blob store after each change. A JetStream adapter translates broker replies and the broker's update stream into the store's uniform change events.
- **Event bus.** A table maps request types to handlers. Each incoming message is dropped, rejected (Nak) or handed to its handler. A message can answer on its reply subject, be acknowledged or rejected, and be rendered for logs.
- **Instance discovery.** The proxy lists the instance records of a game mode and keeps those present in the proxy's server registry. A random pick from that list fails with "no servers available" when it is empty.
- **Core plugin.**
  - A watch loop registers and unregisters pods from the instances bucket.
  - The transfer-request handler decides to drop, Nak, Ack or answer.
  - A joining player is sent to a lobby.
- **Fallback plugin.** A kicked player is redirected to a lobby.
- **Pod naming.** Environment defaults, and the subject and bucket names derived from them.
- **Permissions.**
  - Matching is exact or by top-level `prefix.*` wildcard, and a user inherits from their groups one level deep.
  - There are three stores. The plain file document only answers lookups and permission checks. The file-backed store and the key-value store also add and remove entries and reload. The key-value store also runs a watch loop.
- **Whitelists.** A file-backed and a key-value-backed whitelist each hold an enabled flag and a list of ids.
- **File rewrites.** Both file-backed stores truncate their file before encoding into it, so a failed write can damage the file.
- **Latinize.** A character mapping to small-capital look-alikes.

## How the model is organised

There is one module per source file, plus shared modules for identical code:

- `Collections` holds `slices.DeleteFunc` with equality and the map-key loop.
- `Permissions` holds the matching loop, which appears verbatim in three files, and the add/remove map updates.
- `Whitelists` holds the list semantics of both whitelists.
- `Instances.ServersOfGamemode` holds the filter loop, which appears in three files.

State that the source updates in place is a Dafny class with `modifies` frames:

- the JSON client, its buckets and watchers;
- the blob store and its streaming writer;
- the NATS bucket and watchers;
- the event bus;
- the server registry;
- the permission and whitelist stores.

Each deterministic loop is a method proved equal to a specification function. The loops over a map's keys take them in no fixed order; their ensures clauses characterise them instead (`Collections.MapKeys` and the replay in `JsonKv.JSONBucket.WatchAll`). Examples:

- `NATSWatcher.Forward` equals `Translate`.
- `ServersOfGamemode` equals `Filter`.
- `SyncRegistry` equals `Apply`.
- Each `ApplyChanges` equals its `Watched`.

The properties are then proved about those functions.

The following become parameters:

- the JSON codec;
- DNS resolution;
- the Gate registry's admission verdict;
- `uuid.Normalize`;
- the broker's replies;
- the result of each external write.

`rand.Intn` is a nondeterministic choice (`:|`). Go panics that the code can reach are explicit outcomes:

- the wildcard test's index out of range (`Check.IndexPanic`);
- `Intn(0)` on an empty lobby list (`Choice.Panics`);
- the double `Unlock` after a failed decode in the watch loops (`crashed`). The loop stops there.

## Model

| member | source | states |
|---|---|---|
| KvTypes.OperationName | internal/kv/kv.go:37-46 | "Put" exactly for 0, "Delete" exactly for 1, "Unknown" for every other value |
| MemoryStorage.Memory.Read | internal/hosting/storage/memory.go:21-28 | succeeds iff the key is stored, with the stored bytes; otherwise NotFound |
| MemoryStorage.Memory.ReadStreaming | internal/hosting/storage/memory.go:30-39 | yields exactly what `Read` yields, including the NotFound error |
| MemoryStorage.Memory.Save | internal/hosting/storage/memory.go:41-44 | the key maps to the content and every other key is unchanged |
| MemoryStorage.Memory.SaveStreaming | internal/hosting/storage/memory.go:46-54 | returns a fresh writer with an empty buffer for that key and leaves the map untouched |
| MemoryStorage.Memory.Delete | internal/hosting/storage/memory.go:56-59 | removes the key, present or not, and always succeeds |
| MemoryStorage.WriteCloser.Write | internal/hosting/storage/memory.go:46-54 | appends the bytes to the buffer |
| MemoryStorage.WriteCloser.Close | internal/hosting/storage/memory.go:67-70 | commits the concatenation of all writes under the key, overwriting any earlier value |
| MemoryStorage.StreamingWriteScenario | internal/hosting/storage/memory.go:30-70 | two writes then Close: a later read returns their concatenation, and nothing else changes |
| Collections.RemoveAll | plugins/permissions/fs.go:197-199 | no occurrence of the removed value is left; every other element survives and nothing new appears |
| Collections.RemoveAllCount | plugins/permissions/fs.go:197-199 | removal drops exactly the occurrences of the value and keeps the count of every other value |
| Collections.RemoveAllAppend | plugins/permissions/fs.go:197-199 | removal distributes over concatenation, so the survivors keep their order |
| Collections.RemoveAllIdempotent | plugins/permissions/fs.go:197-199 | removing twice is removing once |
| Collections.MapKeys | plugins/permissions/permissions.go:90-96 | every key of the map exactly once and nothing else |
| JsonKv.ReplayCoversEveryEntry | internal/hosting/kv/json.go:191-198 | every stored entry occurs as a Put among the first entries of a replay queue |
| JsonKv.JSONWatcher.Changes | internal/hosting/kv/json.go:231-233 | the watcher's own queue |
| JsonKv.JSONWatcher.Unwatch | internal/hosting/kv/json.go:235-241 | closes the queue, leaves its contents and the bucket's data alone, and removes this watcher from the bucket |
| JsonKv.JSONBucket.Get | internal/hosting/kv/json.go:119-129 | succeeds iff the key is present, with its value; otherwise KeyNotFound |
| JsonKv.JSONBucket.Set | internal/hosting/kv/json.go:131-145 | the key maps to the value and other keys are unchanged; exactly one Put is appended to every watcher's queue; the document is persisted |
| JsonKv.JSONBucket.Broadcast | internal/hosting/kv/json.go:135-140 | appends the event to the end of every watcher's queue and to nothing else |
| JsonKv.JSONBucket.Delete | internal/hosting/kv/json.go:147-166 | an absent key gives KeyNotFound with no data change, no event and no save; a present key is removed alone, one Delete with empty value is queued on every watcher, and the document is persisted |
| JsonKv.JSONBucket.ListKeys | internal/hosting/kv/json.go:168-178 | every key of the bucket exactly once and nothing else |
| JsonKv.JSONBucket.WatchAll | internal/hosting/kv/json.go:180-205 | registers a fresh watcher at the end of the list with the data unchanged; its queue is one Put per entry, each key once, then one marker |
| JsonKv.JSONBucket.Unwatch | internal/hosting/kv/json.go:207-219 | a watcher of another kind changes nothing; otherwise removes every occurrence of that watcher and keeps the others in order; data unchanged |
| JsonKv.RemoveAllDistinct | internal/hosting/kv/json.go:216-218 | removing a watcher keeps the watcher list free of duplicates |
| JsonKv.JSONClient.Document | internal/hosting/kv/json.go:64-79 | the persisted document has exactly the client's bucket names, each with its name and data |
| JsonKv.JSONClient.Save | internal/hosting/kv/json.go:64-79 | the blob store holds the encoded document under the file name and nothing else changes |
| JsonKv.JSONClient.New | internal/hosting/kv/json.go:23-62 | without a stored document, an empty one is saved; an undecodable one is Malformed; otherwise the client's buckets equal the stored document, with no watchers |
| JsonKv.JSONClient.Restore | internal/hosting/kv/json.go:50-59 | the buckets are rebuilt from the document, each fresh and with no watchers |
| JsonKv.JSONClient.Bucket | internal/hosting/kv/json.go:81-103 | returns the existing bucket for a known name and changes nothing else; otherwise adds one fresh empty bucket; either way the document is persisted |
| JsonKvScenarios.Crud | internal/kv/kv_test.go:19-62 | the bucket's name is "crud"; a set value is read back, is the only key listed, and deletes without error |
| JsonKvScenarios.DoubleAccess | internal/kv/kv_test.go:64-95 | two `Bucket` calls with one name give the same bucket, so a write through one is read through the other |
| JsonKvScenarios.Watch | internal/kv/kv_test.go:102-187 | a watcher of an empty bucket sees the marker, then the Put, then the Delete |
| JsonKvScenarios.WatchReplay | internal/kv/kv_test.go:189-261 | a watcher of a bucket holding one entry sees its replay, the marker, then overwrite, delete and rewrite in order; the test reads the first four of these five events, and the fifth is the rewrite its modifier performs |
| JsonKvScenarios.Resumability | internal/kv/json_test.go:36-77 | a second client over the same blob store reads what the first one wrote |
| NatsKv.ResolveHandle | internal/hosting/kv/nats.go:27-43 | a created bucket is used; "already exists" falls back to attaching; any other error passes through |
| NatsKv.ResolveHandleNeverNotFound | internal/hosting/kv/nats.go:27-43 | opening a bucket never reports KeyNotFound; every failure is a broker error |
| NatsKv.OpenBucket | internal/hosting/kv/nats.go:27-43 | a bucket with that name and the resolved handle and no watchers, or the resolution error |
| NatsKv.NATSBucket.GetReply | internal/hosting/kv/nats.go:58-67 | the value on success; the broker's key-not-found and only it becomes KeyNotFound; other errors pass through |
| NatsKv.NATSBucket.WriteReply | internal/hosting/kv/nats.go:69-84 | success iff the broker succeeded; errors pass through with no NotFound translation |
| NatsKv.GetErrorRecoverable | internal/hosting/kv/nats.go:58-67 | every failed read still carries the broker's original error |
| NatsKv.WriteNeverNotFound | internal/hosting/kv/nats.go:69-84 | a write or delete never reports KeyNotFound, and keeps the broker's error |
| NatsKv.NATSBucket.ListKeys | internal/hosting/kv/nats.go:86-98 | exactly the lister's keys in order, or its error |
| NatsKv.TranslateUpdate | internal/hosting/kv/nats.go:113-140 | nothing exactly for a purge; the marker exactly for nil; otherwise a change with the same key and value, Delete for a delete and Put for everything else |
| NatsKv.Translate | internal/hosting/kv/nats.go:113-140 | never longer than the update stream |
| NatsKv.TranslateAppend | internal/hosting/kv/nats.go:113-140 | translation distributes over concatenation, so order is preserved |
| NatsKv.TranslateLength | internal/hosting/kv/nats.go:128-129 | the output is shorter than the input by exactly the number of purges |
| NatsKv.TranslatePointwise | internal/hosting/kv/nats.go:113-140 | without purges, event i is the translation of update i |
| NatsKv.TranslateSound | internal/hosting/kv/nats.go:113-140 | every emitted event is the translation of some update |
| NatsKv.NATSWatcher.Forward | internal/hosting/kv/nats.go:112-143 | needs an open queue and a running broker watcher, since a send on a closed queue panics; the forwarding loop then appends exactly `Translate(updates)` to the queue |
| NatsKv.NATSWatcher.Unwatch | internal/hosting/kv/nats.go:180-186 | needs an open queue, since a second close panics; closes it with its queued events kept; removes from its bucket every watcher sharing its broker watcher, which is stopped |
| NatsKv.DropSharing | internal/hosting/kv/nats.go:159-161 | keeps exactly the watchers on another broker watcher |
| NatsKv.WatchThenUnwatch | internal/hosting/kv/nats.go:145-165 | adding a watcher and unwatching it restores the list |
| NatsKv.NATSBucket.WatchAll | internal/hosting/kv/nats.go:100-150 | a failed broker watch is returned unchanged; otherwise a fresh watcher is appended |
| NatsKv.NATSBucket.Unwatch | internal/hosting/kv/nats.go:152-165 | a watcher of another kind changes nothing; otherwise all watchers sharing its broker watcher are removed and it is stopped |
| Messaging.Respond | internal/hosting/messaging/messaging.go:39-45 | without a reply subject nothing is published and the result is success; otherwise exactly the payload is published to the reply subject, and the publish result is returned |
| Messaging.Ack | internal/hosting/messaging/messaging.go:51-53 | one Ack of this very message, handed to its own messager |
| Messaging.Nak | internal/hosting/messaging/messaging.go:47-49 | one Nak of this very message, handed to its own messager |
| Messaging.Render | internal/hosting/messaging/messaging.go:23-37 | the topic and a space; ` (<- reply) ` only with a reply subject; then `-> ` and the raw data; length included |
| Bus.EventBus.Register | internal/hosting/messaging.go:59-62 | stores the handler under the type, replacing any earlier one; returns an unregisterer for that type |
| Bus.Unregisterer.Call | internal/hosting/messaging.go:64-68 | deletes whatever handler is under the type, and nothing else |
| Bus.StaleUnregister | internal/hosting/messaging.go:59-69 | an old unregisterer also removes a handler registered later for the same type |
| Bus.EventBus.Handle | internal/hosting/messaging.go:71-104 | undecodable: nothing at all; no handler: exactly one Nak; otherwise one call of that handler, then one Nak iff it fails; never an Ack |
| Bus.NewEventBus | internal/hosting/messaging.go:106-117 | an empty handler table on that subject, or the subscribe error |
| PodInfos.OrDefault | internal/hosting/pod_info.go:22-35 | an empty value is replaced by the default; others are kept |
| PodInfos.ParsePodInfo | internal/hosting/pod_info.go:15-38 | defaults "default", "proxy-0", "default" for empty inputs; all fields non-empty |
| PodInfos.ParsePodInfoIdempotent | internal/hosting/pod_info.go:15-38 | parsing parsed values changes nothing |
| PodInfos.RPCNetworkSubject | internal/hosting/pod_info.go:40-42 | "csmc." then namespace, ".", network |
| PodInfos.KVNetworkKey | internal/hosting/pod_info.go:48-50 | "csmc_" then namespace, "_", network |
| PodInfos.KVGamemodesKey | internal/hosting/pod_info.go:52-54 | the network key followed by "_gamemodes" |
| PodInfos.KVInstancesKey | internal/hosting/pod_info.go:57-59 | the network key followed by "_instances" |
| PodInfos.BucketKeysDistinct | internal/hosting/pod_info.go:52-59 | the game-mode and instance buckets never share a name |
| PodInfos.SubjectAndKeyDiffer | internal/hosting/pod_info.go:40-50 | the RPC subject never equals the network key |
| Instances.Registry.Lookup | internal/hosting/instance_manager.go:59-70 | the registered server of that name, if any |
| Instances.Registry.Remove | internal/hosting/instance_manager.go:59-70 | removes the name and reports whether it was registered |
| Instances.Registry.Upsert | internal/hosting/instance_manager.go:42-57 | unresolvable: error and registry unchanged; admitted: the name maps to the new address; refused: error, and the old entry is gone |
| Instances.FilterPrefixFailure | internal/hosting/instance_manager.go:80-83 | once a read fails, later keys do not matter |
| Instances.FilterSound | internal/hosting/instance_manager.go:72-105 | every returned server is a listed key whose record decodes to the game mode and is registered, with its registry address |
| Instances.FilterComplete | internal/hosting/instance_manager.go:85-99 | every listed key that qualifies is returned |
| Instances.FilterFailure | internal/hosting/instance_manager.go:80-83 | the lookup fails iff some read fails, and then with the first such error |
| Instances.ServersOfGamemode | internal/hosting/instance_manager.go:72-105 | the loop returns the list error, or exactly `Filter` of the listed keys |
| Instances.InstanceManager.Register | internal/hosting/instance_manager.go:42-57 | as `Upsert` on the registry |
| Instances.InstanceManager.Unregister | internal/hosting/instance_manager.go:59-70 | removes the name if present and always succeeds |
| Instances.InstanceManager.GetServersOfGamemode | internal/hosting/instance_manager.go:72-105 | the list error, or exactly the filtered servers |
| Instances.InstanceManager.GetRandomServerOfGamemode | internal/hosting/instance_manager.go:107-118 | lookup errors are passed on; "no servers available" iff the filtered list is empty; otherwise one of its elements |
| Instances.ReRegister | internal/hosting/instance_manager.go:42-70 | registering a name twice leaves the second address; unregistering leaves none |
| Core.ApplyStops | plugins/core/core.go:80-111 | once the watch loop has hit a fatal registration error, later updates change nothing |
| Core.ApplyFrame | plugins/core/core.go:80-111 | a server that no update names keeps its registration |
| Core.NilSkipped | plugins/core/core.go:81-84 | the broker's nil marker, when the loop reaches it, leaves the registry and the fatal outcome as they were |
| Core.PutRegisters | plugins/core/core.go:56-100 | a Put that the loop reaches: an undecodable record is skipped with nothing changed; an unresolvable address is fatal with the registry unchanged; an admitted address registers the name under it with no fatal error; a refused one is fatal and leaves the name unregistered |
| Core.DeleteUnregisters | plugins/core/core.go:104-108 | after a Delete that the loop reaches, the name is not registered |
| Core.CorePlugin.SyncRegistry | plugins/core/core.go:56-114 | a failed watch is fatal with the registry unchanged; otherwise the loop leaves exactly `Apply` of the updates |
| Core.CorePlugin.OnChooseServer | plugins/core/core.go:260-270 | a lookup error gives "lobby-0" if registered; an empty lobby list panics; otherwise some lobby server |
| Core.FindFrom | plugins/core/core.go:159-177 | the first server from the given index on whose name is the destination or starts with destination + "-" |
| Core.FindDestination | plugins/core/core.go:159-177 | the first matching server in the order the proxy's `Servers()` returns them, which the source does not fix; none iff no server matches |
| Core.Transfer | plugins/core/core.go:129-231 | dropped iff the request does not decode; Nak iff it decodes but is not an accepted transfer; for an accepted one: Ack iff already connected, OK response on success, error response on a connect error or failed status |
| Core.SuccessAnswersTransferType | plugins/core/core.go:204-228 | every answer carries the TRANSFER_PLAYER type |
| Fallback.FallbackPlugin.OnServerDisconnect | plugins/fallback/fallback.go:56-124 | a lookup error requests "lobby-0" with no kick result; an empty list gives no result; otherwise a redirect to a listed, registered lobby server |
| Permissions.FirstDot | plugins/permissions/permissions.go:137 | the position of the first dot, with no dot before it; none iff there is no dot |
| Permissions.Split | plugins/permissions/permissions.go:137 | at least one segment; no segment contains a dot; one segment iff there is no dot |
| Permissions.JoinSplit | plugins/permissions/permissions.go:137 | joining the segments with dots gives back the name |
| Permissions.SplitJoin | plugins/permissions/permissions.go:137 | splitting joined dot-free segments gives them back |
| Permissions.FirstDotAfter | plugins/permissions/permissions.go:137 | the first dot of `a.rest` with dot-free `a` is right after `a` |
| Permissions.SplitHead | plugins/permissions/permissions.go:137 | the first segment of `a.rest` with dot-free `a` is `a` |
| Permissions.Grants | plugins/permissions/permissions.go:133-139 | granted iff equal, or same first segment and the granted entry's second segment is `*`; panics iff unequal, dot-free, and equal to the first segment |
| Permissions.WildcardGrantsSubtree | plugins/permissions/permissions.go:137-139 | for every dot-free `a`, the empty one included, `a.*` grants `a` and everything below it |
| Permissions.DeepWildcardGrantsOnlyItself | plugins/permissions/permissions.go:137-139 | `a.b.*` grants only itself |
| Permissions.ListGrants | plugins/permissions/permissions.go:132-142 | false iff no entry grants or panics; true only when some entry grants; panics only when some entry panics |
| Permissions.ListGrantsAppend | plugins/permissions/permissions.go:132-142 | non-matching entries in front do not change the verdict |
| Permissions.GroupPermissions | plugins/permissions/permissions.go:98-105 | the stored list and true for a known group; empty and false otherwise |
| Permissions.UserPermissions | plugins/permissions/permissions.go:107-114 | the stored list and true for a known user; empty and false otherwise |
| Permissions.UserGroups | plugins/permissions/permissions.go:116-123 | the user's groups and true for a known user; empty and false otherwise |
| Permissions.GetGroup | plugins/permissions/fs.go:93-96 | the group and true if present; the zero group and false otherwise |
| Permissions.GetGroups | plugins/permissions/permissions.go:90-92 | every group name exactly once |
| Permissions.GetUsers | plugins/permissions/permissions.go:94-96 | every user id exactly once |
| Permissions.GroupHasPermission | plugins/permissions/permissions.go:125-143 | false for an unknown group; otherwise the verdict of its entries in order |
| Permissions.GroupsGrant | plugins/permissions/permissions.go:165-169 | false iff no listed group grants or panics; true only when some listed group grants |
| Permissions.UserHasPermission | plugins/permissions/permissions.go:145-171 | false for an unknown normalised id; true only when a direct entry or a listed group grants; false iff none grants or panics |
| Permissions.GroupGrantInherited | plugins/permissions/permissions.go:159-169 | a user holds `p` when one of their groups grants it, their own entries all refuse it, and the groups listed before that one refuse it |
| Permissions.GroupsGrantPrefix | plugins/permissions/permissions.go:165-169 | groups before the granting one that refuse do not change the verdict |
| Permissions.UserAdd | plugins/permissions/fs.go:172-180 | appends to the user's entries (a new user gets just that one), keeps the groups and every other user |
| Permissions.UserRemove | plugins/permissions/fs.go:192-205 | deletes every occurrence in order, inserts an empty entry for an unknown user, keeps every other user |
| Permissions.GroupAdd | plugins/permissions/fs.go:182-190 | appends to the group's entries under the verbatim name, keeps every other group |
| Permissions.GroupRemove | plugins/permissions/fs.go:207-219 | deletes every occurrence, inserts an empty group for an unknown name, keeps every other group |
| Permissions.DecodeInto | plugins/permissions/kv.go:67 | decoding into an existing map adds and replaces the decoded entries; every other entry survives |
| Permissions.UserAddThenRemove | plugins/permissions/fs.go:172-205 | adding then removing an entry equals removing it alone |
| Permissions.UserAddGrants | plugins/permissions/fs.go:172-180 | after adding `p`, checking `p` for that user is granted when no earlier entry interferes |
| FileStore.WriteOutcome | plugins/permissions/fs.go:77-91 | a rewrite reports success exactly when it wrote the document; an open or encode failure reports its error |
| FileStore.Rewrite | plugins/permissions/fs.go:77-91 | after a rewrite the file holds the document on success, is unchanged when the open failed, and is damaged when encoding failed after the truncating open |
| FileStore.FailedRewrite | plugins/whitelist/fs.go:54-68 | a failed rewrite never leaves a complete document the file did not already hold; only a failure after the truncating open changes the file |
| FsPermissions.FSPermissions.Save | plugins/permissions/fs.go:77-91 | the error of the rewrite; the file holds the document on success, is untouched on an open failure, and is damaged on a failure after the truncating open; memory unchanged |
| FsPermissions.FSPermissions.Reload | plugins/permissions/fs.go:56-75 | missing file: the current document is saved, with `Save`'s outcomes; unreadable: error with file and memory unchanged; found: its users and groups are decoded into the current maps |
| FsPermissions.FSPermissions.UserAddPermission | plugins/permissions/fs.go:172-180 | `UserAdd` on the normalised id, then the whole file is rewritten, with `Save`'s outcomes for the file |
| FsPermissions.FSPermissions.GroupAddPermission | plugins/permissions/fs.go:182-190 | `GroupAdd` on the verbatim name, then the whole file is rewritten, with `Save`'s outcomes for the file |
| FsPermissions.FSPermissions.UserRemovePermission | plugins/permissions/fs.go:192-205 | `UserRemove` on the normalised id, then the whole file is rewritten, with `Save`'s outcomes for the file |
| FsPermissions.FSPermissions.GroupRemovePermission | plugins/permissions/fs.go:207-219 | `GroupRemove` on the verbatim name, then the whole file is rewritten, with `Save`'s outcomes for the file |
| FsPermissions.ReadFile | plugins/permissions/fs.go:40-54 | an unreadable file or a failed first save yields no store; a missing file gives empty maps that the file then holds; a found file's document becomes the store's |
| FsPermissions.SoleWildcardGrants | plugins/permissions/fs.go:144-170 | a user whose only entry is `a.*`, for any dot-free `a`, holds `a` and `a.rest` |
| FsPermissions.GrantWildcard | plugins/permissions/fs.go:144-180 | after adding `proxy.*`, `proxy` and `proxy.server.lobby` are granted and the file holds the grant |
| FsPermissions.RevokeDuplicate | plugins/permissions/fs.go:172-205 | a grant added twice is gone after one removal |
| KvPermissions.BucketName | plugins/permissions/kv.go:38 | the network key followed by "_permissions" |
| KvPermissions.WatchStep | plugins/permissions/kv.go:55-87 | the marker and other keys change nothing; "users"/"groups" decode into their own map only; a decode failure stops the loop |
| KvPermissions.WatchedCrashesIffUndecodable | plugins/permissions/kv.go:64-84 | the loop stops iff some "users" or "groups" change does not decode |
| KvPermissions.WatchedIgnoresOtherKeys | plugins/permissions/kv.go:55-87 | markers and other keys leave both maps unchanged |
| KvPermissions.WatchedKeepsUntouchedDocument | plugins/permissions/kv.go:62-85 | changes to one key never touch the other map |
| KvPermissions.WatchedAppend | plugins/permissions/kv.go:55-87 | the loop over two batches is the loop over the first then the second, and nothing is applied after a stop |
| KvPermissions.KVPermissions.Document | plugins/permissions/kv.go:156-202 | the two in-memory maps as one document for the shared matchers |
| KvPermissions.KVPermissions.Reload | plugins/permissions/kv.go:92-109 | per key: found is decoded into the map, missing resets it, other errors are returned at once, leaving groups untouched when users fail |
| KvPermissions.KVPermissions.SaveUsers | plugins/permissions/kv.go:111-116 | writes only the "users" key |
| KvPermissions.KVPermissions.SaveGroups | plugins/permissions/kv.go:118-123 | writes only the "groups" key |
| KvPermissions.KVPermissions.UserAddPermission | plugins/permissions/kv.go:204-213 | `UserAdd` in memory even if the write fails; only "users" is written |
| KvPermissions.KVPermissions.GroupAddPermission | plugins/permissions/kv.go:215-223 | `GroupAdd` in memory; only "groups" is written |
| KvPermissions.KVPermissions.UserRemovePermission | plugins/permissions/kv.go:225-238 | `UserRemove` in memory; only "users" is written |
| KvPermissions.KVPermissions.GroupRemovePermission | plugins/permissions/kv.go:240-252 | `GroupRemove` in memory; only "groups" is written |
| KvPermissions.KVPermissions.ApplyChanges | plugins/permissions/kv.go:55-87 | the loop leaves exactly `Watched` of the events and writes nothing |
| KvPermissions.NewKVPermissions | plugins/permissions/kv.go:37-90 | opening or watching failures are returned; otherwise an empty store on the "_permissions" bucket |
| KvPermissions.RemoteGrant | plugins/permissions/kv.go:55-87 | a "users" change from another proxy becomes visible to the matchers here |
| Whitelists.AddContains | plugins/whitelist/fs.go:93-116 | after appending `u` the list contains `u` and what it did before, nothing else |
| Whitelists.RemoveContains | plugins/whitelist/fs.go:101-116 | after removing `u` the list lacks `u` and every other id keeps its membership |
| Whitelists.AddThenRemove | plugins/whitelist/fs.go:93-109 | adding then removing an id equals removing it alone |
| Whitelists.AddTwiceRemoveOnce | plugins/whitelist/fs.go:93-109 | Add keeps duplicates, and one Remove deletes them all |
| FsWhitelist.FSWhitelist.Document | plugins/whitelist/fs.go:12-17 | the flag and the list as the file's document |
| FsWhitelist.FSWhitelist.Save | plugins/whitelist/fs.go:54-68 | the error of the rewrite; the file holds the document on success, is untouched on an open failure, and is damaged on a failure after the truncating open; memory unchanged |
| FsWhitelist.FSWhitelist.Reload | plugins/whitelist/fs.go:33-52 | missing file: defaults are saved; unreadable: error; found: the fields present replace the current ones |
| FsWhitelist.FSWhitelist.IsEnabled | plugins/whitelist/fs.go:70-75 | the flag |
| FsWhitelist.FSWhitelist.Contains | plugins/whitelist/fs.go:111-116 | true iff some position holds the id |
| FsWhitelist.FSWhitelist.AllWhitelisted | plugins/whitelist/fs.go:118-126 | a copy equal to the list, element by element |
| FsWhitelist.FSWhitelist.Enable | plugins/whitelist/fs.go:77-83 | flag set, list unchanged, file rewritten with `Save`'s outcomes |
| FsWhitelist.FSWhitelist.Disable | plugins/whitelist/fs.go:85-91 | flag cleared, list unchanged, file rewritten with `Save`'s outcomes |
| FsWhitelist.FSWhitelist.Add | plugins/whitelist/fs.go:93-99 | appends without a duplicate check, so the id is contained; flag unchanged; file rewritten with `Save`'s outcomes |
| FsWhitelist.FSWhitelist.Remove | plugins/whitelist/fs.go:101-109 | deletes every occurrence in order, so the id is not contained and others keep their membership; flag unchanged; file rewritten with `Save`'s outcomes |
| FsWhitelist.NewFSWhitelist | plugins/whitelist/fs.go:19-31 | disabled and empty, then reloaded; an unreadable file or a failed first save yields none; a missing file leaves the defaults in the file |
| FsWhitelist.AddRemove | plugins/whitelist/fs.go:93-116 | an id added twice is contained, and not after one Remove; another id is kept |
| NatsWhitelist.BucketName | plugins/whitelist/nats.go:26 | the network key followed by "_whitelist" |
| NatsWhitelist.WatchStep | plugins/whitelist/nats.go:43-75 | the marker and other keys change nothing; "enabled" replaces the flag, "whitelisted" replaces the list; a decode failure stops the loop |
| NatsWhitelist.WatchedIsLastWrite | plugins/whitelist/nats.go:49-73 | unless stopped, the flag and list are the last decodable values written to their keys (replace, not merge) |
| NatsWhitelist.WatchedCrashesIffUndecodable | plugins/whitelist/nats.go:55-72 | the loop stops iff some "enabled" or "whitelisted" change does not decode |
| NatsWhitelist.WatchedStaysCrashed | plugins/whitelist/nats.go:43-75 | after a stop, later changes are not applied |
| NatsWhitelist.NATSWhitelist.Reload | plugins/whitelist/nats.go:80-97 | a found "enabled" sets the flag and returns without reading the list; a failed one returns its error; a missing one clears the flag, then the list is found, reset to empty or the error returned |
| NatsWhitelist.NATSWhitelist.SaveEnabled | plugins/whitelist/nats.go:99-108 | writes only the "enabled" key |
| NatsWhitelist.NATSWhitelist.SaveWhitelisted | plugins/whitelist/nats.go:110-119 | writes only the "whitelisted" key |
| NatsWhitelist.NATSWhitelist.IsEnabled | plugins/whitelist/nats.go:121-126 | the flag |
| NatsWhitelist.NATSWhitelist.Contains | plugins/whitelist/nats.go:162-167 | true iff some position holds the id |
| NatsWhitelist.NATSWhitelist.AllWhitelisted | plugins/whitelist/nats.go:169-177 | a copy equal to the list, element by element |
| NatsWhitelist.NATSWhitelist.Enable | plugins/whitelist/nats.go:128-134 | flag set, list unchanged, only "enabled" written |
| NatsWhitelist.NATSWhitelist.Disable | plugins/whitelist/nats.go:136-142 | flag cleared, list unchanged, only "enabled" written |
| NatsWhitelist.NATSWhitelist.Add | plugins/whitelist/nats.go:144-150 | appends without a duplicate check; only "whitelisted" written |
| NatsWhitelist.NATSWhitelist.Remove | plugins/whitelist/nats.go:152-160 | deletes every occurrence, so the id is not contained and others keep their membership; only "whitelisted" written |
| NatsWhitelist.NATSWhitelist.ApplyChanges | plugins/whitelist/nats.go:43-75 | the loop leaves exactly `Watched` of the events and writes nothing |
| NatsWhitelist.NewNATSWhitelist | plugins/whitelist/nats.go:25-78 | opening or watching failures are returned; otherwise a disabled, empty whitelist on the "_whitelist" bucket |
| NatsWhitelist.ReloadSkipsList | plugins/whitelist/nats.go:84-88 | with both keys stored, the stored list is never loaded |
| Latinize.LatinizeRune | lib/util/latinize.go:13-70 | characters outside a..z are kept; q, s, x, z are kept; the other 22 letters map outside a..z |
| Latinize.LatinizeRuneIdempotent | lib/util/latinize.go:13-70 | every image maps to itself |
| Latinize.LatinizeRuneOnLetters | lib/util/latinize.go:15-66 | distinct lower case letters get distinct images |
| Latinize.Latinize | lib/util/latinize.go:5-11 | same length, and character i is the image of input character i |
| Latinize.LatinizeTwice | lib/util/latinize.go:5-70 | latinizing a latinized string changes nothing |

## Left out

- Locking and goroutines: mutexes are not modelled and every operation is atomic. Watcher channels are unbounded sequences. The JSON watcher channel's capacity `len(Data)+1` (internal/hosting/kv/json.go:184) means a `Set` or `Delete` can block on a full queue; this is not modelled.
- The create race in the JSON client's `Bucket` between the read lock and the write lock (internal/hosting/kv/json.go:82-95) is not modelled.
- Sending on a closed channel: after `JSONWatcher.Unwatch` the queue is only marked closed. The source's `Set` on a bucket that still lists a closed watcher would panic; the model appends instead.
- NatsKv.NATSWatcher.Forward: the race in which the forwarding goroutine sends a buffered update after `Unwatch` closed the queue, and Go panics, is not modelled. `Forward` requires an open queue and a running broker watcher.
- The JSON and base64 codecs are abstract functions.
  - `JsonKv.JSONClient.Save` and the key-value store saves assume encoding is total. Their encoder-error returns are not modelled (the file-backed stores' are), and neither are the marshal errors in the core plugin's responses (plugins/core/core.go:117-127, 204-228).
  - A decode that fails part-way leaves a partial merge in Go; here a failed decode changes nothing before its error.
  - Decoding `null` is not distinguished from other values. Into a map it leaves a nil map. Into the whitelist's `Enabled` flag it keeps the current value (plugins/whitelist/nats.go:55), which the `Bytes -> Option<bool>` decoder cannot express. Into the whitelist's list it sets a nil slice (plugins/whitelist/nats.go:67 and 90, plugins/whitelist/fs.go:47).
- A nil `[]byte` and an empty one are the same `Bytes` value, so a Delete event carries `[]`.
- `JsonKv` is bound to the in-memory blob store; internal/hosting/storage/fs.go is not part of this model. That file's `Delete` does not map a missing file to NotFound.
- File I/O of the permission and whitelist stores is a single `written`/`stored` parameter per call. `FsPermissions.FSPermissions.Reload` and `FsWhitelist.FSWhitelist.Reload` do not distinguish an open error from a decode error.
- FsPermissions.FSPermissions.Save, FsWhitelist.FSWhitelist.Save: a failure after the truncating open leaves the file `Damaged`. The truncated or half-written bytes themselves are not modelled, and neither is what a later reload of them decodes to. The methods that save inherit this: the add/remove methods, `Enable`, `Disable`, the reloads of a missing file, `ReadFile` and `NewFSWhitelist`.
- The plain `FPermission` store's `ReadFile`, `Reload` and `Save` (plugins/permissions/permissions.go:36-88) are file I/O of the same shape as plugins/permissions/fs.go and are not modelled separately. Its lookups and matchers are the shared `Permissions` functions.
- internal/hosting/nats.go is not part of this model. Its `GetKeyFromKV` and `SetKeyToKV` become the `Lookup` results and the `written` parameters.
  - `KvPermissions.KVPermissions.Reload` tests for a missing key as the source intends. The source compares the unwrapped error with the kv package's `ErrKeyNotFound`, while the JetStream bucket it reads reports its own not-found error.
- NatsWhitelist.NATSWhitelist.Reload: the comparison that `KvPermissions.KVPermissions.Reload` makes decides its `KeyMissing` branch (plugins/whitelist/nats.go:84 and 90, through `GetKeyFromKV` in internal/hosting/nats.go:29-40), and the model reads it the same way, as intended. The rest of that method, including the early return after a found "enabled" key, is modelled as written.
- `uuid.Normalize` is an abstract function. DNS resolution (`net.ResolveTCPAddr`) is an `Option<Addr>`. The Gate registry's verdict on a registration is a boolean parameter.
- `rand.Intn` is a nondeterministic choice: the model proves the pick is some element of the list, not that it is uniform.
- `os.Getenv` values are parameters of `PodInfos.ParsePodInfo`.
- NATS connectivity and the messaging adaptors (internal/messaging/nats.go, internal/hosting/messaging/nats.go) are not part of this model.
  - There, `Ack` calls `Nak` and vice versa (internal/hosting/messaging/nats.go:39-45), which never terminates. Here `Ack`/`Nak` only record the call handed to the messager.
  - There, `Subscribe` never sets the reply subject, so `Respond` is a no-op on that backend.
- Logging decorators (the `logged.go` files) only forward calls and log, and are not modelled.
- `Messaging.Render`: Go's `string(m.Data)` reads the bytes as UTF-8. The model writes one character per byte.
- Latinize.Latinize: the input is a sequence of Unicode scalar values. Go's `range` over a string decodes UTF-8 and yields U+FFFD for each invalid byte, so Go's output on invalid UTF-8 is not covered. The model covers well-formed strings only.
- UI and cosmetic plugins are not modelled: plugins/whitelist/plugin.go, plugins/permissions/plugin.go, tab, motd, resource pack and boss bar. The same goes for the Mojang HTTP lookups.
- plugins/whitelist/whitelist.go is not modelled. It truncates the file before its duplicate check.
- The core plugin's `onServerSwitch` only sends a chat message, and its plugin bootstrap (`New`, the RPC subscription plumbing) is wiring. Neither is modelled.
- `NatsKv.NATSBucket.Unwatch`: a watcher that is not a NATS watcher is the `None` argument.
- `NatsKv.NATSBucket.WatchAll`: Go's unchanged return of the broker error is modelled as the error wrapped in `Broker`, which the rest of the model treats as "passed through".
- `Core.CorePlugin.SyncRegistry`: an update with an operation other than put, delete or purge changes nothing here. The source's switch has no such case.
- The double `Unlock` after a failed decode in the key-value permission and whitelist watch loops is modelled as the loop stopping (`crashed`). The process-wide effect of that fatal error is not modelled.
