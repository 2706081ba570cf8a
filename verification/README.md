# Verified model of the game-server framework

A Dafny model of six parts of the server, with proofs. Stores and brokers (Redis, Mongo, etcd, the message queue)
are maps, sets and logs changed by atomic steps; a call to one of them may fail, fail halfway, or succeed and lose its
answer. Clocks, random draws, map iteration orders and goroutine schedules are parameters or free choices, so each
statement is about every one of them. A protocol is a set of states, a set of actions, a predicate that says which
action is possible where, and `Run`, the state after a list of actions; what is claimed of `Run(acts)` holds of every
interleaving.

- **Message bus** (`Frame`, `Batching`, `BatcherRuns`, `BatcherObject`, `Senders`). Producers append length-prefixed
  frames to a pooled buffer; a timer and `Close` drain it; the receiver splits the buffer again. `BatcherRuns` is every
  interleaving with the pool and other users of the pool; `BatcherObject` is the same locked sections on a real byte
  array, and `AddRefines` says that the two agree.
- **Protobuf codec** (`Protohelpers`, `PbMessages`, `PbDecode`, `PbConcat`, `PbEncode`, `PbUnknown`, `PbRoundTrip`,
  `PbRoleRoundTrip`, `PbMarshal`, `PbSize`, `PbUnmarshal`). `ClientInfo`, `C2SLogin`, `S2CLogin` and `RoleData`: the
  backward marshal into an exactly sized buffer and the forward parse loops as methods, each proved equal to a function
  on byte sequences; the round trip, unknown fields included, the merge law and the concatenation law are proved of the
  functions.
- **SwapQueue and write-behind saver** (`SwapQueueRuns`, `SwapQueue`, `SaverData`, `SaverSteps`, `SaverObject`,
  `LogonRuns`, `LogonLimits`, `LogonWritten`, `LogonStale`). The queue over explicit backing arrays; the saver with
  failing, partial and retried flushes; the event loop, its three savers and `Close` in one system, and where it falls
  short.
- **Account login** (`AccLogin`, `AccSession`, `BindRuns`, `Loader`). Compare-and-set on the login sequence from stale
  snapshots, the bind-key cache over Mongo, and what becomes of each request of a loader batch.
- **Service discovery** (`DiscoveryPath`, `DiscoveryRuns`, `Discoverer`, `NodeGroup`). The local cache against etcd's
  log, the keys, and the copy-on-write node groups.
- **Random selection** (`Rand`). Ranges over every integer width, and selection by weight and without repetition.

`protohelpers` (EncodeVarint, SizeOfVarint, SizeOfZigzag, Skip) is not part of the repository. `Protohelpers` models it
after the sections "Base 128 Varints", "Signed Integers" and "Length-Delimited Records" of the Protocol Buffers Encoding
specification.

Some statements hold only under a condition. Each is proved as an equivalence, most of them beside a run or an input
for which it fails:

- the wire round trip (`Frame.WireExact`: every body fits 32 bits; `Frame.LongBodyLost`);
- the codec round trip (`PbRoleRoundTrip.RoundTrip`: the unknown bytes in the message are unknown fields, as they are in
  every decoded message, `PbUnknown.DecodedKept`);
- reading back a service key (`DiscoveryPath.PathRoundTrip`: no slash in the name, and a non-empty name or a prefix that
  is more than slashes; `DiscoveryPath.NestedMisread`);
- the agreement of the bind cache with Mongo after `BindNewSDK` (`BindRuns.BindNeedsAccount`: the account exists;
  `BindRuns.BindWithoutAccount`);
- that a closed queue accepts nothing more (`SwapQueueRuns.ClosedExact`: no producer is past its check, or the write side
  is full; `SwapQueueRuns.AcceptedAfterClose`);
- that the discovery cache has every node in etcd (`DiscoveryRuns.CacheIsEtcd`: each has a put with a readable value that
  the cache took notice of; `DiscoveryRuns.UndecodableUncached`);
- that a load stored through an old state is seen (`NodeGroup.StaleUpdateSurvives`: the node was neither added again nor
  deleted before, nor its cell stored to or replaced after);
- that Mongo has the last logout of a role (`LogonWritten.LogoutInMongo`: the role was written to Mongo after that logout
  was merged into the batch; `LogonStale.StaleReport` is a run in which the role is dropped from the cache without that,
  because the report of an earlier save is taken for that of the logout, and `LogonLimits.ReportHolds` says which reports
  do suffice);
- that `RandRange` draws from a half-open interval, as its comment says (`Rand.InHalfOpen`: the arguments differ; for
  equal arguments, where that interval is empty, the code returns the argument, and the model follows the code).

## Model

| member | source | states |
|---|---|---|
| `Frame.EncodeTo` | pkg/gnet/gmsg/message.go:107-110 | Exactly one frame is written at the given place of the destination, and no other byte changes |
| `Frame.EncodeHeadTo` | pkg/gnet/gmsg/message.go:36-46 | The 29 head bytes, little endian, the length field being the body size cut to 32 bits, and no other byte changes |
| `Frame.DecodeManyAndHandle` | pkg/gnet/gmsg/message.go:129-174 | For any bytes the callbacks made and the error returned are those of the recursive reading of the buffer |
| `Frame.HandleOne` | pkg/gnet/gmsg/message.go:129-174 | One turn of the decode loop either stops with the right error or moves past exactly one frame |
| `Frame.FrameRoundTrip` | pkg/gnet/gmsg/message.go:36-127 | A frame in front of any bytes is delivered with equal head and data, and the rest is read as if it stood alone |
| `Frame.WireExact` | pkg/gnet/gmsg/message.go:107-174 | Splitting a batch gives back its messages, in order, if and only if every body size fits the 32-bit length field |
| `Frame.LongBodyLost` | pkg/gnet/gmsg/message.go:36-39 | A body of 2^32 bytes is not given back: its length field has wrapped |
| `Batching.AddKeeps` | pkg/gnet/pub/batcher.go:61-101 | The locked section of Add keeps every buffer with one holder, writes no byte past a capacity, makes at most two tasks, and appends the message to what is batched and handed over |
| `Batching.PutKeeps` | pkg/gnet/pool/pool.go:36-43 | A buffer given back by its one holder was not in the pool already, so it still has at most one holder |
| `Batching.OtherGetKeeps` | pkg/gnet/pub/pool.go:12-18 | A buffer obtained by an RPC call or another batcher is held by nobody else |
| `Batching.OtherWriteKeeps` | pkg/gnet/msgq/rpc.go:30-58 | Writing to, or growing, a buffer held by an RPC call touches no batch and no flush in flight |
| `BatcherRuns.Run` | pkg/gnet/pub/batcher.go:48-176 | Every state reachable by any interleaving of Add, timer, flush calls, Close and other users of the pool satisfies the invariant on buffers, tasks, wait group and log |
| `BatcherRuns.Always` | pkg/gnet/pub/batcher.go:48-176 | In every interleaving no pooled buffer has two holders, every buffer has at least the standard capacity, and what flushFn was given is exactly the frames of the calls in it, with their number |
| `BatcherRuns.Received` | pkg/gnet/pub/batcher.go:61-111 | In every interleaving the receiver of a flushed buffer calls back exactly the messages put into it, in order, if and only if each fits its length field, and count is their number |
| `BatcherRuns.CloseDelivers` | pkg/gnet/pub/batcher.go:48-176 | In every interleaving in which Close has returned, each accepted message is in exactly one buffer, every buffer was given to flushFn and freed, and the buffers hold the messages in the order of their locked sections |
| `BatcherRuns.RefusedNowhere` | pkg/gnet/pub/batcher.go:55-59 | A message refused with ErrClosed is never in any buffer |
| `BatcherRuns.ExactlyOne` | pkg/gnet/pub/batcher.go:95-111 | With distinct calls, a call that was handed over is in one task and in no other |
| `BatcherObject.AddRefines` | pkg/gnet/pub/batcher.go:61-101 | What the interleaving model does to buffers and tasks is what the array code does to the current buffer and the parcels it hands over |
| `BatcherObject.AddConserves` | pkg/gnet/pub/batcher.go:61-97 | The bytes handed over followed by the bytes kept are the bytes that were there followed by the new frame; the counts add up; at most two parcels |
| `BatcherObject.Batcher.Add` | pkg/gnet/pub/batcher.go:48-101 | A stopped batcher changes nothing and refuses; otherwise buffer and tasks become those of the value model, and a pooled buffer put into a task is no longer the batcher's |
| `BatcherObject.Batcher.TakeBatch` | pkg/gnet/pub/batcher.go:144-159 | A non-empty batch is handed over whole with its count and leaves no buffer; an empty one changes nothing |
| `Senders.EnsureBuf` | pkg/gnet/sender.go:218-224 | The pooled buffer has room afterwards, and is replaced only if it was too small |
| `Senders.MarshalAlone` | pkg/gnet/sender.go:22-35 | The slice sent is the whole encoding of the message, whatever the pooled buffer held before |
| `Senders.MarshalFrame` | pkg/gnet/msgq/rpc.go:33-59 | The RPC buffer is one complete frame whose length field matches its body |
| `Senders.CallDelivers` | pkg/gnet/msgq/rpc.go:33-59 | The called server reads back the same head, and the same request if and only if the unknown bytes in it are unknown fields |
| `Protohelpers.VarintRoundTrip` | api/pb/msg_player_vtproto.pb.go:202-215 | Reading a varint followed by any bytes gives its value and its length |
| `Protohelpers.SizeOfVarintExact` | api/pb/msg_player_vtproto.pb.go:144-175 | The size computed from the bit length is the number of bytes written |
| `Protohelpers.ZigzagRoundTrip` | api/pb/msg_player_vtproto.pb.go:54-56 | Zigzag and its inverse cancel on every 64-bit integer, and the 32-bit zigzag of a 32-bit value is its 64-bit zigzag |
| `Protohelpers.SkipStable` | api/pb/msg_player_vtproto.pb.go:571-584 | Skipping a field does not depend on the bytes after it |
| `Protohelpers.SkipCut` | api/pb/msg_player_vtproto.pb.go:571-584 | A field is skipped the same way when the bytes after it are cut off |
| `PbMarshal.EncodeVarint` | api/pb/msg_player_vtproto.pb.go:54-60 | The varint is written so that it ends at the given offset, and no other byte changes |
| `PbEncode.TagBytes` | api/pb/msg_player_vtproto.pb.go:39-142 | The tags made by EncodeVarint are the literal tag bytes of the generated code: one byte up to field 15, two from field 16 on |
| `PbMarshal.MarshalClient` | api/pb/msg_base_vtproto.pb.go:1307-1362 | The backward marshal writes exactly the encoding in front of the given end, and no other byte |
| `PbMarshal.MarshalLogin` | api/pb/msg_base_vtproto.pb.go:325-401 | The same with the nested ClientInfo written in place |
| `PbMarshal.MarshalRole` | api/pb/msg_player_vtproto.pb.go:39-142 | The same for two-byte tags, zigzag fields and the map walked in any order |
| `PbMarshal.MarshalReply` | api/pb/msg_base_vtproto.pb.go:421-514 | The same for two nested messages and a repeated field |
| `PbSize.SizeRole` | api/pb/msg_player_vtproto.pb.go:144-194 | SizeVT, with the map walked in one order, is the exact length of the encoding made with the map walked in any other order |
| `PbSize.SizeReply` | api/pb/msg_base_vtproto.pb.go:1601-1653 | SizeVT is the exact length of the encoding, nested messages included |
| `PbSize.LoginSizeExact` | api/pb/msg_base_vtproto.pb.go:1559-1599 | SizeVT of C2SLogin is the exact length of its encoding |
| `PbSize.ClientSizeExact` | api/pb/msg_base_vtproto.pb.go:1932-1964 | SizeVT of ClientInfo is the exact length of its encoding |
| `PbSize.AnyOrder` | api/pb/msg_player_vtproto.pb.go:184-191 | The length of the encoding does not depend on the order in which the map is walked |
| `PbSize.MarshalVT` | api/pb/msg_player_vtproto.pb.go:21-32 | A buffer of SizeVT bytes is filled to its first byte: the result is the encoding and nothing else |
| `PbUnmarshal.UnmarshalVT` | api/pb/msg_player_vtproto.pb.go:196-592 | On any bytes the loops end, stay in bounds and give the message or the error of the recursive decoder |
| `PbUnmarshal.VarintLoop` | api/pb/msg_player_vtproto.pb.go:202-215 | The shift loop gives the value of the varint cut to 64 bits, or its error |
| `PbUnmarshal.EntryLoop` | api/pb/msg_player_vtproto.pb.go:489-568 | The loop over a map entry, which may read past the entry, gives the entry or the error of the recursive reader |
| `PbConcat.UnmarshalConcat` | api/pb/msg_base_vtproto.pb.go:2510-3168 | If decoding a succeeds, decoding a followed by b is decoding b into the result of a, failure included |
| `PbRoleRoundTrip.Decodes` | api/pb/msg_player_vtproto.pb.go:196-592 | Decoding an encoded message into any message of its kind merges it: last scalar wins, repeated fields append, sub-messages merge, map entries overwrite, unknown fields append |
| `PbRoleRoundTrip.RoundTrip` | api/pb/msg_base_vtproto.pb.go:2802-3168 | For every message and every iteration order, unmarshalling the marshalled bytes into an empty message gives the message back, unknown bytes included, if and only if the unknown bytes in it are fields it does not know |
| `PbRoleRoundTrip.Reencode` | api/pb/msg_base_vtproto.pb.go:2802-3168 | Whatever bytes UnmarshalVT accepts, marshalling the message it makes of them and unmarshalling again gives that message |
| `PbUnknown.UnknownsExact` | api/pb/msg_player_vtproto.pb.go:571-584 | Bytes decode into any message to nothing but themselves, kept as unknown bytes, if and only if they are a sequence of fields the message does not know |
| `PbUnknown.DecodedKept` | api/pb/msg_player_vtproto.pb.go:196-592 | The unknown bytes held by a decoded message, and by the messages in it, are such sequences, whatever the input |
| `SwapQueueRuns.Run` | pkg/queue/swap_queue.go:24-97 | Every state reachable by any interleaving of producers, consumer and Close satisfies the invariant on arrays, order, bound and wakeup |
| `SwapQueueRuns.ExactlyOnce` | pkg/queue/swap_queue.go:35-97 | In every interleaving the accepted elements are those delivered, then those in hand, then those on the write side, each once and in lock order; the write side is bounded; the two arrays differ |
| `SwapQueueRuns.NoLostWakeup` | pkg/queue/swap_queue.go:35-97 | While elements wait and the consumer sleeps, the signal is set or a producer is about to set it; a quiet queue has delivered everything |
| `SwapQueueRuns.ClosedExact` | pkg/queue/swap_queue.go:42-71 | Once closed, no continuation accepts anything if and only if no producer is past its check or the write side is full |
| `SwapQueueRuns.AcceptedAfterClose` | pkg/queue/swap_queue.go:42-71 | A producer past its check when Close runs is accepted although Close has returned |
| `SwapQueue.SwapQueue.Push` | pkg/queue/swap_queue.go:35-65 | The element is appended, or refused for the right reason and nothing appended; the consumer is woken in either case; growth keeps the contents |
| `SwapQueue.SwapQueue.Range` | pkg/queue/swap_queue.go:78-97 | The callback gets what waited, in order; nothing waits afterwards; the spare side is cleared and not larger than the configured size |
| `SwapQueue.SwapQueue.Close` | pkg/queue/swap_queue.go:67-71 | The queue is closed, and woken by the first call only |
| `SaverData.MergeFolds` | internal/game/logon_service/save.go:135-148 | Merging a save into the batch is appending it to the pending saves of its id, and Both once set stays set |
| `SaverData.LastWins` | internal/game/logon_service/save.go:135-148 | Each field of the fold of saves is that of the last save that has it |
| `SaverSteps.StepView` | internal/game/logon_service/save.go:73-236 | No step of the saver, failed, partial or retried, changes what Redis overlaid with everything pending says of any id |
| `SaverSteps.FlushSaves` | internal/game/logon_service/save.go:149-236 | When a flush ends well, Redis has every merged field and Mongo agrees with it for ids flagged Both |
| `SaverSteps.StepFrame` | internal/game/logon_service/save.go:171-236 | A flush writes no id outside its batch |
| `SaverSteps.StuckStep` | internal/game/logon_service/save.go:88-192 | A batch that holds a save without a field is not emptied, and the saver does not return, until a save with a field is merged for that id, whatever the stores do |
| `SaverObject.Saver.Merge` | internal/game/logon_service/save.go:135-148 | The in-place merge, fields met in any order, is the merge of values |
| `SaverObject.Saver.ExecPipe` | internal/game/logon_service/save.go:171-189 | A pipeline writes parts of the batch and nothing else, and reports success exactly if nothing failed and every save has a field; then all are written |
| `SaverObject.Saver.SaveToDB` | internal/game/logon_service/save.go:194-236 | A bulk write writes parts of the batch and nothing else; on success all documents with fields are written, and none to write is success |
| `SaverObject.Saver.SaveBatch` | internal/game/logon_service/save.go:149-169 | Chunk by chunk up to the first failure only parts of the batch are written; on success every id of the batch is saved |
| `SaverObject.Saver.Flush` | internal/game/logon_service/save.go:88-103 | Redis overlaid with the batch is the same before and after, and an emptied batch was saved |
| `LogonRuns.Run` | internal/game/logon_service/login.go:60-244 | Every state reachable by any interleaving of callers, event loop, three savers, failing stores and Close satisfies the invariant on channel, saves and stores |
| `LogonRuns.Overlaid` | internal/game/logon_service/save.go:73-236 | At every point of every run Redis overlaid with the batch, the swapped-out saves and the queue is the in-order fold of all accepted saves |
| `LogonRuns.MongoAgrees` | internal/game/logon_service/save.go:149-236 | In every run a flush that ends well leaves Mongo equal to Redis on every merged field of each id flagged Both |
| `LogonRuns.CloseSaves` | internal/game/logon_service/login.go:87-223 | In every run in which Close has returned, each logout put on the channel before cancel was accepted after all saves of earlier events, and each of its fields in Redis is what it or a save accepted after it says |
| `LogonRuns.CleanupResaves` | internal/game/logon_service/login.go:171-188 | What cleanup saves for an offline role is its latest save again, unless a login event of that role came in between |
| `LogonRuns.CleanupDeletes` | internal/game/logon_service/login.go:161-188 | Cleanup drops a role from the cache only if some save of it was reported after its last logout; whether that report is of the logout is what LogonWritten and LogonStale are about |
| `LogonWritten.LogoutInMongo` | internal/game/logon_service/save.go:194-236 | In every run Mongo has the data of the last logout, if that data has a value not seen before, if and only if the role was written to Mongo after that logout was merged |
| `LogonLimits.ReportHolds` | internal/game/logon_service/save.go:227-233 | If a report of a role was posted when its last logout had been merged, Mongo has that logout's data from then on |
| `LogonStale.StaleReport` | internal/game/logon_service/login.go:161-188 | A run in which the report of an earlier save, taken after the logout, makes cleanup drop the role while Mongo lacks the logout |
| `LogonLimits.StuckStays` | internal/game/logon_service/save.go:88-192 | In every run, once a save without a field is in a batch, the batch is not emptied and Close does not return until a save with a field is merged for that id |
| `LogonLimits.StuckReached` | internal/game/logon_service/login.go:171-283 | A login that leaves an offline entry without data leads there: cleanup saves it |
| `AccLogin.Run` | internal/account/auth/auth.go:196-242 | Every state reachable by any servers with stale snapshots, lost replies and late logouts satisfies the invariant, as long as the seq has not wrapped |
| `AccLogin.ConsecutiveSeq` | internal/account/auth/auth.go:196-242 | In every run the written logins are numbered 1, 2, 3 and so on, and the hash holds the last number |
| `AccLogin.OneWinner` | internal/account/auth/auth.go:196-242 | In every run at most one of the sessions that read one seq is written, and no two written sessions have one number |
| `AccLogin.StaleFails` | internal/account/auth/acc.go:22-33 | In every run the script of a session whose snapshot is behind the hash changes nothing, and the session fails |
| `AccLogin.LateLogout` | internal/account/auth/acc.go:36-47 | In every run a logout with the number of any login but the last leaves the hash as it was; that of the last takes the game server away and nothing else |
| `AccLogin.GameHeld` | internal/account/auth/acc.go:22-47 | game_id is always that of the login holding the current seq, or zero before the first login or after a clear carrying that seq |
| `AccLogin.PasswdFixed` | internal/account/auth/auth.go:207-252 | Once non-zero the password is the same after any continuation, and no written login is lost |
| `AccLogin.TokenPasses` | internal/account/auth/auth.go:207-209 | The token of a granted login passes the reconnect check of every session, however stale its snapshot |
| `AccLogin.ReconnectNeedsToken` | internal/account/auth/auth.go:207-209 | A reconnect whose snapshot came after a login is let in only with the account's password |
| `AccLogin.SameSeqSamePasswd` | internal/account/auth/acc.go:22-33 | A script that finds the seq of its snapshot also finds the password of its snapshot |
| `AccSession.FinalizeLoginSession` | internal/account/auth/auth.go:196-242 | Code, hash, snapshot and request after the call for every answer of discovery and every fate of the script; the token handed out is the stored password |
| `AccSession.GeneratePasswd` | internal/account/auth/auth.go:244-252 | The first random word that is not zero, little endian |
| `BindRuns.Run` | internal/account/auth/loader.go:87-320 | Every state reachable by any servers, from any accounts that respect the unique index, satisfies the invariants on binds and ids |
| `BindRuns.CacheAgrees` | internal/account/auth/loader.go:87-320 | In every reachable state a cached bind names the account that holds the key in Mongo |
| `BindRuns.OneAccount` | internal/account/auth/loader.go:87-320 | Any two resolutions of a key, on any servers, by cache, database or registration, come to the same account |
| `BindRuns.FreshId` | internal/account/auth/acc.go:167-205 | An id drawn after the counter was initialised is not the id of any account |
| `BindRuns.BindNeedsAccount` | internal/account/auth/acc.go:143-164 | After BindNewSDK, refused by Mongo or not, the cache agrees with Mongo if and only if the account exists |
| `BindRuns.BindWithoutAccount` | internal/account/auth/acc.go:143-164 | Without the account the cache is left with a bind Mongo knows nothing of |
| `Loader.AccountLoader.Flush` | internal/account/auth/loader.go:44-62 | For any failures each request of the batch has exactly one outcome; duplicates of a key get the busy reply, at most one per key goes on, and what it gets is what the stores' answers call for |
| `Loader.AccountLoader.Dedup` | internal/account/auth/loader.go:46-55 | The requests that go on have different keys, every key of the batch is among them, and the others get one busy reply each |
| `Loader.AccountLoader.LoadAccountsFromCache` | internal/account/auth/loader.go:87-149 | Each request gets exactly one outcome, the right one, on every path through cache and database |
| `Loader.AccountLoader.LoadAccountsFromDB` | internal/account/auth/loader.go:156-240 | The same for requests the cache could not answer |
| `Loader.AccountLoader.RegisterNewAccounts` | internal/account/auth/loader.go:263-320 | The same for requests no account was found for |
| `Loader.AccountLoader.ResultTable` | internal/account/auth/loader.go:209-216 | The reverse table has exactly the keys of the loaded documents, each with an account that holds it |
| `Loader.AtMostOnePerKey` | internal/account/auth/loader.go:46-56 | A rearrangement of requests for different keys has no two requests for one key |
| `DiscoveryPath.PathRoundTrip` | pkg/discovery/service.go:110-138 | Reading back a key gives its service and node id, for every 32-bit id, if and only if the name has no slash and is not empty under a prefix of slashes only |
| `DiscoveryPath.NestedMisread` | pkg/discovery/service.go:124-138 | A service name with a slash is read back as another name: the part after its last slash |
| `DiscoveryPath.PrefixSelects` | pkg/discovery/service.go:120-122 | The watch prefix of a service is a prefix of another's key if and only if the two services are the same |
| `DiscoveryPath.ItoaRoundTrip` | pkg/discovery/service.go:131-137 | The printed form of every 64-bit integer is read back as that integer, and has no slash |
| `DiscoveryRuns.Run` | pkg/discovery/discover.go:54-181 | Every state reachable by any watchers while etcd changes, values that cannot be decoded included, satisfies the agreement of each watcher with its revision |
| `DiscoveryRuns.CacheExact` | pkg/discovery/discover.go:80-181 | In every run, across syncs, cancels and resyncs of any services, the cached ids of a service are those with a readable put, not deleted since, that came after the last full read or was the last put before it; all of them are in etcd |
| `DiscoveryRuns.CacheIsEtcd` | pkg/discovery/discover.go:80-262 | In every run the cached ids of a service are those in etcd at the revision its watcher has got to if and only if each id in etcd has such a put |
| `DiscoveryRuns.DecodableIsEtcd` | pkg/discovery/discover.go:80-181 | In every run in which all values can be decoded the cached ids are those in etcd at that revision |
| `DiscoveryRuns.UndecodableUncached` | pkg/discovery/discover.go:237-243 | A run in which a put that cannot be decoded leaves a node of etcd uncached |
| `DiscoveryRuns.GroupExact` | pkg/discovery/discover.go:123-181 | A full read at a revision finds exactly the ids in etcd at that revision whose value can be decoded |
| `DiscoveryRuns.AppliedExact` | pkg/discovery/discover.go:237-281 | One event, decodable or not, moves the agreement one revision on, and an event of another service does not disturb it |
| `Discoverer.Discoverer.UpsertNode` | pkg/discovery/discover.go:237-262 | The groups change as the map of ids does; services never share a group |
| `Discoverer.Discoverer.RemoveNode` | pkg/discovery/discover.go:264-281 | The id is gone, and a group that becomes empty is removed |
| `Discoverer.Discoverer.SyncSvcFullState` | pkg/discovery/discover.go:137-178 | The group of the service is replaced by one made of the keys read, the others stay |
| `NodeGroup.DrawsArePairs` | pkg/discovery/node.go:126-131 | The two draws are one-to-one onto the ordered pairs of different indices |
| `NodeGroup.NodeGroup.Add` | pkg/discovery/node.go:34-61 | The ids list the keys once each; only the added node gets a new cell |
| `NodeGroup.NodeGroup.Delete` | pkg/discovery/node.go:63-88 | The node is gone, the others keep their cells, and the answer is whether none is left |
| `NodeGroup.NodeGroup.SelectNode` | pkg/discovery/node.go:115-141 | The less loaded of two different nodes; a strictly most loaded node among two or more is never selected |
| `NodeGroup.StoreLoad` | pkg/discovery/node.go:107-112 | A load is stored into the cell of the node in the state that was read |
| `NodeGroup.StaleUpdateSurvives` | pkg/discovery/node.go:34-112 | A load stored through an old state is the node's load after any further steps if and only if that node was neither added again nor deleted since the state was read, and its cell not stored to after; other nodes do not matter |
| `NodeGroup.AddRefines` | pkg/discovery/node.go:34-61 | Add on the object is the step of the value model that StaleUpdateSurvives is about |
| `NodeGroup.DeleteRefines` | pkg/discovery/node.go:63-88 | The same for Delete, with its answer |
| `NodeGroup.StoreRefines` | pkg/discovery/node.go:107-112 | The same for a store through any old state |
| `NodeGroup.GetLoad` | pkg/discovery/node.go:98-104 | The load read from the object is that of the value model |
| `Rand.RandRangeExact` | pkg/util/rand.go:155-164 | For every integer type and all bounds, despite uint64 wrap-around, the draws are one-to-one onto the half-open interval, or onto the one argument when they are equal |
| `Rand.InHalfOpen` | pkg/util/rand.go:155-164 | Every result lies in the half-open interval if and only if the arguments differ |
| `Rand.RandRangeIncExact` | pkg/util/rand.go:167-180 | The same for the closed interval, the whole range of a 64-bit type included |
| `Rand.RandByWeight.Add` | pkg/util/rand.go:41-50 | A positive weight is appended and the total stays the sum of the weights; others are ignored |
| `Rand.RandByWeight.Find` | pkg/util/rand.go:57-65 | For every draw below the total the loop stops at the entry whose stretch holds the draw |
| `Rand.ExactShare` | pkg/util/rand.go:57-65 | Of the draws below the total exactly as many as its weight fall to an entry |
| `Rand.HitsOne` | pkg/util/rand.go:57-65 | No draw falls to two entries |
| `Rand.RandByWeight.GetAndDelete` | pkg/util/rand.go:70-92 | The entry drawn is returned and removed, the total stays the sum, and it is refused exactly if there is no entry |
| `Rand.RandByWeight.Drain` | pkg/util/rand.go:70-92 | Taking entries until none is left yields each once, whatever the draws |
| `Rand.SumFits` | pkg/util/rand.go:49-49 | The int64 total of up to 2^32 int32 weights does not overflow |
| `Rand.RandUnique.Get` | pkg/util/rand.go:110-126 | The drawn value is returned and removed; refused exactly when nothing is left |
| `Rand.RandUnique.Drain` | pkg/util/rand.go:110-126 | Drawn to the end the values come out as a rearrangement of what was put in |

## Left out

- `flushFn` keeping its buffer after it returns: it is taken not to.
- Global publish order across buffers: `flushFn` runs outside the lock, so order is claimed within a buffer and of the locked sections.
- `Message` fields that are not on the wire (the reply subject) and the log output of the decoder.
- `ErrInvalidLength` and `io.ErrUnexpectedEOF` of the decoder are one error in the model, Truncated.
- PbRoleRoundTrip.RoundTrip: the encoding is taken to be shorter than 2^63 bytes, as every Go slice is.
- `nil` and empty are the same for strings, byte slices, repeated fields and maps; a nil sub-message is None.
- The remaining generated messages: same shape as the four chosen.
- SwapQueue.SwapQueue.Range: one goroutine's view; interleaving, and what the two arrays share during it, is in SwapQueueRuns.
- `Data` maps of saves are values: sharing one map between a save, the cache and the batch, and the panic of writing into a nil map, are not captured.
- Redis key expiry, and the Expire commands that follow each write: keys are taken not to expire within a run.
- Backoff, ticker periods and the 500-entry threshold of the saver: a flush may start at any time the saver waits, which includes all of these.
- Login events of LogonService other than by what they leave in the cache; "at most one running role per id" is not decided by the code.
- LogonRuns.CleanupDeletes: does not say that the report is for the last logout, because it need not be; LogonStale.StaleReport is such a run and LogonWritten.LogoutInMongo the exact condition.
- Deadlock and progress of LogonService (a full event channel against a full saver queue): safety only.
- AccLogin.ConsecutiveSeq: fewer than 2^32 logins of one account, so that the uint32 seq does not wrap; one account, since accounts share no key.
- AccSession.GeneratePasswd: some draw is not zero, without which the source loops for ever.
- BindRuns.FreshId: ids are unbounded numbers, not Lua doubles or uint64.
- Requests held in a loader's local batch when its context is cancelled: they are not drained by the code either.
- The Redis effects of the loader are in BindRuns; Loader has the outcomes of requests only, with the stores' answers as parameters.
- DiscoveryRuns.CacheIsEtcd: keys under the prefix are those of services with slash-free, non-empty names.
- Loads read from Redis during a full sync, and the Redis subscription loop.
- Rand.RandByWeight.Add: the total is an unbounded integer; Rand.SumFits says when an int64 holds it.
- `Happen`, `Clone`, `Reset`, `Remain` of the random helpers: easy members.
- NATS, JetStream, etcd, Redis, Mongo and websocket clients, timeouts, logging, metrics, tracing: foreign calls.
- Sharded registries, router tables, gateway sessions, actors, crypt, lock, idgen, robot, configuration, HTTP, code generation: not part of this model.
