# Verified models of the editor's CLI protocols and supporting scripts

This project models the parts of the repository whose correctness rests on protocols, shared state
or arithmetic, and proves what they keep over every run. `dafny verify dfyconfig.toml` checks all of
it.

| file | modules | models |
|---|---|---|
| `common.dfy` | `Common` | options, bytes, concatenation |
| `stream_mux.dfy` | `StreamMux` | the multiplexed streams of the RPC layer as a step relation: dispatcher, removers and write loops over the shared table; every lock region is one step and every await a step boundary |
| `stream_table.dfy` | `StreamTable` | the table updated in place, and a scheduler whose methods refine those steps |
| `rpc_calls.dfy`, `rpc_progress.dfy`, `rpc_client.dfy` | `RpcCalls`, `RpcProgress`, `RpcClient` | message ids, the dispatcher, calls against replies that may overtake them, what becomes of every call, and the counter and dispatcher objects driven through the same steps |
| `transport.dfy`, `transport_progress.dfy`, `transport_delivery.dfy` | `Transport`, `TransportProgress`, `TransportDelivery` | the two transport loops with their 8-slot channel: what is written when, when the loop can get stuck, and that every reply and every stream is served |
| `stream_decoder.dfy`, `msgpack_codec.dfy`, `msgpack_data.dfy`, `json_lines.dfy` | `StreamDecoder`, `MsgPackCodec`, `MsgPackData`, `JsonLines` | framing: the decode loop over any front-to-back decoder, a decoder for MessagePack as an instance, the format itself with every header byte written out and the decoder proved against it, and newline-terminated JSON |
| `staging_names.dfy`, `cache_protocol.dfy`, `cache_progress.dfy`, `cache_create.dfy` | `StagingNames`, `CacheProtocol`, `CacheProgress`, `CacheCreate` | the create protocol of the download cache, run by any number of processes that may be cancelled or crash, that every call can come to its end, and `create` itself as a method with its three loops whose every step is a step of that protocol |
| `persisted_state.dfy`, `lru.dfy` | `PersistedState`, `Lru` | state cached in memory and written through, and the list of recently used entries |
| `keyring.dfy`, `auth_storage.dfy` | `Keyring`, `AuthStorage` | credentials split over keyring entries, and the storage selector with its one-shot fallback, over the keyring and file objects |
| `auth_timing.dfy` | `AuthTiming` | device-code polling and token keep-alive |
| `policy_server.dfy` | `PolicyServer` | the mock policy server's endpoint state: batches, persisting, restoring |
| `line_buffer.dfy` | `LineBuffer` | the stdout/stderr wrapper that forwards whole lines |

Where the code and what is said about it disagree, the model follows the code:

- A comment in `cli/src/download_cache.rs` (lines 174-175) says that the prefix used for reaping cannot
  match another entry's staging directory. It can, when the other entry's name itself looks like a
  staging directory of the first. `StagingNames.ReapExactly` gives the exact condition,
  `StagingNames.ReapCanHitAnotherEntry` an instance, and `CacheProtocol.LiveStagingReaped` and
  `CacheProtocol.VisibleEntryReaped` are runs in which a live staging directory and an installed
  entry are removed. The properties that this breaks hold in every run if and only if no two entry
  names are like that (`StagingNames.Plain`), which is proved for each of them; the others need
  less or nothing of the names.
- `RpcCaller::call` sends its request before it stores the callback, so a fast reply is lost
  (`RpcCalls.AnsweredExactly`, `RpcCalls.OvertakenCallIsLost`).
- A sealed credential whose length is a multiple of the keyring step is not read back
  (`Keyring.RoundTripExactly`, `Keyring.MultipleRunsOn`, `AuthStorage.ExactMultipleIsLost`).
- Clearing a keyring that lacks a part fails and may have removed the parts before it
  (`Keyring.KeyringStorage.Clear`, `AuthStorage.FailedClearForgetsExactly`).
- If removing the temporary file throws after the mock server's state file was renamed, the file is
  ahead of memory (`PolicyServer.Server.Post`).
- The MessagePack loop can block on its own channel (`TransportProgress.WedgesExactly`,
  `TransportProgress.SpawnedRepliesCanWedge`).
- The branch of the write loop for a missing record is never taken (`StreamMux.OneOwner`). The branch
  of `create` for a lost rename race is taken exactly when something else than `create` put a
  directory in the target's place after the check under the lock (`CacheProtocol.LostRaceExactly`);
  lines 341-361 of `cli/src/download_cache.rs` show a `do_create` that does so
  (`CacheProtocol.LostRaceHappens`).

## Model

| member | source | states |
|---|---|---|
| `StreamMux.InvStep` | cli/src/rpc.rs:531-631 | every step of the dispatcher, a remover or a write loop keeps the ownership and content invariant, write errors included |
| `StreamMux.InvAlways` | cli/src/rpc.rs:531-631 | the invariant holds for every stream after every interleaving from the empty table in which ids are fresh |
| `StreamMux.OneOwner` | cli/src/rpc.rs:531-631 | a write half is in exactly one place (record, loop, remover, or shut down once); a half in the record means an empty queue; at the lock a loop's vector is empty and its record exists |
| `StreamMux.ShutdownIsFinal` | cli/src/rpc.rs:558-561 | after the shutdown of a half nothing writes to it or shuts it down again |
| `StreamMux.HistoryAlways` | cli/src/rpc.rs:278-291 | the bookkeeping fields equal what the run itself says: what was sent, how much of it before the end frame, whether an end frame came after the insert; what was queued is a prefix of what was sent |
| `StreamMux.DeliveredAtShutdown` | cli/src/rpc.rs:542-631 | under every interleaving, a stream is shut down once, after all segments sent before its end frame; prefixes of the segments were delivered in order, and whole segments if no write failed |
| `StreamMux.DeliveredExactly` | cli/src/rpc.rs:278-291 | data frames followed by the end frame, no write error: the reader gets exactly the concatenation of the segments |
| `StreamMux.DeliveredSoFar` | cli/src/rpc.rs:587-631 | at any moment the reader has seen a prefix of the concatenation |
| `StreamMux.WorkDecreases` | cli/src/rpc.rs:596-631 | each step of a task makes a measure smaller |
| `StreamMux.QuietMeansShut` | cli/src/rpc.rs:543-631 | when no task of a stream can take a step, other than a write failing, nothing is queued or half-written; an ended stream has no record and is shut down once, any other has its half back in the record |
| `StreamMux.EndedStreamShutsDown` | cli/src/rpc.rs:543-631 | after a run in which the stream was inserted and then ended, its tasks can take a bounded number of steps only, in every interleaving with all other streams, and when no step but the failing of a write is left the record is gone and the half shut down |
| `StreamMux.RestDelivers` | cli/src/rpc.rs:564-631 | a stream at rest, no write error: its reader has every segment sent before the end, and then only later ones; all of them if there was no end |
| `StreamMux.DeliveredInTheEnd` | cli/src/rpc.rs:278-291 | data frames, then the end frame, no write error, and no step but failures left: the reader has exactly the concatenation of the segments and the half was shut down once |
| `StreamMux.CanComeToRest` | cli/src/rpc.rs:542-631 | every run can be carried on, by steps of the stream's tasks that do not fail, until none is left |
| `StreamMux.AnythingCanBeDelivered` | cli/src/rpc.rs:542-631 | for any segments there is a run that sends, delivers and ends just these |
| `StreamMux.ReusedIdMisdelivers` | cli/src/rpc.rs:575-584 | why ids must be fresh: with a reused id the first stream's reader gets the second stream's segment |
| `StreamTable.Streams.Insert` | cli/src/rpc.rs:575-584 | the new table, with a record that holds the half and an empty queue |
| `StreamTable.Streams.Write` | cli/src/rpc.rs:564-573 | the new table and the half a loop is spawned with, for known and unknown ids |
| `StreamTable.Streams.Remove` | cli/src/rpc.rs:543-556 | the new table: record gone if it held the half, else marked as ended |
| `StreamTable.Streams.TakeBatch` | cli/src/rpc.rs:603-621 | the lock region of the write loop on the shared table refines the step on one record |
| `StreamTable.Runtime.Perform` | cli/src/rpc.rs:542-631 | one step over the shared table equals the step of the model, with the other streams untouched |
| `StreamTable.Runtime.Run` | cli/src/rpc.rs:542-631 | a whole schedule over the shared table ends in the state the step relation gives |
| `RpcCalls.IdCounter.Next` | cli/src/rpc.rs:397-400 | ids are handed out consecutively and wrap around at 2^32 |
| `RpcCalls.IdCounter.TakeMany` | cli/src/rpc.rs:248-252 | a duplex call takes consecutive ids of the same counter |
| `RpcCalls.IdsDistinctExactly` | cli/src/rpc.rs:397-400 | the first n ids are distinct if and only if n is at most 2^32 |
| `RpcCalls.ServeKeepsId` | cli/src/rpc.rs:101-145 | requests are answered with their own id, notifications never; success, code 0 and code -1 each exactly in their case |
| `RpcCalls.Dispatcher.Dispatch` | cli/src/rpc.rs:420-450 | requests leave the pending calls alone; a reply uses up the callback under its id, if there is one, and gives it the error or the body; exactly the messages without method and id reach the missing-id unwrap |
| `RpcCalls.InvStep` | cli/src/rpc.rs:342-450 | every step of callers, peer and dispatcher keeps the correlation invariant while at most 2^32 ids were taken |
| `RpcCalls.InvAlways` | cli/src/rpc.rs:342-450 | and so does every run |
| `RpcCalls.AtMostOneReply` | cli/src/rpc.rs:420-450 | a request gets at most one reply, with its own id, in every run, also after ids have repeated |
| `RpcCalls.RepliesCorrelate` | cli/src/rpc.rs:361-378 | a call is only ever resolved by the reply to its own request |
| `RpcCalls.AnswerIsFinal` | cli/src/rpc.rs:361-378 | a call resolves at most once |
| `RpcCalls.AnsweredExactly` | cli/src/rpc.rs:356-378 | a call is answered if and only if its reply was dispatched after its callback was stored |
| `RpcCalls.AnsweredAtRest` | cli/src/rpc.rs:356-378 | with nothing in flight, a registered call is answered unless its reply came too early, and waits otherwise |
| `RpcCalls.OvertakenForGood` | cli/src/rpc.rs:356-378 | a call whose reply came too early is never answered in any continuation of the run, and its entry stays |
| `RpcCalls.OvertakenCallIsLost` | cli/src/rpc.rs:356-378 | the run in which the reply overtakes the callback |
| `RpcCalls.RepeatedIdMisroutes` | cli/src/rpc.rs:397-400 | once ids repeat, a call can be resolved with another call's reply |
| `RpcProgress.QuietMeansResolved` | cli/src/rpc.rs:342-450 | when no call, peer or dispatcher can take a step nothing is in flight, and every call was abandoned at a closed channel, or answered, or its reply came too early |
| `RpcProgress.WorkDecreases` | cli/src/rpc.rs:342-450 | each such step makes a measure smaller |
| `RpcProgress.AnyCallCanBeAnswered` | cli/src/rpc.rs:342-382 | after any run within the id space a call can still be answered, unless the channel was closed before its request was sent or its reply came too early |
| `RpcProgress.AnswerIsThePeers` | cli/src/rpc.rs:101-145 | the answer of a call is the reply the peer made when it finished that call's own request |
| `RpcClient.Client.Register` | cli/src/rpc.rs:361-378 | storing the callback in the dispatcher is the registering step of the model |
| `RpcClient.Client.Arrive` | cli/src/rpc.rs:439-449 | dispatching a reply is the arriving step: the callback found in the map is used up and its call gets this reply, as an error or a success |
| `RpcClient.Client.Run` | cli/src/rpc.rs:342-450 | any run of calls, ids and replies over counter and dispatcher ends in the state of the model |
| `Transport.InvStep` | cli/src/rpc.rs:453-524 | every step of main task, readers and repliers keeps announcements ahead of what relies on them |
| `Transport.WireIsAnnounced` | cli/src/rpc.rs:453-524 | for both transports, `streams_started` is on the wire before every data or end frame of its streams and before the duplex reply |
| `Transport.DispatchedAfterInsert` | cli/src/msgpack_rpc.rs:85-95 | no message for a stream is dispatched before the stream was inserted into the table |
| `Transport.EndFrameIsLast` | cli/src/rpc.rs:484-522 | with fresh stream ids, a stream's `stream_ended` is on the wire at most once and after all its data frames, in every interleaving of all tasks (that it is sent at all: `TransportDelivery.ServedAlways`) |
| `TransportProgress.StuckExactly` | cli/src/msgpack_rpc.rs:66-109 | no step at all is possible exactly when the loop has returned or waits for room in a full channel that only it drains |
| `TransportProgress.JsonWedgesOnlyAnnouncing` | cli/src/json_rpc.rs:78-101 | the JSON loop can only get stuck announcing streams |
| `TransportProgress.BurstFitsOrWedges` | cli/src/msgpack_rpc.rs:71-76 | a burst of synchronous calls is worked off if its replies fit the free slots and otherwise ends wedged, with the channel filled in order |
| `TransportProgress.BurstsEnd` | cli/src/msgpack_rpc.rs:71-76 | a burst takes a bounded number of steps |
| `TransportProgress.WedgesExactly` | cli/src/msgpack_rpc.rs:59-109 | with synchronous methods only, a halted loop is wedged if and only if some burst of the run had more replies than free slots |
| `TransportProgress.RepliesInDispatchOrder` | cli/src/msgpack_rpc.rs:71-101 | replies reach wire and channel in dispatch order, none lost or repeated |
| `TransportProgress.IdleLoopDrains` | cli/src/msgpack_rpc.rs:99-101 | a loop that is not in a burst can write out all its channel holds |
| `TransportProgress.SpawnedRepliesCanWedge` | cli/src/msgpack_rpc.rs:71-84 | with asynchronous methods a burst with one synchronous reply can wedge a loop whose channel was empty |
| `TransportProgress.WedgesOnlySending` | cli/src/rpc.rs:453-475 | a loop that never dispatches a synchronous call with a reply (MessagePack) or a duplex call never gets stuck, whatever the spawned tasks send |
| `TransportProgress.JsonCanWedge` | cli/src/json_rpc.rs:78-101 | a JSON loop that reads a duplex call while replies fill its channel is stuck |
| `TransportProgress.HandleBurst` | cli/src/msgpack_rpc.rs:71-76 | the dispatch loop over the real channel gets through exactly when all replies fit |
| `TransportDelivery.NoAnswerIsLost` | cli/src/msgpack_rpc.rs:71-98 | in every run of either loop, each reply or announcement due for the messages read so far is in exactly one place: still to be dispatched, in the main task's hands, with a spawned task, in the channel or on the wire |
| `TransportDelivery.HandledInOrder` | cli/src/msgpack_rpc.rs:71-98 | messages are dispatched in the order in which they were read, none twice or not at all |
| `TransportDelivery.ServedAlways` | cli/src/rpc.rs:477-523 | in every run, each stream that was registered has its reader, or its end was sent |
| `TransportDelivery.AnnouncedIsServed` | cli/src/rpc.rs:453-524 | each stream that was announced is about to be registered, or has its reader, or its end was sent |
| `TransportDelivery.WireForwards` | cli/src/rpc.rs:483-522 | with fresh ids, the data frames of a stream on the wire hold a beginning of what its reader has read, and all of it once the end is there |
| `TransportDelivery.AnyStreamCanBeForwarded` | cli/src/rpc.rs:483-522 | whatever else is to be sent, an idle loop can put anything that one reader reads, up to 4096 bytes at a time, and then the end on the wire, by steps of that reader alone |
| `TransportDelivery.ServesOrWedges` | cli/src/msgpack_rpc.rs:66-109 | every run of a loop that has not returned can go on, reading nothing more, until the main task is stuck on its own channel or all replies due, all that readers have read and the ends of all streams are on the wire |
| `MsgPackCodec.DecodeEncode` | cli/src/msgpack_rpc.rs:28-34 | decoding the encoding of a value, with the headers it was given, gives it back and consumes just its bytes, whatever follows |
| `MsgPackCodec.EncodeDecode` | cli/src/msgpack_rpc.rs:139-161 | the bytes consumed by a decode are the encoding of the value, whichever headers the sender chose |
| `MsgPackCodec.Monotone` | cli/src/msgpack_rpc.rs:139-161 | further bytes neither change a decoded value nor repair an error |
| `MsgPackCodec.MsgPackStreams` | cli/src/msgpack_rpc.rs:139-161 | so this is a streaming decoder that inverts its encoding, and everything below holds for it |
| `MsgPackData.DecodesExactly` | cli/src/msgpack_rpc.rs:139-161 | bytes are taken off the front as a certain nil, boolean, integer, float, string, binary, extension, array or map if and only if they represent it by the header bytes and size fields of MessagePack, in any of the forms it allows |
| `MsgPackData.MapsHoldPairs` | cli/src/msgpack_rpc.rs:139-161 | a map of n entries is read with 2n values behind its header |
| `MsgPackData.RepresentsOne` | cli/src/msgpack_rpc.rs:139-161 | no bytes begin with representations of two different things |
| `MsgPackData.WaitsExactly` | cli/src/msgpack_rpc.rs:143-150 | the decoder waits for more if and only if the bytes are the beginning of a representation and not yet all of it |
| `MsgPackData.MessagesArrive` | cli/src/msgpack_rpc.rs:66-71 | whoever sends representations of some items, however split into reads: just these items come out, each with bytes that represent it |
| `StreamDecoder.ReadsDoNotMatter` | cli/src/msgpack_rpc.rs:66-71 | for every decoder that makes progress and whose verdicts are final, and for any bytes: frames, failure and leftover depend on the concatenation of the reads only |
| `StreamDecoder.CutOffValueNeedsMore` | cli/src/msgpack_rpc.rs:143-150 | a cut-off value always reads as an unexpected end |
| `StreamDecoder.InvertedIsPrefixFree` | cli/src/msgpack_rpc.rs:139-161 | an encoding with such a decoder is prefix-free |
| `StreamDecoder.PrefixFreeIsInverted` | cli/src/msgpack_rpc.rs:139-161 | every prefix-free encoding has such a decoder |
| `StreamDecoder.FramesSurviveAnySplit` | cli/src/msgpack_rpc.rs:66-71 | however encoded values are split into reads, the loop yields those values with exactly their bytes and keeps the incomplete suffix |
| `StreamDecoder.Decoder.DecodeOne` | cli/src/msgpack_rpc.rs:139-161 | one call advances the buffer past the bytes of one complete value or leaves it alone |
| `StreamDecoder.Decoder.Read` | cli/src/msgpack_rpc.rs:66-71 | one read appends and takes off every complete frame |
| `StreamDecoder.Decoder.ReadAll` | cli/src/msgpack_rpc.rs:66-71 | a sequence of reads yields the frames of the concatenation |
| `JsonLines.LinesHoldOneNewline` | cli/src/json_rpc.rs:69-76 | a line read holds one newline at its end, or none |
| `JsonLines.FramesReadBack` | cli/src/json_rpc.rs:25-29 | serialized texts are read back as the same frames if and only if none of them holds a newline |
| `JsonLines.LinesConserve` | cli/src/json_rpc.rs:69-76 | the lines read make up the whole input, a last one without a newline included |
| `StagingNames.ReapExactly` | cli/src/download_cache.rs:210-220 | a reap for A matches a staging directory of B exactly when B is A or B itself has the form of one of A's |
| `StagingNames.PlainReap` | cli/src/download_cache.rs:170-180 | among plain entry names the reaper matches its own entry's directories only, and never an entry |
| `StagingNames.ReapCanHitAnotherEntry` | cli/src/download_cache.rs:170-176 | two different names for which it does match |
| `CacheProtocol.InvStep` | cli/src/download_cache.rs:95-206 | every step of any process, eviction, cancellation, crash and directories planted by others included, keeps the protocol invariant |
| `CacheProtocol.InvAlways` | cli/src/download_cache.rs:95-206 | and so does every run |
| `CacheProtocol.OneHolderPerEntry` | cli/src/download_cache.rs:121-163 | no two calls stage the same entry at a time, whatever the entry names are |
| `CacheProtocol.OkMeansPresent` | cli/src/download_cache.rs:104-108 | a call that returns the path saw the target in place at some step of its own |
| `CacheProtocol.VisibleEntryIsComplete` | cli/src/download_cache.rs:183-191 | a visible entry was planted by a step of the run, or holds what a call for this very entry staged after its `do_create` succeeded; for names none of which is the name of a staging directory |
| `CacheProtocol.CompleteCameFrom` | cli/src/download_cache.rs:182-184 | the `do_create` that made a complete directory, staged or renamed, succeeded, whatever the entry names are |
| `CacheProtocol.StagingIsOwn` | cli/src/download_cache.rs:170-203 | from staging to rename the call's staging directory holds what this call made, and any other directory that matches the entry is one that this call failed to list or to remove |
| `CacheProtocol.TargetIsPlanted` | cli/src/download_cache.rs:165-203 | from the check under the lock until the rename, the target is there exactly if it was planted since and not evicted |
| `CacheProtocol.LostRaceExactly` | cli/src/download_cache.rs:193-195 | a failing rename takes the branch for a lost race if and only if the target was planted since that check |
| `CacheProtocol.NothingPlanted` | cli/src/download_cache.rs:193-195 | where nothing is ever planted for an entry that condition never holds, so its calls never take the branch |
| `CacheProtocol.LostRaceHappens` | cli/src/download_cache.rs:341-361 | the run in which `do_create` makes the target itself |
| `CacheProtocol.KeptFailed` | cli/src/download_cache.rs:210-220 | whatever a call leaves behind when reaping, its removal failed |
| `CacheProtocol.NothingLeftBehind` | cli/src/download_cache.rs:180-184 | among plain names, once the staging guard has removed its directory, whatever the outcome of the call, all that matches the entry is what this call failed to remove before |
| `CacheProtocol.InstalledOrEvicted` | cli/src/download_cache.rs:188-205 | for an entry that nobody plants: installs equal effective evictions, plus one if it is there now |
| `CacheProtocol.LiveStagingReaped` | cli/src/download_cache.rs:170-180 | for any two names of which one is matched by the reaping prefix of the other: a run in which the staging directory of a running `do_create` is removed by the other call |
| `CacheProtocol.VisibleEntryReaped` | cli/src/download_cache.rs:210-220 | and a run in which an installed entry is |
| `CacheProtocol.StagingIsSafeExactly` | cli/src/download_cache.rs:170-203 | whoever stages has its staging directory in every run, if and only if no entry name is matched by the prefix of another |
| `CacheProtocol.EntriesAreSafeExactly` | cli/src/download_cache.rs:170-203 | visible entries stay until evicted in every run, if and only if the same holds |
| `CacheProtocol.StagingIsAloneExactly` | cli/src/download_cache.rs:170-176 | what matches an entry being staged is the call's own or failed to be removed, if and only if the same holds |
| `CacheProtocol.TargetsAreToldExactly` | cli/src/download_cache.rs:193-195 | the account of the lost rename race is right in every run, if and only if the same holds |
| `CacheProtocol.InstallsAlternateExactly` | cli/src/download_cache.rs:188-205 | installs and evictions alternate where nothing is planted, if and only if the same holds |
| `CacheProtocol.EntriesAreCompleteExactly` | cli/src/download_cache.rs:178-191 | visible entries are complete or planted in every run, if and only if no entry name is the name of a staging directory of an entry |
| `CacheProgress.HolderReturns` | cli/src/download_cache.rs:165-206 | among plain names, after any run, whoever holds a lock can give it back by steps of its own, none failing; from before the rename it then returns Ok with what it staged in place, if the place was free, and no staging directory of the entry is left, if its removals worked so far |
| `CacheProgress.AnyCallCanReturn` | cli/src/download_cache.rs:95-206 | among plain names, after any run, a call that is still running can return Ok with its target in place, by steps of its own and of whoever has its lock, unless it is already on its way out with another result |
| `CacheProgress.DeadAttemptIsReaped` | cli/src/download_cache.rs:170-176 | among plain names, a call that dies while it stages leaves its lock free and its directory behind; the next call for the entry, if nothing fails in it, removes that and installs its own |
| `CacheCreate.WaitsLevelOff` | cli/src/download_cache.rs:118-161 | the waits for the lock are 200, 400, 800 and 1600 ms, then 2 s each |
| `CacheCreate.ForeignIsHarmless` | cli/src/download_cache.rs:170-176 | while a call holds an entry's lock, no step of anybody else makes the entry appear, adds a directory that matches it, or changes its staging directory |
| `CacheCreate.Cache.AwaitLock` | cli/src/download_cache.rs:118-163 | the lock loop goes on while the lock is taken and the target is not there: it ends with an error if and only if its last attempt fails, is given up only when the caller's patience ends, and else has the lock or sees the target; every attempt before worked and was followed by a wait of the stated length |
| `CacheCreate.Cache.RemoveOrphans` | cli/src/download_cache.rs:210-220 | whatever others do meanwhile, the directories that match afterwards are those it failed to list or remove; undisturbed, none is left |
| `CacheCreate.Cache.RenameRetrying` | cli/src/download_cache.rs:188-203 | Ok with the target in place, an error only after 21 attempts, cancelled only by a drop; among plain names every attempt but the last one failed by itself, and for an error that one, too; undisturbed, the first one puts the staged directory in place |
| `CacheCreate.Cache.DropGuards` | cli/src/download_cache.rs:180-184 | whatever the outcome, the lock is given back, and if the staging directory could be removed all that matches the entry is what this call failed to remove before |
| `CacheCreate.Cache.Create` | cli/src/download_cache.rs:95-206 | with arbitrary steps of others before each of its own, and each step working or not independently, the call is a run of the protocol, gives back every lock whatever the entry names are, and on success saw the target; among plain names an error means that `do_create` or a step of its own failed, a cancellation that the caller dropped it, and then, if its removals worked, no staging directory of the entry is left; undisturbed and without failures it succeeds and the target is there, made by this call if it was absent |
| `PersistedState.Container.LoadOrGet` | cli/src/state.rs:46-59 | the cached value, else the file's, else the default, and cached from then on |
| `PersistedState.Container.Save` | cli/src/state.rs:61-86 | memory changes even if writing fails; the file holds the value exactly after a successful write |
| `Lru.WithoutName` | cli/src/download_cache.rs:224-226 | position and remove take out the first occurrence, if any |
| `Lru.DownloadCache.TouchEntry` | cli/src/download_cache.rs:222-242 | the new list, the one directory that may be evicted, that it is not the touched one, and file and memory agreeing after a successful save |
| `Lru.DownloadCache.Delete` | cli/src/download_cache.rs:80-89 | directory and name go together; if the directory cannot be removed nothing changes |
| `Lru.ApplyFacts` | cli/src/download_cache.rs:222-242 | a touch or delete keeps the list free of duplicates and bounds its length; a touched name is first, a deleted one gone, and a delete that fails changes nothing |
| `Lru.MembersAfter` | cli/src/download_cache.rs:80-89 | who is on the list afterwards: a touch adds its name and takes away the last of more than five if that can go, a delete takes away its own name, and all others stay |
| `Lru.ListStaysShort` | cli/src/download_cache.rs:229-238 | from any duplicate-free list, over any operations there are no duplicates and at most five names, or as many as at the start, plus one per failed eviction |
| `Lru.ListIsByLastUse` | cli/src/download_cache.rs:222-242 | from any duplicate-free list, over any operations the list is in order of last touch |
| `Lru.TouchOfLatest` | cli/src/download_cache.rs:229-238 | evicting early loses nothing that a complete history would keep |
| `Lru.ListIsLatest` | cli/src/download_cache.rs:222-242 | without deletions, from any duplicate-free list and whatever could not be removed, the list is a beginning of the complete history of distinct names, which misses none of the first five |
| `Lru.FiveLatestExactly` | cli/src/download_cache.rs:229-238 | it is the five most recently used names if and only if it has at most five |
| `Lru.SixStaySix` | cli/src/download_cache.rs:229-238 | from six names, as a failed eviction leaves in the file, touching another one leaves six |
| `Lru.ListIsFiveLatest` | cli/src/download_cache.rs:222-242 | so from at most five names, without deletions and failed removals, the list is the five most recently used distinct names |
| `Keyring.StoreThenRead` | cli/src/auth.rs:327-371 | what a read finds after a store, for every text and whatever the entries held before |
| `Keyring.RoundTripExactly` | cli/src/auth.rs:327-371 | a text survives store and read over all prior contents if and only if its length is no multiple of the step and its last part does not end like the marker |
| `Keyring.MultipleRunsOn` | cli/src/auth.rs:353-363 | an exact multiple reads as missing if the next entry is missing, and else runs on into stale parts |
| `Keyring.ReadableExactly` | cli/src/auth.rs:330-344 | a chain can be read exactly when no entry up to the last one read is missing |
| `Keyring.StoredEntriesFit` | cli/src/auth.rs:351-363 | every part stored is within the entry limit, other entries are as before |
| `Keyring.KeyringStorage.NextEntry` | cli/src/auth.rs:312-324 | the handle at index k always has key k |
| `Keyring.KeyringStorage.Read` | cli/src/auth.rs:327-346 | the loop reads what the chain holds, or fails exactly if it gets to an entry that cannot be read; it then has a handle for each part it looked at |
| `Keyring.KeyringStorage.Store` | cli/src/auth.rs:349-371 | the loop writes the parts in order, up to the first entry that fails, and has a handle for each |
| `Keyring.KeyringStorage.Clear` | cli/src/auth.rs:373-383 | the entries with handles are deleted up to the first that is missing or cannot be deleted; it succeeds exactly if there is none such, and then nothing can be read; a failing read only means fewer handles |
| `AuthStorage.InvStep` | cli/src/auth.rs:439-521 | every operation, failure and time-out keeps: a fallback exactly while the keyring is active |
| `AuthStorage.InvAlways` | cli/src/auth.rs:439-521 | and so does every run, restarts included |
| `AuthStorage.OpensExactly` | cli/src/auth.rs:455-485 | the keyring is taken into use if and only if no environment variable and no file speaks for the file and a read of the keyring does not time out or fail before an entry that is missing or has no marker; else the file is, without fallback; and what then is the current credential |
| `AuthStorage.CurrentIsWhatWasTold` | cli/src/auth.rs:506-521 | whatever fails below, the current credential is the last one stored, or none after a successful clear, or else what was read at first |
| `AuthStorage.FallbackIsForGood` | cli/src/auth.rs:624-633 | once on the file, a session stays there without a further fallback |
| `AuthStorage.StoreOutcome` | cli/src/auth.rs:615-637 | a store goes to the keyring if that is in charge, was not lost, and works for as many entries as the text takes; otherwise, then and from then on, to the file, and it fails exactly if the file cannot be written; what either holds afterwards |
| `AuthStorage.StoreSurvivesRestart` | cli/src/auth.rs:615-637 | an accepted store is what a new process reads, also after reads and harmlessly failing clears, if the backend is the file or the sealed text is one that a keyring gives back |
| `AuthStorage.ExactMultipleIsLost` | cli/src/auth.rs:353-363 | without that condition it is lost although it was accepted |
| `AuthStorage.ClearOutcome` | cli/src/auth.rs:515-521 | a clear succeeds exactly if the file can be written, or if the keyring was not lost and every entry with a handle exists and can be deleted; the current credential changes exactly then, and the backend holds none |
| `AuthStorage.ClearSurvivesRestart` | cli/src/auth.rs:515-521 | after a successful clear a new process finds no credential |
| `AuthStorage.FailedClearForgetsExactly` | cli/src/auth.rs:373-383 | what every failing clear leaves for a new process: nothing changed if the first entry is missing or cannot be deleted, the storage was lost before, or the file cannot be opened; otherwise the credential is gone |
| `AuthStorage.FailedClearCanForget` | cli/src/auth.rs:373-383 | a run in which a failing clear loses the credential that the session goes on reporting |
| `AuthStorage.ThreadKeyringStorage.Read` | cli/src/auth.rs:240-294 | over the keyring object: a read that times out or fails gives an error, any other what the chain holds |
| `AuthStorage.ThreadKeyringStorage.Store` | cli/src/auth.rs:240-294 | over the keyring object: once lost always an error; else what is written, and that it succeeds exactly if the keyring takes the text |
| `AuthStorage.ThreadKeyringStorage.Clear` | cli/src/auth.rs:240-294 | over the keyring object: once lost always an error; else what is deleted, and when it succeeds |
| `AuthStorage.Auth.WithStorage` | cli/src/auth.rs:439-488 | over the keyring and file objects: the keyring if preferred and readable, else the file, chosen once |
| `AuthStorage.Auth.StoreCredentials` | cli/src/auth.rs:615-637 | over those objects: a failing store takes the fallback once and tries again; the credential is current in any case |
| `AuthStorage.Auth.ClearCredentials` | cli/src/auth.rs:515-521 | nothing is forgotten in memory unless the backend cleared |
| `AuthStorage.Auth.GetCurrentCredential` | cli/src/auth.rs:506-512 | gives the last value read or stored |
| `AuthTiming.PollOneCode` | cli/src/auth.rs:816-835 | polling goes on until the grant or until the code has expired, whatever else is answered; the polls made are those that code, answers and delays determine |
| `AuthTiming.PolledAt` | cli/src/auth.rs:816-835 | each poll waits 5 s and 5 more per slow-down answer before it, begins exactly when the poll before is over and before the expiry, has its own answer, and only the last one is the grant |
| `AuthTiming.PollsAreDetermined` | cli/src/auth.rs:816-835 | how often, when and with what waits a code is polled is determined by its lifetime, the answers and the delays |
| `AuthTiming.DeviceCodeFlow` | cli/src/auth.rs:781-836 | a code that expires is followed by a new one; only a grant or a refused request ends the flow |
| `AuthTiming.CodesInTurn` | cli/src/auth.rs:781-836 | each code is requested when the one before is used up, and its first poll begins when it has been issued |
| `AuthTiming.WaitedAtLeast` | cli/src/auth.rs:816-835 | the waits add up to at least 5 per poll, and to 5 + 10 + ... if all answers are slow-downs |
| `AuthTiming.PollsFitLifetime` | cli/src/auth.rs:817-830 | P polls within a lifetime e satisfy 5(P-1) < e, and 5P(P-1)/2 < e if all answers are slow-downs |
| `AuthTiming.SplitRecomposes` | cli/src/auth.rs:856-860 | the split into seconds and nanoseconds is exact under truncating division, for negative durations too |
| `AuthTiming.SleepFitsExpiry` | cli/src/auth.rs:850-872 | the sleep is the larger of 10 s and two thirds of what is left, and wakes up by the expiry if and only if 10 s are left |
| `AuthTiming.KeepTokenAlive` | cli/src/auth.rs:842-899 | the sleep of every round from the expiry of the token then in use, 10 s after an error, and which rounds end the loop and how |
| `AuthTiming.SleepsAt` | cli/src/auth.rs:850-872 | each sleep in seconds: 10 after an error, 3600 for a token without expiry, else two thirds of what is left at that time but at least 10; it ends by the expiry exactly if 10 s are left |
| `AuthTiming.UnchangedKeepsExpiry` | cli/src/auth.rs:883-896 | a token that is not replaced keeps its expiry over any number of rounds |
| `PolicyServer.ItemAcceptedExactly` | scripts/mock-policy-server/server.ts:347-405 | an update is accepted if and only if it is well-formed, and is taken as it says |
| `PolicyServer.AcceptedExactly` | scripts/mock-policy-server/server.ts:343-407 | a batch is accepted exactly when each item would be by itself and no endpoint appears twice |
| `PolicyServer.RequestAcceptedExactly` | scripts/mock-policy-server/server.ts:324-407 | which request bodies are accepted: one well-formed update, or nothing but a non-empty array of them for different endpoints |
| `PolicyServer.RejectedForCause` | scripts/mock-policy-server/server.ts:324-388 | the fault reported for a rejected body is one that it has, and in a batch that of the first faulty item |
| `PolicyServer.SingleUpdateEffect` | scripts/mock-policy-server/server.ts:414-435 | the effect of an update field by field: explicit over preset over before, other endpoints unchanged |
| `PolicyServer.ApplyAllAt` | scripts/mock-policy-server/server.ts:409-435 | what a list of updates makes of each single endpoint |
| `PolicyServer.OnlyNamedChange` | scripts/mock-policy-server/server.ts:409-435 | an accepted batch changes no endpoint that it does not name |
| `PolicyServer.OrderDoesNotMatter` | scripts/mock-policy-server/server.ts:343-435 | whether a batch is accepted and what it results in is the same for every order of its items |
| `PolicyServer.BatchIsOneByOne` | scripts/mock-policy-server/server.ts:324-442 | an accepted batch equals sending its items one at a time |
| `PolicyServer.DefaultsAreProper` | scripts/mock-policy-server/server.ts:450-462 | the default state has all endpoints with statuses in range |
| `PolicyServer.DefaultsExactly` | scripts/mock-policy-server/server.ts:450-462 | each endpoint's default: status and body of its first preset, 200 and an empty object without one, mode json, active exactly if mocked by default |
| `PolicyServer.OutcomeIsProper` | scripts/mock-policy-server/server.ts:324-442 | no request can make a state that is not proper |
| `PolicyServer.RestoreExactly` | scripts/mock-policy-server/server.ts:489-501 | applying what was persisted for a proper state gives back exactly that state |
| `PolicyServer.Server.constructor` | scripts/mock-policy-server/server.ts:471-487 | start-up from any file makes a proper state that a further start-up would make again |
| `PolicyServer.Server.DefaultState` | scripts/mock-policy-server/server.ts:450-462 | the loop over the endpoints builds the default state |
| `PolicyServer.Server.ParseUpdates` | scripts/mock-policy-server/server.ts:325-407 | the validation loop gives the updates of the specification, or its first fault |
| `PolicyServer.Server.UpdatedCopy` | scripts/mock-policy-server/server.ts:409-435 | the loop over a copy makes the specified state and leaves the current one alone |
| `PolicyServer.Server.Persist` | scripts/mock-policy-server/server.ts:489-511 | at every moment of writing, renaming and cleaning up the state file is as before or holds the whole new payload; a throw before the rename leaves it as before |
| `PolicyServer.Server.ApplyEndpointUpdates` | scripts/mock-policy-server/server.ts:324-442 | rejected or throwing: memory is unchanged; accepted: memory is the outcome; the file holds it if it was asked for and the rename worked |
| `PolicyServer.Server.Post` | scripts/mock-policy-server/server.ts:437-442 | all or nothing in memory; what a restart would make, at every moment and at the end, also when only the clean-up throws |
| `PolicyServer.Server.Reset` | scripts/mock-policy-server/server.ts:444-448 | the same for going back to the defaults |
| `PolicyServer.Server.Serve` | scripts/mock-policy-server/server.ts:437-511 | over any requests, whatever throws: what memory and the file hold in the end, and a process killed at any moment restarts with what the file held after some prefix of them |
| `PolicyServer.FileAgreesExactly` | scripts/mock-policy-server/server.ts:437-511 | file and memory agree after any requests unless the last one that renamed the file had its clean-up throw; then the file holds what it asked for and memory is as before it |
| `LineBuffer.CutConserves` | src/bootstrap-fork.ts:127-132 | cutting loses and adds nothing but the newline, the rest holds no newline and is at most 1 MiB long |
| `LineBuffer.Wrapper.Write` | src/bootstrap-fork.ts:126-135 | the input so far is the messages with their newlines followed by the buffer; when a message goes out, and that an overflow empties the buffer |
| `LineBuffer.Wrapper.WriteAll` | src/bootstrap-fork.ts:126-135 | over any sequence of chunks the same; all messages are whole lines if and only if no write overflowed, and then they are the lines of the input |
| `LineBuffer.MessagesAreTheLines` | src/bootstrap-fork.ts:127-132 | whole-line messages are the input up to its last newline, however it was cut into chunks |

## Left out

- HTTP, sockets, pipes, process spawning, prompts, logging and flushing have no decided property here.
- Fairness of the async runtime: every order of steps is allowed, so progress is stated as bounds on steps and as what holds at rest.
- StreamMux.WorkDecreases: counts steps of the tasks, and assumes nothing about when a reader empties its pipe.
- TransportProgress.IdleLoopDrains: gives a run that drains the channel, not that the scheduler takes it.
- A transport loop returns from between two bursts only; a read, write or decoding error in the middle of a burst is not a step of its own.
- The text of the JSON `select!` branches and cancelled line reads: each line read is one step.
- Request and response parameters.
- Transport.InvStep: a reader's read and the sending of what it has read are one step, and a stream's end and a read error are not told apart, as in the code.
- RpcProgress.AnyCallCanBeAnswered: gives a run that answers the call, not that the peer takes it.
- CacheProgress.AnyCallCanReturn: gives a run, not that the scheduler takes it.
- MsgPackData.DecodesExactly: is about any well-formed value, and strings are bytes that need not be UTF-8; decoding into a particular Rust type, and the depth limit of the library, are further decoders of the kind that `StreamDecoder` is about, which is an assumption on them.
- JsonLines.FramesReadBack: works on characters, not on UTF-8 bytes.
- CacheProtocol.InvStep: for names with a pair such that one looks like the other's staging directory the invariant does not hold; what holds of them is stated without it. `.locks` and `lru.json` as entry names are not considered. Others may plant or evict entries, but leave staging directories that are not theirs alone.
- The heartbeat messages of the lock loop and the delay between renames; touching the list of entries inside `create` is a possible eviction by anybody, at any time.
- CacheCreate.Cache.Create: the death of the calling process is a step of `CacheProtocol` and not an end of this method.
- `DownloadCache::exists`, which only combines a test for the directory with a touch.
- Agreement of `lru.json` between processes: each process caches it in memory.
- A directory removal that fails half-way is modelled as one that leaves the directory as it was.
- Keyring.RoundTripExactly: a text is a sequence of one-byte characters; cutting a sealed text inside a multi-byte character is not modelled.
- AuthStorage.StoreSurvivesRestart: assumes that unsealing a sealed credential gives it back, and that the restarted process can read its keyring.
- A timed-out keyring call leaves arbitrary entries behind, at any later time: what it really would do is not modelled.
- Reading from the file storage never fails: an unreadable file reads as no credential, as in the code.
- AuthTiming.PollOneCode: the requests themselves are answers and delays given from outside; so are those for a new code in `AuthTiming.DeviceCodeFlow`.
- AuthTiming.DeviceCodeFlow: the program's flow ends with a grant or an error only; the method stops when the requests given to it are used up and says so.
- AuthTiming.SleepFitsExpiry: durations are unbounded integers, those of the program are 64-bit.
- PolicyServer.Server.Post: the state file is changed by this server only, and JSON objects are maps, so the order of keys and the text of error messages are not modelled.
- The policy server's table of endpoints is taken to be non-empty, with different ids and preset statuses in range, as in `scripts/mock-policy-server/endpoints.ts`.
- LineBuffer.Wrapper.Write: chunks are strings that were already decoded.
- `cli/src/singleton.rs`, `cli/build.rs`, `src/main.ts`, `src/server-main.ts`, `src/bootstrap-esm.ts`, `src/bootstrap-node.ts` and `src/vs/nls.ts`: start-up, process and file-system plumbing with no shared state of their own.
