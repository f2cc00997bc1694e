# NvNmos verification

A Dafny model of the stateful core of NvNmos: the daemon's annotation store with its
checkpoint writer and codec, the annotation overlay of the C++ library, the Node's
sender, receiver, interface and channel-mapping tables, the swap of a GStreamer data
path behind a permanent anchor, the daemon session protocol, the rewriting of transport
files, and the arithmetic of the A/V sync test signal. `dafny verify dfyconfig.toml`
checks the whole project.

What is proved, hardest first:

* **Checkpoint protocol** (`CheckpointWriter`, `CheckpointProgress`, `CheckpointRecovery`).
  The writer thread, the callers and the file system are one step machine. An update is two steps (the map
  changes under the lock, the message follows later), a snapshot and each stage of the
  file replacement are separate steps, and every stage may fail. In every interleaving:
  the file is always a complete encoding of a map the store held and only moves forward;
  no update is lost; a flush and a shutdown are durable when their write succeeds, and a
  write whose calls succeed does succeed; from every reachable state the writer can come
  to rest without further calls on the store, with every flush answered, and an update
  after which the file calls succeed is then in the file; stopping anywhere and starting
  again is accepted and resumes from a map that was held.
* **Store and library agree** (`AnnotationPatch`, `AnnotationStore`, `Agreement`). Over
  every run of accepted and refused updates with clear text, removals and re-adds, the
  stored overlay is exactly what the resource shows over its defaults. An update or an add
  is carried out exactly under conditions a caller can check, with a stated result.
* **Node tables** (`NodeInterfaces`, `NodeModel`, `ChannelMapping`). Interface counts are
  the multiplicities of the names bound by live senders and receivers; removing undoes
  adding, and the version tells what changed; every id a channel mapping lists is live and
  owned once.
* **Chain swap** (`ChainSwap`). With any call allowed to fail, no request that could
  deadlock is made while the probe is held, the probe never outlives the swap, the swap
  succeeds exactly when every call does and then made exactly the requests of `SwapEvents`
  in their order, and a failed sink ends at its fallback whenever one call failed.
* **Sessions** (`DaemonSession`, `SessionSlot`). Every session that was opened gets exactly one
  CloseSession attempt, with nothing of it running, whatever fails in between; a call is
  started exactly when it may be, and its result follows its reply.
* **Transport files** (`FlowDef`, `SdpAttributes`, `SdpPassthrough`, `SdpLaws`, `SdpFormats`, `Iface`).
  Splicing is an action of overrides on JSON values, readers see what was written, and an
  SDP rewrite keeps the file's own attributes and the agreement of filter and connection,
  and its rtpmap and fmtp lines follow the payload type.
* **Sync signal** (`Captions`, `PipDetection`). Captions follow the pips without drift;
  detected pips are the midpoints of the maximal runs above threshold.

Properties that fail as one would first state them, with the exact condition under which
they hold:

* Creating a resource from its stored annotation is refused exactly when a stored tag has
  an empty key or some stored text a NUL inside. An HTTP patch can store an empty key; a
  patch through the public structure cannot (`Agreement.CreateAccepted`,
  `Agreement.EmptyKeyLocksOut`, `Agreement.PublicPatchHasNoEmptyKey`).
* Text crosses the callback as C strings. An update keeps store and library in agreement
  exactly when its patch writes no text with a NUL inside (`Agreement.UpdateAgrees`,
  `Agreement.NulBreaksAgreement`).
* A refused duplicate add still replaces the recorded defaults of the live resource.
  Agreement survives it exactly when each member is overridden or has the same default
  (`Agreement.DuplicateAdd`, `Agreement.DuplicateAddExample`).
* The file need not catch up with the map. Without another call on the store it can exactly
  when a write that may still succeed is due or the map is there already; shut out is a last
  write that failed with nothing to follow it (`CheckpointProgress.CatchesUpIff`,
  `CheckpointRecovery.StoreCatchesUpIff`).
* A refused channel-mapping add leaves nothing behind exactly when it is refused before its
  first insert: for its name, an empty configuration, or its first endpoint. Otherwise it
  leaves ids that no mapping lists, which can never be removed or added again
  (`ChannelMapping.RefusalLeavesNothingIff`, `ChannelMapping.OrphanExample`,
  `ChannelMapping.OrphanStays`, `ChannelMapping.OrphanRefused`).
* Adding a channel mapping and removing it again gives the device's controls back exactly
  when the control was advertised before or there was no resource
  (`ChannelMapping.RemoveUndoesAddIff`).
* A destination override that is not a single word without a `/` suffix leaves the source
  filter disagreeing with the connection (`SdpLaws.AgreementKept`, `SdpLaws.SuffixBreaksAgreement`).
* The comment on `caption_for` promises a caption for every frame that contains a pip. A
  frame that starts at time zero never gets one; that matters only for a first frame
  longer than the pip interval (`Captions.CaptionedIff`, `Captions.LongFirstFrame`).
* An overriding resource name or domain id is read back only if it is not empty
  (`FlowDef.ReadersSeeOverrides`).

## Model

| member | source | states |
|---|---|---|
| `Annotations.TagMapIgnoresOperations` | rust/nvnmosd/src/annotation_store.rs:63-99 | turning a stored annotation into its create form changes operations only, not what its tags say |
| `AnnotationStore.UpdateEntryMeaning` | rust/nvnmosd/src/annotation_store.rs:228-280 | an updated entry is in subscription form and shows the old overlay with the flagged members replaced or cleared |
| `AnnotationStore.NothingStoredMeaning` | rust/nvnmosd/src/annotation_store.rs:281-285 | an entry counts as empty exactly when it overrides nothing |
| `AnnotationStore.AppliedMeaning` | rust/nvnmosd/src/annotation_store.rs:214-304 | an update is refused exactly for a new non-blank key in a full store; otherwise that key shows the merge, is present iff not blank, no other key changes, and neither blank entries nor an overrun of the limit appear |
| `AnnotationStore.Store.Get` | rust/nvnmosd/src/annotation_store.rs:202-209 | the stored annotation of exactly that key, which shows the overlay stored for it |
| `AnnotationStore.Store.Apply` | rust/nvnmosd/src/annotation_store.rs:214-304 | the locked update in place, of the key that a get with the same seed, type and name reads: accepted iff the store may hold the result, which that key then shows; one Dirty per accepted update, nothing changes on refusal |
| `Checkpoint.ResourceTypeNames` | rust/nvnmosd/src/annotation_store.rs:418-439 | type names are read back, and each name stands for one type only |
| `Checkpoint.CollectTagsMeaning` | rust/nvnmosd/src/annotation_store.rs:552-560 | the collected tag tree is sorted and holds the last value of each key |
| `Checkpoint.WriteRecords` | rust/nvnmosd/src/annotation_store.rs:540-574 | in whatever order the map is visited, the records come out sorted, one for each entry |
| `Checkpoint.EncodingUnique` | rust/nvnmosd/src/annotation_store.rs:544-569 | the record sequence does not depend on iteration order |
| `Checkpoint.StoredAnnotationMeaning` | rust/nvnmosd/src/annotation_store.rs:505-538 | a record read gives a well-formed annotation of the same meaning, and is written back as the same record |
| `Checkpoint.ReadCheckpoint` | rust/nvnmosd/src/annotation_store.rs:460-503 | an absent file reads as empty, another version is rejected, else the records decide, stopping at the first bad one |
| `Checkpoint.ReadRecordsMeaning` | rust/nvnmosd/src/annotation_store.rs:480-502 | records are accepted iff every type is known, no tag is read-only and no key repeats |
| `Checkpoint.ReadableIffWritable` | rust/nvnmosd/src/annotation_store.rs:488-493 | what was written can be read iff no stored tag is read-only |
| `Checkpoint.RoundTrip` | rust/nvnmosd/src/annotation_store.rs:460-574 | reading what was written gives every key with the same label, description and tags, and writing that gives the same records |
| `CheckpointWriter.InvStep` | rust/nvnmosd/src/annotation_store.rs:298-416 | every step of every thread keeps the protocol invariant and only moves the file forward |
| `CheckpointWriter.RunForward` | rust/nvnmosd/src/annotation_store.rs:357-416 | over any stretch of a run the history only grows and the file only gets newer |
| `CheckpointWriter.HistoryKeeps` | rust/nvnmosd/src/annotation_store.rs:298-303 | what every update keeps is true of every map the store ever held |
| `CheckpointWriter.CrashConsistent` | rust/nvnmosd/src/annotation_store.rs:576-607 | at any two points of a run the file is a complete encoding of a map held, the later one not older |
| `CheckpointWriter.NoLostUpdate` | rust/nvnmosd/src/annotation_store.rs:298-303 | while the last snapshot differs from the live map a Dirty is owed or queued or the writer will write again; at rest after a successful write the file holds the live map |
| `CheckpointWriter.FlushDurable` | rust/nvnmosd/src/annotation_store.rs:307-312 | a flush answered by a successful write leaves a map at least as new as at the call, also inside a debounce |
| `CheckpointWriter.FlushAnswered` | rust/nvnmosd/src/annotation_store.rs:357-401 | once the queue is empty and the writer waits or debounces, every flush ever called has been answered |
| `CheckpointWriter.ShutdownDurable` | rust/nvnmosd/src/annotation_store.rs:324-333 | the writer exits only after the drop, and if its last write succeeded the file holds the final map |
| `CheckpointProgress.WriteSucceeds` | rust/nvnmosd/src/annotation_store.rs:577-607 | from the start of a replacement the four calls, all succeeding, lead to a write that counts as a success with exactly the snapshot in the file, and a flush waiting for it is answered so |
| `CheckpointProgress.WriteFails` | rust/nvnmosd/src/annotation_store.rs:577-607 | any one call may fail; the write then ends as a failure and the file is as it was |
| `CheckpointProgress.CallersNeverWait` | rust/nvnmosd/src/annotation_store.rs:298-318 | an update and a flush can be called whatever the writer is doing, and take effect |
| `CheckpointProgress.DropIsTaken` | rust/nvnmosd/src/annotation_store.rs:324-333 | at rest the store can be dropped |
| `CheckpointProgress.ComesToRest` | rust/nvnmosd/src/annotation_store.rs:357-416 | from every state of the invariant the steps under way and successful file calls lead to rest; a write that is due ends with the newest map in the file, and flushes not answered yet are answered by a success |
| `CheckpointProgress.CatchesUpIff` | rust/nvnmosd/src/annotation_store.rs:357-416 | at any point of any run the newest map can reach the file without another call on the store iff a write that may still succeed is due or the file has it |
| `CheckpointProgress.NeverCatchesUp` | rust/nvnmosd/src/annotation_store.rs:403-416 | with no write due the file stays as it is |
| `CheckpointProgress.UpdateReachesFile` | rust/nvnmosd/src/annotation_store.rs:298-303 | an update leads to rest with its map in the file |
| `CheckpointProgress.FlushIsServed` | rust/nvnmosd/src/annotation_store.rs:307-312 | a flush leads to its answer by a successful write of a map at least as new as at the call |
| `CheckpointProgress.DropIsServed` | rust/nvnmosd/src/annotation_store.rs:324-333 | a drop leads to the writer gone and the final map in the file |
| `CheckpointProgress.SnapshotHasCause` | rust/nvnmosd/src/annotation_store.rs:357-401 | a snapshot is taken only for a debounce that timed out, a flush or a shutdown |
| `CheckpointRecovery.AcceptableStep` | rust/nvnmosd/src/annotation_store.rs:214-304 | an update with writable tags keeps the map one the daemon would accept at startup, and keeps it free of blank entries |
| `CheckpointRecovery.NeverBlank` | rust/nvnmosd/src/annotation_store.rs:281-285 | from a map without blank entries none ever appears, in any run |
| `CheckpointRecovery.CrashThenReopen` | rust/nvnmosd/src/annotation_store.rs:154-188 | stop any run anywhere: the file is accepted, means a map the store held, and is a valid start of the next run |
| `CheckpointRecovery.StoreCatchesUpIff` | rust/nvnmosd/src/annotation_store.rs:357-416 | the same exact condition for the real store and codec, whose maps can all be written |
| `CheckpointRecovery.ReadIsAcceptable` | rust/nvnmosd/src/annotation_store.rs:460-503 | every file that is read, hand-written ones included, gives a well-formed store with one entry a record |
| `CheckpointRecovery.WithFile` | rust/nvnmosd/src/annotation_store.rs:154-188 | the daemon serves iff the file is absent or readable within the limit, the replacement write succeeds and the thread starts; the file then encodes what is served |
| `AnnotationPatch.MakeTagPatch` | src/nvnmos.cpp:277-295 | tags are accepted iff every flagged one has a usable, writable, unrepeated key and values; the patch is then theirs |
| `AnnotationPatch.MakeAnnotationPatch` | src/nvnmos.cpp:238-298 | a patch is made iff every operation is valid and every set member has a value; unflagged members are not read |
| `AnnotationPatch.MakeAnnotation` | src/nvnmos.cpp:302-324 | at create a missing annotation patches nothing and any reset is refused |
| `AnnotationPatch.MergeKeepsReadOnlyTags` | src/nvnmos_impl.cpp:2174-2194 | an accepted merge leaves the read-only tags as they were |
| `AnnotationPatch.CollectTags` | src/nvnmos.cpp:536-553 | the writable merged tags, each key once, with the operations of the patch, in whatever order they are visited |
| `AnnotationPatch.HandOver` | src/nvnmos.cpp:554-567 | every tag in its place with its key and values as C strings |
| `AnnotationPatch.ReportAnnotation` | src/nvnmos.cpp:501-571 | the callback reports the operations of the patch with the merged label, description and writable tags, each cut at its first NUL by being handed over as a C string |
| `AnnotationPatch.ReportedTags` | src/nvnmos.cpp:536-571 | a report names no read-only tag and its tags are clear, whatever the text |
| `AnnotationPatch.ReportedClearTags` | src/nvnmos.cpp:536-571 | for clear text the reported tags are exactly the writable merged tags |
| `Agreement.CreateFromStored` | rust/nvnmosd/src/annotation_store.rs:63-99 | creating from a stored entry is refused iff a tag key is empty; otherwise the patch writes the stored overlay |
| `Agreement.StoredMarshals` | rust/nvnmos/src/lib.rs:1043-1103 | a stored entry can be handed to the library iff no text in it has a NUL inside |
| `Agreement.CreateAccepted` | rust/nvnmosd/src/state.rs:169-200 | a resource is created from its entry iff the text is clear and no tag key is empty, and then writes that entry |
| `Agreement.MergedShows` | src/nvnmos_impl.cpp:1615-1634 | storing the report of a merge makes the overlay describe the merged resource iff the patch writes no text with a NUL inside |
| `Agreement.UpdateCarriedOut` | src/nvnmos_impl.cpp:1598-1637 | an update is carried out iff the resource is live, the patch is not empty and writes no read-only tag, and the store has room; then the resource is the merge and the entry the merged overlay, nothing else changes, and otherwise nothing at all |
| `Agreement.UpdateAgrees` | src/nvnmos_impl.cpp:1598-1637 | an update that is carried out (`UpdateCarriedOut` says when) keeps agreement iff its patch is clear |
| `Agreement.CreatedShows` | src/nvnmos_impl.cpp:2181-2194 | a resource created from its entry shows it over its own defaults |
| `Agreement.AddCarriedOut` | src/nvnmos_impl.cpp:2181-2194 | an add of a name that is not live succeeds iff its entry can be handed over, and then shows the entry over the new defaults; no entry and no other resource changes |
| `Agreement.StepKeepsAgreement` | rust/nvnmosd/src/state.rs:990-1006 | every update with clear text, removal and add of a name that is not live keeps store and library in agreement, with defaults recorded for exactly the live resources |
| `Agreement.AlwaysAgree` | rust/nvnmosd/src/state.rs:990-1006 | agreement holds in every state of every such run |
| `Agreement.RefusalChangesNothing` | rust/nvnmosd/src/annotation_store.rs:286-297 | an update refused for a full store changes neither side |
| `Agreement.DuplicateAdd` | src/nvnmos_impl.cpp:435-441 | after a refused duplicate add the two sides agree iff each member is overridden or its default is the same |
| `Agreement.DuplicateAddExample` | src/nvnmos_impl.cpp:2185-2189 | a duplicate add that breaks agreement |
| `Agreement.ReAddRestores` | src/nvnmos_impl.cpp:892-966 | removing a resource and adding it again restores everything, iff no stored tag key is empty |
| `Agreement.EmptyKeyLocksOut` | src/nvnmos.cpp:202-214 | on a node with one resource, writing any tag with an empty key is carried out and stored, and after removal the resource cannot be added again |
| `Agreement.EmptyKeyExample` | src/nvnmos.cpp:202-214 | one such patch |
| `Agreement.NulBreaksAgreement` | src/nvnmos.cpp:504-507 | any label with a NUL inside is shown whole and stored cut |
| `Agreement.NulExample` | src/nvnmos.cpp:504-507 | one such label |
| `Agreement.PublicPatchHasNoEmptyKey` | src/nvnmos.cpp:202-214 | no patch built from the public structure writes an empty tag key |
| `Agreement.PublicPatchMembers` | src/nvnmos.cpp:238-276 | merged into a resource, a patch from the public structure does to each member what its operation says: a reset shows the default |
| `Agreement.PublicPatchTags` | src/nvnmos.cpp:277-296 | the same for each tag; keys without an operation keep their values |
| `Agreement.ResetsAreSeen` | src/nvnmos.cpp:302-324 | the create check finds a reset exactly when a member, all tags or one tag has that operation |
| `Agreement.StepKeepsNoEmptyTagKey` | src/nvnmos.cpp:202-214 | without patches that write one or have a NUL inside, the store never holds an empty tag key |
| `NodeInterfaces.CountsUnique` | src/nvnmos_impl.cpp:2303-2327 | the counts are determined by the bindings they stand for |
| `NodeInterfaces.Release` | src/nvnmos_impl.cpp:2308-2320 | counts follow the bindings given up, repeated names included, and the names reported gone are those bound no longer |
| `NodeInterfaces.Acquire` | src/nvnmos_impl.cpp:2322-2327 | counts follow the bindings taken, and the names reported new are those not bound before |
| `NodeInterfaces.EraseNamed` | src/nvnmos_impl.cpp:2335-2342 | erasing the first match removes the name from a list with distinct names |
| `NodeInterfaces.Relist` | src/nvnmos_impl.cpp:2331-2353 | the list loses the gone names in place and gains the new ones with their details at its end, one interface a name |
| `NodeInterfaces.UpdateInterfaces` | src/nvnmos_impl.cpp:2294-2354 | counts and list stand for exactly the bindings that remain; a change is reported iff some name comes or goes |
| `NodeModel.AllBindingsErase` | src/nvnmos_impl.cpp:907-911 | erasing a resource takes exactly its own bindings out of the total |
| `NodeModel.Node.UpdateListing` | src/nvnmos_impl.cpp:2294-2354 | the listing stands for the bindings that remain and the version rises by one iff an interface comes or goes |
| `NodeModel.Node.UpdateClock` | src/nvnmos_impl.cpp:2263-2292 | the clock takes the given value, and the version rises by one iff that is another one |
| `NodeModel.Node.AddSender` | src/nvnmos_impl.cpp:425-470 | succeeds iff the name is not live; tables, counts, list, transport, clock, version and defaults then gain the sender with its flow and source; a refusal changes only the defaults; the invariant is kept either way |
| `NodeModel.Node.AddReceiver` | src/nvnmos_impl.cpp:615-642 | the same for a receiver |
| `NodeModel.Node.RemoveConnection` | src/nvnmos_impl.cpp:892-966 | succeeds iff the name is live; erases exactly the resource with its flow and source, its connection, transport and defaults, and releases its bindings |
| `NodeModel.VersionTellsSenderAdd` | src/nvnmos_impl.cpp:2329-2353 | adding a sender raises the node's version iff its interface list or its clock changed |
| `NodeModel.VersionTellsReceiverAdd` | src/nvnmos_impl.cpp:2329-2353 | adding a receiver raises it iff the list changed |
| `NodeModel.VersionTellsRemove` | src/nvnmos_impl.cpp:2329-2353 | so does a removal |
| `NodeModel.RemoveUndoesAddSender` | src/nvnmos_impl.cpp:892-966 | add then remove restores every table, the counts and the list in order; the clock is left as added and the version has risen twice for a changed list and once for a changed clock |
| `NodeModel.RemoveUndoesAddReceiver` | src/nvnmos_impl.cpp:892-966 | the same for a receiver; only the version may differ, by two iff the list changed |
| `ChannelMapping.OtherControlsHaveNone` | src/nvnmos_impl.cpp:2567-2590 | what is left after removing the IS-08 controls holds none |
| `ChannelMapping.OtherControlsFilter` | src/nvnmos_impl.cpp:2567-2590 | removing the controls acts on each part of the list alone |
| `ChannelMapping.OtherControlsAll` | src/nvnmos_impl.cpp:2567-2590 | a list without the control is left as it is |
| `ChannelMapping.InsertSide` | src/nvnmos_impl.cpp:2612-2643 | the table gains exactly the resources of the endpoints before the first refused one; all go in iff none is refused |
| `ChannelMapping.AcceptedUpTo` | src/nvnmos_impl.cpp:2612-2643 | the accepted endpoints end where the first unacceptable one stands |
| `ChannelMapping.IsListed` | src/nvnmos_impl.cpp:2500-2507 | an id is found iff some mapping lists it on that side |
| `ChannelMapping.NameForOutput` | src/nvnmos_impl.cpp:2509-2519 | the owner found is the only one; an empty name means none |
| `ChannelMapping.EraseIds` | src/nvnmos_impl.cpp:2657-2682 | exactly the resources of the listed ids are erased |
| `ChannelMapping.Node.Add` | src/nvnmos_impl.cpp:2594-2654 | succeeds iff the name is new and both sides are acceptable; the control is then advertised once; a throw leaves exactly the endpoints inserted so far and records no mapping, and changes nothing iff already the first endpoint, the name or the configuration is refused; the invariant is kept either way |
| `ChannelMapping.Node.Remove` | src/nvnmos_impl.cpp:2657-2682 | erases exactly the mapping and the resources it lists, and the control when no resource is left |
| `ChannelMapping.Node.Activate` | src/nvnmos_impl.cpp:2687-2714 | the missing-resource branch is never taken; a listed output is published iff the length fits; a refusal changes nothing; a publish replaces one output's active map |
| `ChannelMapping.AddKeepsInv` | src/nvnmos_impl.cpp:2594-2654 | after an add every listed id is live and listed once on its side, and the control is advertised |
| `ChannelMapping.RemoveKeepsInv` | src/nvnmos_impl.cpp:2657-2682 | the same after a removal |
| `ChannelMapping.AddedChannels` | src/nvnmos_impl.cpp:2612-2643 | after an add every endpoint is live with one channel for each of its labels |
| `ChannelMapping.RemoveUndoesAddIff` | src/nvnmos_impl.cpp:2594-2682 | removing what was added restores mappings and resources, and the controls iff the control was advertised before or there was no resource |
| `ChannelMapping.RefusalLeavesNothingIff` | src/nvnmos_impl.cpp:2599-2643 | a refused add leaves the table as it was iff it is refused before its first insert |
| `ChannelMapping.GainedIsOrphan` | src/nvnmos_impl.cpp:2612-2648 | whatever a refused add leaves behind is listed by no mapping |
| `ChannelMapping.OrphanExample` | src/nvnmos_impl.cpp:2612-2648 | on an empty node a mapping that repeats an input id leaves that id behind |
| `ChannelMapping.OrphanStays` | src/nvnmos_impl.cpp:2612-2648 | an id left behind by a throw survives every further add and removal |
| `ChannelMapping.OrphanRefused` | src/nvnmos_impl.cpp:2612-2648 | a mapping that names a live id on the same side is refused |
| `ChainSwap.HeldUntilRemoved` | rust/gst-nmos-rs/src/inner.rs:206-223 | an installed probe is held until its removal |
| `ChainSwap.NoDeadlock` | rust/gst-nmos-rs/src/inner.rs:194-210 | while the probe is held no source chain is asked to run, advanced, or stopped from a running state |
| `ChainSwap.SwapOrder` | rust/gst-nmos-rs/src/inner.rs:194-231 | in the exact request sequence of a successful swap the new chain is brought in between installation and removal of the probe: a sink advanced, a source made ready there, advanced after it and its predecessor stopped before it |
| `ChainSwap.Bin.constructor` | rust/gst-nmos-rs/src/inner.rs:2040-2084 | the initial bin: anchor linked to the idle chain, no probe |
| `ChainSwap.Bin.StopChain` | rust/gst-nmos-rs/src/inner.rs:702-716 | success means Null; only that chain's state moves |
| `ChainSwap.Bin.ReadyChain` | rust/gst-nmos-rs/src/inner.rs:682-696 | success means Ready; allowed under the probe |
| `ChainSwap.Bin.AdvanceToParent` | rust/gst-nmos-rs/src/inner.rs:498-509 | called for a sink only under the probe and for a source only without it |
| `ChainSwap.Bin.BlockAndWait` | rust/gst-nmos-rs/src/inner.rs:559-605 | the probe stays in place iff both the installation and the wait succeeded; a failure is recorded |
| `ChainSwap.Bin.InstallNewChain` | rust/gst-nmos-rs/src/inner.rs:376-419 | succeeds iff the chain has its pad and no call for it fails: the anchor is then linked to it, and exactly one request was made, a sink advanced or a source brought to Ready and left for after the probe; failure adds at most that chain, and a link failure stops and removes it |
| `ChainSwap.Bin.BringIn` | rust/gst-nmos-rs/src/inner.rs:408-418 | a source is at Ready iff its call succeeded, a sink is asked to start; the failure is recorded |
| `ChainSwap.Bin.TakeOutFailedSink` | rust/gst-nmos-rs/src/inner.rs:434-454 | the failed chain is asked to stop and is out and unlinked, or its removal failed |
| `ChainSwap.Bin.PutInFallback` | rust/gst-nmos-rs/src/inner.rs:455-490 | the anchor ends linked to the fallback unless one of the calls for it failed |
| `ChainSwap.Bin.LinkFallbackSink` | rust/gst-nmos-rs/src/inner.rs:425-491 | when the calls it depends on succeed, the anchor is linked to the fallback and the failed chain is gone |
| `ChainSwap.Bin.TakeOutOld` | rust/gst-nmos-rs/src/inner.rs:311-343 | the old chain is out and at Null unless one of the three calls for it fails; then the bin still holds it |
| `ChainSwap.Bin.InstallOrFallBack` | rust/gst-nmos-rs/src/inner.rs:345-371 | the new chain, or for a sink whose fallback calls succeed the fallback, linked and asked to start before the probe is lifted |
| `ChainSwap.Bin.SwapChainInner` | rust/gst-nmos-rs/src/inner.rs:283-371 | succeeds iff no call fails and the pad is there, with exactly the requests that belong under the probe; a source is then at Ready; unless a call for the old chain fails that chain is retired, and a sink failure then ends at the fallback unless a call for it fails |
| `ChainSwap.Bin.SwapBlocked` | rust/gst-nmos-rs/src/inner.rs:212-223 | the probe is gone on return; without a block nothing was changed; success has the exact requests, and a source at Ready |
| `ChainSwap.Bin.StopSource` | rust/gst-nmos-rs/src/inner.rs:190-204 | a source is stopped before the probe goes in, a sink is not touched; fails iff that call does |
| `ChainSwap.Bin.AdvanceSource` | rust/gst-nmos-rs/src/inner.rs:228-231 | a source is advanced after the probe is lifted, a sink is not asked again; fails iff that call does |
| `ChainSwap.Bin.RebuildChain` | rust/gst-nmos-rs/src/inner.rs:152-232 | from any state, a dangling anchor included: every request keeps the order and the probe is gone on every return; the swap succeeds iff the pad is there and every call does what it is asked, and then exactly the requests of `SwapEvents` were made, the new chain is linked and the old one is at Null and out; a sink ends at the fallback whenever one call failed after the old chain was out; every other failure says what stays; the ghost target is never written |
| `DaemonSession.Settle` | rust/gst-nmos-rs/src/daemon.rs:281-289 | a settled task is not running, and nothing else was started |
| `DaemonSession.RunCall` | rust/gst-nmos-rs/src/daemon.rs:322-338 | the call is started first, its result is that of the reply, and unless it timed out it is over |
| `DaemonSession.CloseDetached` | rust/gst-nmos-rs/src/daemon.rs:662-685 | every task the session holds is over before the one CloseSession |
| `DaemonSession.Session.DriveCall` | rust/gst-nmos-rs/src/daemon.rs:322-338 | the call is started, with the result of its reply, iff none of the kind is in flight; a timed-out call stays in flight |
| `DaemonSession.Session.AddResource` | rust/gst-nmos-rs/src/daemon.rs:530-580 | refused when added, closed or in flight, without a start; otherwise the add is started with the result of its reply, and the resource is recorded iff it succeeded |
| `DaemonSession.Session.SyncResourceState` | rust/gst-nmos-rs/src/daemon.rs:582-614 | the same for a sync, which needs a resource |
| `DaemonSession.Session.CloseOrDrop` | rust/gst-nmos-rs/src/daemon.rs:616-652 | closes once; a second close or drop does nothing |
| `DaemonSession.Abandon` | rust/gst-nmos-rs/src/daemon.rs:441-450 | an opening that fails part-way ends its activation task and closes the session |
| `DaemonSession.OpenAndSubscribe` | rust/gst-nmos-rs/src/daemon.rs:396-434 | OpenSession and then the subscription; an activation task iff both succeed, and otherwise no session or a closed one |
| `DaemonSession.AddOnOpen` | rust/gst-nmos-rs/src/daemon.rs:436-440 | the first add is started, and leaves only the activation task running |
| `DaemonSession.Open` | rust/gst-nmos-rs/src/daemon.rs:382-469 | a session is handed out iff every call of the opening succeeds, live and with its resource; the subscription follows OpenSession and the add, if asked for, is started after both; otherwise nothing was opened or it was closed |
| `DaemonSession.NothingAfterClose` | rust/gst-nmos-rs/src/daemon.rs:297-315 | after CloseSession nothing is started, opened or closed again |
| `DaemonSession.NoOverlap` | rust/gst-nmos-rs/src/daemon.rs:322-338 | between two starts of a kind the first one ended |
| `DaemonSession.AllEndedBeforeClose` | rust/gst-nmos-rs/src/daemon.rs:663-684 | whatever was started ended before CloseSession |
| `SessionSlot.Slot.FinishOpening` | rust/gst-nmos-rs/src/daemon.rs:258-270 | a pending opening is joined or kept, never aborted |
| `SessionSlot.Slot.TakeForClose` | rust/gst-nmos-rs/src/daemon.rs:235-255 | a session is taken iff there is one by the end of the wait, and nobody else holds it; an opening that outlasts the wait stays pending |
| `SessionSlot.Slot.CloseTaken` | rust/gst-nmos-rs/src/daemon.rs:616-621 | a session taken out of the slot is closed by the session protocol, and its attempt keeps that trace |
| `SessionSlot.Slot.Close` | rust/gst-nmos-rs/src/session/mod.rs:1247-1268 | every attempt is over with the full trace of its session: no session, or one OpenSession and one CloseSession with nothing running, continuing the trace the open session had |
| `SessionSlot.Slot.AddDeferredSender` | rust/gst-nmos-rs/src/session/mod.rs:1138-1179 | a deferred add is started on the open session if none was, with the result of its reply; the session stays in the slot whatever comes of it |
| `SessionSlot.Slot.SyncActive` | rust/gst-nmos-rs/src/session/mod.rs:1201-1241 | the same for a sync |
| `SessionSlot.Slot.ValidateAndOpen` | rust/gst-nmos-rs/src/session/mod.rs:813-965 | a new OpenSession is sent iff the slot is neither open nor held by an opening that outlasts the wait, and only when every earlier attempt is over; succeeds iff the new session is there within the wait |
| `SessionSlot.Slot.StartOpening` | rust/gst-nmos-rs/src/session/mod.rs:880-965 | open, pending or empty as the opening succeeds within the wait, outlasts it or fails |
| `SessionSlot.Slot.Destroy` | rust/gst-nmos-rs/src/daemon.rs:638-652 | dropping the slot closes an open session by the session protocol and leaves a running opening to close its own |
| `SessionSlot.Slot.DetachedFinishes` | rust/gst-nmos-rs/src/daemon.rs:638-652 | a detached opening ends with no session or with one that was closed |
| `SessionSlot.OpenAndDrop` | rust/gst-nmos-rs/src/daemon.rs:638-652 | an opening whose result is dropped ends with no session or one closed once |
| `FlowDef.SpliceOverrides` | rust/gst-nmos-rs/src/flow_def.rs:414-486 | the in-place edits, in order, are one edit of the object and one of its tags, with both type errors |
| `FlowDef.SpliceTags` | rust/gst-nmos-rs/src/flow_def.rs:456-482 | the four tag edits together |
| `FlowDef.SpliceTwice` | rust/gst-nmos-rs/src/flow_def.rs:414-486 | splicing a then b is splicing their right-biased combination, errors included |
| `FlowDef.SpliceKeepsFields` | rust/gst-nmos-rs/src/flow_def.rs:420-439 | fields that are not overridden keep their presence and value |
| `FlowDef.SpliceKeepsTags` | rust/gst-nmos-rs/src/flow_def.rs:449-483 | the same for tags |
| `FlowDef.MxlDomainIdFromTagValue` | rust/gst-nmos-rs/src/flow_def.rs:242-278 | the loop over entries gives a domain id for no entry, a leading empty marker or a single id, and else an error |
| `FlowDef.ReadersSeeOverrides` | rust/gst-nmos-rs/src/flow_def.rs:208-308 | every reader returns the overriding value; an empty name or domain id reads as none |
| `FlowDef.FormatUrnsRead` | rust/gst-nmos-rs/src/types.rs:132-139 | each format is read from its own URN and no other |
| `FlowDef.ReadsWhatIsSaid` | rust/gst-nmos-rs/src/flow_def.rs:208-221 | the reader gives an id and a format iff the flow definition says them |
| `FlowDef.ResolveIdMeaning` | rust/gst-nmos-rs/src/flow_def.rs:345-357 | property and file id clash iff both are given and differ; otherwise the property is resolved, or the file id without one, with its origin |
| `FlowDef.ResolveFormatMeaning` | rust/gst-nmos-rs/src/flow_def.rs:359-376 | the same for the format |
| `FlowDef.ResolveMeaning` | rust/gst-nmos-rs/src/flow_def.rs:318-344 | resolving against a flow definition reports the id clash first, then the format clash, and otherwise prefers the properties |
| `FlowDef.SplicedIdNeverMismatches` | rust/gst-nmos-rs/src/flow_def.rs:318-357 | resolving with the flow id that was spliced never reports a mismatch and gives that id |
| `Iface.NormalizeMacMeaning` | src/nvnmos_impl.cpp:1972-1982 | exactly MAC addresses are accepted, the result is normal, and normalising is idempotent |
| `Iface.NormalizeMacKeepsDigits` | src/nvnmos_impl.cpp:1972-1982 | every digit keeps its hexadecimal value |
| `Iface.MakeIface` | src/nvnmos_impl.cpp:2010-2021 | the printed form is the interface's words with single spaces |
| `Iface.RoundTrip` | src/nvnmos_impl.cpp:1984-2021 | parsing the printed form gives the interface back iff its words have no space, the port id is a normal MAC and the attached ids are both there or both empty |
| `Iface.ParsedIsPrintable` | src/nvnmos_impl.cpp:1984-2008 | what is parsed has space-free words and a normal port id |
| `SdpAttributes.KeptMeaning` | rust/gst-nmos-rs/src/sdp_passthrough.rs:359-368 | the filter keeps exactly the attributes of the kept keys |
| `SdpAttributes.UpsertedMeaning` | rust/gst-nmos-rs/src/sdp_passthrough.rs:330-340 | an upsert gives the first attribute of the key the value, keeps its other attributes and leaves all other keys as they are |
| `SdpAttributes.UpsertedKept` | rust/gst-nmos-rs/src/sdp_passthrough.rs:330-353 | an upsert commutes with keeping some keys |
| `SdpAttributes.FirstReplacedKept` | rust/gst-nmos-rs/src/sdp_passthrough.rs:288-303 | so does replacing the first attribute of a key an edit applies to |
| `SdpAttributes.MappedKept` | rust/gst-nmos-rs/src/sdp_passthrough.rs:205-224 | so does an edit of every attribute that keeps keys |
| `SdpPassthrough.Section.RemoveByKey` | rust/gst-nmos-rs/src/sdp_passthrough.rs:359-368 | removal by index is the order-keeping filter |
| `SdpPassthrough.Section.FindIndex` | rust/gst-nmos-rs/src/sdp_passthrough.rs:355-357 | the first position of the key, or none |
| `SdpPassthrough.Section.Upsert` | rust/gst-nmos-rs/src/sdp_passthrough.rs:330-353 | replaces the first attribute of the key where it stands, or appends |
| `SdpPassthrough.Section.ApplyCapsMode` | rust/gst-nmos-rs/src/sdp_passthrough.rs:180-193 | the three modes |
| `SdpPassthrough.Section.UpdateSourceFilterDestination` | rust/gst-nmos-rs/src/sdp_passthrough.rs:288-303 | the first filter that has a destination gets the new one |
| `SdpPassthrough.Section.RepointAttributes` | rust/gst-nmos-rs/src/sdp_passthrough.rs:204-224 | collecting rewrites by index and writing them is one edit of every attribute |
| `SdpPassthrough.RepointedMeaning` | rust/gst-nmos-rs/src/sdp_passthrough.rs:204-224 | every attribute keeps index and key; an rtpmap or fmtp of the old payload type names the new one before the rest of its text, a marker equal to it becomes the new one, and no other value changes |
| `SdpPassthrough.Section.RewritePayloadType` | rust/gst-nmos-rs/src/sdp_passthrough.rs:195-226 | fails iff there is no format; an unchanged type changes nothing |
| `SdpPassthrough.Section.RewriteAudioClockRate` | rust/gst-nmos-rs/src/sdp_passthrough.rs:228-244 | the first rtpmap that can take the rate gets it |
| `SdpPassthrough.Section.ApplyPrimaryLeg` | rust/gst-nmos-rs/src/sdp_passthrough.rs:116-178 | which refusal is returned, and the media that results, partly edited after a refusal |
| `SdpPassthrough.ApplyMediaOverrides` | rust/gst-nmos-rs/src/sdp_passthrough.rs:73-91 | the caps mode reaches every media block, the transport overrides the first only, and what a refusal leaves of it |
| `SdpLaws.OwnAttributesSurvive` | rust/gst-nmos-rs/src/sdp_passthrough.rs:73-91 | attributes of keys the overrides do not know survive any combination, in order |
| `SdpPassthrough.DecimalTextMeaning` | rust/gst-nmos-rs/src/sdp_passthrough.rs:197-197 | a port or payload type is written as its decimal digits |
| `SdpLaws.AddressesAreWritten` | rust/gst-nmos-rs/src/sdp_passthrough.rs:116-178 | after all overrides the port, interface address, interface and source port are found where they belong, and no inactive attribute is left when any is set |
| `SdpLaws.PayloadIsWritten` | rust/gst-nmos-rs/src/sdp_passthrough.rs:195-203 | the overriding payload type is the first format, and the only format that changes |
| `SdpFormats.FormatsFollowPayload` | rust/gst-nmos-rs/src/sdp_passthrough.rs:195-226 | with a payload type override every rtpmap and fmtp of the old type names the new one in its place, with the rest of its text, and those of other types stay |
| `SdpFormats.ClockRateIsWritten` | rust/gst-nmos-rs/src/sdp_passthrough.rs:228-244 | a clock rate override of audio reaches the first rtpmap that can take it, after any change of payload type, and no other |
| `SdpFormats.AppliedIff` | rust/gst-nmos-rs/src/sdp_passthrough.rs:116-159 | overrides apply iff a moved destination has a connection and a payload type lies between 96 and 127 and has a format to replace |
| `SdpFormats.InactiveIsLifted` | rust/gst-nmos-rs/src/sdp_passthrough.rs:173-175 | inactive is removed iff an address or port is overridden |
| `SdpLaws.PacketTimesAreWritten` | rust/gst-nmos-rs/src/sdp_passthrough.rs:161-171 | overriding packet times of audio are found under their keys |
| `SdpLaws.SteeringIsWritten` | rust/gst-nmos-rs/src/sdp_passthrough.rs:129-152 | the connection takes the destination and the filter the source, and without either nothing of both changes |
| `SdpFormats.ConnectionIsWritten` | rust/gst-nmos-rs/src/sdp_passthrough.rs:266-286 | a new destination goes to the first connection only; a multicast address keeps the time-to-live or gets 32, another has none |
| `SdpLaws.MarkerFollows` | rust/gst-nmos-rs/src/sdp_passthrough.rs:195-226 | a marker that names the payload type follows it, any other stays |
| `SdpLaws.MarkerAfterOverrides` | rust/gst-nmos-rs/src/sdp_passthrough.rs:180-193 | the caps mode decides whether there is a marker, and one it adds ends equal to the final payload type |
| `SdpLaws.FilterWords` | rust/gst-nmos-rs/src/sdp_passthrough.rs:305-316 | the words of a filter written for a destination and sources |
| `SdpLaws.FirstIsStripped` | rust/gst-nmos-rs/src/sdp_passthrough.rs:262-264 | of those words the first is the stripped destination iff the destination is a single word without a suffix |
| `SdpLaws.AgreementKept` | rust/gst-nmos-rs/src/sdp_passthrough.rs:116-178 | with at most one filter that agreed before, filter and connection agree after any combination iff what is written into the filter is a proper address, or leaves it without a destination |
| `SdpLaws.SuffixBreaksAgreement` | rust/gst-nmos-rs/src/sdp_passthrough.rs:129-135 | every destination word with a suffix breaks the agreement |
| `SdpLaws.SuffixBreaksAgreementExample` | rust/gst-nmos-rs/src/sdp_passthrough.rs:129-135 | one such destination |
| `Captions.CaptionedIff` | rust/gst-avsynctest-rs/src/captions.rs:51-67 | a frame is captioned iff it contains a pip and does not start at zero; for frames of at most one interval iff it contains a pip |
| `Captions.LongFirstFrame` | rust/gst-avsynctest-rs/src/captions.rs:51-67 | a first frame that contains a pip and has no caption |
| `Captions.FrameAdvances` | rust/gst-avsynctest-rs/src/captions.rs:54-67 | a frame moves the next pip by one iff captioned, with that pip's caption |
| `Captions.TicksAndTocks` | rust/gst-avsynctest-rs/src/captions.rs:51-67 | the first pip is a Tick, and so is every other one after it |
| `Captions.CaptionsFollowPips` | rust/gst-avsynctest-rs/src/captions.rs:6-10 | whatever the frame boundaries, the captions of a stream are those of the pips it covers, in order |
| `Captions.CaptionsAlternate` | rust/gst-avsynctest-rs/src/captions.rs:6-10 | neighbouring captions differ |
| `Captions.PipCaptionedOnce` | rust/gst-avsynctest-rs/src/captions.rs:51-67 | a covered pip lies in exactly one frame, which carries its caption |
| `PipDetection.FillEnergies` | rust/gst-avsynctest-rs/src/analyze.rs:80-85 | every access is in bounds and each bin holds the energy of its samples |
| `PipDetection.FindPeak` | rust/gst-avsynctest-rs/src/analyze.rs:86-86 | the largest bin, or zero |
| `PipDetection.CoveringRunsAreAll` | rust/gst-avsynctest-rs/src/analyze.rs:89-102 | maximal runs that cover every bin above the threshold are all maximal runs |
| `PipDetection.Scan` | rust/gst-avsynctest-rs/src/analyze.rs:88-102 | one time for each maximal run, its exact midpoint |
| `PipDetection.HeardIff` | rust/gst-avsynctest-rs/src/analyze.rs:86-92 | there is a run above a tenth of the peak iff some sample is not silent |
| `PipDetection.DetectPips` | rust/gst-avsynctest-rs/src/analyze.rs:72-103 | strictly increasing midpoints of all maximal runs, empty iff all samples are silent |

## Left out

- JSON and SDP text, file bytes and checkpoint paths: the model works on parsed values and record sequences; a parse failure is an outcome.
- Power loss after the rename and before the directory is synced: the model stops the process, not the disk.
- The writer thread's channel closing without a Shutdown, and the liveness of the debounce, which a steady stream of updates can postpone.
- gRPC, tokio scheduling and clocks: a task is running, finished or aborted, and a timeout may or may not happen.
- nmos-cpp, GStreamer and gst-sdp: the few operations used are outcomes that may fail; the annotation merge of nmos-cpp is written as its patch semantics.
- Media format branches of the add functions, URLs, receiver caps, MXL adds (which bind no interface) and out-of-band activation.
- Annotations of the node and device resources beside the sender and receiver tables, and the three annotated resources of one sender as separate adds.
- The session fields that only steer reporting (`activation_incomplete`, resource ids), and `channel_mapping_session.rs`, which mirrors the session protocol.
- Flushing and clock or create waits released before a swap (`flush_external_of_ghost`, `release_fake_*`), and GStreamer element construction.
- `from_caps` and `caps_from`, session-level SDP overrides, bit rates, and the dual-leg policy.
- The texts that `canonicalise_media_attribute_at`, `rewrite_rtpmap_clock_rate`, `is_multicast_address` and the interface lookup compute are parameters of the SDP model.
- Signal phase values (`signal.rs`), ancillary parity words (`ancillary.rs`), CEA-708 packets (`CaptionWriter`), port and environment settings (`http_port.rs`, `env_config.rs`), service discovery (`network_services.rs`) and the tables of `domain.rs`, `types.rs` and `essence_caps.rs`: single expressions, finite tables or thin use of other libraries, without shared state.
- PipDetection.DetectPips: energies are reals, so rounding of the sums is not modelled; sample times must lie between the first and the last, as the original's indexing requires.
- CheckpointWriter.FlushDurable: needs the write to succeed, because the original answers a flush also after a failed write.
