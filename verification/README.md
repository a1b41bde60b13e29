# Kekkai Runtime: proved models

Kekkai Runtime runs commands and long-lived tools for sandboxed clients. This
project models the parts of it whose correctness rests on interleaving, framing,
in-place editing or bounded arithmetic, and proves what they promise. It is checked
with `dafny verify dfyconfig.toml` (Dafny 4.11).

## What is modelled

**Execution tasks** (`TaskModel`, `TaskStore`, `TaskProtocol`, `TaskInvariant`,
`TaskTheorems`, `TaskLiveness`, `TaskOutcomes`). `TaskStore` is the store as an object, one method per locked region,
with `run_task` and the event stream run against it alone. `TaskProtocol` interleaves
everything: any number of submitters (which may be abandoned halfway), one runner and
two output readers per task, cancellers, the cleanup timer, subscribers on a bounded
broadcast ring, and the shutdown waiter with its capture-recheck-park steps. What a
process does, what is read and when time passes are parameters of the actions, so every
theorem holds for all of them. Both halves share one definition of what publishing does
to a record (`Absorb`) and to a channel (`Send`). The broadcast channel and the notifier
behave as tokio documents them: a receiver more than 128 values behind gets an error, and
a `Notified` future sees every `notify_waiters` after its creation.

**Tool proxy** (`Wire`, `OpenRequest`, `ProxyIo`, `ProxyInput`, `ProxySession`,
`ProxyTheorems`). The
frame codec with the strict OPEN parser; the procedures of the Rust server and the Go
client over streams that arrive in arbitrary fragments and sinks that take less than
offered or fail; and the session, in which two forwarders share a connection with the
supervisor that must end it with one EXIT.

**nftables installer** (`Nft`, `NftRace`). One run as an object over the kernel state,
and any number of installers interleaved at every netlink request with third parties who
change unrelated tables.

**OCI layers** (`Oci`). In-place application of entries and whiteouts against the overlay
of the "Whiteouts" and "Applying Changesets" sections of the OCI Image Specification
layer document.

**Event streams** (`Sse`, `SseChunks`, `SseMeaning`, `SseCuts`, `SseDialects`,
`SseParsers`, `SsePrint`, `SseTheorems`, `EventText`, `EventReader`, `ClientView`). The Node parser as an object fed with chunks, the .NET parser as a loop over
lines, an independent description of a text as blocks of lines, the printed form of task
events with JSON escaping, the clients' decoders over a reader of JSON objects, and the
round trip from a task's publications to the events a client hands on.

**Network settings** (`Bits`, `Cidr`, `NetworkSettings`). Masks as bit operations on
32-bit words, the checks on the sandbox network, and the byte-wise mask-and-compare of the
packet filter rules.

**Ownership shifting** (`IdShift`, `IdTree`, `Sysroot`). Id arithmetic with its saturating
and checked additions, its fold over a tree in which hard links share an inode, and the
recursive procedures in place, any file operation of which may fail.

## Where the code and its documentation part, or a plain promise fails

- A stdin failure is reported with an ERROR frame, and the Go client prints it on its
  stderr, so the client's stderr is not always what the tool wrote.
  `ProxyTheorems.ClientAgrees` gives the exact condition and
  `ProxyTheorems.DiagnosticReachesStderr` a reachable session where it fails. That ERROR
  is followed by the tool's own exit code, not by 127.
- A whiteout that follows, in its own layer, an entry it hides removes that entry, while
  the specification has whiteouts apply to lower layers only. `Oci.InPlaceIsOverlay` is the
  exact condition for a layer, `Oci.ImageIsOverlay` for an image, and
  `Oci.LateWhiteoutLosesEntry` an example.
- The Node parser reads a CRLF cut by a chunk border as two line ends, so its events can
  depend on the chunking (`SseTheorems.CutCrlfLosesName`). `SseChunks.ChunkedSplitIsWhole`
  is the exact condition for the lines, `SseCuts.ChunkingIsHarmless` for the events.
- The .NET parser drops all leading spaces of a value (`SseTheorems.NetReadsPrinted`) and
  carries an event name over a block without data (`SseTheorems.NameWithoutData`).
  `SseDialects.ParsersAgree` says exactly which texts both parsers read alike. Server
  events always are: their names and data start with no space, and each has both fields.
- A chain that already holds rules is taken to hold older, untagged ones, so a missing tag
  is not always added (`Nft.ManagedAfterInstall`).
- `first_range` admits the range that ends with the very last id; there the saturating
  upper bound leaves that id out, so a shifted tree may not validate and cannot be shifted
  again (`IdShift.FirstRangeBounds`, `IdTree.LastIdBreaks`).

## Model

| member | source | states |
|---|---|---|
| `TaskTheorems.StoredHistory` | src/runtime/tasks/store.rs:156-184 | In every interleaving a stored history is Started, then output, then at most one terminal event, last; snapshot and both status fields say exactly what the history says, with the status texts running, finished, timed_out and failed, and code and error from the terminal event |
| `TaskTheorems.NothingReadIsLost` | src/runtime/execution/runner.rs:20-74 | After the terminal publication a surviving record holds every chunk either reader read, in order: readers are awaited first on every path |
| `TaskOutcomes.RunIsReported` | src/runtime/execution/runner.rs:20-74 | Whatever else goes on, a record that survives the terminal publication ends in the event of the step that decided the run: the exit code, no code after a kill, a time-out, or the error of a failed start or wait, and the snapshot says the same |
| `TaskOutcomes.CancelIsReported` | src/runtime/execution/runner.rs:43-61 | A run whose runner took the cancel signal and did not time out while killing is reported as finished without a code |
| `TaskOutcomes.OutputIsReported` | src/runtime/execution/stream.rs:6-51 | From submission on, a surviving snapshot and its history hold exactly what was read from each pipe, in order, once the run is over |
| `TaskOutcomes.FirstCancelIsAccepted` | src/runtime/tasks/store.rs:143-150 | Between registration and the end of the wait a cancel call is answered with true exactly if it is the first, and the runner can take a signal exactly if one was accepted |
| `TaskOutcomes.SweepRemovesExpired` | src/runtime/tasks/store.rs:202-208 | A sweep removes every record due at its clock reading, closes its channel, and leaves every other task as it was |
| `TaskTheorems.NothingAfterTerminal` | src/runtime/execution/runner.rs:20-74 | Once a terminal event is published, no later run of the service adds anything to that task's publications |
| `TaskTheorems.StreamIsFaithful` | src/api/exec.rs:47-72 | Whenever a subscriber joined, what it was sent is a prefix of all publications, without gap, duplicate or reordering at the join of replay and live events; a stream over by terminal event has sent all of them |
| `TaskTheorems.LagNeedsOverrun` | src/api/exec.rs:62-68 | A stream is cut for lag only by a receive at which its receiver was more than 128 events behind |
| `TaskTheorems.StreamReachesTerminal` | src/api/exec.rs:52-68 | A stream within 128 events of the end of a finished task can always finish by its own moves alone, and then has sent every publication, the terminal one last |
| `TaskLiveness.StreamEndsWithTerminal` | src/api/exec.rs:52-68 | In every run in which a stream stays within 128 events and its client stays, once the terminal event is published and the stream is over it ended with that event, having sent every publication |
| `TaskLiveness.StreamNeverStuck` | src/api/exec.rs:62-68 | Until then it always has a move of its own |
| `TaskLiveness.StreamMovesAreBounded` | src/api/exec.rs:52-68 | In every run a stream makes at most two moves more than there are publications left to send |
| `TaskLiveness.RunCanFinish` | src/runtime/execution/runner.rs:11-75 | From every state a run under its lease can come to its end by its own steps alone, readers drained |
| `TaskTheorems.CountIsLeases` | src/runtime/tasks/store.rs:48-54 | The active count always equals the number of live leases |
| `TaskTheorems.NoLostWakeup` | src/runtime/tasks/store.rs:210-221 | A parked waiter whose captured generation is current implies a live lease or a releaser between its decrement and its notification |
| `TaskTheorems.ShutdownAfterRunners` | src/runtime/execution/mod.rs:68-73 | When the sandbox is stopped, every task's runner is past its last step |
| `TaskTheorems.DrainCompletes` | src/runtime/tasks/store.rs:210-221 | Once all runners have ended, the waiter drains by its own steps alone from any state it may be in |
| `TaskLiveness.DrainIsBounded` | src/runtime/tasks/store.rs:210-221 | Once all runners have ended, in every interleaving the waiter is through after at most four own steps, and until then always has one |
| `TaskTheorems.ResultStaysReadable` | src/runtime/tasks/store.rs:202-208 | A result published less than 300 seconds after creation is readable until at least 300 seconds after its publication, whatever runs in between |
| `TaskTheorems.RemovedNeverReturns` | src/runtime/tasks/store.rs:202-208 | A removed record never comes back |
| `TaskTheorems.CancelWinsOnce` | src/runtime/tasks/store.rs:143-150 | After one cancel call returned true, no later one for that task can |
| `TaskTheorems.CancelEntryHasLease` | src/runtime/tasks/store.rs:113-154 | Once `create` returned, a cancellation entry exists only while the task's lease is live |
| `TaskInvariant.Preserved` | src/runtime/tasks/store.rs:113-221 | Every action of every participant keeps the invariant that ties records, channels, receivers, leases and the waiter together |
| `TaskModel.AbsorbAgrees` | src/runtime/tasks/store.rs:156-184 | Publishing keeps a record equal to the summary computed from its history alone, unless the event follows a terminal one |
| `TaskStore.TaskStore.Create` | src/runtime/tasks/store.rs:113-141 | New record, open channel, cancellation entry and one more lease; nothing else changes |
| `TaskStore.TaskStore.Publish` | src/runtime/tasks/store.rs:156-184 | Updates snapshot, history, expiry and channel of that task only; dropped without a record; snapshots stay faithful |
| `TaskStore.TaskStore.Cancel` | src/runtime/tasks/store.rs:143-150 | True exactly when an entry was there and the runner listens; the entry is gone either way |
| `TaskStore.TaskStore.Subscribe` | src/runtime/tasks/store.rs:194-200 | History and receiver position come from one state, so nothing falls between them |
| `TaskStore.TaskStore.Cleanup` | src/runtime/tasks/store.rs:202-208 | The records left are exactly those due later, unchanged, and exactly the channels of the others close |
| `TaskStore.TaskStore.DropLease` | src/runtime/tasks/store.rs:48-54 | One lease fewer; a notification exactly when it was the last |
| `TaskStore.TaskStore.RelayOutput` | src/runtime/execution/stream.rs:6-51 | What the readers publish is appended in order, between start and end, to that task's history alone |
| `TaskStore.TaskStore.RunTask` | src/runtime/execution/runner.rs:11-75 | Path by path, the history is Started, the output in order and the named terminal event; the cancellation entry is dropped, the lease returned and other tasks left alone |
| `TaskStore.RunHistoryValid` | src/runtime/execution/runner.rs:20-74 | On the refused, exited, cancelled, failed and timed-out paths alike the history has the promised shape |
| `TaskStore.Events` | src/api/exec.rs:52-68 | The stream sends history plus deliveries before the first receive error, cut after the first terminal event |
| `TaskStore.UpToTerminalWhole` | src/api/exec.rs:52-79 | A history with its terminal event in last place is sent whole |
| `Wire.U32RoundTrip` | src/proxy/protocol.rs:60-84 | Big-endian lengths read back |
| `Wire.I32RoundTrip` | src/proxy/process.rs:126-134 | Exit codes survive as signed 32-bit values, negative ones too |
| `Wire.KindRoundTrip` | src/proxy/protocol.rs:11-47 | A kind survives the wire exactly when it is canonical, and every byte survives being read |
| `Wire.FrameLayout` | src/proxy/protocol.rs:71-84 | A frame is its kind's number, the payload's length with the most significant byte first, and the payload |
| `Wire.DecodeEncode` | src/proxy/protocol.rs:60-84 | A written frame reads back, and reading stops exactly at its end |
| `Wire.EncodeDecode` | src/proxy/protocol.rs:60-84 | Bytes that read as a frame are the encoding of that frame, so no two encodings overlap |
| `Wire.DecodeTruncated` | src/proxy/protocol.rs:60-69 | Every proper prefix of a frame reads as end of stream |
| `Wire.FramesOfEncoding` | src/proxy/protocol.rs:60-84 | Reading a concatenated encoding gives back the list of frames |
| `Wire.FramesOfCut` | src/proxy/protocol.rs:60-69 | Cut anywhere, it gives exactly the frames wholly before the cut, then an end of stream |
| `OpenRequest.ParseExactly` | src/proxy/protocol.rs:86-142 | The parser returns a request if and only if it is allowed (non-empty UTF-8 command, at most 1024 arguments, fields within 1 MiB) and the payload is its encoding |
| `OpenRequest.Utf8Means` | src/proxy/protocol.rs:86-102 | The command bytes accepted are exactly the UTF-8 encodings of lists of Unicode scalar values |
| `OpenRequest.ParseOpen` | src/proxy/protocol.rs:86-102 | The loop over the payload reader computes that parser, errors included |
| `OpenRequest.PayloadReader.Field` | src/proxy/protocol.rs:104-142 | A field is taken off the front, or the error of the strict parser is returned |
| `ProxyIo.ReadFrame` | src/proxy/protocol.rs:60-69 | The server's reader decodes the stream whatever its fragments, and leaves the rest unread |
| `ProxyIo.ReadFrameGo` | sdks/proxy/main.go:146-160 | The client's reader does the same |
| `ProxyIo.WriteFrame` | src/proxy/protocol.rs:71-84 | Oversized payloads are refused before any byte; success means the whole encoding, failure a prefix of it |
| `ProxyIo.WriteFrameGo` | sdks/proxy/main.go:134-144 | The client's writer does the same |
| `ProxyIo.ByteSink.WriteAll` | sdks/proxy/main.go:174-186 | Short writes add up to the data exactly, or leave a prefix |
| `ProxyIo.SendOpen` | sdks/proxy/main.go:66-83 | A request sends one OPEN frame, or part of it on a failing connection, if it fits the limits, and otherwise nothing; to a working writer it succeeds if and only if it fits |
| `ProxyIo.OpenArrives` | src/proxy/protocol.rs:86-102 | What it sent parses back to the request when the command is non-empty UTF-8 |
| `ProxyIo.ForwardStdin` | src/proxy/process.rs:140-155 | The tool's stdin gets a prefix of the leading STDIN payloads, all of them when an empty STDIN_EOF is accepted, and nothing after the first other frame |
| `ProxyIo.LeadingIsMaximal` | src/proxy/process.rs:140-155 | Those leading frames are all the STDIN frames before the first other one, hence a prefix of everything sent as STDIN |
| `ProxyIo.ForwardOutput` | src/proxy/process.rs:156-170 | The pipe's bytes go out in non-empty frames of one kind, all of them unless a write fails, and then up to part of the frame for the next chunk |
| `ProxyIo.ReceiveOutput` | sdks/proxy/main.go:106-132 | The client's loop prints and returns what the frame list means; a failing stdout or stderr leaves prefixes and no code, a failed diagnostic is ignored |
| `ProxyInput.ForwardInput` | sdks/proxy/main.go:85-104 | Input goes out in STDIN frames and one final empty STDIN_EOF, all of it unless a write fails |
| `ProxyInput.InputArrives` | src/proxy/process.rs:140-155 | Of whatever part of those bytes arrives the server forwards a prefix of the input, and sees an orderly end if and only if all of it arrived |
| `ProxyInput.InputReachesTool` | src/proxy/process.rs:140-155 | End to end the tool's stdin is a prefix of the client's, and all of it when the server accepts the end, whatever fails |
| `ProxySession.Preserved` | src/proxy/process.rs:16-134 | Every step of tool, forwarders and supervisor conserves bytes: frames sent plus chunk held is what was read |
| `ProxyTheorems.ExitIsLast` | src/proxy/process.rs:108-134 | At most one EXIT is sent, it is the last frame, it carries the code, and a session is closed exactly when it was sent |
| `ProxyTheorems.NothingFollowsExit` | src/proxy/process.rs:100-134 | After EXIT no step adds a byte to the connection |
| `ProxyTheorems.ClientReadsFrames` | sdks/proxy/main.go:146-160 | Whatever prefix of the bytes arrived, failed writes included, the client reads a prefix of the frames written whole |
| `ProxyTheorems.CodeMeansAll` | sdks/proxy/main.go:106-132 | A client that returns a code has read the complete conversation |
| `ProxyTheorems.WholeConversation` | sdks/proxy/main.go:106-132 | Of a whole conversation the client returns the server's code and all stdout bytes, and exactly the stderr bytes if and only if there is no ERROR frame |
| `ProxyTheorems.ClientAgrees` | src/proxy/process.rs:100-177 | With both forwarders at end of file and a code returned, stdout is the tool's, the code is the tool's exit code, 128 and its signal, or 127, and stderr is the tool's if and only if no stdin failure was reported |
| `ProxyTheorems.ClientSeesTheTool` | src/proxy/process.rs:100-177 | The same from the start of a session, in terms of what the tool wrote in the run and the status the server saw in it |
| `ProxyTheorems.ErrorMeansStdinFailed` | src/proxy/process.rs:108-124 | An ERROR frame comes from a reported stdin failure and from nothing else |
| `ProxyTheorems.DiagnosticReachesStderr` | sdks/proxy/main.go:106-132 | A reachable session in which the client's stderr is not what the tool wrote |
| `Nft.ReadRuleState` | src/runtime/network_ops/linux.rs:558-595 | The loop over the dump counts the rules and notes which tags occur |
| `Nft.Netfilter.InstallOnce` | src/runtime/network_ops/linux.rs:342-493 | An uncontended run succeeds and leaves the specified outcome |
| `Nft.InstalledIsCommit` | src/runtime/network_ops/linux.rs:342-493 | The batch built from what was read always applies, and gives that outcome chain by chain |
| `Nft.SatisfiedMeans` | src/runtime/network_ops/linux.rs:597-621 | There is nothing to do if and only if both chains exist with at least two and one rules |
| `Nft.InstallConverges` | src/runtime/network_ops/linux.rs:564-621 | From any tagged, legacy or mixed state a run only appends and leaves enough rules for later runs to do nothing |
| `Nft.InstallIdempotent` | src/runtime/network_ops/linux.rs:564-621 | Every later run is a no-op |
| `Nft.TagsAtMostOnce` | src/runtime/network_ops/linux.rs:597-621 | A run adds a tag only where it occurs nowhere, and then once |
| `Nft.ManagedAfterInstall` | src/runtime/network_ops/linux.rs:597-621 | Exactly when each managed rule is present after a run |
| `NftRace.AbsentOrComplete` | src/runtime/network_ops/linux.rs:342-493 | From an absent table, any number of interleaved installers leave it absent or with exactly one copy of each rule, complete once one has succeeded |
| `NftRace.FewFailures` | src/runtime/network_ops/linux.rs:326-340 | An installer fails at most once more than third parties interfere: undisturbed it needs at most two of its three attempts |
| `NftRace.RequestsAreBounded` | src/runtime/network_ops/linux.rs:326-340 | Each request of an installer lowers a bound on those left, retries included |
| `NftRace.AloneIsInstallOnce` | src/runtime/network_ops/linux.rs:342-493 | Request by request and undisturbed, an attempt from any table succeeds within seven requests and leaves what one whole run leaves |
| `NftRace.Preserved` | src/runtime/network_ops/linux.rs:326-493 | Every request and foreign change keeps the account of failures against generation changes |
| `Oci.SequentialAt` | src/maintenance/archive.rs:109-146 | After in-place application a path is what the last entry concerning it made of it |
| `Oci.StepAt` | src/maintenance/archive.rs:128-144 | What one entry does to any path: what it provides is there, what it hides is gone, the rest is as before |
| `Oci.WhiteoutMeans` | src/maintenance/archive.rs:132-141 | For every directory and name, a whiteout hides exactly that sibling and what is under it, an opaque one exactly what is under its directory, and neither provides anything |
| `Oci.PlainMeans` | src/maintenance/archive.rs:141-144 | Any other entry hides nothing and provides exactly its path and its parents |
| `Oci.WhiteoutFails` | src/maintenance/archive.rs:138-140 | A whiteout fails if and only if it names nothing or has a file where its directory should be |
| `Oci.PlainFails` | src/maintenance/archive.rs:141-144 | Another entry fails if and only if a file is on its way or file and directory would replace one another |
| `Oci.WhiteoutDeletes` | src/maintenance/archive.rs:137-140 | A whiteout of a lower file deletes that file and nothing else |
| `Oci.InPlaceIsOverlay` | src/maintenance/archive.rs:109-146 | For every layer that applies, in-place application equals the declarative overlay if and only if no whiteout comes after an entry it hides that nothing restores |
| `Oci.RecommendedOrder` | src/maintenance/archive.rs:109-146 | Whiteouts before the entries at or under what they hide are enough |
| `Oci.LateWhiteoutLosesEntry` | src/maintenance/archive.rs:109-146 | A layer of a file and then an opaque marker loses the file, which the specification keeps |
| `Oci.SequentialWellFormed` | src/maintenance/archive.rs:109-219 | A layer that applies leaves a well-formed tree |
| `Oci.ImageIsOverlay` | src/maintenance/archive.rs:80-85 | For every image that applies, all layers in place are the overlay of all changesets if and only if at every path the last layer concerned has no late whiteout there |
| `Oci.ImageWellFormed` | src/maintenance/archive.rs:80-85 | An image that applies leaves a well-formed tree |
| `Oci.Rootfs.DeleteChildren` | src/maintenance/archive.rs:209-219 | Deleting listed children one by one removes everything below the directory and nothing else |
| `Oci.Rootfs.ApplyLayer` | src/maintenance/archive.rs:109-146 | The entry loop succeeds exactly when the fold does, with its result, and is the overlay under the exact condition |
| `Oci.Rootfs.ApplyImage` | src/maintenance/archive.rs:80-85 | The layer loop succeeds exactly when the fold over layers does, with its result, and is the overlay under the exact condition |
| `Sse.SplitResumes` | sdks/node/src/sse.ts:55-70 | Splitting may stop and go on anywhere but inside a CRLF |
| `SseChunks.ChunkedLines` | sdks/node/src/sse.ts:55-70 | Chunked splitting finds as many lines as the whole text has plus the number of cut CRLFs, the same lines if none is cut, and the same partial line |
| `SseChunks.ChunkedSplitIsWhole` | sdks/node/src/sse.ts:55-70 | Chunked and whole splitting agree if and only if no border cuts a CRLF |
| `SseChunks.CutAddsLine` | sdks/node/src/sse.ts:62-64 | A cut CRLF adds exactly one empty line, in that place |
| `SseCuts.MarksAreRight` | sdks/node/src/sse.ts:55-70 | The lines of the text, marked where a border cuts their CRLF, give the chunked lines when an empty line is added after each mark |
| `SseCuts.ChunkedParseIsCutMeaning` | sdks/node/src/sse.ts:16-82 | The events of any chunking are the meaning of the pieces the cuts leave of each block |
| `SseCuts.ChunkingIsHarmless` | sdks/node/src/sse.ts:16-82 | The events depend only on the concatenated text if and only if each block comes out of its cuts with at most one piece that holds data, under the block's name |
| `SseParsers.ParseSse` | sdks/node/src/sse.ts:7-87 | The buffered parser yields the events of the chunked lines, and those of the concatenated text if and only if the cuts are harmless, in particular without CR |
| `SseParsers.NodeParser.Feed` | sdks/node/src/sse.ts:55-70 | One chunk: the partial line is carried, the other lines are processed in order |
| `SseParsers.NodeParser.Close` | sdks/node/src/sse.ts:72-82 | At end of stream a partial line counts and pending data is dispatched |
| `SseParsers.ParseSseAsync` | sdks/dotnet/KekkaiRuntimeApiClient.cs:385-417 | The line loop yields the one-shot parse of the text in the .NET dialect |
| `SseMeaning.NodeParseIsMeaning` | sdks/node/src/sse.ts:16-82 | The parse of any text is what its blocks of lines mean: last event field, joined data fields, one event per block with data, the unfinished block included |
| `SseDialects.NetParseIsMeaning` | sdks/dotnet/KekkaiRuntimeApiClient.cs:385-417 | The .NET parse of any text is the meaning of its blocks with trimmed values and a name carried over blocks without data |
| `SseDialects.ParsersAgree` | sdks/dotnet/KekkaiRuntimeApiClient.cs:385-417 | Both parsers read a text alike if and only if each block with data has values and last name without leading space and, having no name of its own, is carried none |
| `SsePrint.SplitJoined` | sdks/node/src/sse.ts:16-25 | Joined data keeps its lines apart: terminated, it splits into exactly the values joined |
| `SsePrint.JoinFeedLines` | sdks/node/src/sse.ts:16-25 | Joining the lines of a text gives the text back |
| `SseTheorems.PrintedParse` | src/api/exec.rs:70-84 | What either parser makes of a printed stream, comments between events and data of several lines included |
| `SseTheorems.NodeReadsPrinted` | sdks/node/src/sse.ts:7-87 | Printed names and data, of any number of lines, come back from the Node parser unchanged under any chunking |
| `SseTheorems.NetReadsPrinted` | sdks/dotnet/KekkaiRuntimeApiClient.cs:385-417 | The .NET parser returns them unchanged if and only if no name and no line of data starts with a space |
| `ClientView.ClientsSeeTheTask` | src/api/exec.rs:47-84 | In every interleaving, with any keep-alives and chunking, both clients hand on, decoded, exactly the events the stream was sent: a prefix of the task's publications, and all of them once the stream ended with the terminal event |
| `SseTheorems.CutCrlfLosesName` | sdks/node/src/sse.ts:55-70 | A cut CRLF after the event field costs the event its name |
| `SseTheorems.NameWithoutData` | sdks/dotnet/KekkaiRuntimeApiClient.cs:400-416 | A name without data is forgotten by Node and given to the next event by .NET |
| `EventText.DataIsOneLine` | src/runtime/tasks/events.rs:23-34 | Whatever a task prints, the event's data has no control character and starts with a brace |
| `EventReader.DecodesBack` | sdks/node/src/protocol.ts:72-102 | Both clients' decoders, by their literal names and JSON keys, give back from a printed event the event that was published, text unescaped |
| `EventReader.EventDetermined` | src/runtime/tasks/events.rs:12-34 | Name and data determine the event: no two print alike |
| `Cidr.ContainsIsInterval` | src/config/network.rs:45-59 | A subnet holds exactly the 2^(32-prefix) addresses from its network address up, ending with the broadcast address |
| `Cidr.RuleMatchesSubnet` | src/runtime/network_ops/linux.rs:682-723 | Byte-wise mask, exclusive-or and compare match a packet exactly when the subnet contains its address |
| `Cidr.UnalignedNeverMatches` | src/runtime/network_ops/linux.rs:682-723 | A rule for a subnet not written with its network address would match nothing |
| `Cidr.MaskIsOnes` | src/runtime/network_ops/linux.rs:776-782 | The shifted mask is the word minus the subnet size, for every prefix from 0 to 32 |
| `Bits.MaskClears` | src/config/network.rs:45-55 | And with leading ones rounds down to a multiple of the block size |
| `NetworkSettings.Check` | src/config/network.rs:81-143 | Settings are accepted if and only if they are acceptable in terms of address intervals, and then carry the configured values |
| `NetworkSettings.CheckHost` | src/config/network.rs:107-124 | Exactly which of the gateway and address checks fails first |
| `NetworkSettings.ParseDns` | src/config/network.rs:126-133 | All resolvers in order, or the first that does not parse |
| `NetworkSettings.CheckBridge` | src/config/network.rs:82-93 | The interface name is accepted exactly if it has 1 to 15 bytes and neither white space nor a slash |
| `NetworkSettings.AcceptedSettings` | src/config/network.rs:81-143 | Accepted settings keep gateway and sandbox apart, never use a /32, and the rules match exactly the interval |
| `IdShift.ShiftedIsMapped` | src/maintenance/sysroot.rs:224-281 | A shifted id counts as mapped, and is a fixed point, if and only if it is not the one the saturated bound leaves out; that one cannot be shifted again |
| `IdShift.ShiftInBounds` | src/maintenance/sysroot.rs:264-281 | Which ids stay, which move up by the host id, and which cannot be shifted, as bounds |
| `IdShift.SoundMissesNothing` | src/maintenance/sysroot.rs:224-226 | Exactly which mappings leave no id out |
| `IdShift.UnshiftExact` | src/maintenance/sysroot.rs:264-281 | Subtracting the host id undoes every shift if and only if the ranges do not overlap or the host range starts at zero |
| `IdShift.FirstRangeBounds` | src/runtime/host/userns.rs:121-132 | The range is that of the first line giving one of the owners at least 65536 ids below 2^32, if there is one; its mapping leaves an id out if and only if it ends with the last id |
| `IdShift.ShiftPointwise` | src/maintenance/sysroot.rs:228-254 | A successful shift gives each inode its shifted owner once, hard links or not, and leaves others alone |
| `IdShift.ShiftPartial` | src/maintenance/sysroot.rs:228-254 | A failed shift leaves every owner old or shifted |
| `IdShift.ShiftSucceeds` | src/maintenance/sysroot.rs:228-254 | Shifting succeeds if and only if all user and group ids are within the bounds and no left-out owner is visited twice |
| `IdTree.ValidAfterShift` | src/maintenance/sysroot.rs:202-222 | After a successful shift the tree validates if and only if no owner was the left-out one |
| `IdTree.RerunAfterInterruption` | src/maintenance/sysroot.rs:228-254 | A rerun after an interruption gives the outcome of one uninterrupted run if the finished part held no left-out owner, and fails otherwise |
| `IdTree.RerunInAnyOrder` | src/maintenance/sysroot.rs:228-254 | The same when the rerun visits the inodes in another order |
| `IdTree.OrderDoesNotMatter` | src/maintenance/sysroot.rs:228-254 | Success and result of a shift do not depend on the visiting order |
| `IdTree.UnshiftTree` | src/maintenance/sysroot.rs:264-281 | Subtracting the host ids gives back every original owner of a shifted tree |
| `IdTree.LastIdBreaks` | src/runtime/host/userns.rs:121-132 | A two-file tree under the last admitted range that shifts, does not validate and cannot be shifted again |
| `Sysroot.Rootfs.ShiftEntry` | src/maintenance/sysroot.rs:232-254 | The recursive walk shifts exactly a prefix of the visiting order, all of it on success, and stops for an id only where the fold does |
| `Sysroot.Rootfs.ValidateEntry` | src/maintenance/sysroot.rs:202-222 | Succeeds only on a fully mapped tree, and rejects one only where a file operation failed |
| `Sysroot.Rootfs.Fix` | src/maintenance/sysroot.rs:141-171 | The marker appears only after a complete shift; a matching one changes nothing and another one is an error |
| `Sysroot.PrepareTwice` | src/maintenance/sysroot.rs:141-171 | An interrupted preparation and a second one together, listing directories in any order, leave what one uninterrupted run leaves, with identity issues exactly when an owner was the left-out one |

## Left out

- Process spawning, signals, pipes, namespaces, flock and runtime commands: they appear as steps that may succeed or fail.
- HTTP routing, authentication, client transports, TOML decoding, UTF-8 decoding of streams: library plumbing. Configured addresses enter as decoded values.
- EventReader.DecodesBack: JSON is read as far as events need it, objects of at most one member with a string, an integer or null; surrogate pairs in escapes and codes outside 32 bits are not read.
- Workspace operations, dotenv and argument parsing, configuration templates, check reports and capability probes: their meaning rests on the operating system, or they are simple.
- Sandbox startup and session shutdown: the elapsed-timer exit of `start` does not run the cleanup path, so no release claim follows from the code.
- Decoding of output bytes to text: a chunk is the text its reader published. The reader decodes each chunk by itself, so a character split over two reads is not restored.
- Panics inside tasks, and a wrapped notify generation: a run always reaches one of its ends, and generations are unbounded.
- TaskStore.TaskStore.Create: one step, where the service inserts the record, registers the cancellation and counts the lease in turn; `TaskProtocol` interleaves the three.
- TaskStore.TaskStore.RelayOutput: one clock reading, output fixed in advance and no cleanup in between; `TaskProtocol` has all of these.
- TaskStore.TaskStore.RunTask: one instant and no interleaving, for the same reason.
- TaskTheorems.StreamReachesTerminal: says that a finishing run exists; what every run does is in `TaskLiveness`.
- TaskTheorems.DrainCompletes: likewise.
- The task id generator: a new id is assumed unused. A submission dropped between its steps is modelled.
- Fairness: that a participant with a step to take takes it. What is proved is that there is one, and how few are needed.
- The refusal path of a proxy connection (ERROR, then EXIT 127): a diagnostic for a near-maximal command name can itself exceed the frame limit.
- Whether a closed connection gets the tool killed, as `docs/tools_protocol.md` says: after STDIN_EOF the server no longer reads the socket. A failing shutdown of the tool's stdin is left out too.
- A connection after a failed write is taken to accept nothing more.
- Concurrent installers that start from a partly populated table: the generation is read after the rules, so at-most-once is claimed from an absent table only.
- Netlink message encoding and the interface and conntrack expressions of the rules.
- Digests, compression and tar parsing: a layer is its decoded list of entries. Symbolic and hard links, ownership and modes of layer entries.
- Oci.Rootfs.ApplyLayer: entries whose whiteout names "." or ".." are excluded, because the operating system decides what such a path removes.
- Oci.Rootfs.Delete: an operating-system failure part-way through a recursive deletion is not modelled.
- Fix with a marker already present after new directories were created: they are not shifted, so no claim is made about identity issues then.
- The creation of sysroot directories before the shift, the text form of the marker, and set-id bits cleared by an ownership change.
