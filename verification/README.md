# Opcode42 core behaviour, modelled and proved

A Dafny model of the parts of Opcode42 that carry state between callers: the PTY output engine,
the JSON-RPC bridge to plugins, language-server spawning, MCP connections and tools, OAuth token
refresh, the event buses, context pruning, sortable identifiers, push limits, fuzzy ranking and
set comparison of JSON arrays. `dafny verify dfyconfig.toml` checks all of it.

## How it is built

Code that shares state between goroutines is a step system. A module holds the state, one step
per critical section or per operation on a channel, process, connection or server, and `Run`, the
state after any sequence of steps; a step that is not possible does nothing. Outcomes that the
environment decides (a spawn, a handshake, a dial, a write, an answer of a server) are part of the
step. An invariant is proved for every step, and the theorems are about every run. Beside each
such module stands a class with the fields of the source, whose methods update them in place and
are proved to take exactly those steps:

| step system | class | source |
|---|---|---|
| `PtyStream`, `PtyResume`, `PtyClients` | `PtySession.Session` | `internal/pty` |
| `RpcConn`, `RpcDelivery` | `RpcClient.Conn` | `internal/pluginbridge/conn.go` |
| `LspSpawning`, `LspEntries` | `LspService.Service` | `internal/lsp/service.go` |
| `McpConnections`, `McpOutcomes` | `McpManager.Manager` | `internal/mcp` |
| `OAuthRefresh`, `OAuthOutcomes` | `OAuthAccess.Service` | `internal/oauth/access.go` |
| `EventFanout`, `EventDelivery`, `EventForwarding` | `EventBus.Bus`, `EventBus.Clients` | `internal/bus/bus.go` |
| `PushRate`, `PushGrace` | `PushRelay.Relay` | `internal/push/relay.go` |

What an operation comes to is stated apart from its step: by the actions that came before it, the
replies the environment gave, and where each process, connection, channel and token is
(`PtyClients`, `RpcDelivery`, `LspEntries`, `McpOutcomes`, `OAuthOutcomes`, `EventDelivery`).

Decoding is proved against independent definitions: `Utf8` follows the grammar of section 4 of
RFC 3629 with Go's rule that a byte that starts no character yields one U+FFFD, and `Utf16`
follows section 2 of RFC 2781. `Lex` is the order of strings, `Sorting` sorted sequences.

Fields marked as history (`taken`, `fates`, `wire`, `used`, `log` and the like) record what
happened, so that the theorems can speak about it; no step depends on them.

## Where the code and its comments differ

The model follows the code. Each of these is a lemma with the exact condition:

- `internal/pty/pty.go:411-417`: what is held back is not only a genuine incomplete character
  (`PtyDecoder.HeldIsGenuineIff`, `PtyDecoder.HeldWithoutHope`).
- `internal/pty/connect.go:66-67`: the channel of a subscriber that attaches after the exit is not
  closed by it (`PtyResume.ExitClosesWhatWasAttached`, `PtyResume.ChannelOpenForEver`).
- `internal/pluginbridge/conn.go:204-206`: a `Close` that comes while the teardown is under way
  returns before the pending requests are drained (`RpcConn.CloseDrainsIff`,
  `RpcConn.CloseDuringTeardown`).
- `internal/lsp/service.go:205-213`: where a spawn is committed with a connected process after the
  dispose, its waiters are given the id of a server that was killed, and the spawner nothing
  (`LspSpawning.WaiterAgreesIff`, `LspSpawning.WaiterToldOfDeadServer`).
- `internal/mcp/service.go:65-77`: `Disconnect` of a known server, on a manager that was closed
  before its initial connect was over, writes to a map that does not exist (`McpConnections.DisconnectPanicsIff`,
  `McpConnections.DisconnectAfterEarlyClose`).
- `internal/mcp/manager.go:317-319`: two tools of one server with the same flattened name can be
  listed and dispatched differently (`McpTools.ListsDifferIff`, `McpTools.AmbiguousTools`). It takes
  a second server, so that the order of iteration changes the input of the sort. It also takes more
  than 12 entries: up to there the library sorts by insertion, which keeps equal entries in order.
  After `Close` the lists outlive the clients (`McpListing.AgreeOverRunsIff`,
  `McpListing.ListedNotCalled`).
- `internal/mcp/manager.go:286-289`: a change announced while a connection is being dialed is
  dropped (`McpFreshness.PublishedFreshIff`, `McpFreshness.ChangeIsLost`).
- `internal/oauth/access.go:33-38`: with credentials from OPENCODE_AUTH_CONTENT, which writes do
  not change, a used-up refresh token is presented again by the next caller
  (`OAuthRefresh.EnvironmentReplaysIff`, `OAuthRefresh.EnvironmentReplays`).
- `internal/engine/compaction.go:28-31`: within one message the older outputs are protected before
  the newer ones (`Pruning.MostRecentStaysIff`, `Pruning.OlderOutputStays`).
- `internal/id/id.go:42-47`: identifiers stop sorting by creation where the 48 bits wrap, every
  2^36 milliseconds (`SortableId.SortsChronologicallyIff`, `SortableId.WindowEnds`).
- `internal/server/fuzzy.go:48-52`: a query can panic instead of being matched where lower-casing
  makes a path longer (`FuzzyMatch.PanicsIff`, `FuzzyMatch.LetterPanics`).
- `internal/push/relay.go:83-85`: a client that no event was handled during gives no grace period
  when it drops (`PushGrace.HeldBackAfterDropIff`, `PushGrace.UnseenClientGivesNoGrace`).

## Model

| member | source | states |
|---|---|---|
| `Utf8.EncodedRuneIsChar` | internal/pty/pty.go:474-481 | An encoded rune is one character of the RFC 3629 grammar with that code point, whatever follows. |
| `Utf8.CharIsEncodedRune` | internal/pty/pty.go:474-481 | A character of the grammar is the encoding of its code point. |
| `Utf8.DecodeEncode` | internal/pty/pty.go:474-481 | Decoding gives back the encoded runes and continues with what follows them. |
| `Utf8.EncodeDecode` | internal/pty/pty.go:474-481 | Well-formed text survives decoding and encoding. |
| `Utf8.ValidIffRoundTrip` | internal/pty/pty.go:474-481 | The well-formed texts are exactly those that decoding and encoding leave alone. |
| `Utf8.DecodeAfterValid` | internal/pty/pty.go:418-426 | The end of a well-formed text is a decoding boundary. |
| `Utf16.RunesOfUnits` | internal/pty/pty.go:332 | Decoding UTF-16 gives back the encoded runes and continues with what follows. |
| `Utf16.DecodingKeepsLength` | internal/pty/pty.go:483-485 | Decoding malformed units keeps their UTF-16 length. |
| `Utf16.CutBetweenRunes` | internal/pty/connect.go:53-60 | A cut that is not inside a surrogate pair does not change the decoded runes. |
| `Utf16.CutInsidePair` | internal/pty/connect.go:53-60 | A cut inside a pair turns one rune into two. |
| `PtyDecoder.MaskRanges` | internal/pty/pty.go:446-463 | The bit masks test for continuation bytes and for announced multibyte runes. |
| `PtyDecoder.AllContinuation` | internal/pty/pty.go:465-472 | True exactly if every byte is a continuation byte. |
| `PtyDecoder.IncompleteTrailingLen` | internal/pty/pty.go:431-444 | The length of the dangling end, or 0 exactly if no end dangles. |
| `PtyDecoder.DecodeValidIsReencoding` | internal/pty/pty.go:476-481 | Passing valid text through is only a shortcut: the result is always the re-encoded decoding, and valid. |
| `PtyDecoder.BoundaryBeforeLead` | internal/pty/pty.go:418-426 | Every byte that is not a continuation starts a decoding step, whatever precedes it. |
| `PtyDecoder.BoundaryAfterComplete` | internal/pty/pty.go:418-426 | An end that leaves nothing dangling ends a decoding step, whatever follows it. |
| `PtyDecoder.SplitIsBoundary` | internal/pty/pty.go:418-426 | The text cut off is valid, and both cuts are decoding boundaries whatever is read later. |
| `PtyDecoder.StreamInvariant` | internal/pty/pty.go:319-331 | After any reads, what was emitted followed by what is held decodes as the whole stream does, also with more to come. |
| `PtyDecoder.StreamingIsOneShot` | internal/pty/pty.go:319-331 | However a stream is cut into reads, the emitted texts followed by the decoding of the held bytes are the decoding of the stream at once; at most 3 bytes are held. |
| `PtyDecoder.EveryTextIsValid` | internal/pty/pty.go:416-426 | Every single emitted text is valid UTF-8. |
| `PtyDecoder.GenuinePrefixIsHeld` | internal/pty/pty.go:411-414 | Every genuine incomplete character at the end of a read is held back. |
| `PtyDecoder.HeldIsGenuineIff` | internal/pty/pty.go:411-417 | What is held can still become a character exactly if its first two bytes may start one. |
| `PtyDecoder.HeldWithoutHope` | internal/pty/pty.go:411-417 | Exactly the bytes C0, C1 and F5 to F7 are held although they start no character. |
| `PtyStream.TrimKeepsWindow` | internal/pty/pty.go:345-350 | Appending and trimming keep buffer and cursor a window on the output. |
| `PtyStream.OfferKeepsContiguous` | internal/pty/pty.go:336-344 | A frame extends a subscriber's slice to the new end, or cuts the subscriber off with its slice unchanged. |
| `PtyStream.RunKeepsInv` | internal/pty/pty.go:319-374 | Window, registrations and slices hold after every interleaving of reads, connects, closes, takes and exits. |
| `PtyResume.HistoryIsOneShot` | internal/pty/pty.go:319-332 | The units emitted, followed by those of the held bytes, are the UTF-16 form of the whole byte stream. |
| `PtyResume.BufferIsNewestOutput` | internal/pty/pty.go:332-351 | The buffer is exactly the newest units up to the limit, and the cursor counts all of them. |
| `PtyResume.SubscriberSeesOneSlice` | internal/pty/connect.go:24-64 | Replay and live frames are one slice of the output without gap or repetition, up to the present while subscribed; open exactly while registered. |
| `PtyResume.CutOffOnlyWhenFull` | internal/pty/pty.go:336-344 | Output cuts a subscriber off only if 256 frames wait, and takes back nothing. |
| `PtyResume.ClosedIsFinal` | internal/pty/connect.go:75-82 | A closed channel stays closed and gets no further frame. |
| `PtyResume.ReplayIsSuffix` | internal/pty/connect.go:26-45 | The replay is the output from the offset, kept inside the window, to the end. |
| `PtyResume.ResumingMissesNothingRetained` | internal/pty/connect.go:26-45 | Reconnecting at the cursor told plus the length received continues exactly where it stopped, if and only if the window has not moved past that point. |
| `PtyResume.ExitClosesWhatWasAttached` | internal/pty/pty.go:354-364 | After the exit a channel its client does not close is closed exactly if it was attached before. |
| `PtyResume.ChannelOpenForEver` | internal/pty/connect.go:66-68 | A subscriber that attaches after the exit has an open channel. |
| `PtyClients.ChunksAreReads` | internal/pty/pty.go:319-352 | The history all these speak of is that of every read before the exit, in order. |
| `PtyClients.AttachGivesReplay` | internal/pty/connect.go:24-50 | In every run, attaching opens a new empty channel and gives the output from where it was asked for, as far as the window has it; the other clients keep theirs. |
| `PtyClients.SubscribedUntil` | internal/pty/pty.go:336-364 | A client stays subscribed exactly until it closes, the session exits, or output finds 256 frames waiting. |
| `PtyClients.DetachCloses` | internal/pty/connect.go:75-82 | In every run, closing removes exactly that client and closes its channel with what it holds, and it stays so in any continuation. |
| `PtyClients.ReceiveTakesOldest` | internal/pty/connect.go:66-68 | Taking moves the frame that waits longest and nothing else. |
| `PtyReplay.JoinedIsEncodedRunes` | internal/pty/connect.go:53-60 | The replay frames together are the encoding of the runes of the chunks. |
| `PtyReplay.ChunkRunesCount` | internal/pty/connect.go:53-60 | Each chunk edge inside a pair adds one rune, and without any the runes are those of the whole. |
| `PtyReplay.ReplayKeepsLength` | internal/pty/connect.go:53-60 | However the chunk edges fall, the client counts as many UTF-16 units as were replayed. |
| `PtyReplay.ReplayTextIff` | internal/pty/connect.go:53-60 | The client reads the text of the whole replay exactly if no chunk edge splits a pair. |
| `PtyReplay.SplitPairBreaksText` | internal/pty/connect.go:53-60 | One edge inside the pair of U+1F600 breaks the text. |
| `PtyReplay.FramesFit` | internal/pty/connect.go:53-60 | Frame by frame: each carries the text of its own slice of the replay, as long as the chunk size but for the last, and none is empty. |
| `PtyText.RunKeepsLiveValid` | internal/pty/pty.go:338 | Every live frame is valid text. |
| `PtyText.TextFromIff` | internal/pty/connect.go:53-60 | Replay frames and what follows them are the text from an offset exactly if the offset is not inside a pair and no chunk edge splits one. |
| `PtyText.ClientTextIff` | internal/pty/connect.go:24-64 | End to end: what a subscriber reads off replay and live frames is the emitted text from its offset to the present under exactly that condition. |
| `PtyText.GivenTextIff` | internal/pty/connect.go:24-82 | The same for every subscriber, also one that was cut off or left: up to where its slice ends. |
| `PtyText.OffsetInsideAPair` | internal/pty/connect.go:33 | A subscriber that asks for an offset inside a pair does not get the text. |
| `PtySession.Session.SendTo` | internal/pty/pty.go:337-343 | Queues the text for one subscriber, or removes and closes it if its queue is full. |
| `PtySession.Session.Fanout` | internal/pty/pty.go:336-344 | Does so for every subscriber, in any order. |
| `PtySession.Session.Append` | internal/pty/pty.go:345-350 | Appends and trims from the front. |
| `PtySession.Session.OnData` | internal/pty/pty.go:319-352 | Takes the step of a read. |
| `PtySession.Session.OnExit` | internal/pty/pty.go:354-366 | Takes the step of the exit; a second one does nothing. |
| `PtySession.Session.Connect` | internal/pty/connect.go:24-64 | Takes the step of a connect, and returns the chunks of what the client is behind and the cursor. |
| `PtySession.Session.CloseConn` | internal/pty/connect.go:75-82 | Takes the step of a close: removes the subscriber and closes its channel; harmless if already closed. |
| `PtySession.Session.Take` | internal/pty/connect.go:68 | The client gets its frames in order. |
| `PtySession.Frames` | internal/pty/connect.go:53-60 | The loop over chunks makes the frames of the replay. |
| `RpcFraming.HeaderInverse` | internal/pluginbridge/jsonrpc.go:66-81 | Encoding and decoding the 4-byte big-endian header are inverse. |
| `RpcFraming.HighestFirst` | internal/pluginbridge/jsonrpc.go:66-67 | Headers compare byte by byte as the lengths they keep: the highest byte comes first. |
| `RpcFraming.NextFrameIff` | internal/pluginbridge/jsonrpc.go:76-90 | A body can be read off a stream exactly if the stream starts with its frame and it is within the limit. |
| `RpcFraming.ReadBack` | internal/pluginbridge/jsonrpc.go:57-90 | Reading what was written returns exactly the bodies and consumes every byte. |
| `RpcFraming.ReadTruncated` | internal/pluginbridge/jsonrpc.go:76-90 | A cut stream yields the whole frames before the cut; it ends cleanly exactly if the cut is between frames or right after a header. |
| `RpcFraming.Pipe.Write` | internal/pluginbridge/jsonrpc.go:68-71 | Writes everything, or what there is room for and fails. |
| `RpcFraming.Pipe.ReadFull` | internal/pluginbridge/jsonrpc.go:78 | Takes exactly the bytes asked for, or drains a short stream and fails. |
| `RpcFraming.PutUint32` | internal/pluginbridge/jsonrpc.go:66-67 | Fills the header array. |
| `RpcFraming.WriteFrame` | internal/pluginbridge/jsonrpc.go:58-73 | Appends one frame, refuses a body over the limit and writes nothing, or fails and leaves the beginning of the frame. |
| `RpcFraming.BrokenBody` | internal/pluginbridge/jsonrpc.go:68-89 | After a write that failed in the body, the reader completes the body with what is written next and goes on in the middle of that. |
| `RpcFraming.BrokenHeader` | internal/pluginbridge/jsonrpc.go:68-81 | After a write that failed in the header, the next header is read shifted. |
| `RpcFraming.ReadFrame` | internal/pluginbridge/jsonrpc.go:76-90 | Returns the next frame and leaves the stream after it, or fails. |
| `RpcConn.OneSenderKept` | internal/pluginbridge/conn.go:99-135 | The right to send to a caller is in one place: its entry, the read loop, or used up. |
| `RpcConn.RunKeepsInv` | internal/pluginbridge/conn.go:59-181 | The protocol's invariant holds in every interleaving. |
| `RpcConn.AnswersReachTheirCaller` | internal/pluginbridge/conn.go:99-109 | A caller only gets a response for its own id that the host sent, or the error of the teardown. |
| `RpcConn.SendsNeverBlock` | internal/pluginbridge/conn.go:106-108 | Every channel is sent to at most once, so no send finds it full and the teardown always goes on. |
| `RpcConn.SecondAnswerDropped` | internal/pluginbridge/conn.go:99-109 | A further response for an id that was answered changes nothing. |
| `RpcConn.FreshIds` | internal/pluginbridge/conn.go:150-159 | A call gets an id and channel nobody had; none registers once closed. |
| `RpcConn.NothingRegistersAfterClose` | internal/pluginbridge/conn.go:120-129 | After the close, in any continuation, no call registers. |
| `RpcConn.NobodyWaitsForEver` | internal/pluginbridge/conn.go:131-134 | When the teardown is done every call has left, returned, or has its message. |
| `RpcConn.CloseDrainsIff` | internal/pluginbridge/conn.go:198-209 | A caller of Close can rely on the drain exactly if it does not come during the teardown. |
| `RpcConn.CloseDuringTeardown` | internal/pluginbridge/conn.go:198-209 | A run after which a call of Close returns before the drain. |
| `RpcDelivery.ReturnsWhatItIsOwed` | internal/pluginbridge/conn.go:99-181 | A call comes back with the first response that found its request registered, and with the error of the teardown exactly if there was none. |
| `RpcDelivery.RegisteredIff` | internal/pluginbridge/conn.go:99-174 | A request is registered exactly from its call until it is answered, its caller leaves, or the connection closes. |
| `RpcDelivery.AnswerArrives` | internal/pluginbridge/conn.go:99-109 | However the run goes on, a response for a registered request is with its caller, in its channel, or about to be sent to it. |
| `RpcDelivery.AnswerReturns` | internal/pluginbridge/conn.go:99-180 | The host sends, the read loop delivers, and the waiting caller returns that response; nothing else is unregistered. |
| `RpcDelivery.CallLeaves` | internal/pluginbridge/conn.go:161-174 | A call whose write failed or whose context is done leaves and is registered no more, in any continuation. |
| `RpcDelivery.ClosedIff` | internal/pluginbridge/conn.go:120-129 | The connection is closed exactly if its stream ended. |
| `RpcClient.Conn.Register` | internal/pluginbridge/conn.go:150-159 | Takes the step of a call. |
| `RpcClient.Conn.Abandon` | internal/pluginbridge/conn.go:162-174 | Takes the step of a call that leaves. |
| `RpcClient.Conn.Deliver` | internal/pluginbridge/conn.go:99-109 | Takes the steps of a response: a registered request is removed and its channel gets the response, any other changes nothing. |
| `RpcClient.Conn.TakeAll` | internal/pluginbridge/conn.go:120-129 | Takes the step that begins the teardown. |
| `RpcClient.Conn.FailEntry` | internal/pluginbridge/conn.go:131-133 | Takes the step that fails one request. |
| `RpcClient.Conn.Teardown` | internal/pluginbridge/conn.go:120-135 | The whole teardown fails every pending request once, in any order, and finishes. |
| `LspSpawning.RunKeepsInv` | internal/lsp/service.go:191-264 | The protocol's invariant holds in every interleaving. |
| `LspSpawning.KeySetsDisjoint` | internal/lsp/service.go:191-251 | No key is in two of running, broken and spawning. |
| `LspSpawning.OneSpawnerPerKey` | internal/lsp/service.go:205-216 | Two callers never spawn for one key at the same time. |
| `LspSpawning.OneServerPerKey` | internal/lsp/service.go:191-251 | Until it is handed over for killing, a process is the only one for its key. |
| `LspSpawning.BrokenIsFinal` | internal/lsp/service.go:197-200 | A broken key is never spawned or running again. |
| `LspSpawning.ExactlyOneOwner` | internal/lsp/service.go:218-251 | Every started process is with one spawner, in the running map, on the disposer's list, or killed, and in one of these only. |
| `LspSpawning.NothingRunsAfterDispose` | internal/lsp/service.go:499-511 | After the dispose nothing runs for ever and no attempt begins. |
| `LspSpawning.NothingLeaks` | internal/lsp/service.go:236-243 | After the dispose is through, all processes are dead exactly if no spawn still holds one. |
| `LspSpawning.LateSpawnIsKilled` | internal/lsp/service.go:236-243 | A spawn that outlives the dispose kills its process. |
| `LspSpawning.NoWaiterForgotten` | internal/lsp/service.go:205-213 | A waiter can go on, or a live spawner is in charge of its attempt. |
| `LspSpawning.ReportStays` | internal/lsp/service.go:248-249 | What an attempt came to, and what its spawner reported, never changes. |
| `LspSpawning.WaiterAgreesIff` | internal/lsp/service.go:205-213 | Waiter and spawner of an attempt report the same, at whatever time, exactly unless the attempt was committed with a connected process after the dispose; then the waiter has the id and the spawner nothing. |
| `LspSpawning.WaiterToldOfDeadServer` | internal/lsp/service.go:205-213 | If the commit comes after the dispose, the waiter reports a server that was killed. |
| `LspSpawning.DisposeDuringHandshake` | internal/lsp/service.go:191-264 | Such a state is reached. |
| `LspEntries.EntryAnswers` | internal/lsp/service.go:192-216 | In every run, what a caller is told at entry: nothing exactly after the dispose, else the error exactly if an attempt for its key failed, and the id exactly if a process of its key runs; it waits exactly for an attempt under way, and makes one otherwise. |
| `LspEntries.BooksIff` | internal/lsp/service.go:230-247 | A key is broken exactly if an attempt for it failed, and running exactly if one connected and there was no dispose. |
| `LspEntries.ErrorIffFailed` | internal/lsp/service.go:218-228 | A spawner reports an error exactly if its spawn or its handshake failed. |
| `LspEntries.SpawnStartsProcess` | internal/lsp/service.go:218-219 | A spawn that succeeds adds one process nobody had, with its spawner. |
| `LspEntries.CommitInstalls` | internal/lsp/service.go:244-246 | The connected process is the one that runs for its key from then on, and no other key changes. |
| `LspEntries.KilledIff` | internal/lsp/service.go:223-241 | A process dies exactly by a failed handshake, by a commit after the dispose, or by the disposer, and stays dead. |
| `LspEntries.DisposeHandsOver` | internal/lsp/service.go:505-510 | The dispose hands over exactly the running processes and touches no other. |
| `LspService.Service.Enter` | internal/lsp/service.go:192-216 | Takes the first critical section, and answers by the first of disposed, broken and running that applies. |
| `LspService.Service.Commit` | internal/lsp/service.go:230-263 | Takes the second critical section and returns what the spawner reports and has to kill. |
| `LspService.Service.Wake` | internal/lsp/service.go:208-212 | A waiter reads the attempt it waited for. |
| `LspService.Service.DisposeAll` | internal/lsp/service.go:499-511 | Marks the service disposed and takes the running processes; a second call takes none. |
| `McpConnections.RunKeepsInv` | internal/mcp/service.go:193-266 | The protocol's invariant holds in every interleaving. |
| `McpConnections.ExactlyOneHolder` | internal/mcp/service.go:193-238 | Every dialed connection is with the call that dialed it, cached, handed over for closing, or closed, and in one of these only. |
| `McpConnections.CachesAgree` | internal/mcp/manager.go:179-188 | While open, tools and resources have the keys of clients, which are the servers with status connected, and a list came from the cached connection. |
| `McpConnections.NothingCachedAfterClose` | internal/mcp/manager.go:501-506 | Once closed, no connection is cached again. |
| `McpConnections.NothingLeaks` | internal/mcp/manager.go:499-510 | After the close is through, all connections are closed exactly if no dialing call still holds one. |
| `McpConnections.DisconnectPanicsIff` | internal/mcp/service.go:67-77 | Disconnecting panics exactly if the server is known and the manager was closed before its initial connect was over. |
| `McpConnections.ClosedEarlyNeverMade` | internal/mcp/manager.go:150-157 | Closing before the initial connect is over leaves the maps missing for ever. |
| `McpConnections.MapsMissingIff` | internal/mcp/manager.go:149-190 | Once the initial connect is over, the maps are missing exactly if the manager was closed before that. |
| `McpConnections.DisconnectAfterEarlyClose` | internal/mcp/service.go:67-77 | A run with one configured server in which disconnecting it panics. |
| `McpConnections.ListedHaveClientsIff` | internal/mcp/manager.go:501-506 | In every run, each server with a cached list has a client exactly while the manager is open or caches no list. |
| `McpConnections.ListOutlivesClient` | internal/mcp/manager.go:501-506 | A run that ends with a cached list and no client. |
| `McpOutcomes.DisconnectForgets` | internal/mcp/service.go:67-77 | In every run with a manager not closed too early: a known server ends disabled and in no cache, its connection is closed, and no other server changes. |
| `McpOutcomes.ConnectCaches` | internal/mcp/service.go:225-238 | A call that connected makes its connection the cached one, with its lists and status, and closes the one it replaces and no other. |
| `McpOutcomes.UnconnectedMarks` | internal/mcp/service.go:201-223 | A call without a connection leaves the server in no cache, as disabled or failed. |
| `McpOutcomes.LateCommitChangesNothing` | internal/mcp/service.go:203-208 | Once the manager is closed, a call that ends changes nothing but itself. |
| `McpOutcomes.ReconnectBegins` | internal/mcp/service.go:194-212 | A reconnect dials exactly if the manager is open and the server enabled. |
| `McpOutcomes.DialMakesConnection` | internal/mcp/service.go:212-214 | A dial that succeeds makes one connection nobody had, one that fails makes none. |
| `McpOutcomes.InitialStatusIff` | internal/mcp/manager.go:159-187 | After the initial connect every configured server has the status of its own dial, and the connected ones are in the caches. |
| `McpOutcomes.CloseHandsOver` | internal/mcp/manager.go:501-509 | The close hands over exactly the cached connections and leaves lists, statuses and calls alone. |
| `McpOutcomes.ShutIff` | internal/mcp/service.go:225-266 | A connection is closed exactly by being dropped or discarded after a close, by being replaced, by a disconnect, or by the close, and stays closed. |
| `McpOutcomes.ClosedIff` | internal/mcp/manager.go:501-503 | The manager is closed exactly if somebody closed it. |
| `McpOutcomes.KnownIff` | internal/mcp/service.go:23-42 | A server is known exactly if it was configured when the initial connect began, or added since. |
| `McpFreshness.PublishedFreshIff` | internal/mcp/manager.go:260-303 | When a connection is published, its list is the newest exactly if the list did not change since the dial read it. |
| `McpFreshness.ChangeIsLost` | internal/mcp/manager.go:264-301 | A run in which an announced change is dropped, with nothing under way to pick it up. |
| `McpFreshness.ChangeIsFetched` | internal/mcp/manager.go:277-303 | A change announced to a cached connection starts a refresh, which by itself ends with the newest list in the cache. |
| `McpFreshness.SurelyFreshIff` | internal/mcp/manager.go:290-303 | Whatever order the refreshes finish in, the cache ends with the newest list exactly if none has read an older one, and, with none under way, it has it already. |
| `McpManager.Manager.CloseCached` | internal/mcp/service.go:259-266 | Closes and forgets what is cached. |
| `McpManager.Manager.EnsureMaps` | internal/mcp/service.go:242-255 | Makes each of the four maps that does not exist. |
| `McpManager.Manager.BeginConnect` | internal/mcp/manager.go:151-157 | Takes the step that begins the initial connect, with the configured servers. |
| `McpManager.Manager.Add` | internal/mcp/service.go:34-41 | Takes the step that makes a server known. |
| `McpManager.Manager.PublishStatus` | internal/mcp/service.go:201-223 | Publishes a status without a connection unless closed. |
| `McpManager.Manager.PublishConn` | internal/mcp/service.go:225-238 | Publishes a connection, or tells the caller to close it. |
| `McpManager.Manager.PublishAll` | internal/mcp/manager.go:179-188 | Publishes the initial connect, or tells the caller to close its connections. |
| `McpManager.Manager.Disconnect` | internal/mcp/service.go:67-77 | Refuses an unknown server, or takes the step of a disconnect, with its panic; without it the server is disabled and in no cache, and its connection is closed. |
| `McpManager.Manager.Refresh` | internal/mcp/manager.go:297-303 | Stores a list only for the connection that is still cached. |
| `McpManager.Manager.Close` | internal/mcp/manager.go:501-506 | Marks the manager closed and takes the connections to close. |
| `McpTools.FlatNameKeepsWords` | internal/mcp/manager.go:18-22 | A flattened name keeps letters, digits, underscores and hyphens in their places, and has an underscore for everything else and between server and tool. |
| `McpTools.SameNameIff` | internal/mcp/manager.go:18-22 | Two tools of one server share a name exactly if they differ only in characters that become underscores. |
| `McpTools.Dedupe` | internal/mcp/manager.go:333-341 | The in-place loop keeps the first entry of every name. |
| `McpTools.FirstPerNameIsLeast` | internal/mcp/manager.go:317-341 | On a sorted list that is strictly sorted by name, with the least server for every name. |
| `McpTools.FlatToolsSpec` | internal/mcp/manager.go:320-342 | The list has exactly the names of the connected tools, strictly sorted, each from the least server that has it. |
| `McpTools.FlatToolsDeterministic` | internal/mcp/manager.go:320-342 | Whatever the iteration order and the sort, names and servers are the same, and the whole list if no server has a name twice. |
| `McpTools.ListVariesIff` | internal/mcp/manager.go:317-332 | Taking any sorted permutation for the result, another one lists another tool exactly if the least server of some name has it for two tools. |
| `McpTools.ListsDifferIff` | internal/mcp/manager.go:317-332 | With some sort, a function of its input, two orders of iterating the servers list different tools exactly if the tools are ambiguous and two servers have any. |
| `McpTools.AmbiguousTools` | internal/mcp/manager.go:322-326 | Such tools: "a.b" and "a_b" of one server, beside a second server. |
| `McpTools.HasTool` | internal/mcp/manager.go:416-426 | True exactly if the name is listed. |
| `McpTools.CallTool` | internal/mcp/manager.go:432-446 | Finds the client and tool of a name. |
| `McpTools.AgreeIff` | internal/mcp/manager.go:416-446 | Listing, check and dispatch agree on every name exactly if each listed server has a client. |
| `McpListing.AgreeOverRunsIff` | internal/mcp/manager.go:416-446 | In every run, listing, check and dispatch agree on every name exactly while the manager is open or lists nothing. |
| `McpListing.ListedNotCalled` | internal/mcp/manager.go:432-446 | A run after which a listed tool is not dispatched. |
| `McpTools.CallReachesListedTool` | internal/mcp/manager.go:317-319 | With the same servers in both maps, a listed name is dispatched to the listed tool. |
| `OAuthRefresh.RunKeepsInv` | internal/oauth/access.go:51-104 | The protocol's invariant holds in every interleaving. |
| `OAuthRefresh.OneRefreshPerProvider` | internal/oauth/access.go:179-189 | At most one refresh runs per provider. |
| `OAuthRefresh.FlightSharesOutcome` | internal/oauth/access.go:181-185 | Everyone in a flight gets its outcome. |
| `OAuthRefresh.NoWaiterForgotten` | internal/oauth/access.go:191-199 | Who joined a flight can go on, or a live caller is in charge of it. |
| `OAuthRefresh.NoTokenReplayed` | internal/oauth/access.go:33-38 | With a rotating server whose replies arrive, refreshes that do not crash, successful writes, and reads that see them, no used-up refresh token is presented again. |
| `OAuthRefresh.UsedTokenStaysStoredIff` | internal/oauth/access.go:84-97 | A used-up token stays stored exactly if the reply was lost, the refresh crashed, the server did not rotate, or the write failed. |
| `OAuthRefresh.StoredUsedTokenIsReplayed` | internal/oauth/access.go:51-99 | A used-up token that is read is presented by the next caller that finds the record expiring. |
| `OAuthRefresh.LostReplyReplays` | internal/oauth/access.go:84-87 | A run that replays after one lost reply. |
| `OAuthRefresh.EnvironmentReplaysIff` | internal/credstore/credstore.go:26-41 | With credentials from the environment, some run in which nothing goes wrong replays a token exactly if one of those records can be refreshed and is due. |
| `OAuthRefresh.EnvironmentReplays` | internal/credstore/credstore.go:51-63 | That run: two good refreshes one after the other. |
| `OAuthRefresh.SignOutIsFinalIff` | internal/credstore/credstore.go:65-72 | A sign-out is final exactly if no flight of the provider is between reading its token again and storing the next, and the environment does not supply the credential. |
| `OAuthRefresh.FirstReadIsStale` | internal/oauth/access.go:70-83 | A caller that decided during another flight leads the next one with a used-up token in hand, so the second read is needed. |
| `OAuthRefresh.TwoCallersDecide` | internal/oauth/access.go:51-83 | Such a state is reached by two callers that find an expired record. |
| `OAuthOutcomes.CallAnswers` | internal/oauth/access.go:56-66 | In every run: a call comes back at once with the stored access token exactly if that is good for two more minutes, with no token exactly if none is stored, and with an error exactly if the stored one is due and has no refresh token; otherwise it goes on with that. |
| `OAuthOutcomes.OutcomeIsVerdict` | internal/oauth/access.go:56-99 | A call that ends by itself or leads a flight comes back with what the records it read, the replies and the writes settled first, the granted access token among them. |
| `OAuthOutcomes.WaiterGetsVerdict` | internal/oauth/access.go:181-199 | A call that waited comes back with what the flight's leader came to. |
| `OAuthOutcomes.JoinsIff` | internal/oauth/access.go:179-189 | A call that has to refresh joins a flight exactly if somebody leads one for its provider, and that one. |
| `OAuthOutcomes.StoredIsGranted` | internal/oauth/access.go:88-98 | A write stores what the server granted, with the token presented if none came back, and keeps the other credentials. |
| `OAuthOutcomes.SignInStores` | internal/credstore/credstore.go:57-72 | Signing in stores one credential and signing out removes one; the others stay as they are read. |
| `OAuthOutcomes.PresentUses` | internal/oauth/access.go:84-87 | Presenting a token uses it up unless it is rejected, and is a replay exactly if it was used up before. |
| `OAuthAccess.Service.Enter` | internal/oauth/access.go:179-189 | Joins the flight of a provider or starts one. |
| `OAuthAccess.Service.Leave` | internal/oauth/access.go:194-199 | Ends the flight and wakes its waiters. |
| `OAuthAccess.Service.ExchangeAndStore` | internal/oauth/access.go:84-98 | Exchanges the token and stores what is granted, keeping the old refresh token if none came. |
| `OAuthAccess.Service.Refresh` | internal/oauth/access.go:70-99 | Reads the record again and refreshes only if that is still due; the outcome is the token of the record, the error for it, or the token granted. |
| `EventFanout.RunKeepsInv` | internal/bus/bus.go:62-94 | The invariant holds after every run. |
| `EventFanout.SubscriberGetsItsPart` | internal/bus/bus.go:79-89 | What a subscriber took and has waiting is the events since it subscribed, in order, without exactly those that were lost to it. |
| `EventFanout.ClosedIsFinal` | internal/bus/bus.go:68-76 | A closed channel stays closed and gets nothing; unsubscribing again does nothing. |
| `EventDelivery.LostIffFull` | internal/bus/bus.go:81-89 | An event is lost to a subscriber exactly if 256 events wait for it when it is published, and is queued last otherwise. |
| `EventDelivery.LogIsPublished` | internal/bus/bus.go:81-89 | The history all these speak of is every event published, in order. |
| `EventDelivery.SubscribeOpens` | internal/bus/bus.go:62-67 | A new subscriber has an open, empty channel nobody had, from the present on; the others keep theirs. |
| `EventDelivery.SubscribedIff` | internal/bus/bus.go:62-76 | A subscriber stays one exactly until it unsubscribes. |
| `EventDelivery.UnsubscribeCloses` | internal/bus/bus.go:68-76 | Unsubscribing closes exactly that channel with what it holds, for good. |
| `EventDelivery.TakeGivesOldest` | internal/bus/bus.go:58-62 | Taking moves the event that waits longest and nothing else. |
| `EventBus.Bus.Subscribe` | internal/bus/bus.go:62-67 | Registers a new open channel. |
| `EventBus.Bus.Unsubscribe` | internal/bus/bus.go:68-76 | Removes and closes the channel once. |
| `EventBus.Bus.Publish` | internal/bus/bus.go:81-89 | Offers the event to every subscriber, in any order. |
| `EventBus.Bus.Take` | internal/bus/bus.go:58-62 | A subscriber gets its events in order. |
| `EventBus.Clients.Connect` | internal/bus/bus.go:129-133 | Counts a connection. |
| `EventBus.Clients.Release` | internal/bus/bus.go:133-140 | The first release of a connection uncounts it, further ones do nothing, so the count is always that of the connections not released. |
| `ConnectedClients.NobodyConnectedIff` | internal/bus/bus.go:112-118 | The count is 0 exactly if every connection was released. |
| `EventForwarding.EveryPublishIsForwardedOnce` | internal/bus/bus.go:81-94 | The global bus has carried every event of an instance as often as it was published, but for publishers under way, in any interleaving. |
| `EventForwarding.LogIsPublished` | internal/bus/bus.go:81-89 | What an instance bus carried is what was published on it, in order. |
| `EventForwarding.ForwardAllEffect` | internal/bus/bus.go:91-93 | Publishers that go on in some order append their events in that order. |
| `EventForwarding.SerialPublishersKeepOrder` | internal/bus/bus.go:81-94 | If publishes on an instance do not overlap, the global bus carries them in order. |
| `EventForwarding.OverlapCanSwap` | internal/bus/bus.go:89-93 | Two overlapping publishes can reach the global bus in the other order. |
| `EventForwarding.SwapReached` | internal/bus/bus.go:89-93 | A run that ends with two events swapped. |
| `EventForwarding.OrderCertainIff` | internal/bus/bus.go:81-94 | From any state of any run, every order in which the publishers under way go on ends with the instance's order exactly if that holds so far and they all carry the same event. |
| `Pruning.CandidatesHas` | internal/engine/compaction.go:45-67 | The walk collects exactly the completed outputs, other than of "skill" and not compacted, with two user messages and no summary from their message on. |
| `Pruning.CandidateIff` | internal/engine/compaction.go:45-67 | The same test by test, without the walk: two later messages of the user, no later summary, and a readable, completed, unmarked output of another tool than "skill". |
| `Pruning.CutIsLeast` | internal/engine/compaction.go:68-75 | The protected candidates reach 40000 tokens, unless they are all, and no fewer would. |
| `Pruning.GivenUpIff` | internal/engine/compaction.go:68-91 | By position: an output is given up exactly if it is a candidate with 40000 tokens of candidates ahead of it, and all such together exceed 20000. |
| `Pruning.PruningBounds` | internal/engine/compaction.go:20-31 | More than 20000 tokens go, at least 40000 stay, and the last that stays was needed. |
| `Pruning.PruningInBytes` | internal/engine/compaction.go:20-31 | In bytes of output: more than 80000 go, at least 160000 stay, and but for the rounding no more than needed. |
| `Pruning.OnlyCandidatesChange` | internal/engine/compaction.go:84-91 | A run changes exactly the parts given up, and only by marking them. |
| `Pruning.PruneIsIdempotent` | internal/engine/compaction.go:32-92 | A second run changes nothing. |
| `Pruning.CandidateOrder` | internal/engine/compaction.go:46-66 | Candidates come newest message first, and within one message oldest part first. |
| `Pruning.MostRecentStaysIff` | internal/engine/compaction.go:28-31 | What stays is newer than what goes exactly if the cut is not between two outputs of one message. |
| `Pruning.OlderOutputStays` | internal/engine/compaction.go:28-31 | Of two outputs of one message the earlier can stay and the later go. |
| `Compaction.Session.Collect` | internal/engine/compaction.go:44-67 | The backward walk collects the candidates. |
| `Compaction.FindCut` | internal/engine/compaction.go:68-75 | The loop finds the cut. |
| `Compaction.Session.TokensFrom` | internal/engine/compaction.go:76-79 | The loop adds up what would go. |
| `Compaction.Session.MarkFrom` | internal/engine/compaction.go:87-91 | The loop marks what goes. |
| `Compaction.Session.Prune` | internal/engine/compaction.go:32-92 | Leaves the messages as the specification says. |
| `Compaction.HasCompactionPart` | internal/engine/compaction.go:370-377 | True exactly if a part asks for compaction. |
| `Compaction.TurnsAre` | internal/engine/compaction.go:347-357 | The turns counted are the messages of the user without a compaction part. |
| `Compaction.SelectTail` | internal/engine/compaction.go:347-368 | Splits history so that exactly the wanted number of turns stays, starting with one; the head is empty exactly if there are no more turns than that. |
| `SortableId.DigitsOrder` | internal/id/id.go:72-78 | Fixed-width hexadecimal digits compare as the numbers they keep. |
| `SortableId.DigitsReadBack` | internal/id/id.go:72-78 | The digits are lower-case hexadecimal, and reading them gives back the number they keep. |
| `SortableId.SortsByCode` | internal/id/id.go:66-78 | Identifiers with one prefix sort as their codes modulo 2^48, descending ones the other way, whatever the random part. |
| `SortableId.CodesGrowIff` | internal/id/id.go:57-66 | Codes grow from call to call exactly if the clock stands still or moves on far enough for what a millisecond was asked. |
| `SortableId.CodeCounts` | internal/id/id.go:57-66 | A code is 4096 times the time, and the number of calls in a row that had it so far. |
| `SortableId.SteadyClockSorts` | internal/id/id.go:42-47 | With a clock that does not go back, at most 4096 identifiers a millisecond and codes in one window, identifiers sort by creation. |
| `SortableId.SortsChronologicallyIff` | internal/id/id.go:42-47 | Of two codes less than a window apart the later sorts later exactly if no multiple of the window is between them. |
| `SortableId.WindowEnds` | internal/id/id.go:42-47 | Two identifiers made a millisecond apart, on 14 August 2026, that sort backwards. |
| `SortableId.ByteAt` | internal/id/id.go:73-76 | Shifting and masking picks the bytes from the highest down. |
| `SortableId.HexOfBytes` | internal/id/id.go:78 | Formatting the bytes gives the digits of the number. |
| `SortableId.TimeHex` | internal/id/id.go:73-76 | The loop fills the six bytes. |
| `SortableId.Generator.Create` | internal/id/id.go:52-79 | Advances clock and counter and returns the identifier of the new code. |
| `PushRate.MapRemembers` | internal/push/relay.go:161-176 | An entry of the map is the time of its key's last permit, as long as no call since came a window later. |
| `PushRate.DeniedIff` | internal/push/relay.go:166-173 | For any clock, a call is denied exactly if its last permit is recent and was never evicted. |
| `PushRate.ForgettingIsSafeIff` | internal/push/relay.go:156-160 | The evicting limiter answers every call like one, defined by itself, that remembers every push it allowed, for all keys, exactly if the clock never falls back below a window it has passed. |
| `PushRate.OnePushPerWindow` | internal/push/relay.go:13-16 | With a clock that does not go back, two permits for a key are a window apart and a denial has a permit less than a window before it. |
| `PushRate.SharedLimitIff` | internal/push/relay.go:162 | Two pairs share a limit exactly if they are equal or a separator inside them reads either way. |
| `PushRate.TwoPairsShareALimit` | internal/push/relay.go:162 | Two different pairs with one limit. |
| `PushRelay.Relay.Allow` | internal/push/relay.go:161-176 | The eviction loop and the decision, in any order of the map. |
| `PushGrace.Run` | internal/push/relay.go:83-117 | The loop pushes the events the specification says. |
| `PushGrace.PushedIff` | internal/push/relay.go:94-117 | A wanted event is pushed exactly if no client is connected and the latest leave the relay saw is five seconds old. |
| `PushGrace.HeldBackAfterDropIff` | internal/push/relay.go:18-21 | An event within five seconds of a drop is held back exactly if the event before the drop saw the client or an earlier leave is still recent. |
| `PushGrace.UnseenClientGivesNoGrace` | internal/push/relay.go:83-85 | A client no event was handled during gives no grace. |
| `FuzzyMatch.GreedyIsLeftmost` | internal/server/fuzzy.go:80-98 | The scan is never behind another way to match a beginning of the query. |
| `FuzzyMatch.GreedyMatchesIff` | internal/server/fuzzy.go:80-102 | The scan matches exactly the subsequences, and leftmost. |
| `FuzzyMatch.ScoreIsLeftmost` | internal/server/fuzzy.go:78-102 | The score is decided by the leftmost embedding of the longest beginning of the query: a panic, no match, or its worth. |
| `FuzzyMatch.OneScore` | internal/server/fuzzy.go:78-102 | There is only one such score. |
| `FuzzyMatch.PointsAre` | internal/server/fuzzy.go:84-98 | A match is worth one for every character, five for each right behind the one before, and eight for each that starts a word. |
| `FuzzyMatch.PanicsIff` | internal/server/fuzzy.go:80-118 | Some query makes the scan panic exactly if lower-casing made the text longer, but for one byte after a separator. |
| `FuzzyMatch.OwnTextPanicsIff` | internal/server/fuzzy.go:80-118 | The same condition decides whether the lowered text panics as a query for itself. |
| `FuzzyMatch.LetterPanics` | internal/server/fuzzy.go:80-118 | A letter whose lower case is longer, and a query that panics on it. |
| `FuzzyMatch.SubseqScore` | internal/server/fuzzy.go:80-102 | The loop computes that score, for any lower-casing. |
| `FuzzyMatch.BaseIsLastSegment` | internal/server/fuzzy.go:61 | The last segment is what follows the last slash. |
| `FuzzyMatch.ScoreIsBetter` | internal/server/fuzzy.go:56-76 | A path scores the better of its last segment, with 30 more, and the whole, less an eighth of its length; nothing exactly if neither matches. |
| `FuzzyMatch.FuzzyAcceptsIff` | internal/server/fuzzy.go:53-76 | Unless it panics, a path is accepted exactly if the query is a subsequence of the whole lowered path. |
| `FuzzyMatch.AsciiAcceptsIff` | internal/server/fuzzy.go:48-76 | On ASCII text nothing panics, and the accepted paths are exactly those that contain the query as a subsequence. |
| `FuzzyMatch.FindMatches` | internal/server/fuzzy.go:18-23 | The loop collects the matches with their scores, unless one panics. |
| `FuzzyMatch.AnyPanicsIff` | internal/server/fuzzy.go:12-76 | Some query makes the ranking panic exactly if an item or its last segment outgrows itself. |
| `FuzzyMatch.RankingIsTotal` | internal/server/fuzzy.go:24-32 | The ranking is a total order: only equal entries tie. |
| `FuzzyMatch.RankFuzzy` | internal/server/fuzzy.go:12-41 | Returns the first matches up to the limit, none left out ranking before them; panics exactly if an item does or the limit is negative. |
| `FuzzyMatch.TopOutranks` | internal/server/fuzzy.go:24-40 | What is shown are accepted items, each before those that score lower, or as much and are longer, or as long and later in the alphabet; what is left out comes after, and nothing is unless the limit is reached. |
| `FuzzyMatch.RankingIgnoresOrder` | internal/server/fuzzy.go:12-41 | The result does not depend on the order of the items. |
| `SetNormalize.Distincts` | conformance/normalize/normalize.go:252-260 | The loop keeps the first element of each canonical form. |
| `SetNormalize.CollapseToSet` | conformance/normalize/normalize.go:251-263 | Distinct elements in the order of their forms, with exactly the forms of the array. |
| `SetNormalize.AlikeIffSameSet` | conformance/normalize/normalize.go:229-245 | Two arrays come out alike exactly if their sets of forms are equal; with an injective form, if their sets of elements are. |
| `SetNormalize.SortArray` | conformance/normalize/normalize.go:339-346 | The sorted array is a permutation in the order of the forms. |
| `SetNormalize.AlikeIffPermuted` | conformance/normalize/normalize.go:336-346 | Sorted arrays come out alike exactly if they have the same forms equally often; with an injective form, if they are permutations. |

## Left out

- Channels are values in a map of the object, each with its queue and whether it is closed, and not objects of their own.
- HTTP and WebSocket handlers, routing, SSE, command lines, the user interface and the benchmark and conformance drivers.
- Processes, signals, sockets, files, the database and the network: their operations are steps that succeed or fail.
- Timeouts and cancellation by time are steps that are always possible; that something happens eventually is not stated.
- Integers are unbounded: the request ids of the bridge do not wrap at 2^64, and the product in `internal/id/id.go:66` does not leave 63 bits.
- JSON encoding and decoding: bodies are byte strings, and a frame that does not decode is not modelled.
- `RpcConn`: notifications, and requests from the host, change no modelled state and are not steps.
- `PtyDecoder.DecodeValid`: the check whether text is valid is the grammar, not the library's code.
- `PtySession.Session.OnData`: the critical section and the decoding before it are one step, as only the read loop decodes.
- PTY tickets, input, resizing, and the scroll region.
- `LspSpawning`: what a language server answers after its handshake, and which servers and roots apply to a file.
- `McpConnections`: the authorization flows; adding a server is one step and its connect another.
- `McpTools`: the sort is any sorted permutation, or any function to one; which one the library computes is left out. Descriptions and schemas of a tool are one opaque value.
- `OAuthRefresh.NeedsRefresh`: the expiry claim of an access token is a field of the record; decoding the token is left out.
- `OAuthRefresh`: the account id of a credential, and a provider that is not known.
- `EventForwarding`: instance buses without a global bus, and the fields of the envelope beside the origin.
- `Compaction.Session.Prune`: listing the messages and writing a part back succeed; the code ignores a write that fails.
- Building a summary, its prompt, the detection of a pending compaction, and the engine's loop.
- `PushRelay.Relay.Allow`: sending, the device store and the removal of unregistered devices.
- `FuzzyMatch.FuzzyAcceptsIff`: lower-casing is any function that works on each side of the last slash by itself, as the library's does; which function it is, outside ASCII, is left out.
- `FuzzyMatch.RankFuzzy`: the library's sort is an insertion sort.
- `SetNormalize`: replacing volatile fields, paths and timestamps comes before and is left out; the elements are arbitrary values with a canonical form.
- Configuration, agents, credentials, storage, permissions, worktrees, and discovery on the network.
