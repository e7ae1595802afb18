# Verified models of matter.js platform code

Dafny models of the protocols, allocators and tree transformations that sit at the edges of matter.js: the BLE central
and peripheral, web socket streams, the shell's controller node, test descriptors and their virtual filesystem, text
wrapping, command line locations, endpoint allocation and the chip-tool web socket shim.

`dafny verify dfyconfig.toml` checks the project.  Nothing in it was executed.

| files | what they model |
|---|---|
| `BleCentral`, `BleCentralSafety`, `BleCentralRuns`, `BleCentralPromises`, `BleCentralInterface` | connection attempts of the BLE central: slots, guards, timers, aborts, retries and channel hand-over, as interleaved steps; the invariants; what every run promises; what each callback promises; the object whose closures take those steps |
| `BleChannelIterator` | the message iterator of an open BLE channel |
| `BlenoAdvertising` | the advertising life cycle of the BLE peripheral |
| `WebSocketReadable` | the readable half of a web socket as a queue, a gate and a stream |
| `MatterNodeLifecycle` | shared node creation and shared start of the shell's controller node |
| `TestDescriptors`, `TestMerge`, `TestFilter`, `TestFilesystem` | trees of test results: merging runs, filtering, path lookup |
| `EndpointAllocation` | the two passes that number the devices of a test instance |
| `WordWrap`, `TextUnits` | visible width of text and greedy wrapping; what takes a column, and what becomes of the units of a text |
| `Locations`, `LocationComposition`, `LocationPaths` | lookup in a possibly cyclic graph of objects; when looking up a path in two parts is the same; a location's own path and the joining of paths |
| `ChipToolCodec`, `ChipToolBitmap` | conversion of values and bitmaps for the chip-tool web socket |
| `Options`, `Paths`, `Decimals`, `Numerals`, `Int32`, `Base64`, `Base64Bits` | shared vocabulary: optional values, paths, texts of numbers and what `parseInt` accepts, 32-bit operators, Base64 and what its text means |

An asynchronous component is a state with a function that takes one step.  A step is the code between two awaits, or one
listener or timer callback.  Every interleaving of enabled steps is a run, and the results hold for every run.  Where
the source updates an object in place there is a class with its fields.  `Valid()` says that the fields are in a state
which a run reaches.  A method that "takes a step" keeps `Valid()` and extends that run by exactly the event named, and
its contract draws from the results about all runs what the caller of that method is promised.

Some natural expectations do not hold of the code.  For each the exact condition is proved, with an input that shows
the failure:

- A second `next` on a channel iterator while one is waiting leaves the first unanswered for ever
  (`AnsweredIffOneAtATime`, `OverlappedIsNeverAnswered`, `SecondCallLosesFirst`).
- `stopAdvertising` does not retract an `advertise` call that still waits for the end of an earlier advertisement, and
  `close` retracts nothing (`StopSilencesIff`, `WaitingCallSurvivesStop`, `CloseSilencesIff`, `ClosedServerBroadcasts`).
- `wrap` glues words together after a word without a visible column, such as an unfinished escape sequence
  (`WordsSurviveIff`, `UnfinishedEscapeGlues`).
- `wrap` counts a line wider than it is after a word that cuts an escape sequence or a character off, and then may use
  more lines than needed (`LineFits`, `VisiblyOptimalIff`, `CutOffEscapeCostsALine`).
- Merging a run that names two siblings alike loses the paths of the earlier one that neither the later one nor the
  previous tree has (`NoPathLostIff`, `ShadowedSiblingIsLost`).
- A multi-bit bitmap field is read back by its lowest bit only, and a member without a name not at all
  (`BitmapRoundTripIff`, `EvenFieldIsLost`).
- A string that looks like a number or is "null", and a microsecond time given as an ordinary number, come back changed
  from the chip-tool codec (`RoundTripIff`, `NumeralStringChanges`, `NullStringChanges`, `MicrosecondsChange`); the text
  "1" never makes a boolean true (`BooleanText`, `OneIsNoBoolean`).
- Looking up `a/b` is not always looking up `a` and then `b`.  An empty segment starts over at the root unless it is the
  last segment or stands in a run of segments that began with ".", although the comment in the source says this does not
  happen on recursion.  So a trailing slash in `a`, and a dot before an absolute `b`, break the composition
  (`EmptySegmentInside`, `RelativeComposesIff`, `AbsoluteComposesIff`, `PairComposesIff`, `TrailingSlashBreaks`,
  `DotBreaks`).  Over single pairs the condition is exact for a relative `a` and a `b` without restarts of its own; past
  an absolute `a` a pair may compose by accident of the names it uses (`ComposesWithoutJoining`).
- Joining a relative path to the empty path makes it absolute (`JoinedPathsComposeIff`, `JoinedToNothing`).

## Model

| member | source | states |
|---|---|---|
| `BleCentralSafety.StepKeepsInv` | packages/nodejs-ble/src/NobleBleChannel.ts:104-509 | every step of any attempt, timer, abort or peripheral event keeps the ownership, retry-chain and channel invariants of all attempts |
| `BleCentralRuns.RunKeepsInv` | packages/nodejs-ble/src/NobleBleChannel.ts:104-509 | those invariants hold after every interleaving of steps |
| `BleCentralRuns.OthersUnchanged` | packages/nodejs-ble/src/NobleBleChannel.ts:294-297 | code an attempt runs changes no other attempt, except that a retry's result settles the attempt it retries if that was unsettled |
| `BleCentralRuns.ReservedIffOwned` | packages/nodejs-ble/src/NobleBleChannel.ts:175-192 | in every run an address is reserved exactly when an attempt owns it, and at most one does |
| `BleCentralRuns.OnlyOwnerReleases` | packages/nodejs-ble/src/NobleBleChannel.ts:182-192 | however other attempts resume, a reservation stays until the attempt that made it acts |
| `BleCentralRuns.AcceptedIff` | packages/nodejs-ble/src/NobleBleChannel.ts:114-180 | a call gets past the entry checks exactly when the interface is open and in use, the BLE address is known and not connected, the caller has not aborted and no attempt owns the address |
| `BleCentralRuns.GivingUpRejects` | packages/nodejs-ble/src/NobleBleChannel.ts:200-256 | a timeout or abort that fires always rejects its attempt with its own error and frees its slot, guard, timers and listeners |
| `BleCentralRuns.LetGo` | packages/nodejs-ble/src/NobleBleChannel.ts:200-298 | an attempt that is settled or handed over to a retry holds neither its slot nor its guard |
| `BleCentralRuns.ClosedAcceptsNone` | packages/nodejs-ble/src/NobleBleChannel.ts:498-509 | once the interface is closed no later attempt gets past the entry checks, so nothing new is reserved |
| `BleCentralRuns.SettlesOnce` | packages/nodejs-ble/src/NobleBleChannel.ts:119-136 | a settled promise keeps its outcome through every continuation of a run |
| `BleCentralRuns.RetriedOnce` | packages/nodejs-ble/src/NobleBleChannel.ts:275-311 | no attempt is retried twice, in whatever order connect errors, rejections, disconnects and handshake failures come |
| `BleCentralRuns.AtMostThreeTries` | packages/nodejs-ble/src/NobleBleChannel.ts:153-161 | one `openChannel` call makes at most three tries that did not find the peripheral disconnecting |
| `BleCentralRuns.HolderResolved` | packages/nodejs-ble/src/NobleBleChannel.ts:294-297 | a resolved attempt's channel is the outcome of every promise up the retry chain that it has reached |
| `BleCentralRuns.DeliveredOrClosed` | packages/nodejs-ble/src/NobleBleChannel.ts:393-421 | every channel that was created has been closed and handed to nobody, or has reached the original caller's promise, or is on its way up with the hand-over pending and the promise above unsettled |
| `BleCentralRuns.ResolvesWithOwnChannel` | packages/nodejs-ble/src/NobleBleChannel.ts:393-407 | a promise resolves only with a channel made for its own call that has not been closed again |
| `BleCentralRuns.NobodyStranded` | packages/nodejs-ble/src/NobleBleChannel.ts:200-298 | in every run an unsettled attempt has a running timer, a pending handshake or clean-up, or a live retry |
| `BleCentralRuns.EveryoneCanSettle` | packages/nodejs-ble/src/NobleBleChannel.ts:200-298 | from every state of every run a finite continuation of timeouts, handshake and clean-up results and hand-overs settles an unsettled attempt |
| `BleCentralPromises.StepPromise` | packages/nodejs-ble/src/NobleBleChannel.ts:104-509 | every step of every run keeps what is promised for its event, each promise written out: which attempt is added, for whom and whether it gets past the entry checks; who is rejected with which error; what a retry, an interview, a handshake or a failed link leads to; and that no other attempt and no settled promise changes |
| `BleCentralPromises.RetryStartsIff` | packages/nodejs-ble/src/NobleBleChannel.ts:275-298 | in every run, whatever makes an attempt fail, its retry is for the same address, signal and caller with the next try number, and gets past the entry checks exactly when the interface is open and in use, the signal has not aborted, fewer than three tries were made, the peripheral is known, and its address has no open channel and no other owner |
| `BleCentralInterface.NobleBleCentralInterface.constructor` | packages/nodejs-ble/src/NobleBleChannel.ts:92-102 | starts a run |
| `BleCentralInterface.NobleBleCentralInterface.ReservedMeansOwned` | packages/nodejs-ble/src/NobleBleChannel.ts:179-192 | in every state of the object an address is reserved exactly when an attempt owns it |
| `BleCentralInterface.NobleBleCentralInterface.CallOnData` | packages/nodejs-ble/src/NobleBleChannel.ts:491-496 | the interface is in use, and nothing else changes |
| `BleCentralInterface.NobleBleCentralInterface.SignalAborts` | packages/nodejs-ble/src/NobleBleChannel.ts:247-256 | the signal counts as aborted, and nothing else changes |
| `BleCentralInterface.NobleBleCentralInterface.CallOpenChannel` | packages/nodejs-ble/src/NobleBleChannel.ts:104-180 | one more attempt for the call and nothing else; it is started exactly when the interface is open and in use, the BLE address is known, not connected and owned by no attempt, and the caller has not aborted, and is refused for the first entry check that fails otherwise |
| `BleCentralInterface.NobleBleCentralInterface.StartAttempt` | packages/nodejs-ble/src/NobleBleChannel.ts:108-236 | adds one attempt, linked to the attempt it retries: refused for the first entry check that fails, or accepted with slot, guard and what the peripheral's state asks for |
| `BleCentralInterface.NobleBleCentralInterface.CallClose` | packages/nodejs-ble/src/NobleBleChannel.ts:498-509 | the interface is closed and has no open channels, and nothing else changes |
| `BleCentralInterface.NobleBleCentralInterface.ReTryHandler` | packages/nodejs-ble/src/NobleBleChannel.ts:275-298 | gives up guard, slot and listeners and starts exactly one further attempt |
| `BleCentralInterface.NobleBleCentralInterface.OnAbort` | packages/nodejs-ble/src/NobleBleChannel.ts:247-256 | the attempt is rejected as aborted and holds nothing any more |
| `BleCentralInterface.NobleBleCentralInterface.OnConnectTimeout` | packages/nodejs-ble/src/NobleBleChannel.ts:204-211 | the attempt is rejected with the connect timeout and holds nothing any more |
| `BleCentralInterface.NobleBleCentralInterface.OnDisconnectTimeout` | packages/nodejs-ble/src/NobleBleChannel.ts:212-218 | the attempt is rejected with the disconnect timeout and holds nothing any more |
| `BleCentralInterface.NobleBleCentralInterface.OnInterviewTimeout` | packages/nodejs-ble/src/NobleBleChannel.ts:221-234 | the attempt is rejected with the interview timeout and holds nothing any more |
| `BleCentralInterface.NobleBleCentralInterface.OnConnect` | packages/nodejs-ble/src/NobleBleChannel.ts:300-322 | the interview begins if the attempt is still guarded and the interface in use; it is rejected if nobody listens, and left alone if it had been abandoned; no attempt is started |
| `BleCentralInterface.NobleBleCentralInterface.OnConnectError` | packages/nodejs-ble/src/NobleBleChannel.ts:300-311 | if the attempt was still guarded it lets everything go and exactly one retry of it is added, for the same address and signal with the next try number; otherwise nothing happens |
| `BleCentralInterface.NobleBleCentralInterface.OnConnectAsyncRejected` | packages/nodejs-ble/src/NobleBleChannel.ts:479-486 | the same after a rejected `connectAsync` |
| `BleCentralInterface.NobleBleCentralInterface.OnDisconnect` | packages/nodejs-ble/src/NobleBleChannel.ts:275-298 | the same after a disconnect before the handshake, always, with the exact condition under which the retry starts |
| `BleCentralInterface.NobleBleCentralInterface.OnInterviewResumed` | packages/nodejs-ble/src/NobleBleChannel.ts:320-440 | an abandoned interview ends; another goes on, is retried after a failure, is rejected for missing characteristics, or enters the handshake with its address among the open channels |
| `BleCentralInterface.NobleBleCentralInterface.OnCreated` | packages/nodejs-ble/src/NobleBleChannel.ts:393-407 | the new channel resolves the promise, or is to be closed again if the promise had settled |
| `BleCentralInterface.NobleBleCentralInterface.OnCreateFailed` | packages/nodejs-ble/src/NobleBleChannel.ts:408-421 | the address leaves the open channels; a link still up is taken down first, otherwise exactly one retry is added |
| `BleCentralInterface.NobleBleCentralInterface.OnUnlinked` | packages/nodejs-ble/src/NobleBleChannel.ts:411-435 | exactly one retry is added, with the exact condition under which it starts |
| `BleCentralInterface.NobleBleCentralInterface.OnDiscarded` | packages/nodejs-ble/src/NobleBleChannel.ts:403-435 | the attempt is over, holds nothing and keeps its outcome; no channel comes or goes |
| `BleCentralInterface.NobleBleCentralInterface.OnDiscardFailed` | packages/nodejs-ble/src/NobleBleChannel.ts:403-421 | the address leaves the open channels; a link still up is taken down first, otherwise exactly one retry is added |
| `BleCentralInterface.NobleBleCentralInterface.OnLinkDropped` | packages/nodejs-ble/src/NobleBleChannel.ts:392-392 | the address leaves the open channels, and nothing else changes |
| `BleCentralInterface.NobleBleCentralInterface.OnRetrySettled` | packages/nodejs-ble/src/NobleBleChannel.ts:294-297 | the outcome of the retry settles the attempt it retries, unless that had settled; nothing else changes |
| `BleChannelIterator.RunKeepsInv` | packages/nodejs-ble/src/NobleBleChannel.ts:739-771 | in every run the values taken and the queue together are the messages pushed before termination, and a waiter implies an empty queue |
| `BleChannelIterator.YieldsExactlyAccepted` | packages/nodejs-ble/src/NobleBleChannel.ts:739-771 | the values taken are a prefix of the accepted messages, and all of them once any call reports the end |
| `BleChannelIterator.DoneForever` | packages/nodejs-ble/src/NobleBleChannel.ts:749-771 | promises settle in call order, and after one reported the end every later one does |
| `BleChannelIterator.AnsweredIffOneAtATime` | packages/nodejs-ble/src/NobleBleChannel.ts:749-763 | every call but the waiting one is answered exactly when no call was made while another was waiting |
| `BleChannelIterator.OverlappedIsNeverAnswered` | packages/nodejs-ble/src/NobleBleChannel.ts:749-763 | a call that is waiting when `next` is called again is answered in no continuation |
| `BleChannelIterator.SecondCallLosesFirst` | packages/nodejs-ble/src/NobleBleChannel.ts:749-763 | two calls in a row lose the first for ever |
| `BleChannelIterator.NextYields` | packages/nodejs-ble/src/NobleBleChannel.ts:749-763 | a call takes the next accepted message, and takes none only when all were taken |
| `BleChannelIterator.EventSettles` | packages/nodejs-ble/src/NobleBleChannel.ts:739-771 | what each event settles, in every run: a call is answered at once with the next accepted message, or with the end if there is none and the iterator has ended, and waits otherwise; a waiting call gets the next message or the end |
| `BleChannelIterator.Channel.Receive` | packages/nodejs-ble/src/NobleBleChannel.ts:739-747 | a message goes to the waiting call, if any; it is accepted unless the iterator has ended, and what was accepted is what was taken and what is queued |
| `BleChannelIterator.Channel.Take` | packages/nodejs-ble/src/NobleBleChannel.ts:749-763 | the call gets the next accepted message, or the end if there is none and the iterator has ended, and waits otherwise |
| `BleChannelIterator.Channel.CloseChannel` | packages/nodejs-ble/src/NobleBleChannel.ts:773-785 | the iterator has ended, and a waiting call got the end |
| `BleChannelIterator.Channel.OnDisconnect` | packages/nodejs-ble/src/NobleBleChannel.ts:682-696 | the iterator has ended, and a waiting call got the end |
| `BlenoAdvertising.RunKeepsInv` | packages/nodejs-ble/src/BlenoBleServer.ts:170-186 | every run keeps: data in force is the data installed last, and was broadcast last unless deferred; until the shut-down the adapter broadcasts it while powered on and nothing while not; every waiting `advertise` has a listener that will release it |
| `BlenoAdvertising.NothingStranded` | packages/nodejs-ble/src/BlenoBleServer.ts:352-387 | an advertisement is deferred only with a payload and an adapter that is not powered on; on a powered adapter the payload in force is the one broadcast last, and on the air until the shut-down |
| `BlenoAdvertising.BroadcastsLatest` | packages/nodejs-ble/src/BlenoBleServer.ts:170-186 | a step starts at most one broadcast, with the payload installed last, and does so exactly when the adapter comes on with data in force, or data is installed on an adapter that is on |
| `BlenoAdvertising.SilentIff` | packages/nodejs-ble/src/BlenoBleServer.ts:352-404 | no continuation without another `advertise` broadcasts anything, if and only if no payload is in force and no `advertise` call is waiting |
| `BlenoAdvertising.StopSilencesIff` | packages/nodejs-ble/src/BlenoBleServer.ts:389-404 | `stopAdvertising` silences the server if and only if no `advertise` call is waiting |
| `BlenoAdvertising.StopSilencesUntilInstalled` | packages/nodejs-ble/src/BlenoBleServer.ts:389-404 | after `stopAdvertising` no continuation broadcasts anything until an `advertise` call installs data, whether or not one is waiting |
| `BlenoAdvertising.WaitingCallSurvivesStop` | packages/nodejs-ble/src/BlenoBleServer.ts:352-404 | a run after whose `stopAdvertising` a waiting call still broadcasts |
| `BlenoAdvertising.CloseSilencesIff` | packages/nodejs-ble/src/BlenoBleServer.ts:461-486 | `close` silences the server if and only if nothing was in force or waiting |
| `BlenoAdvertising.ClosedServerBroadcasts` | packages/nodejs-ble/src/BlenoBleServer.ts:170-186 | a run after whose `close` the server still broadcasts when the adapter is powered on again |
| `BlenoAdvertising.ShutDownOnce` | packages/nodejs-ble/src/BlenoBleServer.ts:461-486 | the adapter is shut down at most once, and once the server is closing it has been |
| `BlenoAdvertising.BlenoBleServer.OnStateChange` | packages/nodejs-ble/src/BlenoBleServer.ts:170-186 | a change to powered on broadcasts the data in force, if any, once; one to another state takes it off the air unless the adapter was shut down; repeating the state does nothing |
| `BlenoAdvertising.BlenoBleServer.CallAdvertise` | packages/nodejs-ble/src/BlenoBleServer.ts:352-387 | while advertising, the data in force is retracted and the call waits; otherwise its payload is in force, broadcast on a powered adapter and deferred on any other |
| `BlenoAdvertising.BlenoBleServer.ResumeAdvertise` | packages/nodejs-ble/src/BlenoBleServer.ts:356-387 | the payload that waited is in force, broadcast on a powered adapter and deferred on any other; the other waiting calls stay |
| `BlenoAdvertising.BlenoBleServer.CallStopAdvertising` | packages/nodejs-ble/src/BlenoBleServer.ts:389-404 | nothing is in force, an advertisement on the air is taken off it; nothing is broadcast until data is installed, and nothing more without another `advertise` exactly when no call is waiting |
| `BlenoAdvertising.BlenoBleServer.OnAdvertisingStop` | packages/nodejs-ble/src/BlenoBleServer.ts:396-402 | every waiting call is released with its payload, and the server is not advertising if the stop was awaited |
| `BlenoAdvertising.BlenoBleServer.OnClientDisconnect` | packages/nodejs-ble/src/BlenoBleServer.ts:195-197 | only the advertising flag is cleared |
| `BlenoAdvertising.BlenoBleServer.CallDisconnect` | packages/nodejs-ble/src/BlenoBleServer.ts:477-486 | the adapter has been shut down exactly once, and is off the air since then |
| `BlenoAdvertising.BlenoBleServer.CallClose` | packages/nodejs-ble/src/BlenoBleServer.ts:461-475 | the adapter has been shut down exactly once; the server is silent exactly when nothing is in force or waiting |
| `WebSocketReadable.RunKeepsInv` | packages/nodejs-ws/src/WebSocketStreams.ts:31-114 | every run keeps the gate open when the queue holds something or the socket is closed, and only then unless the stream was cancelled, among the other stream invariants |
| `WebSocketReadable.ChunksArePrefix` | packages/nodejs-ws/src/WebSocketStreams.ts:44-94 | the chunks enqueued are a prefix of the messages received, and without a cancel nothing is missing but the queue |
| `WebSocketReadable.EndsWithEverythingDelivered` | packages/nodejs-ws/src/WebSocketStreams.ts:56-64 | the stream ends or fails only after the socket closed and every message was delivered |
| `WebSocketReadable.EndingIsReported` | packages/nodejs-ws/src/WebSocketStreams.ts:102-113 | the stream ends only for a socket that closed and fails only with the error the socket reported |
| `WebSocketReadable.WaitingPullCanProceed` | packages/nodejs-ws/src/WebSocketStreams.ts:44-72 | a waiting pull passes the gate as soon as there is something to take; an open socket flows exactly while a pull waits, and has been told to close exactly if its stream was cancelled |
| `WebSocketReadable.DrainsAfterClose` | packages/nodejs-ws/src/WebSocketStreams.ts:44-72 | after a close, one pull per queued message and one more deliver all of them and then the ending |
| `WebSocketReadable.Source.OnMessage` | packages/nodejs-ws/src/WebSocketStreams.ts:85-94 | the message is queued and received last, the gate is open, and the chunks stay a prefix of the messages |
| `WebSocketReadable.Source.OnError` | packages/nodejs-ws/src/WebSocketStreams.ts:102-107 | the error is queued last and is the one ending of the socket; the gate is open |
| `WebSocketReadable.Source.OnClose` | packages/nodejs-ws/src/WebSocketStreams.ts:109-113 | the close is the one ending of the socket; the gate is open |
| `WebSocketReadable.Source.StartPull` | packages/nodejs-ws/src/WebSocketStreams.ts:44-72 | on an open socket the pull waits with the socket flowing and delivers nothing; on a closed one it takes one item; the chunks stay a prefix of the messages, all of them at an end or a failure |
| `WebSocketReadable.Source.ResumePull` | packages/nodejs-ws/src/WebSocketStreams.ts:51-71 | one item is taken: the next message is delivered, the failure is reported, or the stream ends; the gate closes behind the last item and the socket pauses, unless it is closed |
| `WebSocketReadable.Source.CancelStream` | packages/nodejs-ws/src/WebSocketStreams.ts:74-82 | an open socket is told to close and its queue is dropped; what was delivered stays a prefix of the messages |
| `MatterNodeLifecycle.RunKeepsInv` | packages/nodejs-shell/src/MatterNode.ts:199-351 | every interleaving of callers, creations and start bodies keeps the single-flight invariants |
| `MatterNodeLifecycle.OneCreationAtATime` | packages/nodejs-shell/src/MatterNode.ts:199-250 | of all node creations at most one is running or has succeeded |
| `MatterNodeLifecycle.OneStartAtATime` | packages/nodejs-shell/src/MatterNode.ts:289-351 | of all start bodies at most one is in flight or has completed |
| `MatterNodeLifecycle.CallersShareOneNode` | packages/nodejs-shell/src/MatterNode.ts:199-250 | all callers that got a node got the same one, the one the field holds |
| `MatterNodeLifecycle.ReturnedMeansStarted` | packages/nodejs-shell/src/MatterNode.ts:289-351 | a `start` call that returned leaves a started node |
| `MatterNodeLifecycle.NodeCleanupForgetsItself` | packages/nodejs-shell/src/MatterNode.ts:244-249 | the promise is forgotten exactly by the call that made it, when its creation failed, and never that of a running creation |
| `MatterNodeLifecycle.StartCleanupForgetsItself` | packages/nodejs-shell/src/MatterNode.ts:346-350 | the promise is forgotten exactly by the call that made it, and never that of a body in flight |
| `MatterNodeLifecycle.FailedCreationIsRetried` | packages/nodejs-shell/src/MatterNode.ts:199-210 | when all creations failed and were cleaned up, the next call starts a new one |
| `MatterNodeLifecycle.FailedStartIsRetried` | packages/nodejs-shell/src/MatterNode.ts:289-300 | when all start bodies were aborted and cleaned up, the next call runs a new one and waits for it |
| `MatterNodeLifecycle.CallsEndAsAwaited` | packages/nodejs-shell/src/MatterNode.ts:199-351 | in every run each call ends as what it waited for ended, each body gets past its call of `#ensureNode` only with a node, and the flag and the node are there exactly when a body has completed and a creation has succeeded |
| `MatterNodeLifecycle.StartResultIff` | packages/nodejs-shell/src/MatterNode.ts:289-351 | a `start` call that waited returned exactly if its body completed and was rejected exactly if that was aborted; one that did not wait returned |
| `MatterNodeLifecycle.NodeResultIff` | packages/nodejs-shell/src/MatterNode.ts:199-250 | an `#ensureNode` call that waited got the node of its creation exactly if that succeeded and threw exactly if it failed |
| `MatterNodeLifecycle.BodyGoesOnIff` | packages/nodejs-shell/src/MatterNode.ts:300-300 | a start body goes on exactly if its call of `#ensureNode` got a node, and is aborted exactly if that threw |
| `MatterNodeLifecycle.WaitersAreServed` | packages/nodejs-shell/src/MatterNode.ts:199-351 | a call that waits can be resumed, or what it waits for can go on |
| `MatterNodeLifecycle.NodeAndStartPersist` | packages/nodejs-shell/src/MatterNode.ts:199-351 | a node once created and a start once completed stay through every continuation, and no further start body begins |
| `MatterNodeLifecycle.MatterNode.SetInitialized` | packages/nodejs-shell/src/MatterNode.ts:206-208 | from then on a node can be created, and nothing else changes |
| `MatterNodeLifecycle.MatterNode.EnterEnsureNode` | packages/nodejs-shell/src/MatterNode.ts:199-245 | the call has the node at once if there is one, waits for the creation in flight if there is one, throws if the controller is not initialized, and begins a creation otherwise; at most one creation and one start body is in flight or has succeeded |
| `MatterNodeLifecycle.MatterNode.OnCreationEnded` | packages/nodejs-shell/src/MatterNode.ts:210-242 | a success sets the node where there was none, a failure leaves it |
| `MatterNodeLifecycle.MatterNode.ResumeEnsureNode` | packages/nodejs-shell/src/MatterNode.ts:244-249 | the caller gets the node exactly if its creation succeeded and throws exactly if it failed, and forgets the promise exactly if it made it and it failed; a running creation keeps its promise |
| `MatterNodeLifecycle.MatterNode.EnterStart` | packages/nodejs-shell/src/MatterNode.ts:289-300 | the call returns at once if started, waits for the body in flight if there is one, and runs a body otherwise, which enters `#ensureNode`; at most one creation and one start body is in flight or has succeeded |
| `MatterNodeLifecycle.MatterNode.OnBodyGotNode` | packages/nodejs-shell/src/MatterNode.ts:300-306 | the body goes on exactly if its call of `#ensureNode` got a node, and is aborted exactly if that threw |
| `MatterNodeLifecycle.MatterNode.OnBodyEnded` | packages/nodejs-shell/src/MatterNode.ts:306-344 | the node is started exactly if the body succeeded, and then there is a node |
| `MatterNodeLifecycle.MatterNode.ResumeStart` | packages/nodejs-shell/src/MatterNode.ts:346-350 | the caller returns exactly if its body completed and throws exactly if it was aborted, and forgets the promise exactly if it made it; a body in flight keeps its promise |
| `TestMerge.MergedLookup` | packages/testing/src/test-descriptor.ts:248-269 | the merged list holds, under each name, the disabled old member, the new member, or the two merged |
| `TestMerge.MergedListIs` | packages/testing/src/test-descriptor.ts:253-269 | for all lists: every previous member in its place, merged with the last update of its name if it is the first of that name and disabled otherwise, and then the names only the update has, each where it first occurs |
| `TestMerge.IndexNames` | packages/testing/src/test-descriptor.ts:248-251 | the index of the updates lists each name once, where it first occurs |
| `TestMerge.IndexLookup` | packages/testing/src/test-descriptor.ts:248-251 | the index of the updates holds under each name the last member of that name, each name once |
| `TestMerge.MergeAt` | packages/testing/src/test-descriptor.ts:228-274 | for all trees, what stands at any path of the merged tree, field by field: the update's fields with missing results taken from before, or the previous node, disabled if the run excluded it |
| `TestMerge.UniqueCountsAll` | packages/testing/src/test-descriptor.ts:228-274 | with unique sibling names every node of the update counts in the merge |
| `TestMerge.PathsUnite` | packages/testing/src/test-descriptor.ts:228-274 | the paths of the merged tree are exactly those of both inputs together |
| `TestMerge.NoPathLostIff` | packages/testing/src/test-descriptor.ts:228-274 | for all trees, no path of the update is lost if and only if the update is covered: at every node where both have members, the paths below the first bearer of a name are those of its last bearer or of the previous tree |
| `TestMerge.PreviousPathsStay` | packages/testing/src/test-descriptor.ts:228-274 | for all trees, no path of the previous tree is lost |
| `TestMerge.ShadowedSiblingIsLost` | packages/testing/src/test-descriptor.ts:248-251 | an update with two siblings of one name whose merge loses a path |
| `TestMerge.RunsAccumulate` | packages/testing/src/test-descriptor.ts:228-274 | folding `merge` over any runs keeps exactly the paths of all runs, and at each path the last defined `passed`, `durationMs` and `runAt`, the other fields of the last run that has the path, and the flag of that run or of a later one that left the test out |
| `TestMerge.MergeWithSelf` | packages/testing/src/test-descriptor.ts:228-274 | merging a tree into itself changes nothing |
| `TestMerge.MergeIdempotent` | packages/testing/src/test-descriptor.ts:228-274 | merging the same run again changes nothing at any depth, flags and order included |
| `TestMerge.IndexMembers` | packages/testing/src/test-descriptor.ts:248-251 | the indexing loop builds the index `IndexLookup` describes |
| `TestMerge.MergeRuns` | packages/testing/src/test-descriptor.ts:228-274 | the merging loop builds the tree the lemmas describe |
| `TestMerge.FillResults` | packages/testing/src/test-descriptor.ts:229-237 | the loop over the result fields takes each from the update, or from before where the update lacks it, and leaves all other fields |
| `TestFilter.IndexIncludes` | packages/testing/src/test-descriptor.ts:90-105 | the name trie contains a path exactly when it is a prefix of an inclusion path, a leading "/" standing for the root |
| `TestFilter.SegmentsAre` | packages/testing/src/test-descriptor.ts:96-100 | the segments of an inclusion path make up the path again, with the root's name in front of a leading "/" |
| `TestFilter.FilterKeepsExactly` | packages/testing/src/test-descriptor.ts:87-164 | for every predicate that accepts all suites, or none at all, the filter keeps, in order, exactly the tests whose name path is a prefix of an inclusion path, whose kind is allowed, whose path passes every PICS expression and which, below the root, the predicate accepts; nothing is left only if no test is kept |
| `TestFilter.FilterKeepsAccepted` | packages/testing/src/test-descriptor.ts:87-164 | for every predicate, a selected test is kept exactly when each node from below the root down to it is, once filtered, left and accepted |
| `TestFilter.FilterOnlyRemoves` | packages/testing/src/test-descriptor.ts:107-164 | the result is the tree with members of suites removed: tests are unchanged, suites differ in their members only, and these keep their order |
| `TestFilter.FilteredHasNoEmptySuite` | packages/testing/src/test-descriptor.ts:107-164 | with or without a predicate no kept suite is empty |
| `TestFilter.FilterAppliesPredicate` | packages/testing/src/test-descriptor.ts:107-164 | every node the predicate is asked about and that is kept was accepted by it |
| `TestFilter.BuildIndex` | packages/testing/src/test-descriptor.ts:92-105 | the loop over the inclusion paths builds the trie |
| `TestFilter.FilterTree` | packages/testing/src/test-descriptor.ts:87-164 | the filtering loops build that tree, with the kept tests, the accepted nodes and the removals as stated |
| `TestFilesystem.SlotFinds` | packages/testing/src/test-descriptor.ts:344-389 | whatever the precedence among siblings of one name, a name is found exactly when a member has it |
| `TestFilesystem.SlotGrows` | packages/testing/src/test-descriptor.ts:350-384 | what one more member changes: it is found under its name if nothing was or if its kind takes over from that of the member found before, and no other name is touched |
| `TestFilesystem.MemberFinds` | packages/testing/src/test-descriptor.ts:344-389 | a name finds something below a descriptor exactly when one of its members has it, and finds one of these |
| `TestFilesystem.TrailExistsIff` | packages/testing/src/test-descriptor.ts:309-341 | the breadcrumb walk succeeds exactly when every prefix of the path normalises to an existing node |
| `TestFilesystem.StatFindsNormalised` | packages/testing/src/test-descriptor.ts:309-341 | `stat` succeeds exactly then, finds what walking only the names of the normalised path finds, and reports a suite as a directory and a test with a path as a file |
| `TestFilesystem.Filesystem.StatAt` | packages/testing/src/test-descriptor.ts:309-341 | the loop over segments with its breadcrumb stack and cache computes that `stat` |
| `TestFilesystem.Filesystem.Member` | packages/testing/src/test-descriptor.ts:344-389 | the cached member lookup answers as the uncached one, and the cache stays correct |
| `EndpointAllocation.ParseExplicit` | support/chip-testing/src/AllDevicesTestInstance.ts:57-63 | a kind, a colon and the decimal text of a number in range is an explicit endpoint |
| `EndpointAllocation.ParsedExplicit` | support/chip-testing/src/AllDevicesTestInstance.ts:57-63 | only such a text is, so no other spelling of a number is accepted |
| `EndpointAllocation.ParseIff` | support/chip-testing/src/AllDevicesTestInstance.ts:56-63 | every text: without a colon it is a kind, it declares an endpoint exactly when it is a kind, a colon and the text of a number from 1 to 65534, and it is malformed otherwise |
| `EndpointAllocation.FirstErrorIs` | support/chip-testing/src/AllDevicesTestInstance.ts:55-68 | the error is that of the first token that offends, with its text or with the endpoint it declares again |
| `EndpointAllocation.RefusedIff` | support/chip-testing/src/AllDevicesTestInstance.ts:54-68 | the first pass accepts the tokens exactly when none is malformed and no endpoint is declared twice |
| `EndpointAllocation.NthFreeUnique` | support/chip-testing/src/AllDevicesTestInstance.ts:78-81 | the k-th smallest unreserved number is unique |
| `EndpointAllocation.Pigeonhole` | support/chip-testing/src/AllDevicesTestInstance.ts:78-81 | below n at most as many numbers are taken as there are reservations |
| `EndpointAllocation.AutoFits` | support/chip-testing/src/AllDevicesTestInstance.ts:70-91 | no automatic number exceeds the number of tokens |
| `EndpointAllocation.CollectReserved` | support/chip-testing/src/AllDevicesTestInstance.ts:54-68 | the first pass returns the first error, or the set of all explicit endpoints |
| `EndpointAllocation.NextFree` | support/chip-testing/src/AllDevicesTestInstance.ts:80-81 | the search ends, at the next number in order that is neither reserved nor used |
| `EndpointAllocation.Allocate` | support/chip-testing/src/AllDevicesTestInstance.ts:54-91 | the k-th token without endpoint gets the k-th smallest unreserved number and explicit ones are kept, all from 1 to 65534; after the first pass the only error is the number of the first token whose number is larger, so the second duplicate check never fires |
| `EndpointAllocation.ParseDevices` | support/chip-testing/src/AllDevicesTestInstance.ts:49-94 | the same from the token texts |
| `EndpointAllocation.EndpointsDistinct` | support/chip-testing/src/AllDevicesTestInstance.ts:70-91 | endpoints assigned so are pairwise distinct, and automatic ones lie between 1 and the number of tokens |
| `WordWrap.VisibleWidthOf` | packages/create/src/formatting.ts:23-47 | the scanning loop computes the columns of a three-state automaton |
| `WordWrap.WidthOfBoth` | packages/create/src/formatting.ts:23-47 | the width of two texts in a row is that of the first and that of the second read from where the scan of the first ends |
| `TextUnits.WidthCountsTokens` | packages/create/src/formatting.ts:23-47 | the visible width is the number of tokens, which are units, pairs that start with a high surrogate and complete escape sequences, and one more for a high surrogate at the end; an escape sequence that is cut off takes none |
| `TextUnits.TokensExist` | packages/create/src/formatting.ts:23-47 | every text is made of such tokens |
| `WordWrap.LineFits` | packages/create/src/formatting.ts:72-100 | a line's visible width never exceeds the width the loop has counted for it, and equals it if and only if the scan of every word but the last ends plainly |
| `WordWrap.GreedyIsCutting` | packages/create/src/formatting.ts:72-100 | the greedy cuts cover the words in order with lines of one word or counted below the limit |
| `WordWrap.GreedyStaysAhead` | packages/create/src/formatting.ts:72-100 | from any later start the greedy cuts need no more lines than any other cutting |
| `WordWrap.WrapIsOptimal` | packages/create/src/formatting.ts:72-100 | the wrapped lines hold the words in order, fit, and are as few as any cutting into lines counted below the limit allows |
| `WordWrap.VisiblyOptimalIff` | packages/create/src/formatting.ts:72-100 | if every word but the last takes a column: the lines are as few as any cutting into lines that visibly fit allows, at every width, if and only if the scan of each of these words ends plainly |
| `WordWrap.CutOffEscapeCostsALine` | packages/create/src/formatting.ts:72-100 | two words that visibly fit one line and are wrapped onto two |
| `WordWrap.WordsSurviveIff` | packages/create/src/formatting.ts:79-93 | the words are kept apart if and only if every line has a visible column when its next word comes |
| `WordWrap.AlwaysSeparatedIff` | packages/create/src/formatting.ts:79-93 | the words are kept apart at every width if and only if every word but the last takes a column |
| `WordWrap.UnfinishedEscapeGlues` | packages/create/src/formatting.ts:79-93 | two words that are glued together |
| `WordWrap.Wrap` | packages/create/src/formatting.ts:72-100 | the wrapping loop computes the lines the lemmas describe |
| `TextUnits.NothingIsLost` | packages/create/src/formatting.ts:72-100 | for all words and widths the lines hold all units of the words but spaces, in order, and none besides |
| `Locations.NamesDetermine` | packages/cli-tool/src/location.ts:89-101 | two locations under one root with the same names are the same |
| `Locations.MaybeAtWalks` | packages/cli-tool/src/location.ts:128-200 | for every path, the recursion over re-joined texts is a walk over its segments |
| `Locations.AbsoluteStartsAtTop` | packages/cli-tool/src/location.ts:139-146 | an absolute path is looked up from the root, from whichever directory the lookup starts |
| `Locations.FoundIsResolved` | packages/cli-tool/src/location.ts:110-200 | for every path that is found, the location is one of the same tree, with the names the path resolves to |
| `Locations.SolidIsNormalised` | packages/cli-tool/src/location.ts:128-200 | without empty segments that is lexical normalisation, `..` clamped at the root |
| `LocationComposition.LookupComposes` | packages/cli-tool/src/location.ts:110-200 | looking up `a/b` is looking up `a` and then `b`, errors included, for all paths that join, absolute ones among them |
| `LocationComposition.RelativeComposesIff` | packages/cli-tool/src/location.ts:139-187 | `a` composes with every relative `b` in every graph if and only if it does not end in an empty segment that restarts, or is at the root there |
| `LocationComposition.AbsoluteComposesIff` | packages/cli-tool/src/location.ts:148-150 | `a` composes with every absolute `b` in every graph if and only if it does not end in a run of dots, or is at the root there |
| `LocationComposition.PairComposesIff` | packages/cli-tool/src/location.ts:139-187 | a relative `a` and a `b` without restarts of its own compose in every graph if and only if they join |
| `LocationComposition.TrailingSlashBreaks` | packages/cli-tool/src/location.ts:139-146 | `x/` and `y` do not compose |
| `LocationComposition.DotBreaks` | packages/cli-tool/src/location.ts:148-150 | `.` and `/y` do not compose |
| `LocationComposition.ComposesWithoutJoining` | packages/cli-tool/src/location.ts:139-156 | `/x/.` and `/..` compose in every graph although they do not join |
| `LocationPaths.OwnPathFindsLocation` | packages/cli-tool/src/location.ts:89-126 | a location's own path finds that location from every directory of its tree |
| `LocationPaths.NamesOutcome` | packages/cli-tool/src/location.ts:110-188 | a path of names is found exactly when each name leads on, at the location they lead to; otherwise it fails where they stop, at a definition that is no directory or has no such entry, the latter open for a path of one name |
| `LocationPaths.StayingPaths` | packages/cli-tool/src/location.ts:128-167 | the empty path and `.` find a location that is a directory |
| `LocationPaths.UpwardPath` | packages/cli-tool/src/location.ts:152-157 | `..` finds the parent, or the root from the root, if both are directories |
| `LocationPaths.RootPath` | packages/cli-tool/src/location.ts:139-146 | `/` finds the root, if both are directories |
| `LocationPaths.EmptySegmentInside` | packages/cli-tool/src/location.ts:139-150 | an empty segment between two parts restarts at the root, unless the first part ends in a run of dots, where it is dropped |
| `LocationPaths.JoinAll` | packages/cli-tool/src/location.ts:204-217 | the joining loop joins its arguments from the left |
| `LocationPaths.JoinedSegments` | packages/cli-tool/src/location.ts:204-217 | the segments of a joined path are those of its parts, a slash at the end of the first being no segment; an absolute part replaces what came before |
| `LocationPaths.JoinedRelative` | packages/cli-tool/src/location.ts:209-213 | with or without a trailing slash, a relative path joined to a path that is not empty leads where looking up the two in turn leads |
| `LocationPaths.JoinedToNothing` | packages/cli-tool/src/location.ts:212-213 | a relative path joined to the empty path is looked up from the root |
| `LocationPaths.JoinedPathsCompose` | packages/cli-tool/src/location.ts:204-217 | looking up any joined list of paths is looking up the parts in turn, an absolute one forgetting those before it, unless a relative path is joined to nothing |
| `LocationPaths.JoinedPathsComposeIff` | packages/cli-tool/src/location.ts:204-217 | a path joins every list so if and only if it is not empty |
| `Locations.CycleIsFollowed` | packages/cli-tool/src/location.ts:174-188 | a cycle is followed as often as the path names it, and the lookup ends |
| `Locations.ComputePath` | packages/cli-tool/src/location.ts:89-101 | the loop up the parents computes the path |
| `ChipToolBitmap.ConvertBitmap` | support/chip-testing/src/ChipToolWebSocketHandler.ts:359-387 | the loop over the members computes the packed number, or fails at an unsupported value |
| `ChipToolBitmap.EncodedBits` | support/chip-testing/src/ChipToolWebSocketHandler.ts:359-387 | for all members and values: a bit of the number is set exactly when some member sets it, a flag its first bit and a number the bits from there on, shifts counting modulo 32; the value is that of the property or else of the alias |
| `Int32.BitIs` | support/chip-testing/src/ChipToolWebSocketHandler.ts:379-382 | the bits that `|`, `&` and `<<` work on are the binary digits of the number modulo 2^32 |
| `ChipToolBitmap.EncodingIsFaithful` | support/chip-testing/src/ChipToolWebSocketHandler.ts:359-387 | with disjoint bits and fitting values every member's bits hold its value and all other bits are clear |
| `ChipToolBitmap.InvalidIff` | support/chip-testing/src/ChipToolWebSocketHandler.ts:370-375 | packing fails exactly when a member's value is neither boolean nor number |
| `ChipToolBitmap.EncodingIgnoresOrder` | support/chip-testing/src/ChipToolWebSocketHandler.ts:359-387 | the number, or the failure, does not depend on the order of the members |
| `ChipToolBitmap.EncodedRange` | support/chip-testing/src/ChipToolWebSocketHandler.ts:359-387 | the number is a signed 32-bit number |
| `ChipToolBitmap.BitmapTextReads` | support/chip-testing/src/ChipToolWebSocketHandler.ts:499-515 | a text that starts with a number sets exactly the named members whose first bit the number has, and any other text is an error |
| `ChipToolBitmap.HexBitmapReads` | support/chip-testing/src/ChipToolWebSocketHandler.ts:499-502 | a hexadecimal text is read as the decimal text of the same number is |
| `ChipToolBitmap.ReadsLowestBits` | support/chip-testing/src/ChipToolWebSocketHandler.ts:499-515 | reading the printed number back gives exactly the named members whose value has its lowest bit set |
| `ChipToolBitmap.BitmapRoundTripIff` | support/chip-testing/src/ChipToolWebSocketHandler.ts:499-515 | that is exactly the set members if and only if each of them has a name and no multi-bit one holds an even number; flags always survive |
| `ChipToolBitmap.EvenFieldIsLost` | support/chip-testing/src/ChipToolWebSocketHandler.ts:499-515 | a two-bit field holding 2 is lost |
| `Numerals.ParsesIff` | support/chip-testing/src/ChipToolWebSocketHandler.ts:500-502 | `parseInt` without a radix yields a number exactly when the text, after white space and a sign, starts with its hexadecimal digits after `0x`, or with its decimal digits and no `0x` |
| `Numerals.ParsesDecimalIff` | support/chip-testing/src/AllDevicesTestInstance.ts:59-62 | `parseInt` with radix 10 yields a number exactly when the text, after white space and a sign, starts with its decimal digits |
| `ChipToolCodec.ComesBack` | support/chip-testing/src/ChipToolWebSocketHandler.ts:341-545 | every well-typed value, nested lists included, is read back without error, as what `Returned` says |
| `ChipToolCodec.RoundTripIff` | support/chip-testing/src/ChipToolWebSocketHandler.ts:341-545 | it is read back unchanged if and only if no microsecond time in it is an ordinary number and no string in it is "null" or a decimal numeral |
| `ChipToolCodec.NumeralStringChanges` | support/chip-testing/src/ChipToolWebSocketHandler.ts:517-531 | a string that is a numeral comes back as a number |
| `ChipToolCodec.NullStringChanges` | support/chip-testing/src/ChipToolWebSocketHandler.ts:431-433 | the string "null" comes back as null |
| `ChipToolCodec.MicrosecondsChange` | support/chip-testing/src/ChipToolWebSocketHandler.ts:393-401 | an ordinary number of microseconds comes back as a bigint |
| `ChipToolCodec.OctetsComeBack` | support/chip-testing/src/ChipToolWebSocketHandler.ts:389-391 | octets, the empty ones included, survive the `base64:` text |
| `Base64Bits.EncodeKeepsBits` | support/chip-testing/src/ChipToolWebSocketHandler.ts:389-391 | octets in groups of three are written as letters of the same bits, six to a letter |
| `Base64Bits.EncodePads` | support/chip-testing/src/ChipToolWebSocketHandler.ts:389-391 | other octets are written as if filled up with zeros, with a pad in place of each letter that stands for them only |
| `Base64Bits.DecodeKeepsBits` | support/chip-testing/src/ChipToolWebSocketHandler.ts:491-493 | letters in groups of four are read as octets of the same bits |
| `Base64Bits.DecodePads` | support/chip-testing/src/ChipToolWebSocketHandler.ts:491-493 | a padded text is read as if the pads were zeros, less an octet for each |
| `Base64Bits.DecodeIff` | support/chip-testing/src/ChipToolWebSocketHandler.ts:491-493 | exactly the texts of whole groups with pads at most at their end can be read |
| `Base64Bits.LetterIs` | support/chip-testing/src/ChipToolWebSocketHandler.ts:389-391 | the letters are those of table 1 of RFC 4648 |
| `Base64Bits.IndexIs` | support/chip-testing/src/ChipToolWebSocketHandler.ts:491-493 | a letter is read as the number of its place in that table, and no other character is read |
| `ChipToolCodec.TimesShift` | support/chip-testing/src/ChipToolWebSocketHandler.ts:393-401 | times lose, when written, and gain, when read, exactly the days of the years 1970 to 1999, in seconds or microseconds; a bigint of seconds stays |
| `ChipToolCodec.TextReadsAsNumber` | support/chip-testing/src/ChipToolWebSocketHandler.ts:517-531 | under a numeric model the decimal text of a number is read as the number is, epoch offsets included |
| `ChipToolCodec.HexReads` | support/chip-testing/src/ChipToolWebSocketHandler.ts:517-531 | under a numeric model `0x` and the hexadecimal text of a number, in lower or upper case, is read as the bigint is |
| `ChipToolCodec.HexTextReads` | support/chip-testing/src/ChipToolWebSocketHandler.ts:517-531 | so is every hexadecimal spelling of a number, with leading zeros and digits of either case |
| `ChipToolCodec.NumeralIff` | support/chip-testing/src/ChipToolWebSocketHandler.ts:521-523 | a text is taken for a number exactly when it is the text of an integer |
| `ChipToolCodec.HexNumeralIff` | support/chip-testing/src/ChipToolWebSocketHandler.ts:518-520 | and for a hexadecimal number exactly when it spells one after `0x` |
| `ChipToolCodec.DecimalTextReads` | support/chip-testing/src/ChipToolWebSocketHandler.ts:517-531 | under every model but a list the text of an integer is read as the number, shifted where the model is a time |
| `ChipToolCodec.OtherTextReads` | support/chip-testing/src/ChipToolWebSocketHandler.ts:483-545 | texts of neither kind stay as they are, or become a boolean, or octets as their prefix says |
| `ChipToolCodec.ListReads` | support/chip-testing/src/ChipToolWebSocketHandler.ts:435-442 | a list is read item by item, and not at all exactly if one item cannot be read |
| `ChipToolCodec.ListTextReads` | support/chip-testing/src/ChipToolWebSocketHandler.ts:435-442 | a list given as text is parsed first and then read as the list is |
| `ChipToolCodec.OthersStay` | support/chip-testing/src/ChipToolWebSocketHandler.ts:341-404 | apart from times, octets and lists every value is written as it is |
| `ChipToolCodec.OthersAreLeft` | support/chip-testing/src/ChipToolWebSocketHandler.ts:427-545 | a value that is neither a text nor what the model asks for is left alone |
| `ChipToolCodec.BooleanText` | support/chip-testing/src/ChipToolWebSocketHandler.ts:517-535 | a text makes a boolean true exactly when it is "true" or "True", and false exactly when it is none of these, not "null" and no numeral |
| `ChipToolCodec.OneIsNoBoolean` | support/chip-testing/src/ChipToolWebSocketHandler.ts:517-535 | the text "1" under a boolean model is read as the number 1 |

## Left out

- BTP framing, the handshake bytes, noble, bleno and ws themselves: they are environment steps with arbitrary outcomes.
- BLE central, environment: `connectAsync` rejects only if no successful `connect` event came first; peripheral calls do not throw synchronously, so the catches around listeners are not reached; the interview's loops over services and characteristics are await results; abort and disconnect listeners run one at a time in any order.
- BLE central, open channels: it is not claimed that an address is among the open channels exactly while a channel to it is open, since a late failure of one attempt deletes the entry by address (packages/nodejs-ble/src/NobleBleChannel.ts:410).
- BLE central, result handling: log output, error texts and the chained `lastError`.
- Bleno session set-up, characteristics, the peripheral's own iterator, additional advertising data and the advertising interval.
- `BlenoAdvertising.BlenoBleServer.CallAdvertise`: the promise that waits for the adapter to report the start is not modelled.
- WebSocket writable half, concatenation of message fragments, conversion of socket errors.
- `MatterNode` configuration, peers, storage and closing; the set-up inside node creation and the start body is a step that succeeds or fails.
- Test descriptors: records are maps without prototype keys, and names that look like integers keep their place in member order; the filter's write of PICS values is not modelled and PICS evaluation is a parameter; `visit` and the listing functions of the filesystem.
- `TestFilesystem.Filesystem.Member`: the cache is keyed by the descriptor's value, not by its identity.
- `TestFilter.BuildIndex`: descending the trie segment by segment is a recursive insertion instead of a moving reference.
- `TestMerge.PathsUnite`: only for updates with unique sibling names; `NoPathLostIff` has the exact condition for the paths of the update.
- `TestMerge.RunsAccumulate`: only for runs with unique sibling names, since the result of a shadowed sibling does not count.
- `TestMerge.MergeWithSelf`: only for trees with unique sibling names, since the second of two siblings of one name is disabled.
- `TestMerge.MergeIdempotent`: only for updates with unique sibling names, for the same reason.
- `TestFilter.FilterKeepsExactly`: only for predicates that accept every suite, as that of the one caller does; `FilterKeepsAccepted` has the exact result for every predicate.
- `TestFilter.FilterTree`: the write of PICS values to the descriptors is not modelled.
- Splitting text into words, and the padding of `fittedTextOf`, which the wrap width does not count.
- Locations: URI decoding of names, definitions that are promises, the search text in error messages.
- Command line arguments other than `--device`; building the devices.
- Chip-tool structs, which go out by id and come in by name; JSON and hexadecimal texts are read by parsers given as parameters.
- `ChipToolBitmap.ConvertBitmap`: one member list stands for the scope's list used when writing and the model's list used when reading; a value that is neither boolean nor number and counts as false is treated as missing; fractions are not modelled.
- `ChipToolCodec.ComesBack`: JavaScript numbers are unbounded integers, so rounding above 2^53 is not modelled; Base64 is read strictly, as section 4 of RFC 4648 writes it, and not through a hexadecimal text.
- MQTT endpoint, REPL, reporters, terminal output, project scaffolding, device examples, commissioning: input and output, or delegation to other packages.
