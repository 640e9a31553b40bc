# A verified model of the OpenClaw node crates

This project models the protocol and runtime cores of the `crates/` workspace and
proves what they promise over every input, every run and every reachable state.
It covers four connected parts.

**The authenticated sidecar protocol.** A supervisor and a runtime process talk over
a framed, tagged, sequence-numbered channel. `SidecarFrame` is the byte layout,
`SidecarChannel` one end of the channel, `SidecarLink` two ends with a transport that
may drop, repeat, reorder, reflect, replay, corrupt or invent frames but cannot forge
a tag. On top sit the offer/accept handshake (`SidecarNegotiation`,
`SidecarHandshake`), the one-shot configuration exchange (`SidecarConfiguration`,
`SidecarExchange`), whole runs of both peers (`SidecarRuns`) and what every run
guarantees them (`SidecarAgreement`), and how far in-order delivery takes them
(`SidecarCompletion`). `SidecarTexts` shows that the agreement results' assumptions can
be met: the message texts can be read back (`JsonReading`), and a sample session's honest
run gets both peers ready. `SizedWriters` has the size-bounded serializers,
`JsonText` the length arithmetic of the messages whose size matters, and
`CommandRuntimeBuilder` the name rules a configuration must meet.

**The Gateway session.** `EventHub` is the bounded retained-event log and its
independent readers, refined from a plain list of everything ever published.
`GatewaySession` is the table of requests in flight as a state machine whose steps are
lock regions and select arms; `GatewayOrder` is the order its requests go out in, and
`GatewaySessionTask` the session's loop as a program over that state machine.

**Bounded invocations and duplex I/O.** `Duplex` is the ordered input buffer and the
UTF-8-safe output chunker, `ActiveInvocations` the map of running invocations,
`InvocationRuntime` the select loop with its permits, tasks, overload queue and worker,
`InvocationOutcomes` how invocations end over its runs, and `InvocationLoop` that loop as
a program.

**Reconnecting.** `Reconnect` is the failure classification and backoff policy,
`Lifecycle` the driver with its event trace and a grammar for it, `LifecycleScript` that
trace told from the rounds alone, and `SidecarStatus` what the supervisor is shown of it.

Where the source changes state in place the model is a class whose methods are proved
equal to a step function on values (`View() == SomeStep(old(View()))`); the properties
are then lemmas about those step functions and their runs. Channels, buffers and
readers carry their own history (what was sealed, accepted, offered, read), so a
statement about a whole run is a statement about the state it ends in.

Methods that take one branch and set one field, and lemmas that read one branch of a step
back, are helpers of the rows below and have none of their own.

Some statements deserve a word about their shape.

- The code says frames with one sequence number never repeat in the input buffer, but
  its successor saturates: two frames numbered `u64::MAX` are both taken
  (`Duplex.LargestNumberCanRepeat`). On an open buffer the numbers rise strictly exactly
  when at most one frame offered so far carries the largest
  (`Duplex.TakenRiseStrictlyExactlyWhen`); in any state the single push that breaks the
  rise is known from the buffer and the frame (`Duplex.PushKeepsStrictRiseExactlyWhen`).
- `cancel_all` empties the invocation map under live trackings. A tracking left over
  from before can then remove a newer one's entry
  (`ActiveInvocations.LeftoverTakesAnothersEntry`). The map is faithful throughout a
  run exactly when it is only emptied while nothing is tracked
  (`ActiveInvocations.FaithfulExactlyWhen`); the invocation loop empties it only on its
  way out (`InvocationRuntime.MapNamesLiveInvocations`).
- Each peer checks only its own minor version against the largest it implements, so
  one side can accept an offer the other refuses; exactly when is
  `SidecarNegotiation.AcceptanceIsMutualUpToLocalMinor`.

## Model

| member | source | states |
|---|---|---|
| `SidecarFrame.EncodingIsInjective` | crates/openclaw-node-host/src/sidecar_protocol.rs:419-485 | two frames with the same bytes have the same header and payload, whatever the (32-byte) tag function |
| `SidecarFrame.LayoutDetermines` | crates/openclaw-node-host/src/sidecar_protocol.rs:505-573 | bytes whose fields read as a header and payload are exactly the encoding of that header and payload |
| `SidecarFrame.ReadInvertsWrite` | crates/openclaw-node-host/src/sidecar_protocol.rs:645-713 | a length-prefixed read succeeds with a frame and a rest exactly when the stream is that frame written before that rest and the frame is within the ceiling |
| `SidecarFrame.StreamReadsBack` | crates/openclaw-node-host/src/sidecar_protocol.rs:645-713 | a list of writable frames written to a stream reads back as the same list with nothing left over |
| `SidecarChannel.ChecksAcceptOnlyTheNextFrame` | crates/openclaw-node-host/src/sidecar_protocol.rs:505-573 | a channel accepts a frame if and only if it is the encoding, under its own session, generation, direction, minor version and next number, of a payload within its ceiling |
| `SidecarChannel.AuthenticationComesFirst` | crates/openclaw-node-host/src/sidecar_protocol.rs:505-573 | a frame within the sizes is reported as unauthentic exactly when its tag does not verify; no other verdict is reached without one that does |
| `SidecarChannel.RefusalsNameWhatDiffers` | crates/openclaw-node-host/src/sidecar_protocol.rs:505-573 | a well-formed frame is refused for the first of version, direction, generation, number and session in which its header differs from the expected one, naming both values, and opens if it differs in none |
| `SidecarChannel.SealsExactlyWhatFits` | crates/openclaw-node-host/src/sidecar_protocol.rs:347-355 | on a live channel with a number left, sealing succeeds exactly for a serializable payload no longer than the advertised maximum, which is exactly when the whole encoded frame is within the ceiling |
| `SidecarChannel.FailuresAreClosed` | crates/openclaw-node-host/src/sidecar_protocol.rs:419-503 | a failed seal changes nothing, a failed open retires the channel, a retired channel seals and opens nothing |
| `SidecarChannel.OpenInvertsSeal` | crates/openclaw-node-host/src/sidecar_protocol.rs:419-573 | the end whose next frame it is opens exactly what was sealed, if and only if the frame is within its own ceiling |
| `SidecarChannel.ChannelsAreMadeExactlyWhen` | crates/openclaw-node-host/src/sidecar_protocol.rs:277-312 | a channel can be made exactly for a present, countable session, a generation, a ceiling with room for one payload byte, and an instance number to spare |
| `SidecarChannel.AuthenticatedSidecarChannel.New` | crates/openclaw-node-host/src/sidecar_protocol.rs:277-312 | creates a fresh, numbered channel, or refuses an unusable session or ceiling |
| `SidecarChannel.AuthenticatedSidecarChannel.LowerFrameLimit` | crates/openclaw-node-host/src/sidecar_protocol.rs:358-376 | the ceiling only falls, not below a minimal frame, and not at all once locked |
| `SidecarChannel.AuthenticatedSidecarChannel.ApplyNegotiatedProtocol` | crates/openclaw-node-host/src/sidecar_protocol.rs:392-412 | takes on the selection's minor version and ceiling, or neither |
| `SidecarChannel.AuthenticatedSidecarChannel.Seal` | crates/openclaw-node-host/src/sidecar_protocol.rs:419-485 | the append, patch and tag sequence produces the frame the layout defines and advances the send number by one |
| `SidecarChannel.AuthenticatedSidecarChannel.Open` | crates/openclaw-node-host/src/sidecar_protocol.rs:493-503 | retires the channel on every failure |
| `SidecarChannel.AuthenticatedSidecarChannel.OpenActive` | crates/openclaw-node-host/src/sidecar_protocol.rs:505-573 | the cursor-driven parse decides exactly as the layout does, field by field and in the same order of errors |
| `SidecarLink.OnlyThePeersNextFramePasses` | crates/openclaw-node-host/src/sidecar_protocol.rs:505-573 | of everything an adversarial transport can deliver, only the peer's next frame passes |
| `SidecarLink.ReflectionIsRejected` | crates/openclaw-node-host/src/sidecar_protocol.rs:70-91 | no frame an end sealed itself is ever its own next frame |
| `SidecarLink.ForeignIsRejected` | crates/openclaw-node-host/src/sidecar_protocol.rs:505-573 | nor is a frame of another session or generation under the same key |
| `SidecarLink.OpenedIsAPrefixOfSealed` | crates/openclaw-node-host/src/sidecar_protocol.rs:419-573 | over every run from two fresh ends, what each end opened is a prefix, in order, of what the other sealed |
| `SidecarLink.RetirementIsFinal` | crates/openclaw-node-host/src/sidecar_protocol.rs:315-323 | after retirement nothing is sealed or opened on that end, in any run |
| `SidecarLink.CeilingOnlyFalls` | crates/openclaw-node-host/src/sidecar_protocol.rs:358-380 | in any run the ceiling never rises and never moves once locked |
| `SidecarNegotiation.SelectionIsGreatest` | crates/openclaw-node-host/src/sidecar_protocol.rs:144-196 | an accepted selection is the greatest within both offers: limits are within it exactly when they are within both, a feature bit is in it exactly when it is in both, its minor version is the lower one offered; and the remote peer is the other offer's |
| `SidecarNegotiation.BothSidesDeriveOneSelection` | crates/openclaw-node-host/src/sidecar_protocol.rs:151-196 | two offers that negotiate from both sides give one selection, the greatest within both |
| `SidecarNegotiation.AcceptanceIsMutualUpToLocalMinor` | crates/openclaw-node-host/src/sidecar_protocol.rs:151-196 | one side accepts and the other refuses exactly when the refusing side's own minor version is above the largest implemented |
| `SidecarHandshake.CallsKeepConsistent` | crates/openclaw-node-host/src/sidecar_handshake.rs:53-59 | `negotiated` is set exactly when authenticated and `pending_negotiated` exactly while the acceptance is unwritten, across every call |
| `SidecarHandshake.ErrorsAreTerminal` | crates/openclaw-node-host/src/sidecar_handshake.rs:290-300 | an error on the bound channel fails the handshake and retires the channel; nothing revives either |
| `SidecarHandshake.RetiredChannelsCommitToNothing` | crates/openclaw-node-host/src/sidecar_handshake.rs:109-213 | on a retired channel every call of either role fails |
| `SidecarHandshake.OfferMayBeMadeExactlyWhen` | crates/openclaw-node-host/src/sidecar_handshake.rs:318-348 | a local offer is valid exactly when every identity field has something besides white space, the version is implemented, the features are portable and each limit leaves something |
| `SidecarHandshake.SidecarHandshake.Start` | crates/openclaw-node-host/src/sidecar_handshake.rs:109-139 | seals the offer once, from the supervisor only |
| `SidecarHandshake.SidecarHandshake.Receive` | crates/openclaw-node-host/src/sidecar_handshake.rs:148-176 | answers an offer or confirms an acceptance, or fails closed |
| `SidecarHandshake.SidecarHandshake.CompleteAcceptance` | crates/openclaw-node-host/src/sidecar_handshake.rs:184-213 | the runtime commits to what it derived only here, after its acceptance is out |
| `SidecarAgreement.HandshakesAgree` | crates/openclaw-node-host/src/sidecar_handshake.rs:241-288 | a committed supervisor holds the selection the runtime derived and sealed; whatever either peer has committed to is the greatest selection within both offers; two committed peers have equal selections, minor versions and ceilings; and each has the other's identity, later the runtime's version, right |
| `SidecarAgreement.ConfigurationsAgree` | crates/openclaw-node-host/src/sidecar_runtime.rs:501-744 | a configured supervisor's configuration is the one the runtime received, passed both its checks (content against the selection, worst status against the locked channel), and had its manifest acknowledged; an activated runtime runs the manifest of the configuration that was sent, with that configuration's own names and limits, all positive, in order and within both offers |
| `SidecarAgreement.EveryRunAgrees` | crates/openclaw-node-host/src/sidecar_runtime.rs:455-744 | both agreements (the greatest selection, and an activated runtime within both offers), at most one activation, never by a supervisor, and both delivery prefixes, at the end of every run over the adversarial transport |
| `SidecarAgreement.FailureIsFinal` | crates/openclaw-node-host/src/sidecar_runtime.rs:625-637 | a peer that failed stays failed in every continuation and seals, accepts and activates nothing more |
| `SidecarAgreement.EveryStatusSeals` | crates/openclaw-node-host/src/sidecar_runtime.rs:1044-1063 | in every reachable state the runtime's current status seals on its live channel |
| `SidecarCompletion.HonestHandshakeCompletesExactlyWhen` | crates/openclaw-node-host/src/sidecar_handshake.rs:109-300 | from two fresh ends, the calls in turn with every frame delivered are a run, and it leaves both peers authenticated, moved on and on live channels if and only if both messages serialize and fit both bootstrap ceilings and both channels can be lowered to the negotiated one |
| `SidecarCompletion.OfferIsAnsweredExactlyWhen` | crates/openclaw-node-host/src/sidecar_handshake.rs:148-265 | the runtime answers a delivered offer exactly when the offer is within its ceiling and its acceptance serializes and fits; otherwise it fails and retires |
| `SidecarCompletion.AcceptanceCommitsExactlyWhen` | crates/openclaw-node-host/src/sidecar_handshake.rs:267-288 | the supervisor commits to the selection the runtime derived exactly when the acceptance is within its ceiling and its channel can be lowered; otherwise it fails and retires |
| `SidecarCompletion.SealedConfigurationIsAccepted` | crates/openclaw-node-host/src/sidecar_runtime.rs:455-549 | a configuration one end manages to seal is opened and adopted by a facing end with the same selection: the two checks cannot disagree |
| `SidecarCompletion.HonestConfigurationCompletes` | crates/openclaw-node-host/src/sidecar_runtime.rs:455-612 | from any state that keeps the invariant of runs and with both peers ready: delivered in order, whatever the supervisor proposes and seals is adopted by the runtime, its acknowledgement always fits, and both end configured |
| `SidecarTexts.MessageTextsDiffer` | crates/openclaw-node-host/src/sidecar_runtime.rs:286-322 | two runtime messages with the same text are the same message: configurations, manifests and statuses can be read back from the JSON they are written as |
| `SidecarTexts.SampleSessionGetsReady` | crates/openclaw-node-host/src/sidecar_handshake.rs:109-300 | a concrete session meets every assumption of the agreement results, and its honest run leaves both peers ready to configure |
| `SidecarRuns.StepKeeps` | crates/openclaw-node-host/src/sidecar_runtime.rs:455-744 | every step of either peer keeps the invariant that ties both histories together |
| `SidecarConfiguration.ValidateNames` | crates/openclaw-node-host/src/sidecar_runtime.rs:1081-1100 | the loop over a set of names seen finds the first blank, untrimmed, reserved or repeated name |
| `SidecarConfiguration.NamesPassExactlyWhen` | crates/openclaw-node-host/src/sidecar_runtime.rs:1081-1100 | the names pass exactly when each is trimmed, non-empty and unreserved, and none repeats |
| `SidecarConfiguration.ValidateConfiguration` | crates/openclaw-node-host/src/sidecar_runtime.rs:1001-1042 | the checks, in the source's order |
| `SidecarConfiguration.ConfigurationPassesExactlyWhen` | crates/openclaw-node-host/src/sidecar_runtime.rs:1001-1042 | a configuration passes exactly when its generation is portable and not zero, its concurrency and input bound are positive and within the selection, its output bound holds every failure of the bridge and is within the selection, grace < default timeout <= maximum timeout, and its names are distinct, 1 to 128 plain ASCII characters and, for commands, not the system's |
| `SidecarConfiguration.ConfigurationFaultsAreTrue` | crates/openclaw-node-host/src/sidecar_runtime.rs:1001-1100 | whatever a rejection names, the generation, a limit or a name, is really wrong with it |
| `SidecarConfiguration.ManifestIsSortedPermutation` | crates/openclaw-node-host/src/sidecar_runtime.rs:1065-1079 | the manifest's lists are sorted permutations of the configured ones and do not depend on their order |
| `SidecarConfiguration.ValidatedConfigurationBuilds` | crates/openclaw-node-host/src/sidecar_runtime.rs:833-879 | a validated configuration always builds, and the runtime's commands and capabilities are the manifest's |
| `SidecarConfiguration.BuildCommandRuntime` | crates/openclaw-node-host/src/sidecar_runtime.rs:833-879 | registering every name and building agrees with the name rules |
| `SidecarConfiguration.ValidateStatusBudget` | crates/openclaw-node-host/src/sidecar_runtime.rs:1044-1063 | accepts exactly when the worst status fits the payload limit |
| `SidecarConfiguration.WorstStatusIsWorst` | crates/openclaw-node-host/src/sidecar_runtime.rs:1044-1063 | no status with a portable attempt is longer than the one the budget is checked against |
| `SidecarConfiguration.AcknowledgementIsNoLonger` | crates/openclaw-node-host/src/sidecar_runtime.rs:557-591 | the acknowledgement of a configuration is never longer than the message that proposed it, sorted or not |
| `SidecarExchange.ExchangeErrorsAreTerminal` | crates/openclaw-node-host/src/sidecar_runtime.rs:625-637 | an error fails the exchange and retires the bound channel, for good |
| `SidecarExchange.RetiredChannelsExchangeNothing` | crates/openclaw-node-host/src/sidecar_runtime.rs:455-744 | on a retired channel nothing is proposed, adopted, acknowledged, committed to or activated |
| `SidecarExchange.ActivatesOnlyOnce` | crates/openclaw-node-host/src/sidecar_runtime.rs:691-744 | activation succeeds only for a configured runtime on its bound live channel, starts with the configured status of the manifest, and never happens again |
| `SidecarExchange.EveryStatusFits` | crates/openclaw-node-host/src/sidecar_runtime.rs:782-830 | after any sequence of lifecycle events the bridge's status serializes within the budget that was checked |
| `SidecarStatus.StatusFollowsTheDriver` | crates/openclaw-node-host/src/sidecar_runtime.rs:782-830 | at every point of every run of the lifecycle driver, the projected status tells where the driver stands: ready exactly between a ready event and the next disconnection, that disconnection's cause while disconnected or backing off, draining exactly in a shutdown, paused or stopped exactly at the end; and its attempt is the number of connection attempts, up to 2^53-1 |
| `SidecarStatus.ReasonsAreTold` | crates/openclaw-node-host/src/sidecar_runtime.rs:782-830 | no two causes of a disconnection are shown as one reason, pauses are shown by kind, and a pause and the disconnection it goes with are shown alike |
| `SidecarExchange.SidecarConfigurationExchange.Start` | crates/openclaw-node-host/src/sidecar_runtime.rs:455-493 | locks the ceiling, then validates, seals and waits, or fails closed |
| `SidecarExchange.SidecarConfigurationExchange.Receive` | crates/openclaw-node-host/src/sidecar_runtime.rs:501-549 | adopts a valid configuration or confirms a matching manifest, or fails closed |
| `SidecarExchange.SidecarConfigurationExchange.Acknowledge` | crates/openclaw-node-host/src/sidecar_runtime.rs:557-585 | seals the acknowledgement of the validated manifest and no other |
| `SidecarExchange.SidecarConfigurationExchange.CompleteAcknowledgement` | crates/openclaw-node-host/src/sidecar_runtime.rs:593-612 | the runtime is configured once its acknowledgement is out |
| `SidecarExchange.SidecarRuntimeBridge.Activate` | crates/openclaw-node-host/src/sidecar_runtime.rs:691-744 | builds the runtime and consumes the exchange |
| `CommandRuntimeBuilder.CommandsBuildExactlyWhen` | crates/openclaw-node-host/src/runtime.rs:286-318 | building succeeds exactly when no trimmed command is empty, reserved or repeated, and then the commands are the trimmed names sorted |
| `CommandRuntimeBuilder.CommandRuntimeBuilder.Build` | crates/openclaw-node-host/src/runtime.rs:286-333 | the two insertion loops compute the ordered name sets or the first error |
| `SizedWriters.BoundedFrameWriter.Serialize` | crates/openclaw-node-host/src/sidecar_protocol.rs:586-616 | writing chunk by chunk appends the whole text or reports exactly why not |
| `SizedWriters.RuntimeMessageWithinLimit` | crates/openclaw-node-host/src/sidecar_runtime.rs:1168-1191 | the streaming size check agrees with the verdict sealing would give |
| `SizedWriters.SerializedJsonWithinLimit` | crates/openclaw-node-host/src/runtime.rs:1266-1297 | so does the running counter, including its overflow check |
| `EventHub.LongestSuffixIsLongest` | crates/openclaw-gateway-client/src/session.rs:251-275 | the suffix the log is compared with fits both limits and no longer one does |
| `EventHub.PublishRefines` | crates/openclaw-gateway-client/src/session.rs:251-275 | evicting from the front and appending gives the longest fitting suffix of the non-oversized events, computed afresh |
| `EventHub.EventHub.Publish` | crates/openclaw-gateway-client/src/session.rs:251-275 | the deque holds exactly that suffix and the byte count its sum, after every publish |
| `EventHub.EventHub.MakeRoom` | crates/openclaw-gateway-client/src/session.rs:263-270 | the eviction loop ends, and never finds the deque empty |
| `EventHub.EventHub.Look` | crates/openclaw-gateway-client/src/session.rs:285-322 | one pass of the receive loop: an event, a lag, the close, or nothing yet |
| `EventHub.PollMoves` | crates/openclaw-gateway-client/src/session.rs:295-315 | a receive returns the log's event at the cursor, or skips exactly to the next retained one (or the log's end) past indices that are gone, or reports the close only at the end of the log |
| `EventHub.TilesCoverOnce` | crates/openclaw-gateway-client/src/session.rs:285-322 | a reader's deliveries account for each index between its start and cursor once, and for no other |
| `EventHub.EveryIndexIsAccountedForOnce` | crates/openclaw-gateway-client/src/session.rs:285-322 | under any interleaving of publishes, joins and receives each passed index was received once as logged, or counted in one lag and is no longer retained; a close is reported only with a cause set and everything consumed |
| `EventHub.ReadersStartWhereTheyJoin` | crates/openclaw-gateway-client/src/session.rs:224-249 | a subscriber accounts for what is published after it joined, the session's own reader for everything, in any continuation |
| `EventHub.ClosingIsFinal` | crates/openclaw-gateway-client/src/session.rs:277-283 | once the session has its cause the log and the cause stay as they are, and the hub is closed exactly if it was closed by then or is afterwards |
| `EventHub.ClosedHubDrains` | crates/openclaw-gateway-client/src/session.rs:285-322 | on a closed hub the close is reported after at most as many receives as indices are left |
| `EventHub.NoEarlyClose` | crates/openclaw-gateway-client/src/session.rs:309-311 | and by no receive before that |
| `GatewaySession.EveryRunConserves` | crates/openclaw-gateway-client/src/session.rs:627-678 | in every reachable state permits available, held, queued, in hand and pending sum to the limit, every identifier ever issued is in exactly one place, and wire identifiers are distinct |
| `GatewaySession.InsertNeverOverwrites` | crates/openclaw-gateway-client/src/session.rs:1062-1072 | a written request enters the pending table under an unused key |
| `GatewaySession.ResponsesSettleTheirOwn` | crates/openclaw-gateway-client/src/session.rs:1111-1118 | a response settles the request on the wire with its identifier and no other |
| `GatewaySession.LeavesTheWireExactlyWhen` | crates/openclaw-gateway-client/src/session.rs:1007-1151 | a pending request keeps its place and deadline through every step but its own response, its deadline, its cancellation and the end of the session, and is told accordingly |
| `GatewaySession.PendingUntilItsOwnEnd` | crates/openclaw-gateway-client/src/session.rs:1007-1143 | over any run that nothing closes, a request on the wire is still pending, or was answered by a response with its own identifier, timed out with its deadline passed, or let go with its flag set |
| `GatewaySession.AnswersAreResponses` | crates/openclaw-gateway-client/src/session.rs:1007-1151 | no other step hands out an answer |
| `GatewaySession.SettledOnce` | crates/openclaw-gateway-client/src/session.rs:1007-1151 | a request's reply, once given, is never given again or changed |
| `GatewaySession.ExpireTakesExactlyTheDue` | crates/openclaw-gateway-client/src/session.rs:1035-1049 | the timer removes every pending request whose deadline has come, with a timeout, and no other |
| `GatewaySession.EverythingSettlesAtTheEnd` | crates/openclaw-gateway-client/src/session.rs:1145-1151 | when the session has ended everything ever queued is settled, every permit is back or with a caller that queued nothing, and the pending ones failed with the session's own cause |
| `GatewaySession.ClosingSettlesWhatIsLeft` | crates/openclaw-gateway-client/src/session.rs:1145-1151 | every request pending when the session starts to close fails with the session's cause, and every request still queued is let go unanswered |
| `GatewaySession.ClosesExactlyWhen` | crates/openclaw-gateway-client/src/session.rs:1007-1143 | a session starts to wind up exactly on a stop, a write that timed out or a socket that failed, with that cause, and then only comes to its end |
| `GatewaySession.GoesRoundTheLoop` | crates/openclaw-gateway-client/src/session.rs:1007-1143 | after a response, other traffic, the timer, a command that is not written, or a write that ended well or was refused, the session looks through all pending requests again |
| `GatewaySession.EndsExactlyWhen` | crates/openclaw-gateway-client/src/session.rs:1007-1151 | over every run the session is winding up or over exactly if the run has a closing action, with that action's cause |
| `GatewaySession.CancellationIsNeverLost` | crates/openclaw-gateway-client/src/session.rs:745-751 | while the session waits with an empty queue and no guard is between its flag and its command, no pending request has its flag set, even if a command had found the queue full |
| `GatewaySession.DequeueSendsExactlyWhen` | crates/openclaw-gateway-client/src/session.rs:1052-1060 | a dequeued request is written exactly when it is neither cancelled nor expired; otherwise it is settled accordingly |
| `GatewaySession.WriteOutcomeIsReported` | crates/openclaw-gateway-client/src/session.rs:1062-1091 | a write that times out is reported as the request's own timeout exactly when its deadline is what ran out; a refusal by the guard means nothing went out; a socket failure is passed on |
| `GatewaySession.RefusedNeverReachesTheWire` | crates/openclaw-gateway-client/src/session.rs:1052-1060 | and then never reaches the wire in any continuation |
| `GatewayOrder.RequestsGoOutInOrder` | crates/openclaw-gateway-client/src/session.rs:1050-1072 | of two requests that both reach the wire, the one queued first reaches it first, in any continuation |
| `GatewaySession.StepKeepsTable` | crates/openclaw-gateway-client/src/session.rs:1007-1152 | every step keeps the ledger, the cancellation, the wire and the reply invariants, including that a timeout reply means the deadline has passed |
| `GatewaySessionTask.SessionTask.Sweep` | crates/openclaw-gateway-client/src/session.rs:1009-1016 | collecting and removing flagged requests is a run of the state machine and leaves none flagged |
| `GatewaySessionTask.SessionTask.NextDeadline` | crates/openclaw-gateway-client/src/session.rs:1017-1028 | the timer is set to the least pending deadline: it fires exactly when something has expired |
| `GatewaySessionTask.SessionTask.ExpireDue` | crates/openclaw-gateway-client/src/session.rs:1035-1049 | every expired request, and no other, is removed with a timeout |
| `GatewaySessionTask.SessionTask.TakeCommand` | crates/openclaw-gateway-client/src/session.rs:1050-1094 | a request in hand, a refused request, or a cancelled entry |
| `GatewaySessionTask.SessionTask.FinishWrite` | crates/openclaw-gateway-client/src/session.rs:1062-1091 | each outcome of the write settles or inserts the request and ends the session or not |
| `GatewaySessionTask.SessionTask.OnResponse` | crates/openclaw-gateway-client/src/session.rs:1111-1118 | one response |
| `GatewaySessionTask.SessionTask.End` | crates/openclaw-gateway-client/src/session.rs:1145-1151 | everything pending fails with the close cause and everything queued is let go |
| `Duplex.InputRunsKeepOk` | crates/openclaw-node-host/src/duplex.rs:227-264 | after any pushes, reads and closes: bytes equal the queue's sum within the bound, closed means empty, what was read is a prefix of what was taken, and what was taken is the in-order part of what was offered, all of it while open |
| `Duplex.ReadingDrains` | crates/openclaw-node-host/src/duplex.rs:24-43 | on an open buffer, as many receives as payloads wait read everything ever taken, in order, and the next one waits |
| `Duplex.OverflowsExactlyWhen` | crates/openclaw-node-host/src/duplex.rs:227-249 | a push overflows, and closes, exactly when the frame is in order on an open buffer and does not fit; is ignored exactly when the buffer is closed or the frame late; else is taken as the last |
| `Duplex.TakenRiseStrictlyExactlyWhen` | crates/openclaw-node-host/src/duplex.rs:233-235 | what an open buffer has taken rises strictly exactly when at most one of the frames offered to it was numbered `u64::MAX` |
| `Duplex.PushKeepsStrictRiseExactlyWhen` | crates/openclaw-node-host/src/duplex.rs:227-249 | in any state, open or closed, a push breaks the strict rise exactly when it is numbered `u64::MAX`, the buffer is open with room for it, and the last frame taken was numbered `u64::MAX` too |
| `Duplex.LargestNumberCanRepeat` | crates/openclaw-node-host/src/duplex.rs:235-235 | a fresh buffer with the 64 KiB bound takes two frames numbered `u64::MAX`, whatever their common payload, if it fits twice |
| `Duplex.InputBuffer.Push` | crates/openclaw-node-host/src/duplex.rs:227-249 | one push keeps the buffer's invariant and does what the step says |
| `Duplex.InputBuffer.Receive` | crates/openclaw-node-host/src/duplex.rs:24-43 | one pass of the receive loop |
| `Duplex.Utf8PrefixLength` | crates/openclaw-node-host/src/duplex.rs:267-276 | the decrementing loop finds the last character boundary within the limit |
| `Duplex.FirstPiece` | crates/openclaw-node-host/src/duplex.rs:267-276 | for every non-empty text the first chunk is non-empty, whole characters, and could not hold one more |
| `Duplex.ChunksAreGreedy` | crates/openclaw-node-host/src/duplex.rs:84-96 | the chunks are the encodings of the greedy division of the text into whole characters |
| `Duplex.ChunksMakeUpText` | crates/openclaw-node-host/src/duplex.rs:84-96 | they are non-empty, valid UTF-8, at most 16 KiB, and concatenate to the text |
| `Duplex.FirstChunksCarryPrefix` | crates/openclaw-node-host/src/duplex.rs:84-96 | any first few carry a prefix of the text, and only all of them the whole |
| `Duplex.InvocationProgress.Send` | crates/openclaw-node-host/src/duplex.rs:107-129 | a frame is numbered only if acknowledged; acknowledged frames are numbered 0, 1, 2, ... |
| `Duplex.InvocationProgress.Write` | crates/openclaw-node-host/src/duplex.rs:84-96 | with heartbeats in between, the frames carry exactly the first chunks of the text, all of them exactly when it succeeds |
| `ActiveInvocations.DuplicatesChangeNothing` | crates/openclaw-node-host/src/runtime.rs:1160-1192 | an id in use is refused and nothing changes; a free one is taken for its node, with a fresh buffer exactly if duplex, and nothing else changes |
| `ActiveInvocations.DropTakesOnlyItsOwn` | crates/openclaw-node-host/src/runtime.rs:1138-1146 | in a faithful map a tracking that goes takes its own entry with it, closes its own buffer, is cancelled exactly if still armed, and touches no other |
| `ActiveInvocations.CancelReachesItsOwn` | crates/openclaw-node-host/src/runtime.rs:1205-1218 | in a faithful map a cancellation cancels and closes the invocation with that id and no other |
| `ActiveInvocations.CancelAllReachesEveryone` | crates/openclaw-node-host/src/runtime.rs:1241-1255 | emptying a faithful map cancels exactly the live invocations that were not cancelled yet and closes exactly their inputs |
| `ActiveInvocations.StrayControlIsIgnored` | crates/openclaw-node-host/src/runtime.rs:1205-1239 | input naming no live duplex invocation on its own node, and a cancellation naming no live one, change nothing |
| `ActiveInvocations.OverflowStopsItsOwn` | crates/openclaw-node-host/src/runtime.rs:991-1006 | input that overflows flags, cancels and closes its own invocation; input that fits is taken; no other invocation notices |
| `ActiveInvocations.FaithfulExactlyWhen` | crates/openclaw-node-host/src/runtime.rs:1241-1255 | the map names exactly the live trackings throughout a run if and only if it is only ever emptied while none is alive |
| `ActiveInvocations.LeftoverTakesAnothersEntry` | crates/openclaw-node-host/src/runtime.rs:1194-1203 | a run in which a leftover tracking removes a newer one's entry and closes its input |
| `ActiveInvocations.ActiveInvocations.Input` | crates/openclaw-node-host/src/runtime.rs:1220-1239 | routes to the matching node's buffer and flags an overflow |
| `ActiveInvocations.ActiveInvocations.CancelAll` | crates/openclaw-node-host/src/runtime.rs:1241-1255 | empties the map, then cancels and closes everything that was in it |
| `InvocationRuntime.EveryRunIsBounded` | crates/openclaw-node-host/src/runtime.rs:464-606 | over every event stream: lifecycles within the permits, undelivered overload results within the queue and one, every invocation event in exactly one place, and at most one completion each |
| `InvocationRuntime.StoppedIsClean` | crates/openclaw-node-host/src/runtime.rs:975-989 | a stopped loop has all its permits back, an empty map, and every invocation event settled or given up |
| `InvocationRuntime.MapNamesLiveInvocations` | crates/openclaw-node-host/src/runtime.rs:560-576 | while the loop runs the map's ids are exactly those of the live tasks, one each, and a duplicate changes nothing |
| `InvocationRuntime.HandlersReadTheirOwnInput` | crates/openclaw-node-host/src/runtime.rs:991-1006 | what a handler reads is a prefix of what its buffer took, in order, from exactly the input events that named it on its node since its admission |
| `InvocationRuntime.OverflowNeverSucceeds` | crates/openclaw-node-host/src/runtime.rs:785-797 | an overflow flagged before the outcome is decided never ends in success, in any continuation |
| `InvocationOutcomes.SucceedsExactlyWhen` | crates/openclaw-node-host/src/runtime.rs:651-802 | over every run a result is success exactly if the handler returned a good one while handling and no overflow of its duplex input stood against it; and failure exactly for a duplicate, a refused admission, an overflow or cancellation before the handler, or a handler that failed or overflowed |
| `InvocationOutcomes.HandlerRunsExactlyWhen` | crates/openclaw-node-host/src/runtime.rs:651-741 | a handler is entered exactly on an admission that passes for an invocation neither overflown nor cancelled, and runs until it finishes, overflows or is aborted |
| `InvocationOutcomes.InvocationsGoWhereThereIsRoom` | crates/openclaw-node-host/src/runtime.rs:482-528 | in every reachable state an invocation gets a task exactly while fewer than the limit are out, tracked exactly if its id is free; waits as an overload result exactly while fewer than the limit wait and the worker lives; and otherwise stops the loop |
| `InvocationOutcomes.StopsExactlyWhen` | crates/openclaw-node-host/src/runtime.rs:464-558 | a running loop stops exactly when the session fails, the worker has gone, a joined completion had failed, or an invocation finds no room |
| `InvocationOutcomes.SettledOrLostExactlyWhen` | crates/openclaw-node-host/src/runtime.rs:464-606 | who is settled and who is given up, on exactly which steps, and when the worker ends |
| `InvocationOutcomes.SettledMeansCompletedOnce` | crates/openclaw-node-host/src/runtime.rs:464-606 | over every run a settled invocation had exactly one completion submitted; after the stop every invocation event had exactly one or was given up |
| `InvocationOutcomes.OverloadsGoOutInOrder` | crates/openclaw-node-host/src/runtime.rs:464-480 | overload results are submitted in the order their invocations came in |
| `InvocationOutcomes.CancelledExactlyWhen` | crates/openclaw-node-host/src/runtime.rs:651-797 | an invocation is cancelled on exactly these occasions: its cancellation or overflowing input, a refused admission, an overflow found, a failed completion or an abort while tracked, and a stop of the loop over it |
| `InvocationOutcomes.StoppingCancelsTheLive` | crates/openclaw-node-host/src/runtime.rs:975-989 | a stop cancels every live invocation and closes its input |
| `InvocationOutcomes.ReadingGetsTheNext` | crates/openclaw-node-host/src/duplex.rs:24-43 | in every reachable state a read yields the next payload taken for that invocation, and while its input is open nothing taken is lost |
| `InvocationRuntime.FlaggedTasksAreOverflown` | crates/openclaw-node-host/src/runtime.rs:695-704 | which covers every undecided duplex task with its flag set |
| `InvocationRuntime.StepKeepsLoop` | crates/openclaw-node-host/src/runtime.rs:464-606 | every step keeps the bounds, the task table, the map and the buffers |
| `InvocationLoop.InvocationLoop.OnInvocation` | crates/openclaw-node-host/src/runtime.rs:482-528 | a task under a permit, a queued overload result, or the end of the loop |
| `InvocationLoop.InvocationLoop.OnJoined` | crates/openclaw-node-host/src/runtime.rs:532-546 | a joined task returns its permit; a failed completion stops the loop |
| `InvocationLoop.InvocationLoop.StopHandlerTasks` | crates/openclaw-node-host/src/runtime.rs:975-979 | aborting and joining is a run of the state machine and leaves no task |
| `Reconnect.BackoffIsClosedForm` | crates/openclaw-node-host/src/reconnect.rs:107-143 | after any history of calls the next delay is min(initial * 2^k, maximum) over unbounded integers, k counting self-chosen delays since the last connection, despite the checked multiplication |
| `Reconnect.EveryDelayIsBounded` | crates/openclaw-node-host/src/reconnect.rs:107-137 | every self-chosen delay is that closed form, every server delay is honoured up to the maximum, every retry delay is within it, a stored token is tried at most once between connections, and nothing else advances the backoff |
| `Reconnect.StoredTokenTriedExactlyWhen` | crates/openclaw-node-host/src/reconnect.rs:115-121 | exactly when a stored token is tried |
| `Reconnect.AnswersExactlyWhen` | crates/openclaw-node-host/src/reconnect.rs:107-137 | after any history: keep the session exactly for a failure of a request other than the connection; else pause exactly if classification says so; else retry |
| `Reconnect.GatewayPausesExactlyWhen` | crates/openclaw-node-host/src/reconnect.rs:165-213 | which Gateway answers pause, as pairing, protocol or authentication, as conditions without an order of checks |
| `Reconnect.DetailCodeIsTheMostSpecific` | crates/openclaw-node-host/src/reconnect.rs:251-264 | the trimmed detail code decides unless it is blank or missing; then an unpaired node counts as pairing required |
| `Reconnect.WaitingIsHonouredExactlyWhen` | crates/openclaw-node-host/src/reconnect.rs:165-205 | exactly when a failure marked wait-then-retry does not pause |
| `Lifecycle.EveryTraceIsWellFormed` | crates/openclaw-node-host/src/lifecycle.rs:203-399 | whatever happens, the trace follows the grammar, and the run is over exactly when the trace is, ending in its stop or in the very pause returned |
| `Lifecycle.TerminalIsLast` | crates/openclaw-node-host/src/lifecycle.rs:203-399 | an item of a well-formed trace is a stop or pause exactly when it is the last one of a trace that is over |
| `Lifecycle.TokenComesBeforeReady` | crates/openclaw-node-host/src/lifecycle.rs:244-249 | a token is issued right after its own attempt connected and right before it is ready |
| `Lifecycle.EveryItemNamesItsAttempt` | crates/openclaw-node-host/src/lifecycle.rs:219-222 | attempts count up by one to saturation, and every single item of a trace, finished or not, carries the number of the attempt it belongs to |
| `LifecycleScript.TheDriverFollowsTheScript` | crates/openclaw-node-host/src/lifecycle.rs:203-399 | over every run of a fresh driver its whole trace and its result are a function of the rounds alone: every event in order, every wait by its cause, with the closed form at the number of self-chosen waits since the last connection |
| `LifecycleScript.OwnWaitsAreClosedForm` | crates/openclaw-node-host/src/lifecycle.rs:244-338 | in every run each wait of the policy's own choosing is min(initial * 2^k, maximum), k counting the earlier rounds with such a wait after which nothing has connected; 0 if this round had connected |
| `LifecycleScript.ClassesGoWithPauses` | crates/openclaw-node-host/src/lifecycle.rs:28-50 | an error is reported as configuration, identity or protocol exactly when it pauses as that, and what is reported as transport never pauses |
| `Lifecycle.RepeatedFailuresBackOff` | crates/openclaw-node-host/src/lifecycle.rs:310-338 | repeated failures are retried after the closed form's delays, in order |
| `Lifecycle.EveryWaitIsBounded` | crates/openclaw-node-host/src/lifecycle.rs:310-362 | over every run a wait after a client failure is within the policy's maximum or the retired-session delay, and one after a runtime failure is the restart delay |
| `Lifecycle.NodeLifecycle.Run` | crates/openclaw-node-host/src/lifecycle.rs:203-308 | the driver's loop and callbacks produce exactly the trace and result of the rounds |

## Left out

- The tag is an arbitrary function with ideal delivery: nothing verifies unless some channel sealed it under the key. HMAC, key generation, constant-time comparison and zeroization are not modelled.
- JSON parsing and escaping: a codec is any pair of functions where decoding inverts a successful encoding; the lengths of status, configuration and acknowledgement messages are computed from their JSON text.
- Feature masks are sets of bit numbers, so the bitwise operations of the source are set intersection and inclusion.
- Invocation and admission traffic on a configured channel is opaque payloads, sealed and opened in any order.
- In agreement runs the two channels are reachable from outside only after configuration; before that, `lower_frame_limit` is called only by the handshake.
- `usize` lengths are natural numbers except where the source checks for overflow; event indices, request identifiers and progress numbers do not wrap.
- Sockets, WebSocket frames, TLS, HTTP, processes, tasks' scheduling and wake-ups: a task is its steps, `mpsc` a bounded queue, a semaphore a counter, an atomic flag membership in a set.
- Clocks are one nondecreasing number; timeouts are steps that become possible when it is late enough. `resolve_timeout` and the admission deadline are not modelled.
- A retained event that does not parse counts as received, as it does for the cursor in the source.
- The select loops' interleaving with other tasks is modelled on values (`GatewaySession`, `InvocationRuntime`); the classes beside them cover the code between two waits, and sharing one map between several loops or one-shot dispatches is covered only by `ActiveInvocations`.
- Handler outcomes, admission policies, guards and Gateway answers are choices of the environment.
- The connect handshake with the Gateway, the protocol fallback, request parameters and response shapes.
- Pairing diagnostics beyond the two fields the reconnect policy reads; error details are taken as parsed.
- The root `src/` package, host configuration, health server, identity files and manifest fixtures.
