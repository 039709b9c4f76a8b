# Verified models of Rui's compact cores

Rui keeps several small programs whose whole point is a protocol or a byte-level transformation that
must be right in every interleaving and for every input. This project models them in Dafny and proves
what they are for. Each model takes the branches, constants and error cases of the code it follows; what
the operating system, curl, SQLite, child processes or the network do is left to the environment, as a
parameter or as a nondeterministic step.

- **The adapter view** (`research/adapter-view`). `History` is the append-only store with one logical
  clock and reads cut off at an operation; `Snapshots` shows that a view never changes. `Selection` is
  the compaction-aware choice of what a request carries. `Json` and `JsonValue` define JSON texts
  (RFC 8259, sections 2 to 7), an independent reader, and the values texts decode to; `Spellings` says
  what their bytes stand for from the standard's own tables and grammar. `JsonCopy` is the
  bounded lexical copier, and `Prepare` the request written through it into bounded scratch. `Request`
  is the simple in-memory builder; `Streaming`, `Refinement` and `DecodedRuns` prove that the streamed
  bytes decode to the builder's request, and exactly when. `BuiltRequests` says of the stored rows alone
  what each of the two writers must produce, and which failure comes first.
- **Physical custody** (`integrated_capacity.c`). `Custody` is the five-state cell shared by an owner,
  a reactor and a patch lane, with the shared scratch counter and the settlement transaction; `Settlements`
  traces each settlement back to the steps of its run.
  `Escalation` is TERM, KILL and the pipe grace. `Spools` is the windowed search and the import.
- **The bounded capture queue** (`capture.c`). `CaptureQueue` is the ring whose consumer writes outside
  the lock, with pause and redelivery; `Captures` is each transfer's account over a run.
- **Crash and fencing protocols**. `Permits` is the attempt custody of `custody.c`; `Generations` is
  the evaluation generations of `generation_model.py`, and `Dependencies` what their tables hold in
  terms of the run's steps.
- **The TypeScript client**. `Feed` and `Cursor` are the paged feed and its cursor, `Notifications` the
  wakeups, `Following` a follower that uses both, `Client` the Host lifecycle.
- **Byte formats and the launch handshake**. `TaggedValue`, `PacedBody` with its verifier, and
  `LaunchHandshake`. `Words` and `Bytes` hold what they share.

Concurrency is modelled as small steps between lock, atomic or await points, and the theorems hold over
every sequence of enabled steps. An object that the source updates in place is a class whose methods are
proved to do what a specification function on its abstract state says, and what the source promises in
its fields' own terms; invariants and whole-run theorems are proved about that function, and say what it
amounts to without naming it.

## What turned out differently

- `publish` in `generation_model.py` does not look at `terminal`: a terminal run still lets its active
  generation publish (`Generations.TerminalPublishes`). `Generations.PublishesExactly` says, of every
  run, exactly when a publication goes through. Cancelled, replaced and interrupted generations are fenced
  in every later state.
- A function call accepted as raw bytes gets no call row, so the streaming writer leaves out its result
  where the builder, which decodes the item, includes it (`DecodedRuns.RawCallApart`). The copier also
  takes objects only, where the builder takes any JSON as host input or as a tool result. The two agree
  exactly when settings, host payloads and the tool results found are objects and every selected function
  call has a call row (`Refinement.StreamingRefines`), so on every run that stores only decoded objects
  (`DecodedRuns.DecodedRunsStream`).
- A dropped member counts against the scratch allowance until the sink is rewound over it, so a request
  can be refused although what would be sealed fits (`DecodedRuns.DroppedNeedsRoom`). The exact
  condition is in the contracts of `JsonCopy.CopyObject` and `Prepare.Prepare`.
- The dimensions of the paced response are those of the response exactly while every event number has
  five digits, that is up to 100000 events (`PacedBody.DimensionsExact`). Beyond, reads among the first
  100000 records stay exact, and the last byte of the response cannot be read (`PacedBody.BodyBeyond`).

## Model

| member | source | states |
|---|---|---|
| Json.ParseSound | research/adapter-view/adapter.py:11-17 | A text the decoder accepts is the spelling of a well-formed document, whitespace, escapes and lexemes included |
| Json.ParseExact | research/adapter-view/adapter.py:11-17 | Every spelling of a well-formed document is accepted, and read as that document only |
| JsonValue.KeptValue | research/adapter-view/streaming.py:145-155 | Dropping every top-level member whose decoded key is the target is removing that key from the decoded dictionary, repeated keys included |
| Spellings.UnitsExact | research/adapter-view/streaming.py:87-107 | A string decodes to exactly the units its text spells: each character as itself, by one of the eight escapes, or by four hexadecimal digits of either case, most significant first |
| Spellings.StringLoads | research/adapter-view/adapter.py:11-17 | Whatever spelling of its units a text uses, it loads to the string of those units |
| Spellings.DroppedExactly | research/adapter-view/streaming.py:145-155 | A provider item loses exactly the members whose key text is some spelling of `created_by` |
| Spellings.LetterSpellings | research/adapter-view/streaming.py:92-102 | The spellings of a letter or underscore are itself and its two digits after `\u00`, and no other |
| Spellings.NumberExact | research/adapter-view/adapter.py:11-17 | The number automaton accepts exactly the grammar: optional minus, integer without leading zeros, optional fraction, optional exponent |
| Spellings.DictExact | research/adapter-view/adapter.py:11-17 | An object decodes to exactly the keys it has, each with the value of its last member |
| JsonCopy.Source.Peek | research/adapter-view/streaming.py:17-23 | The next byte over any split into chunks, without consuming it; at the end nothing, or a failure when the digest differs |
| JsonCopy.Source.Take | research/adapter-view/streaming.py:25-30 | Consumes exactly the next byte, and fails at the end |
| JsonCopy.Source.Space | research/adapter-view/streaming.py:32-34 | Consumes exactly the leading whitespace |
| JsonCopy.Source.Expect | research/adapter-view/streaming.py:36-39 | Consumes whitespace and one byte, and fails exactly when there is none or it is not the one expected |
| JsonCopy.Source.Finish | research/adapter-view/streaming.py:41-44 | Succeeds exactly when only whitespace is left and the digest matches |
| JsonCopy.Sink.Write | research/adapter-view/streaming.py:55-60 | Appends the data, or nothing, exactly as file, buffer and data together fit the allowance, across flush boundaries |
| JsonCopy.Sink.Mark | research/adapter-view/streaming.py:71-73 | Flushes without changing the contents, and returns their size |
| JsonCopy.Sink.Rewind | research/adapter-view/streaming.py:75-78 | Restores exactly the contents the file had at the mark |
| JsonCopy.CopyEscape | research/adapter-view/streaming.py:92-100 | Copies an escape verbatim and returns the code unit it stands for, which `Spellings.UnitsExact` ties to the escape and digit tables |
| JsonCopy.CopyString | research/adapter-view/streaming.py:81-108 | Copies a string verbatim, and says whether its decoded text is the target in whatever spelling (the units of `Spellings.UnitsExact`), for every chunking |
| JsonCopy.ScanContainer | research/adapter-view/streaming.py:117-129 | Counting brackets outside strings consumes exactly one well-formed array or object |
| JsonCopy.CopyContainer | research/adapter-view/streaming.py:117-129 | Copies exactly one array or object verbatim, or fails exactly when it does not fit |
| JsonCopy.CopyValue | research/adapter-view/streaming.py:111-135 | Copies exactly one value verbatim whatever its kind, without the whitespace before it |
| JsonCopy.CopyMember | research/adapter-view/streaming.py:146-155 | Writes separator, key, colon and value, or leaves the sink as it was when the decoded key is the target |
| JsonCopy.CopyMembers | research/adapter-view/streaming.py:143-159 | The members kept, with commas exactly between them whichever of them are dropped; fails exactly when the highest point exceeds the allowance |
| JsonCopy.CopyObject | research/adapter-view/streaming.py:138-165 | For every valid payload and chunking: writes exactly the object without the top-level members whose key spells the target (`Spellings.DroppedExactly`), and says whether any was kept; fails exactly for a non-object, a damaged payload, or a peak above the allowance |
| JsonCopy.PeakCoversKept | research/adapter-view/streaming.py:55-60 | The highest point of a copy is never below what is kept |
| History.Core.AddFact | research/adapter-view/core.py:51-56 | One transaction: a new position, a new payload, and a fact of that kind, position and payload; nothing else changes |
| History.Core.Accept | research/adapter-view/core.py:64-77 | One transaction: result, items in order and a call row for each decoded function call and no other; refused exactly for a bad anchor, an unknown or answered operation or a call without an id, leaving no trace |
| History.Core.AddTool | research/adapter-view/core.py:79-83 | One tool result for each call, at a new position |
| History.NextLeast | research/adapter-view/core.py:130-139 | The history query returns the stored row with the least position in range, from either table |
| Snapshots.RunKeepsValid | research/adapter-view/core.py:42-83 | Over every run: positions are drawn once from the clock, results answer earlier operations, and each call row names what its stored item decodes to |
| Snapshots.SnapshotStable | research/adapter-view/core.py:85-186 | Whatever is recorded after an operation was admitted, settings, history, model output and tool results of its view stay the same |
| Selection.EntriesExact | research/adapter-view/core.py:120-139 | History is exactly the stored rows strictly in range, once each, in position order |
| Selection.View.History | research/adapter-view/core.py:120-139 | The row-by-row loop yields that history, whole or on one side of a visible compaction's admission |
| Selection.View.SelectedRecords | research/adapter-view/adapter.py:20-31 | The selection: everything, or host input before the base compaction's admission, the base, and everything since but the base |
| Selection.SelectionAroundBase | research/adapter-view/adapter.py:20-31 | With a compaction, host input older than its admission precedes the anchored base, which appears once, and everything after it is newer, in order on both sides |
| Selection.SelectionExact | research/adapter-view/adapter.py:20-31 | An entry is selected unanchored exactly when it is visible, is not the base, and is host input or newer than the base's admission |
| Selection.SelectionOnce | research/adapter-view/adapter.py:20-31 | Nothing is selected twice |
| Selection.SelectionInOrder | research/adapter-view/adapter.py:24-26 | Without a compaction the selection is in position order |
| Request.ReadBody | research/adapter-view/adapter.py:11-16 | A body read in chunks is returned whole, or refused exactly above the decoder's limit |
| Request.BuildOutput | research/adapter-view/adapter.py:47-63 | Both traversals of a result: its items without `created_by`, then the results of its calls in item order, or the first failure |
| Request.BuildRequest | research/adapter-view/adapter.py:34-64 | The request of the normal mode or its first failure; `BuiltRequests.RequestExact` says what either is |
| BuiltRequests.SettingsExact | research/adapter-view/core.py:112-118 | On every store of a run the settings are the body of the visible settings fact that no other visible one follows, and missing exactly when there is none |
| BuiltRequests.RequestExact | research/adapter-view/adapter.py:34-64 | What the builder builds, from the stored rows: the value of the latest visible settings, then record by record host values, items whole but for `created_by`, and the visible answer of each function call; or the first failure in that order, with its cause |
| BuiltRequests.PlanExact | research/adapter-view/streaming.py:168-202 | What the streaming writer copies, from the stored rows: the members of the latest visible settings, then record by record host payloads, items, and the visible tool results of the call rows in item order; or why it cannot |
| Streaming.RequestTextLoads | research/adapter-view/streaming.py:176-202 | The streamed bytes are one JSON text whose value is the settings overridden by the fixed members and the input |
| Refinement.CallsAgree | research/adapter-view/core.py:165-186 | The join over call rows leads to the results that decoding each item leads to, from the start or an anchor, exactly when every call was recorded |
| Refinement.StreamingRefines | research/adapter-view/streaming.py:168-205 | For every store and cutoff where the builder succeeds, the streamed bytes decode to its settings, the fixed members and its input exactly when the settings, every host payload and every tool result found are objects and every selected function call has a call row |
| DecodedRuns.DecodedRunsStream | research/adapter-view/streaming.py:168-205 | After every run that stores decoded objects, each request the builder builds is the one that is streamed |
| DecodedRuns.RawCallApart | research/adapter-view/core.py:75-76 | A run with a function call accepted as raw bytes on which the two forms differ |
| DecodedRuns.DroppedNeedsRoom | research/adapter-view/streaming.py:146-153 | A payload whose copy is two bytes and whose copying needs more |
| Prepare.CopyPayload | research/adapter-view/streaming.py:138-165 | Copies one stored payload through chunks of at most 4096 bytes |
| Prepare.EmitRecord | research/adapter-view/streaming.py:182-194 | A record's payloads in order with commas between, across records; succeeds exactly when each can be copied within the allowance |
| Prepare.Prepare | research/adapter-view/streaming.py:168-205 | A request is sealed exactly when every payload it needs is visible, undamaged and an object and no point of the writing exceeds the allowance; it is then the streamed text of the latest settings and of what each selected record contributes, and a failure that is not one of space has its reason in the store. Where the builder succeeds, what is sealed decodes to its request exactly on a streamable view, and there only space can be missing |
| Spools.Contains | research/host-runtime/integrated-capacity-proof/integrated_capacity.c:838-855 | True exactly when the needle occurs in the file and no read failed, for every length and pattern of short reads; terminates |
| Spools.OccursInWindow | research/host-runtime/integrated-capacity-proof/integrated_capacity.c:846-853 | With a carry of one byte less than the needle, an occurrence in what was read is an older one or lies in the window |
| Spools.ImportPart | research/host-runtime/integrated-capacity-proof/integrated_capacity.c:857-885 | The blob is the first bytes of the spool, exactly when the spool has that many and no read failed |
| Escalation.BashCell.Terminal | research/host-runtime/integrated-capacity-proof/integrated_capacity.c:485-521 | One tick as the composition of cancel, kill, wait and pipe expiry; says whether the cell can be sealed |
| Escalation.BashCell.StopChild | research/host-runtime/integrated-capacity-proof/integrated_capacity.c:534-539 | A failed drain sends TERM unless one was sent, and starts its grace |
| Escalation.SignalsInOrder | research/host-runtime/integrated-capacity-proof/integrated_capacity.c:485-521 | Over every run of ticks and drains: TERM and KILL at most once each, KILL a full grace after TERM and never after the reap |
| Escalation.SignalsExactly | research/host-runtime/integrated-capacity-proof/integrated_capacity.c:485-521 | Over every run from the spawn: TERM is sent at the first tick at or past the deadline or the first failed drain, KILL at the first tick a full grace later before the reap, the reap at the first tick that finds the root gone, each at exactly that time; the cell is cancelled exactly when the deadline sent the TERM; open pipes are given up exactly when they are due |
| Escalation.KilledInTime | research/host-runtime/integrated-capacity-proof/integrated_capacity.c:494-500 | In every run a child that was sent TERM and has not been reaped is killed by the first tick a full grace later |
| Escalation.DeadlineMovedOnce | research/host-runtime/integrated-capacity-proof/integrated_capacity.c:485-554 | After the reap the pipe deadline moves at most once, and only by the one TERM |
| Escalation.TwoTicksEnd | research/host-runtime/integrated-capacity-proof/integrated_capacity.c:511-520 | A reaped cell is sealed by the second of two ticks, one past its deadline and one a TERM grace later, whatever happens between |
| Escalation.SealedExactly | research/host-runtime/integrated-capacity-proof/integrated_capacity.c:520-520 | A tick seals exactly when the root is reaped and both pipes are closed |
| Custody.StepKeepsValid | research/host-runtime/integrated-capacity-proof/integrated_capacity.c:217-985 | Every step of every lane keeps scratch conservation, cell contents, lane positions, tables and holdings |
| Custody.ScratchConserved | research/host-runtime/integrated-capacity-proof/integrated_capacity.c:217-243 | Over every interleaving the counter equals the cells' bytes up to the amounts in flight, stays within the quota, and no cell passes its limit |
| Custody.NothingWraps | research/host-runtime/integrated-capacity-proof/integrated_capacity.c:217-243 | None of the unsigned subtractions underflows and the addition does not wrap, although check and add are separate |
| Custody.ChargeConserves | research/host-runtime/integrated-capacity-proof/integrated_capacity.c:224-231 | The check against the loaded value covers the later addition, because only the reactor adds |
| Custody.OnlyOwned | research/host-runtime/integrated-capacity-proof/integrated_capacity.c:585-609 | A lane writes only a cell whose state gives it to that lane, or claims a dispatchable one; and it owns the cell it works on |
| Custody.ArtifactsExact | research/host-runtime/integrated-capacity-proof/integrated_capacity.c:887-940 | For every settled attempt of every run, its class exactly, the first that applies of the nine in the source's order and from the evidence's own fields; its artifacts are all the bytes delivered to its cell when it is complete or a cancelled shell nothing spoiled, and none otherwise |
| Settlements.FaultsExact | research/host-runtime/integrated-capacity-proof/integrated_capacity.c:217-296 | Over every run each flag of a cell is up exactly when a step since the cell was last freed raised it: a failed preparation or patch, bytes past the quota or not written, bytes past the limit, a failed transport; and the cell was given exactly the bytes delivered since |
| Settlements.SettlementExact | research/host-runtime/integrated-capacity-proof/integrated_capacity.c:887-956 | After any run a sealed cell can be settled, and a model call's class and artifact follow from the run: the first fault raised, or success exactly when what was delivered has the terminal event and the reads went through, and everything delivered is kept exactly on success |
| Settlements.LifeCycle | research/host-runtime/integrated-capacity-proof/integrated_capacity.c:585-609 | Which step of which lane changes a cell's state, and when; an attempt is inserted exactly by an admission of a new id |
| Settlements.ReactorGoesOn | research/host-runtime/integrated-capacity-proof/integrated_capacity.c:217-296 | Whatever the reactor is doing to a cell it can finish, well or badly |
| Settlements.CellGoesOn | research/host-runtime/integrated-capacity-proof/integrated_capacity.c:585-685 | In every valid state each cell of a lane that is not busy can be claimed, given bytes and brought to its end |
| Settlements.OwnerGoesOn | research/host-runtime/integrated-capacity-proof/integrated_capacity.c:810-985 | The owner can finish what it is doing; waiting, it can settle any sealed cell, which then is settled, and reserve any free one |
| Settlements.ChildLives | research/host-runtime/integrated-capacity-proof/integrated_capacity.c:485-554 | A shell's child starts when its preparation succeeds and lives by exactly the ticks, failed drains and ends of file of its cell |
| Custody.SettledOnce | research/host-runtime/integrated-capacity-proof/integrated_capacity.c:915-940 | Over every run, nothing that follows the settlement of an attempt changes its completion, its resolution or its artifacts |
| Custody.CycleSettles | research/host-runtime/integrated-capacity-proof/integrated_capacity.c:1143-1198 | Once the owner has released as many settled cells as it admitted, every cell is free and reset, nothing is charged, and every admitted attempt has one completion and one resolution |
| Custody.Runtime.Receive | research/host-runtime/integrated-capacity-proof/integrated_capacity.c:275-280 | A delivery within the cell's limit loads the counter; one past it raises the limit's flag; one to a spoiled cell is dropped |
| Custody.Runtime.ChargeScratch | research/host-runtime/integrated-capacity-proof/integrated_capacity.c:224-233 | The addition exactly when the bytes are within the quota as it was loaded, and otherwise the storage flag |
| Custody.Runtime.WriteSpool | research/host-runtime/integrated-capacity-proof/integrated_capacity.c:282-296 | The bytes in the spool and in its count, or the storage flag and the charge returned |
| Custody.Runtime.DiscardCharge | research/host-runtime/integrated-capacity-proof/integrated_capacity.c:236-239 | The subtraction of all the cell holds |
| Custody.Runtime.ClearOutput | research/host-runtime/integrated-capacity-proof/integrated_capacity.c:240-243 | Spools emptied and counts zeroed, and a shell asked to stop |
| Custody.Runtime.ReserveCell | research/host-runtime/integrated-capacity-proof/integrated_capacity.c:810-814 | Takes a cell exactly when it is free |
| Custody.Runtime.AdmitCell | research/host-runtime/integrated-capacity-proof/integrated_capacity.c:815-836 | One transaction: an attempt and a dispatchable cell, or neither |
| Custody.Runtime.SettleCell | research/host-runtime/integrated-capacity-proof/integrated_capacity.c:887-956 | Scan, imports, completion and resolution in one transaction, or no change to the tables; it is settled whenever SQLite and the reads go through, with the class and artifacts of its evidence |
| Custody.Runtime.ReleaseCharge | research/host-runtime/integrated-capacity-proof/integrated_capacity.c:958-961 | The subtraction of all the cell holds |
| Custody.Runtime.ReleaseCell | research/host-runtime/integrated-capacity-proof/integrated_capacity.c:962-985 | Every field but the kind is reset and the cell is free |
| CaptureQueue.Sink.PlaceChunk | research/transport-memory/capture.c:165-183 | Under the lock: the chunk goes into the slot after the last occupied one and is accepted, or a full ring pauses the transfer |
| CaptureQueue.Sink.CaptureWrite | research/transport-memory/capture.c:82-119 | A write that goes through extends the file and both counts and fails nothing; one that breaks fails the transfer and leaves at most part of its data; a failed transfer writes nothing |
| CaptureQueue.Sink.PlaceAtOnce | research/transport-memory/capture.c:158-163 | The synchronous strategy writes first and accepts only what was written |
| CaptureQueue.Sink.HoldHead | research/transport-memory/capture.c:120-127 | Takes hold of the oldest occupied slot, if there is one |
| CaptureQueue.Sink.WriteSlot | research/transport-memory/capture.c:128-129 | Writes the held chunk outside the lock |
| CaptureQueue.Sink.PopHead | research/transport-memory/capture.c:130-135 | Frees the oldest slot |
| CaptureQueue.PlacedQueue | research/transport-memory/capture.c:171-176 | Placing appends to the queue the ring holds |
| CaptureQueue.PoppedQueue | research/transport-memory/capture.c:131-133 | Popping removes its first chunk |
| CaptureQueue.Sink.CheckFailed | research/transport-memory/capture.c:151-157 | The check before the lock: a failed transfer is refused and nothing changes |
| CaptureQueue.CaptureExact | research/transport-memory/capture.c:82-188 | Over every interleaving each unfailed transfer's file followed by its queued chunks is exactly what it accepted, a failed one's file is the beginning of its response, and queued bytes stay within capacity times the chunk size |
| CaptureQueue.HeldSlotKept | research/transport-memory/capture.c:126-129 | Over any run of other steps up to its own write, the slot being written outside the lock keeps its chunk and stays the consumer's |
| CaptureQueue.OccupiedKept | research/transport-memory/capture.c:171-174 | No step overwrites an occupied slot that stays occupied |
| CaptureQueue.CaptureComplete | research/transport-memory/capture.c:371-437 | When the loop is left, every transfer that did not fail, by `Captures.FailedExactly` one with no broken write of its own, has its whole response in its file, written equal to accepted |
| Captures.FailedExactly | research/transport-memory/capture.c:105-114 | Over every run a transfer is failed exactly when a write of its own broke, and its response never changes |
| Captures.WholeFiles | research/transport-memory/capture.c:371-437 | A run whose writes all go through and that leaves the loop ends with every response whole in its file |
| Captures.AccountsExact | research/transport-memory/capture.c:82-188 | Over every run a transfer has accepted what was placed or written at once for it, has counted what was written, is failed since its first broken write, and is paused exactly since it found the ring full |
| CaptureQueue.NeverStuck | research/transport-memory/capture.c:371-437 | Until then some step that changes something can be taken: pausing never wedges |
| Generations.Model.InsertOwner | research/workflow-readiness/generation_model.py:20-21 | A new owner, with or without a result; an existing one is refused without change |
| Generations.Model.BindCall | research/workflow-readiness/generation_model.py:22-29 | A call is bound once, equal rebinding is accepted, anything else is refused without change |
| Generations.Model.FinishOwner | research/workflow-readiness/generation_model.py:30-33 | An existing owner's result is stored, unless it has a different one; nothing else changes |
| Generations.Model.AdmitGeneration | research/workflow-readiness/generation_model.py:36-49 | A new generation with the calls that have results as its view, exactly when allowed; an injected failure leaves no trace |
| Generations.Model.PublishGeneration | research/workflow-readiness/generation_model.py:50-59 | Pending keys replaced and the generation published, or nothing changed |
| Generations.NormalAdmissionGrows | research/workflow-readiness/generation_model.py:36-63 | In every run a normal admission after a publication sees strictly more than the published generation saw |
| Generations.RenewalsBounded | research/workflow-readiness/generation_model.py:36-63 | A run is re-evaluated no more often than it has bound calls, across crashes and recoveries |
| Generations.ViewsFixed | research/workflow-readiness/generation_model.py:34-47 | A generation's view never changes after its admission |
| Generations.NoResultLost | research/workflow-readiness/generation_model.py:60-63 | Once a pending call has its result the run stays eligible until the next admission, whose view has that result |
| Dependencies.OwnersExact | research/workflow-readiness/generation_model.py:20-33 | In every run an owner is in the table exactly when it was inserted, and its result is exactly the first one it was given, at its insertion or by a finish after it |
| Dependencies.BindingsExact | research/workflow-readiness/generation_model.py:22-29 | In every run a call's binding is exactly the first one made for it while a generation was active, nobody had cancelled and the owner existed |
| Dependencies.GenerationsExact | research/workflow-readiness/generation_model.py:36-59 | In every run the active generation is the last one admitted unless something was published since, the pending calls are those of the last publication, and cancellation and termination are the run's |
| Dependencies.FinishedIsSeen | research/workflow-readiness/generation_model.py:30-63 | After the owner of a pending call is finished, whatever quiet steps follow, the run is eligible and its next generation's view has the call with that result |
| Generations.PublicationCatches | research/workflow-readiness/generation_model.py:50-63 | After a publication the run is eligible exactly when it is not terminal and a call left pending already has its result; considered results do not start it again |
| Generations.ReplacedNeverPublishes | research/workflow-readiness/generation_model.py:53-53 | A generation that is not active any more publishes in no later state |
| Generations.InterruptedNeverPublishes | research/workflow-readiness/generation_model.py:75-93 | After a crash the interrupted generation never publishes |
| Generations.CancelledStays | research/workflow-readiness/generation_model.py:40-53 | A cancelled run publishes and admits nothing |
| Generations.TerminalPublishes | research/workflow-readiness/generation_model.py:53-57 | A terminal run lets its active generation publish, and admits nothing |
| Generations.PublishesExactly | research/workflow-readiness/generation_model.py:50-59 | Over every run a publication goes through exactly when its generation was admitted and not replaced, published or interrupted since, nothing cancelled the run, and its keys are distinct bound calls that the admission did not see; terminality is no part of it |
| Permits.Fixture.ReserveSlot | research/execution-control-experiments/custody.c:61-64 | A free slot is taken with the next generation and no permit; an occupied one is not |
| Permits.Fixture.LaunchChild | research/execution-control-experiments/custody.c:83-98 | The permit is spent and the child reports the slot's attempt and generation |
| Permits.Fixture.SettleEvent | research/execution-control-experiments/custody.c:105-113 | Adds a completion exactly for the event of the slot's own attempt and generation, unresolved and not complete |
| Permits.Fixture.CleanupChild | research/execution-control-experiments/custody.c:102-104 | The child is gone and the slot is otherwise as it was |
| Permits.Fixture.ReleaseSlot | research/execution-control-experiments/custody.c:65-68 | Only a slot without a live child is released, and loses its permit |
| Permits.AttemptsInOrder | research/execution-control-experiments/custody.c:61-113 | Over every run with crashes an attempt is admitted, launched, resolved and completed at most once, in order, and never completed after its resolution |
| Permits.RecoveryGrantsNothing | research/execution-control-experiments/custody.c:122-143 | An attempt admitted before a crash and not launched by then never is |
| Permits.PermitLaunchesOnce | research/execution-control-experiments/custody.c:83-85 | In every run what a permit launches was not launched before, and is launched once in whatever follows |
| Permits.LiveSlotKept | research/execution-control-experiments/custody.c:144-156 | For as long as a child is live, over any run, its slot keeps its attempt and generation |
| Permits.EventSettlesOwn | research/execution-control-experiments/custody.c:157-168 | A late, repeated or stale event settles the attempt that emitted it or nothing: exactly when the slot still has its attempt and generation, and it was neither resolved nor completed |
| Cursor.CursorRoundTrip | clients/ts/src/feed.ts:86-94 | A cursor decodes to its position and ordinal exactly when both are canonical numbers, and is refused otherwise |
| Cursor.CursorInjective | clients/ts/src/feed.ts:86-94 | Different places have different cursors |
| Cursor.Decode64Encode64 | clients/ts/src/feed.ts:86-91 | Unpadded base64url decodes back to the bytes |
| Cursor.SixesExact | clients/ts/src/feed.ts:86-91 | The symbols of a group spell the number its bytes spell, most significant first, with zeros after the last bit |
| Cursor.CursorReencodes | clients/ts/src/feed.ts:86-94 | A cursor that decodes is the one its place encodes to exactly when it has no stray symbol and no bits past its last byte |
| Feed.RowsIn | clients/ts/src/feed.ts:197-223 | The rows of a range are exactly the matching ones, once each, in order |
| Feed.ResumeSuffix | clients/ts/src/feed.ts:185-189 | Resuming from the cursor of any yielded row gives exactly the rest |
| Feed.Listing.YieldItems | clients/ts/src/feed.ts:207-223 | Each item is yielded once and the place moves past it, also when the consumer stops in the middle |
| Feed.Listing.Turn | clients/ts/src/feed.ts:197-250 | After every turn all rows from the start to the place are yielded; a follower pauses or sleeps only with everything up to the Host's end yielded, and pauses between 250 and 2000 ms |
| Feed.ReadAll | clients/ts/src/feed.ts:197-232 | A read that does not follow ends, with exactly the matching rows up to the end its first page named, while the log grows |
| Feed.FollowKeeps | clients/ts/src/feed.ts:197-250 | A follower's turn keeps every row up to its place yielded, and puts it to sleep only with everything up to the Host's end yielded |
| Following.YieldedExactly | clients/ts/src/feed.ts:180-254 | In every interleaving of writes, growth and notifications with the page reads, a follower has yielded exactly the matching rows up to its place, once each, in order |
| Following.SleepsUpToDate | clients/ts/src/feed.ts:195-246 | In every interleaving a sleeping follower has yielded every matching row of every write notified so far, in whatever order writes are notified |
| Notifications.SessionNotifications.Notify | clients/ts/src/notifications.ts:22-40 | Moves on and wakes every follower of the session, and no one else |
| Notifications.SessionNotifications.Wait | clients/ts/src/notifications.ts:42-57 | Settles at once when aborted, failed or behind, and otherwise waits |
| Notifications.SessionNotifications.Fail | clients/ts/src/notifications.ts:59-63 | Rejects and releases a follower, waiting or not |
| Notifications.SessionNotifications.FailAll | clients/ts/src/notifications.ts:15-20 | Rejects and releases every follower of every session, and leaves no session behind |
| Notifications.NeverSleepsPast | clients/ts/src/feed.ts:198-245 | In every interleaving a sleeping follower has seen every write notified so far, and the next notification, failure or abort wakes it |
| Client.Rui.WaitReady | clients/ts/src/client.ts:252-258 | A caller gets the Host, a refusal, or a place in the queue |
| Client.Rui.AdoptHost | clients/ts/src/client.ts:260-271 | The Host is adopted, the backoff reset, and every waiting call posted to it |
| Client.Rui.Schedule | clients/ts/src/client.ts:278-286 | A restart after the current backoff, which doubles to its cap; nothing once closing |
| Client.Rui.HostExited | clients/ts/src/client.ts:265-270 | Only the adopted Host's exit schedules a restart, and none if the listener closed |
| Client.Rui.RestartStarted | clients/ts/src/client.ts:288-297 | A child that started is adopted, or let go when the close has begun |
| Client.Rui.RestartFailed | clients/ts/src/client.ts:298-308 | Every waiting call ends, then a restart is scheduled or the client is dead |
| Client.Rui.CloseClient | clients/ts/src/client.ts:184-193 | The timer is dropped, waiters rejected and the Host let go, once |
| Client.WaitersSettledOnce | clients/ts/src/client.ts:252-309 | In every run each queued caller is queued or settled once, a restart is scheduled or in flight while one is queued, and the backoff stays within 500 to 30000 ms and is 500 while a Host is adopted |
| Client.PostedTwiceAtMost | clients/ts/src/client.ts:210-230 | A call posts at most twice, the second time to another Host after the first exited |
| Client.ClosedStays | clients/ts/src/client.ts:278-297 | Once close has begun no child is adopted, no restart scheduled and no caller queued |
| Client.NeverIdleWithoutHost | clients/ts/src/client.ts:260-309 | A client neither closed nor dead has a Host or is getting one |
| Client.RestartSettles | clients/ts/src/client.ts:184-309 | From wherever a caller is queued, exactly those runs settle it in which a start ends, well or badly, or the client closes |
| Client.AdoptionPosts | clients/ts/src/client.ts:260-308 | In every run a restart that succeeds on an open client posts every waiting call to the new Host; one that fails ends it, and either schedules another restart or leaves the client dead |
| Client.CallMoves | clients/ts/src/client.ts:196-230 | A call begins with the Host, a place in the queue or a refusal; it is sent once more exactly when its first Host was seen to exit |
| TaggedValue.DecodeExact | research/evaluator-memory/string-reader/probe.c:136-189 | An encoded tree decodes to itself, leaving what follows, exactly when it is good, and otherwise to the fault of the first flaw a reader comes upon |
| TaggedValue.DecodeSound | research/evaluator-memory/string-reader/probe.c:86-189 | Whatever decodes is the encoding of the tree it decodes to |
| TaggedValue.RoundTrip | research/evaluator-memory/string-reader/fixtures.py:108-157 | Decoding what was prepared consumes all of it and gives the tree with negative zero normalised, exactly for depth at most 64, finite numbers and distinct keys; otherwise the first flaw's fault |
| TaggedValue.AcceptsExactly | research/evaluator-memory/string-reader/probe.c:190-219 | The decoder accepts exactly the encodings of such trees |
| TaggedValue.GoodExact | research/evaluator-memory/string-reader/probe.c:136-189 | A tree is good exactly when it is nested at most 64 deep, its numbers are finite, and no object has a key twice |
| TaggedValue.WrongInputs | research/evaluator-memory/string-reader/probe.c:86-219 | Every proper beginning of a good encoding is out of range, anything after one is refused as trailing, and there are seven tags |
| TaggedValue.FiniteExact | research/evaluator-memory/string-reader/probe.c:144-150 | A number is refused exactly when its eleven exponent bits are all ones |
| TaggedValue.EncodingsDiffer | research/evaluator-memory/string-reader/fixtures.py:127-150 | No two different good trees share an encoding |
| TaggedValue.Decoder.DecodeValue | research/evaluator-memory/string-reader/probe.c:136-189 | The recursive decoder with its position and failure fields does what the format says |
| TaggedValue.Decoder.LookupValue | research/evaluator-memory/string-reader/probe.c:190-219 | Decodes from the start and refuses trailing bytes |
| PacedBody.DimensionsExact | research/transport-memory/paced_format.py:12-13 | The computed size is that of the response exactly up to 100000 events, and too small beyond |
| PacedBody.PaddedExact | research/transport-memory/paced_format.py:4-10 | An event number is spelled by its decimal digits, most significant first, padded with zeros to five and no further |
| PacedBody.PieceExact | research/transport-memory/paced_format.py:22-33 | Each turn takes a nonempty beginning of what is asked for, and nothing past the end |
| PacedBody.Body | research/transport-memory/paced_format.py:16-34 | The loop reads piece by piece what is asked for, or fails an assertion, for any number of events |
| PacedBody.BodyExact | research/transport-memory/paced_format.py:16-34 | Up to 100000 events the result is exactly the slice of the full response, or a failed assertion exactly when it is too long or not all there |
| PacedBody.BodyBeyond | research/transport-memory/paced_format.py:16-34 | For any number of events slices among the first 100000 records are exact; beyond that many events the last byte of the response cannot be read |
| PacedBody.ChunksConcatenate | research/transport-memory/paced_server.py:48-52 | However the response is cut into chunks of at most a window, successive reads concatenate to it |
| PacedBody.Verify | research/transport-memory/paced.c:26-75 | The independent verifier accepts a chunk at an offset exactly when the payload has the computed size and the chunk is that slice, up to 100000 events of the whole response, and beyond of the records with five-digit numbers or of the terminal record |
| LaunchHandshake.SuccessExactly | src/host_launch.c:264-292 | The parent's loop ends well exactly on one pid receipt, its confirmation and a clean end, with a nonzero generation stored and the release written |
| LaunchHandshake.FirstReceipt | src/host_launch.c:264-292 | Which error the parent ends with before a receipt is whole and on a first receipt: an error receipt's own, the generation query's, the release's, or EIO |
| LaunchHandshake.SecondReceipt | src/host_launch.c:264-292 | Which error it ends with after a good pid receipt: an error receipt's own, and EIO for anything but the confirmation |
| LaunchHandshake.ThirdReceipt | src/host_launch.c:264-292 | After the confirmation only the end is a success; any further receipt ends it with an error |
| LaunchHandshake.ReadReceipt | src/host_launch.c:268-275 | Eight bytes over any split into reads, or fewer at the end, or the error of the read that failed |
| LaunchHandshake.AwaitReceipts | src/host_launch.c:264-292 | The loop over any split of the stream computes that outcome, or ends with the error of the read that failed |
| LaunchHandshake.LaunchDetached | src/host_launch.c:264-310 | The receipts and then the helper: a helper that could not be waited for gives its error, and one that ended badly spoils a success |
| LaunchHandshake.ExecutesAfterStore | src/host_launch.c:64-72 | In every interleaving the grandchild confirms and executes only after the parent stored a nonzero generation for its pid |
| LaunchHandshake.EndsWell | src/host_launch.c:264-310 | The launch succeeds only after exactly the pid and its confirmation, a closed pipe and a helper that exited well; any other end has a failure behind it |
| LaunchHandshake.FaultlessSucceeds | src/host_launch.c:52-310 | A run has trouble exactly when a step of it went wrong; without, a parent that has ended ended well and the Host is running |
| LaunchHandshake.NeverStuck | src/host_launch.c:52-72 | Neither side waits for the other in vain, also after the parent has ended |

## Left out

- UTF-8: a raw byte above 127 in a JSON string is kept as a unit of its own and not decoded; the reader does not refuse invalid UTF-8, and the tagged format's strings are byte sequences.
- JSON extensions of Python's decoder: `NaN` and `Infinity` literals, and unpaired surrogates as separate from paired ones.
- Request.ProviderItem: whether a number is zero is read off its digits, so a literal that underflows to zero counts as nonzero; a call id that is not a string is refused when its result is accepted.
- Request modes: only the normal mode of `request` and `prepare`; the reset, summary-omitting and compacting variants are not modelled.
- Prepare.Prepare: the payloads a request reads are JSON, as the copier requires of its caller; which failure is reported when several apply, and at what point of a lazy generator, is not stated; short file writes are not modelled.
- Selection.View: the private flag, foreign references and the one-reader rule are not modelled; a view is not closed during a read.
- CaptureQueue: curl keeps a paused transfer's bytes and delivers them again, in pieces no longer than a chunk; stall and delay settings, peaks and counters are not modelled, and neither is the order in which the loop resumes transfers.
- Custody: the fatal teardown, preparation failures' half-open descriptors, clocks, high-water marks and measurement are not modelled; file writes are atomic up to the part they leave when they fail, and a transport whose bytes were refused delivers no more.
- Custody.Runtime.SettleCell: a failed SQL statement or COMMIT rolls everything back; a COMMIT of unknown outcome is not modelled.
- Escalation: times do not wrap around, and a drained pipe's bytes are the custody model's.
- Generations: the script's resets of `cancelled` and `published` between its scenarios are not steps of a run.
- Permits: one slot, as in the program; executors of a crashed process are not followed further.
- Cursor: base64 decoding refuses characters outside the alphabet, where the platform's decoder skips them.
- Feed: entry text, kinds as wire names and the search iterator are not modelled; the Host's pages follow the contract stated there, and a page that says more holds at least one row.
- Notifications: promises and listeners are a watch's state and the outcome of its last wait.
- Client: exit listeners may close the client but not throw or call it; spawning, probing and the wire are the environment's, and the connect loop is left out.
- TaggedValue: the fixtures' hash of a tree's structure; running out of engine or native memory, and a source that changes while it is read.
- PacedBody.Verify: an offset past the end, where the program reads outside its constants, and its fixed-size record buffer are not modelled.
- LaunchHandshake: the non-exact mode, signal handling and the macOS spawn path; a write to a pipe no one reads ends the writer.
- Live providers, load generators, measurement, QuickJS, TLS and the Zig Host itself.
