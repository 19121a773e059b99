# Ananke: verified core

A Dafny model of the parts of ananke where a mistake would be silent: the daemon's transcript tail and recovery,
canonical JSON and the hashes that rest on it, the at-most-once supervisor journal, the chain of supervisor
intents with its time windows, and two asynchronous controllers. `dafny verify dfyconfig.toml` checks
everything.

## How it is laid out

**Transcript tail and recovery.** `RunStore` is the durable run row, `Processes` a step model of the process
table in which only live group members fork into the group and whoever once was a member may write,
`TranscriptRecords` the newline framing, `TranscriptTail` one pass of the tail, `TranscriptHandoff` opening,
sealing and draining. Whatever other actors do between two daemon operations is an arbitrary list of environment
steps; reads may break, store calls may fail and the daemon may die anywhere. `ExactlyOnce`, `HandoffProofs`,
`HandoffCompletes`, `MalformedRecords`, `Failures` and `Recovery` hold the results, `Restart` what a new daemon
makes of the transcript, and `TailEngine` is the engine object whose methods are proved to do those steps.
`Shutdown` is the wait group, Close and cleanup delivery as a step machine; `EngineRuntime` is the same on the
engine's fields, every method keeping the machine's invariant.

**Canonical JSON.** `Unicode`, `Decimal`, `CanonicalNumber`, `NumberText` and `JsonText` build up strings and
numbers, `StringForms` and `PrintedForms` say what their text looks like, `JsonTree` has the two writers
(canonical, and `json.Marshal`) and the reader, `UniqueKeys` says which texts the reader refuses for repeated
keys, `JsonRoundTrip` and `CanonicalJson` what they do to each other, `CanonicalCodec` the entry points
`canonicalBytes`, `decodeCanonicalRecord` and `hashRecord`. `CanonicalEncoder` and `CanonicalDecoder` are the
buffer-writing and token-reading loops. Doubles are exact decimals; how they round and print is a parameter of
which two laws are asked: parsing undoes shortest formatting, and integers up to 2^53 are exact.

**Journal.** `Journal` has the tables, constraints and calls, `JournalRows` what the written rows say,
`JournalHistory` the results over all histories, `JournalStore` the object.

**Intents.** `Phases` has the phase names and numbers, `AuthorityWindows` the time limits in nanoseconds,
`SupervisorIntent` the evaluation and what it can mint, `IntentExample` runs that mint all phases or a dead end,
`RecoveryChain` the hash-linked snapshots.

**Controllers.** `OmpSession`/`OmpRuntime` are the adapter session, `Materialization` the hashed byte string,
`GrillReview` the panel's controller, machine and object, every method of which keeps the invariant.

SHA-256 is an injective function to tagged digests (`Hashing`), which is shown to exist.

## Where the code does less than one might expect

These statements hold only under a condition; each has a concrete failing case and an exact condition.

- A run is committed as terminal when its group is empty, but a process may leave the group and keep writing. After
  the commit the file keeps its bytes if and only if no such process, and no descendant of one, is alive
  (`FileIsFinalIff`, `WriterOutlivesItsGroup`). The sealed part and its events stay in every case
  (`TerminalIsFinal`).
- A tail that is missing is opened at offset 0 (`engine.go:1428`). That stores every record once if and only if
  nothing was stored before (`OpenAtZeroIsExactIff`, `MissingTailDuplicates`).
- A malformed record is passed without `cleanup_required` when the run became terminal while the record was in
  the daemon's hands, and only then (`PassedWithoutCleanupIff`, `UnrequiredRunSkipsMalformed`). A run that
  requires its transcript cannot end up so.
- A session can be published as completed with no events, when a cancel lands between the read of the flags and
  the publishing, and only then (`PublishedEventsIff`, `CompletedWithoutEvents`).
- The journal does not compare phase and sequence. Attempts have no gaps exactly when every recorded claim's
  agree (`HistoriesAreConsistentIff`, and per call `TakenClaimChainsIff`); `DisagreementLeavesAGap` has a gap. The
  intent evaluation supplies the agreement (`EvaluatedClaimsAgree`). Uniqueness, growth, replay, terminal events
  and sweeps need none.
- Decoding canonical bytes into a Go struct forgives omitted members (`OmittedMemberIsForgiven`). So the last hash
  of a recovery snapshot pins its records, but their bytes only so far: where one side is stored in its own
  encoding, exactly when the other is too, and in every case exactly when the canonical record hashes agree
  (`SameBytesIffOwnEncodings`, `SameBytesIffSameCanonicalHashes`, `OmittedMemberChangesOnlyBytes`).
- For the same reason a capability can be minted that the next phase refuses: it is intact exactly when the
  committed bytes are its claim's own encoding (`MintedIsIntactIff`, `OmittedMembersMintADeadEnd`).
- A no-process failure empties the seal of a required transcript. Stored events stay exact if and only if there
  were none (`NoProcessFailureIsExactIff`, `NoProcessFailureOutlivesEvents`).

## Model

| member | source | states |
|---|---|---|
| `RunStore.ApplyKeepsRow` | internal/store/events.go:30-180 | Every accepted store call keeps a terminal required run sealed and fully consumed and a run asked to cancel from completing; events, visited states and a terminal state stay, and so do offset, seal and identity but across a no-process failure. |
| `RunStore.HistoriesKeepRow` | internal/store/transitions.go:38-178 | The same over any history of store calls, no-process failures among them, in any order, accepted or refused. |
| `RunStore.NoProcessFailureFollowsIff` | internal/store/transitions.go:55-122 | A no-process failure takes nothing back exactly when no identity was recorded and, on a run that requires its transcript, nothing was consumed and no other size was sealed. |
| `RunStore.AcceptedIff` | internal/store/state.go:48-90 | Which moves and endings the store accepts, by the state they lead to: an ending needs a state it may follow, no pending cancellation if it is completion, and a required transcript that is sealed, consumed and identified. |
| `RunStore.AccountingAcceptedIff` | internal/store/events.go:30-180 | Events and offsets are accepted up to the seal, a seal once or again at its size; a no-process failure only of a created or running row without pids, which it leaves failed and without identity. |
| `RunStore.CancelledNeverCompletes` | internal/store/cancellation.go:22-60 | A cancellation is accepted on every run that has not ended, stops a running one, and no history of calls after it ends in completion. |
| `Processes.ApplyKeepsTable` | internal/lifecycle/backend.go:141-185 | Process steps keep pids unique among table entries; a dead supervisor stays dead and an exit notice stays given. |
| `Processes.GroupNeedsALiveMember` | internal/lifecycle/engine.go:1263-1280 | With the supervisor dead, a live group after a step was live before it: only a live member puts a process into the group. |
| `Processes.KinNeedsLiveKin` | internal/lifecycle/engine.go:1263-1280 | With the supervisor dead and no live process left that is, was or descends from a group member, no step brings one back. |
| `Processes.LettingGoKeepsTable` | internal/lifecycle/engine.go:1014-1045 | A restart without the child handle, and the reaping of an exited supervisor, keep the table in order and quiescence with it. |
| `Processes.SeenDeadIsDead` | internal/lifecycle/engine.go:742-757 | Each of the two ways the engine sees a dead supervisor (its own exit notice, or an absent pid) implies that it is dead. |
| `Processes.LiveGroupIsListed` | internal/lifecycle/backend.go:371-400 | A live group never lists as empty. |
| `Processes.PinnedSupervisorIsNotAMember` | internal/lifecycle/engine.go:880-890 | A live group behind an exited but unreaped supervisor lists a pid other than the supervisor's, so ignoring that one pid is safe. |
| `TranscriptRecords.NextRecord` | internal/lifecycle/engine.go:1465-1507 | From a record boundary, one more framed record adds exactly its own event, and corruption exactly when it is malformed. |
| `TranscriptRecords.BoundaryIsAPrefix` | internal/lifecycle/engine.go:1465-1507 | What a boundary settles stays settled: later bytes only add events after it. |
| `TranscriptRecords.EventsEndInOrder` | internal/lifecycle/engine.go:1466-1468 | Stored end offsets strictly increase inside the file: no record counts twice. |
| `TranscriptRecords.ClassifyIs` | internal/lifecycle/engine.go:1485-1519 | A line is blank exactly when it is empty but for its newline; any other makes an event exactly when its text unmarshals to a kind that is not all white space and a payload that is more than white space and not null, and kind and payload are stored as they are. |
| `ExactlyOnce.DisturbKeeps` | internal/lifecycle/engine.go:1423-1464 | Nothing that writers, processes or other store clients do between two daemon operations breaks the accounting; a quiescent group stays so, and the file stands still once nothing of the run is alive, inside its group or out. |
| `ExactlyOnce.StoreRecordKeeps` | internal/lifecycle/engine.go:1485-1571 | Storing, skipping or refusing one record, with any interference and failure, keeps events equal to the well-formed records before the consumed offset. |
| `ExactlyOnce.ReadTurnKeeps` | internal/lifecycle/engine.go:1465-1577 | One turn of the read loop keeps it too, including broken reads, partial lines and the sealed last line. |
| `ExactlyOnce.ReadLoopKeeps` | internal/lifecycle/engine.go:1465-1577 | A whole pass keeps it, even when the daemon dies in the middle. |
| `ExactlyOnce.NewRunIsInOrder` | internal/lifecycle/engine.go:2278-2290 | Any processes, any bytes already in the file, a new run and no tail satisfy the invariant the lives start from. |
| `ExactlyOnce.NoProcessFailureIsExactIff` | internal/store/transitions.go:98-122 | A no-process failure leaves the stored events exact if and only if the run needs no transcript or nothing was stored. |
| `HandoffCompletes.NoProcessFailureOutlivesEvents` | internal/store/transitions.go:98-122 | A running row without pids whose record was stored: the failure empties the transcript and keeps the event. |
| `HandoffProofs.LivesStoreExactlyOnce` | internal/lifecycle/engine.go:1411-1577 | Over every interleaving of chunked writes, passes, store failures, kills, restarts, handoffs and failed launches: stored events are exactly the well-formed records before the consumed offset, in order; the offset is on a boundary; it lies past a malformed record only after cleanup_required, or on a terminal run that needs no transcript. Two steps are bound by the exact conditions found for them: opening a missing tail at offset 0, and failing without a process. |
| `HandoffProofs.WholeLivesStoreExactlyOnce` | internal/lifecycle/engine.go:1411-1577 | The same from any start: a new run, whatever processes there are and whatever the file already holds, with no-process failures among the steps. |
| `HandoffProofs.HandoffKeeps` | internal/lifecycle/engine.go:1174-1251 | A handoff, whatever it meets, keeps the accounting and takes nothing back. |
| `MalformedRecords.PassedWithoutCleanupIff` | internal/lifecycle/engine.go:1513-1556 | A malformed record is passed without cleanup_required exactly when the run was already terminal as it was loaded and never had been there. |
| `MalformedRecords.UnrequiredRunSkipsMalformed` | internal/lifecycle/engine.go:1520-1523 | A concrete two-line file and pass in which that happens: consumed past a malformed record, cleanup_required never visited. |
| `HandoffCompletes.QuietLoop` | internal/lifecycle/engine.go:1465-1577 | An undisturbed pass accounts for every complete record from its offset on, within as many turns as there are bytes left, plus one. |
| `HandoffCompletes.QuietHandoffCompletesIff` | internal/lifecycle/engine.go:1174-1251 | With nothing in the way, one handoff call completes exactly when the run needs no transcript, or its identity is valid and it is unsealed or sealed at the file's size. |
| `HandoffCompletes.CompleteMeansDrained` | internal/lifecycle/engine.go:1174-1251 | Whatever happens meanwhile, a required run is reported complete only when sealed at the file's size with every byte consumed. |
| `HandoffCompletes.OpenAtZeroIsExactIff` | internal/lifecycle/engine.go:1423-1433 | Opening a missing tail at offset 0 is exactly-once if and only if no event was stored yet. |
| `HandoffCompletes.MissingTailDuplicates` | internal/lifecycle/engine.go:1427-1428 | A concrete life (store, die, fail to open, pass) that stores one record twice. |
| `Restart.RestartResumes` | internal/lifecycle/engine.go:455-470 | Whenever a daemon dies on a live run and another opens the transcript at the durable offset, one undisturbed pass later every complete record of the file is stored exactly once, in order, and consumed; once the file is sealed, its last record too. |
| `Restart.OpeningLeavesATailIff` | internal/lifecycle/engine.go:1346-1409 | Opening leaves a tail exactly when there was one, or the run is live and the file opens, seeks and is long enough; a new tail stands at the asked offset, and the run goes to cleanup_required exactly when authority was lost and the store allows it. |
| `Failures.FailedStoreGoesBack` | internal/lifecycle/engine.go:1485-1571 | A record whose store calls do not all go through is not accounted for: the reader goes back to its start and the pass ends; no record is half accounted for. |
| `Failures.UnfinishedLineWaits` | internal/lifecycle/engine.go:1468-1484 | A line without its newline is left for later, unless the read was whole, the row could be loaded and the line ends at the seal. |
| `Failures.PassStops` | internal/lifecycle/engine.go:1436-1439 | A pass reads nothing when the row cannot be loaded or has ended. |
| `Failures.CompleteNeedsEveryCall` | internal/lifecycle/engine.go:1174-1251 | A handoff of a required run is complete only with a valid identity and when each of its own calls went through. |
| `Failures.CommitNeedsEveryCall` | internal/lifecycle/engine.go:851-914 | A run is committed only when the group could be listed and the commit went through. |
| `Recovery.ObservedQuiescenceIsReal` | internal/lifecycle/engine.go:867-890 | Supervisor, worker and group, observed at three different instants, add up to real quiescence. |
| `Recovery.PublishFinishes` | internal/lifecycle/engine.go:851-914 | When recovery or cleanup commits a run as terminal, the group is quiescent, the outbox row is written, and a required transcript is sealed at the size the file had at the last look of the handoff and stored exactly up to there. |
| `Recovery.TerminalIsFinal` | internal/lifecycle/engine.go:1253-1295 | After that commit no process of the group and no supervisor is alive, the run stays failed, no byte of the file is rewritten, and a required transcript keeps its seal and the events before it, whatever processes, store clients and later daemons do: passes, deaths, reaping, reopenings, handoffs and further attempts. |
| `Recovery.FileIsFinalIff` | internal/lifecycle/engine.go:1253-1275 | Whatever comes later, the file keeps the bytes it has at that commit, if and only if no process that was in the group, or descends from one that was, is alive outside it. |
| `Recovery.WriterOutlivesItsGroup` | internal/lifecycle/engine.go:868-905 | A concrete run: the last member leaves its group, the run is committed with an empty transcript, and a later write of that process is in the file and never stored. |
| `Recovery.QuietAttemptCommitsIff` | internal/lifecycle/engine.go:851-914 | With nothing in the way, recovery or cleanup commits exactly when the supervisor is seen dead, the worker is gone and the listing is empty (or, in recovery, names only the unreaped supervisor), and the transcript is not required or is unsealed or sealed at the size of the recorded file. |
| `TailEngine.Engine.AccountRecord` | internal/lifecycle/engine.go:1485-1571 | The record branch of the loop, on the engine's own fields, is the specified step. |
| `TailEngine.Engine.ReadOnce` | internal/lifecycle/engine.go:1465-1577 | One iteration is the specified turn. |
| `TailEngine.Engine.ReadAll` | internal/lifecycle/engine.go:1465-1577 | The loop is the specified pass. |
| `TailEngine.Engine.RetryLine` | internal/lifecycle/engine.go:1411-1418 | The rewind restores the reader to the accounted offset and changes nothing else. |
| `TailEngine.Engine.OpenTail` | internal/lifecycle/engine.go:1346-1409 | Opening a tail is the specified step in all its refusals, of which `OpeningLeavesATailIff` and `RestartResumes` say what it achieves. |
| `TailEngine.Engine.TailPass` | internal/lifecycle/engine.go:1423-1577 | tailTranscript as a whole is the specified pass. |
| `TailEngine.Engine.HandOff` | internal/lifecycle/engine.go:1174-1251 | The handoff is the specified one, with its verdict. |
| `TailEngine.Engine.Observe` | internal/lifecycle/engine.go:867-890 | The observation sequence is the specified one. |
| `TailEngine.Engine.PublishTerminal` | internal/lifecycle/engine.go:851-914 | Observation, handoff and commit are the specified attempt. |
| `Shutdown.CloseJoinsEverything` | internal/lifecycle/engine.go:244-291 | Over every interleaving: the wait group counts exactly the live counted goroutines; once the wait in Close has returned none is alive and none ever starts; the store closes at most once; all returning callers get one result. |
| `Shutdown.OneCleanupDelivery` | internal/lifecycle/engine.go:1297-1332 | Over every interleaving: at most one cleanup delivery per run is in flight, and after one OK reply none is ever sent again. |
| `Shutdown.FailedDeliveryMayBeRetried` | internal/lifecycle/engine.go:1322-1332 | A failed delivery can be sent again at once, exactly when the engine is not closing. |
| `EngineRuntime.Runtime.BeginRun` | internal/lifecycle/engine.go:295-309 | Run is counted and marked running exactly when the engine is neither closing nor running. |
| `EngineRuntime.Runtime.BeginListening` | internal/lifecycle/engine.go:338-352 | The two loops are counted under the lock exactly when the engine is not closing and the work context has not ended. |
| `EngineRuntime.Runtime.AcceptConnection` | internal/lifecycle/engine.go:387-404 | A connection is counted under the lock, with closing false. |
| `EngineRuntime.Runtime.StartRepairJob` | internal/lifecycle/engine_repair.go:68-71 | A repair job is counted by a connection that is itself counted. |
| `EngineRuntime.Runtime.AskForCleanup` | internal/lifecycle/engine.go:1297-1320 | A delivery goes out exactly when the run is ready, the engine is not closing and none is recorded as requested. |
| `EngineRuntime.Runtime.DeliveryEnds` | internal/lifecycle/engine.go:1322-1332 | An OK reply confirms; any other clears the request. |
| `EngineRuntime.Runtime.BeginClose` | internal/lifecycle/engine.go:244-261 | Exactly the caller that finds the engine open starts the shutdown. |
| `EngineRuntime.Runtime.EndOfClose` | internal/lifecycle/engine.go:276-291 | After the wait the store is closed once and its result recorded for all. |
| `EngineRuntime.Runtime.WakeCloser` | internal/lifecycle/engine.go:252-260 | A caller that waited gets the recorded result. |
| `Unicode.DecodeEncoded` | internal/repaircontract/canonical.go:297-297 | Decoding undoes encoding of every scalar, whatever follows it. |
| `Unicode.NoncharacterIff` | internal/repaircontract/canonical.go:426-428 | The noncharacters are U+FDD0..U+FDEF and the last two code points of each of the seventeen planes. |
| `Unicode.EncodeDecoded` | internal/repaircontract/canonical.go:433-494 | Encoding undoes decoding: bytes that decode without replacement are the one encoding of their character. |
| `Unicode.LessIff` | internal/repaircontract/canonical.go:352-371 | A key comes before another exactly when it is a proper prefix, or at the first difference has the smaller code point, supplementary characters counting as less than U+E000. |
| `Unicode.LessIsAStrictTotalOrder` | internal/repaircontract/canonical.go:352-371 | Order by UTF-16 code units is a strict total order on strings: irreflexive, asymmetric, transitive, and total. |
| `Unicode.Utf16Injective` | internal/repaircontract/canonical.go:353-354 | Strings with equal code units are equal. |
| `Unicode.CompareUtf16` | internal/repaircontract/canonical.go:352-371 | The loop returns -1, 0 or 1, with 0 exactly on equal strings and the sign that of the order `LessIff` describes. |
| `Decimal.SameValueIff` | internal/repaircontract/canonical.go:331-350 | Two decimals share a normal form exactly when they are the same number, which is what "denotes the same" means here. |
| `CanonicalNumber.ExpandDenotesTheSame` | internal/repaircontract/canonical.go:331-350 | For every digit string and exponent, the expanded text denotes exactly the mantissa times ten to the exponent. |
| `CanonicalNumber.RecastIsCanonical` | internal/repaircontract/canonical.go:312-328 | Whatever the float formatter chose, the result is the one canonical numeral of that value: plain for exponents -6 to 20, else with an exponent. |
| `CanonicalNumber.CanonicalNumeralValue` | internal/repaircontract/canonical.go:322-328 | The canonical numeral denotes the same value, in digits only. |
| `CanonicalNumber.PlainIff` | internal/repaircontract/canonical.go:322-328 | A number is written without an exponent exactly when that is between -6 and 20. |
| `NumberText.CanonicalNumberIdempotent` | internal/repaircontract/canonical.go:304-329 | Canonicalising a number twice is doing it once; the text is a JSON number and rounds to the same double. |
| `NumberText.SameTextIffSameDouble` | internal/repaircontract/canonical.go:304-329 | Two literals get one canonical text exactly when they round to one double. |
| `NumberText.IntegersKeepTheirText` | internal/repaircontract/canonical.go:304-329 | Every integer from -2^53 to 2^53 is written as its plain decimal text. |
| `NumberText.LawfulFloatsExist` | internal/repaircontract/canonical.go:305-312 | The laws assumed of float parsing and formatting can be met. |
| `NumberText.NumberTextScans` | internal/repaircontract/canonical.go:127-129 | A number literal is read whole in front of anything that may follow it. |
| `NumberText.NumberTextIff` | internal/repaircontract/canonical.go:127-129 | A text is a number literal exactly when the JSON grammar spells it: optional minus, digits without a leading zero, optional point with digits, optional exponent with optional sign and digits. |
| `PrintedForms.NumeralIsText` | internal/repaircontract/canonical.go:312-350 | A numeral is written with its minus, point, exponent mark and exponent sign in these very characters. |
| `PrintedForms.ItoaIsDecimal` | internal/repaircontract/canonical.go:322-328 | An integer is written in its decimal digits. |
| `JsonText.BodyReads` | internal/repaircontract/canonical.go:269-302 | A written string is read back as it was, whatever follows. |
| `JsonText.BodyPasses` | internal/repaircontract/canonical.go:433-494 | A written string of valid scalars passes the raw scalar screen. |
| `JsonText.ScreenedBody` | internal/repaircontract/canonical.go:433-494 | A literal that passed the screen is read with no character replaced and no noncharacter in it. |
| `StringForms.UnitsRead` | internal/repaircontract/canonical.go:352-371 | The code units of a character, written as escapes, read back as that character: they are its UTF-16 form. |
| `StringForms.BadFormsAreReplaced` | internal/repaircontract/canonical.go:433-494 | A lone surrogate escape and a byte that is not UTF-8 read as U+FFFD, and not at all under the strict reading of the screen. |
| `StringForms.EscapesRead` | internal/repaircontract/canonical.go:127-129 | The eight two-byte escapes read as their characters. |
| `StringForms.HexIgnoresCase` | internal/repaircontract/canonical.go:496-515 | Hexadecimal digits read alike in either case. |
| `StringForms.EscapeIsShortest` | internal/repaircontract/canonical.go:269-302 | Whatever strictly reads as a character is at least as long as what is written for it, and if as long the same but for the case of hexadecimal digits. |
| `StringForms.MarshalEscapesHtml` | internal/repaircontract/canonical.go:28-35 | json.Marshal escapes the five characters that matter to HTML and JavaScript, and writes all else as the canonical text. |
| `StringForms.EscapesAreLower` | internal/repaircontract/canonical.go:269-302 | Those digits are written in lower case. |
| `StringForms.BodyIsShortest` | internal/repaircontract/canonical.go:269-302 | No literal that strictly reads as a text is shorter than the canonical one. |
| `CanonicalDecoder.ReadHexCodeUnit` | internal/repaircontract/canonical.go:496-515 | Succeeds exactly on four hexadecimal digits, with their value. |
| `CanonicalDecoder.ScreenChar` | internal/repaircontract/canonical.go:441-486 | Accepts exactly what strict reading accepts and is no noncharacter, and moves past just that. |
| `CanonicalDecoder.ValidateRawStringScalars` | internal/repaircontract/canonical.go:433-494 | The index loop accepts exactly the texts all of whose string literals end and read strictly without noncharacters. |
| `JsonTree.BeforeIsAStrictTotalOrder` | internal/repaircontract/canonical.go:246-248 | Both key orders, by code units and by code points, are strict total orders. |
| `JsonTree.BeforeIff` | internal/repaircontract/canonical.go:246-248 | The canonical key order goes by UTF-16 code units, that of encoding/json by code points; in both a proper prefix comes first. |
| `PrintedForms.LeafIsJson` | internal/repaircontract/canonical.go:185-228 | Literals are written by name, and strings in quotes. |
| `PrintedForms.ArrayIsJson` | internal/repaircontract/canonical.go:229-240 | Items stand between brackets, with single commas and no white space. |
| `PrintedForms.ObjectIsJson` | internal/repaircontract/canonical.go:241-263 | Members stand between braces, each as quoted key, colon and value, in the order of their keys. |
| `PrintedForms.SpaceIsSkipped` | internal/repaircontract/canonical.go:120-127 | White space before a value is of no account to the reader. |
| `JsonTree.OrderIsUnique` | internal/repaircontract/canonical.go:245-248 | There is only one way to put a set of keys in order: the map's iteration order cannot matter. |
| `JsonRoundTrip.ValueReads` | internal/repaircontract/canonical.go:120-183 | Reading what either writer wrote gives the tree back, with its numbers as written, whatever follows. |
| `CanonicalJson.PrintIsClean` | internal/repaircontract/canonical.go:79-84 | Every print is valid UTF-8 and passes the scalar screen. |
| `CanonicalJson.RenumberSettles` | internal/repaircontract/canonical.go:185-267 | The tree read back is printable and reads back to itself. |
| `CanonicalJson.RenumberPrints` | internal/repaircontract/canonical.go:185-267 | And it prints to the same bytes. |
| `CanonicalCodec.ScreenedDocument` | internal/repaircontract/canonical.go:430-433 | A document that passed the screen is read without putting U+FFFD for anything. |
| `CanonicalCodec.MarshalKeepsCanonical` | internal/repaircontract/canonical.go:28-35 | The detour through json.Marshal and back leaves a canonically printable tree as it is. |
| `CanonicalCodec.CanonicalBytesIsPrint` | internal/repaircontract/canonical.go:24-41 | canonicalBytes is the canonical print, wherever there is one. |
| `CanonicalCodec.CanonicalPrintDecodes` | internal/repaircontract/canonical.go:77-92 | Every canonical print is accepted, and decodes to its tree with the numbers in canonical form. |
| `CanonicalCodec.DecodesExactlyPrints` | internal/repaircontract/canonical.go:77-92 | Bytes decode to a tree if and only if the tree is printable, its numbers are canonical, and the bytes are its print. |
| `CanonicalCodec.CanonicalBytesIdempotent` | internal/repaircontract/canonical.go:77-92 | Canonical bytes decode, and canonicalise to themselves. |
| `CanonicalCodec.SameBytesIffSameTree` | internal/repaircontract/canonical.go:24-41 | Two trees have equal bytes exactly when they differ at most in how numbers are spelt. |
| `CanonicalCodec.IntegerTreesHaveTheirOwnBytes` | internal/repaircontract/canonical.go:24-41 | Trees whose numbers are integers within 2^53 decode to themselves and have equal bytes only if equal. |
| `CanonicalCodec.HashIgnoresExactlyItsOwnField` | internal/repaircontract/canonical.go:43-68 | With an injective hash, two records share a hash exactly when they agree on every field but the hash's own. |
| `CanonicalCodec.HashRecordIs` | internal/repaircontract/canonical.go:43-68 | There is a hash exactly when the own field has a name and is present. |
| `CanonicalCodec.IntegerRecordsHaveTheirOwnHash` | internal/repaircontract/canonical.go:43-68 | On records of strings and small integers, equal hashes mean equal records but for that field. |
| `Hashing.IdealHashExists` | internal/repaircontract/canonical.go:19-22 | An injective hash with tagged digests exists, so no result holds for want of one. |
| `CanonicalEncoder.AppendString` | internal/repaircontract/canonical.go:269-302 | Appends the quoted text exactly when all scalars are valid, else leaves the buffer alone. |
| `CanonicalEncoder.SortKeys` | internal/repaircontract/canonical.go:245-248 | Whatever order the keys come in, the sorted result is the same. |
| `CanonicalEncoder.AppendArray` | internal/repaircontract/canonical.go:229-240 | Appends an array's print; fails exactly when some item has none. |
| `CanonicalEncoder.AppendObject` | internal/repaircontract/canonical.go:241-263 | Appends an object's print in key order from any enumeration; fails exactly when some member has none. |
| `CanonicalEncoder.AppendCanonical` | internal/repaircontract/canonical.go:185-267 | Appends the print of any tree; fails exactly on a tree that has none. |
| `CanonicalDecoder.Decoder.StringToken` | internal/repaircontract/canonical.go:120-138 | The string token with invalid Unicode replaced, refused on a noncharacter. |
| `CanonicalDecoder.Decoder.Items` | internal/repaircontract/canonical.go:166-179 | The array loop is the specified reader. |
| `CanonicalDecoder.Decoder.Members` | internal/repaircontract/canonical.go:141-165 | The object loop, with its duplicate check, is the specified reader. |
| `CanonicalDecoder.Decoder.Value` | internal/repaircontract/canonical.go:120-183 | decodeUniqueValue is the specified reader. |
| `UniqueKeys.ValueIsUnique` | internal/repaircontract/canonical.go:120-183 | Against a reader that keeps repeated members: the decoder succeeds exactly when the text reads and no object in it, at any depth, repeats a key, with the maps those members stand for. |
| `CanonicalCodec.DocumentStandsAlone` | internal/repaircontract/canonical.go:107-118 | After a document's value only white space may stand. |
| `CanonicalCodec.OmittedMemberIsForgiven` | internal/repaircontract/canonical.go:77-105 | An object with an empty string member and the one without it are both accepted, as different bytes, and no string member of a struct tells them apart. |
| `CanonicalCodec.ShortStructReads` | internal/repaircontract/canonical.go:77-105 | A struct with an empty string member has two canonical texts: both decode to it. |
| `CanonicalDecoder.DecodeUnique` | internal/repaircontract/canonical.go:107-118 | One value and nothing but space after it. |
| `Journal.ClaimTakesTheNextNumber` | internal/repairsupervisor/journal.go:166-264 | A claim that is taken has the next sequence number of its attempt and links to the head before it. |
| `Journal.ClaimTakenIff` | internal/repairsupervisor/journal.go:166-264 | A claim is taken exactly when its fields are filled, it encodes, it is next in its attempt, and its hash and id are new. |
| `Journal.ClaimKeepsConsistent` | internal/repairsupervisor/journal.go:166-264 | An agreed claim keeps every attempt gapless, one per phase, with folded heads. |
| `Journal.ClaimKeepsTidy` | internal/repairsupervisor/journal.go:89-140 | Any claim, agreed or not, breaks no uniqueness constraint and has a head made of its own hash and an earlier head. |
| `Journal.TakenClaimChainsIff` | internal/repairsupervisor/journal.go:166-264 | A claim that is taken keeps its attempt chained exactly when its phase and sequence agree. |
| `Journal.HeadPinsHistory` | internal/repairsupervisor/journal.go:451-455 | Equal heads mean equal lists of claim hashes up to them. |
| `Journal.SweepIs` | internal/repairsupervisor/journal.go:369-434 | A sweep goes through exactly when none of its event hashes is in use; it then adds one event each for exactly the other-epoch claims without one, else nothing. `SweepMarks` says what the events hold. |
| `Journal.SweepTwice` | internal/repairsupervisor/journal.go:369-434 | Repeating a sweep changes nothing. |
| `JournalRows.SweepMarks` | internal/repairsupervisor/journal.go:369-434 | After a sweep that goes through, every claim of another epoch without an event has one that says waiting_for_human and carries its own phase, number, attempt and epoch; every event added is of such a claim. |
| `JournalRows.SweepFinishes` | internal/repairsupervisor/journal.go:369-434 | After it, every claim of another epoch has an event. |
| `JournalRows.LaunchStays` | internal/repairsupervisor/journal.go:269-316 | A launch of a claim without an event, under an unused hash, is recorded as given and stays that claim's only event whatever is done later, sweeps included. |
| `JournalRows.TakenRowIs` | internal/repairsupervisor/journal.go:206-264 | The row of a claim that is taken holds that claim, the epoch it was taken in and its encoding; its head is the hash of the head before it, a colon and its own hash, and that head is the one of the phase before. |
| `JournalRows.ClaimByPlace` | internal/repairsupervisor/journal.go:181-205 | A claim already reached in its attempt is replayed if it is the same and a conflict if not; exactly those further ahead than the next lack their predecessor. |
| `JournalRows.BootRecordedIff` | internal/repairsupervisor/journal.go:151-160 | An epoch is recorded, as given, exactly when neither its id nor its hash is in use. |
| `JournalRows.HistoriesHaveDistinctEpochs` | internal/repairsupervisor/journal.go:151-160 | Over every history no two epochs share an id or a hash. |
| `JournalHistory.HistoriesAreConsistent` | internal/repairsupervisor/journal.go:166-316 | Over any history that asks only for agreed claims: sequences 1..k with no gap, one per phase, heads the fold of the head hash. |
| `JournalHistory.HistoriesAreConsistentIff` | internal/repairsupervisor/journal.go:166-316 | Over every history that holds exactly when the phase of every recorded claim agrees with its sequence. |
| `JournalHistory.HistoriesAreTidy` | internal/repairsupervisor/journal.go:89-140 | Over every history: claims unique by hash, id, phase and sequence of an attempt, at most one terminal event per claim, every head made of an earlier one. |
| `JournalHistory.HistoriesGrow` | internal/repairsupervisor/journal.go:113-140 | A longer history, of whatever calls, only adds rows. |
| `JournalHistory.FirstEventStays` | internal/repairsupervisor/journal.go:269-316 | Over every history, a claim's first terminal event is its only one in every later journal. |
| `JournalHistory.ReplayReturnsTheFirstRow` | internal/repairsupervisor/journal.go:181-193 | Over every history, whatever happened since, taking the same claim again returns the row first written and changes nothing. |
| `JournalHistory.DisagreementLeavesAGap` | internal/repairsupervisor/journal.go:195-205 | Without phase and sequence agreeing, two calls leave an attempt with numbers 1 and 3. |
| `JournalStore.LoadClaim` | internal/repairsupervisor/journal.go:476-485 | The lookup finds a row of that attempt and phase exactly when there is one. |
| `JournalStore.Store.TakeClaim` | internal/repairsupervisor/journal.go:166-264 | ClaimPhase on the tables is the specified outcome and change. |
| `JournalStore.Store.RecordLaunch` | internal/repairsupervisor/journal.go:269-316 | MarkLaunched inserts unless an event of the claim or its hash is there. |
| `JournalStore.Store.MarkPriorEpochNonterminal` | internal/repairsupervisor/journal.go:369-434 | Collecting and then inserting is the specified sweep; a conflict leaves the tables alone. |
| `JournalStore.Store.AddBootEpoch` | internal/repairsupervisor/journal.go:151-160 | An epoch is recorded exactly when its id and hash are new. |
| `AuthorityWindows.OneInstantSuffices` | internal/repaircontract/supervisor_intent.go:340-373 | Once the authority passed at its last live nanosecond, freshness holds at exactly the instants of its window at which the certificates have begun. |
| `AuthorityWindows.LastInstantDecides` | internal/repaircontract/supervisor_intent.go:353-358 | Given the nesting, the authority passes exactly when it is fresh at that instant: certificates live, lifetime in bounds, and the window closing within five minutes and a nanosecond of approval. |
| `AuthorityWindows.IntentWindowIff` | internal/repaircontract/supervisor_intent.go:340-373 | The time checks in numbers: one minute inside four inside ten, over within five minutes and a nanosecond of the approval, certificates covering the last nanosecond; the authority passes exactly then. |
| `AuthorityWindows.EarlierInstantDoesNotSuffice` | internal/repaircontract/supervisor_intent.go:353-358 | An intent that is fresh when created and no longer at its last live nanosecond: an earlier instant would not do. |
| `AuthorityWindows.WindowsNest` | internal/repaircontract/dispatch.go:67-94 | Intent in dispatch in authorization, all inside the certificates, closing within five minutes and a nanosecond of approval. |
| `AuthorityWindows.FiveMinutesAndANanosecond` | internal/repaircontract/authorization.go:190-198 | That bound is reached. |
| `SupervisorIntent.MintedWhenFresh` | internal/repaircontract/supervisor_intent.go:273-307 | An exact replay mints exactly inside the intent window with certificates begun, from the very bytes that were committed. |
| `SupervisorIntent.AwaitingIff` | internal/repaircontract/supervisor_intent.go:273-287 | A claim awaits its commit exactly when none is given, authority and claim are sound, and the clock is inside the window of the intent with the certificates begun. |
| `SupervisorIntent.MintedIff` | internal/repaircontract/supervisor_intent.go:288-307 | An exact replay is a sound request with an intact commit of the very bytes for that authority; it mints exactly inside the window. |
| `SupervisorIntent.ConflictIff` | internal/repaircontract/supervisor_intent.go:288-307 | Other bytes than those committed are a conflict, whatever they say. |
| `SupervisorIntent.AwaitsThenMints` | internal/repaircontract/supervisor_intent.go:273-307 | A request awaits its commit exactly when it mints once an intact commit of the same bytes for its authority is added. |
| `SupervisorIntent.MintedSaysWhatWasExpected` | internal/repaircontract/supervisor_intent.go:375-420 | A minted claim says, field by field, what was expected and approved. |
| `SupervisorIntent.MintedIsCommittedAndFollows` | internal/repaircontract/supervisor_intent.go:399-420 | What is minted was committed as it is; a later phase is minted only on the intact capability of the phase before and the sealed event that says it succeeded, linked by hash, slot and head. |
| `SupervisorIntent.AllGrounded` | internal/repaircontract/supervisor_intent.go:375-420 | Whatever is evaluated, in whatever order, each minted capability holds the claim that was committed and is its attempt's first, or follows an earlier minted one that is intact and whose phase succeeded. |
| `SupervisorIntent.MintedHaveLineage` | internal/repaircontract/supervisor_intent.go:273-420 | A capability for phase k has intact minted ones for phases 1..k-1 of the same attempt, authorization, approval and epoch, linked by claim hash, each head the one after its predecessor's succeeded terminal event. |
| `SupervisorIntent.MintedIsIntactIff` | internal/repaircontract/supervisor_intent.go:555-563 | A minted capability is intact, and so of use for the next phase, exactly when the bytes of the request are the encoding of the claim they decode to. |
| `SupervisorIntent.BrokenPredecessorIsRefused` | internal/repaircontract/supervisor_intent.go:399-405 | Whatever else a request holds, a predecessor that is not intact is refused. |
| `SupervisorIntent.EvaluatedClaimsAgree` | internal/repaircontract/supervisor_intent.go:321-321 | Every claim let through has the phase its number stands for, as the journal relies on. |
| `IntentExample.AllPhasesCanBeMinted` | internal/repaircontract/supervisor_intent.go:273-307 | For every codec that reads its claims back, three evaluations that mint all three phases. |
| `IntentExample.OwnRequestAwaits` | internal/repaircontract/supervisor_intent.go:273-287 | Each of these claims awaits its commit before that is there. |
| `IntentExample.TalliedReadsBack` | internal/repaircontract/supervisor_intent.go:273-307 | There is such a codec. |
| `IntentExample.OmittedMembersMintADeadEnd` | internal/repaircontract/supervisor_intent.go:273-307 | A committed first claim whose canonical bytes leave its empty predecessor out mints a capability that is not intact, and no request with it as predecessor is accepted. |
| `Phases.PhasesAreNumbered` | internal/repaircontract/supervisor_intent.go:459-470 | The phase and sequence maps are inverse on the three phases, and nothing else has a number. |
| `RecoveryChain.SnapshotIntact` | internal/repaircontract/supervisor_intent.go:723-788 | The loop over seen sets accepts exactly the snapshots whose records fit, link, move forward in time and share nothing. |
| `RecoveryChain.RecordsMoveForward` | internal/repaircontract/supervisor_intent.go:757-760 | Any two records of an intact snapshot are in strict order of time. |
| `RecoveryChain.RecordsShareNothing` | internal/repaircontract/supervisor_intent.go:761-780 | No two records of an intact snapshot share an id, a hash, a canonical hash, a head or a payload. |
| `RecoveryChain.IntactSays` | internal/repaircontract/supervisor_intent.go:723-788 | What an intact snapshot says of itself and of each record: seals, hashes, numbers, policy, the header in every record, the chain and the last head. |
| `RecoveryChain.CutNamesTheRecords` | internal/repaircontract/supervisor_intent.go:834-852 | The records are of the five kinds in their order, and the cut point says how far they go: after an effect its record is the last, before one it is the next. |
| `RecoveryChain.LastHashPinsHistory` | internal/repaircontract/supervisor_intent.go:723-788 | A snapshot whose last hash occurs in another is a prefix of it, record for record, for the same attempt, claim, slot and epoch. |
| `RecoveryChain.SameLastHashSameRecords` | internal/repaircontract/supervisor_intent.go:657-680 | Two intact snapshots end in the same hash exactly when they hold the same records. |
| `RecoveryChain.SameBytesIffOwnEncodings` | internal/repaircontract/supervisor_intent.go:749-756 | Where one of two such snapshots stores its records in their own encoding, the stored bytes agree exactly when the other does too. |
| `RecoveryChain.SameBytesIffSameCanonicalHashes` | internal/repaircontract/supervisor_intent.go:744-748 | In every case the bytes agree exactly when the canonical record hashes do. |
| `RecoveryChain.OmittedMemberChangesOnlyBytes` | internal/repaircontract/supervisor_intent.go:749-756 | The canonical bytes of a first record with and without its empty predecessor: two intact snapshots with the same last hash and records, and different bytes. |
| `RecoveryChain.CanonicalHashSeals` | internal/repaircontract/supervisor_intent.go:657-680 | hashRecord makes a record's own hash cover every other field. |
| `RecoveryChain.RecoveryMovesForward` | internal/repaircontract/supervisor_intent.go:793-832 | A longer history never moves recovery back; a claim waits for a human exactly when it is of an earlier epoch and has no terminal proof. |
| `RecoveryChain.AnsweredIff` | internal/repaircontract/supervisor_intent.go:793-808 | Recovery is answered exactly when the action is to replay the response, with all five records there, or else to ask for the status. |
| `RecoveryChain.RequirementIs` | internal/repaircontract/supervisor_intent.go:810-832 | The requirement and the disposition, by the number of records and whether the epoch is the current one. |
| `OmpSession.EveryRunIsSafe` | internal/lifecycle/omp_adapter.go:839-1030 | Over every interleaving: accepted events are a prefix of started, finding, completed; completed exactly on a good verdict, so after all three, a clean exit and a cleanup, with no rejection read; Terminate at most once. |
| `OmpSession.RefusedNeverCompletes` | internal/lifecycle/omp_adapter.go:843-847 | Once a line was refused, no steps of anyone lead to a completed session. |
| `OmpSession.RejectedNeverCompletes` | internal/lifecycle/omp_adapter.go:962-985 | Nor do they after a deadline or a cancel that comes before the flags are read. |
| `OmpSession.LineRefusedIff` | internal/lifecycle/omp_adapter.go:880-896 | A line is refused exactly when it is not the next event of the script or the session was rejected. |
| `OmpSession.CancelWithdraws` | internal/lifecycle/omp_adapter.go:962-985 | A cancel withdraws the events of a session that has not completed; a deadline leaves them. |
| `OmpSession.CompletedIsFinal` | internal/lifecycle/omp_adapter.go:962-973 | A completed session stays as published. |
| `OmpSession.PublishedEventsIff` | internal/lifecycle/omp_adapter.go:854-874 | The published events are the three accepted ones exactly when no cancel came between the read of the flags and the publishing. |
| `OmpSession.CompletedWithoutEvents` | internal/lifecycle/omp_adapter.go:854-874 | A run that is published as completed with no events. |
| `OmpRuntime.SessionObject.AcceptTranscriptEvent` | internal/lifecycle/omp_adapter.go:880-896 | Accepts exactly the next event of the script while monitoring and not rejected. |
| `OmpRuntime.SessionObject.RejectWithState` | internal/lifecycle/omp_adapter.go:962-985 | Rejects once; a cancel empties any state but completed. |
| `OmpRuntime.SessionObject.RunMonitor` | internal/lifecycle/omp_adapter.go:839-876 | Whatever others do between its sections, the monitor's execution is a run of the step machine. It publishes completed exactly when the lines are the three expected ones, scan, exit and cleanup go well, and nobody rejects the session before the flags are read; else it publishes the fail-closed state. |
| `Materialization.FramesInjective` | internal/lifecycle/omp_adapter.go:828-835 | The length-prefixed framing can be undone. |
| `Materialization.FrameBytes` | internal/lifecycle/omp_adapter.go:828-835 | A frame is the length of the path in eight bytes, most significant first, the path, the length of the contents likewise, and the contents. |
| `Materialization.FramesConcatenate` | internal/lifecycle/omp_adapter.go:823-837 | Frames follow one another in the order of the files. |
| `Materialization.PathLessIff` | internal/lifecycle/omp_adapter.go:823-827 | Paths are ordered byte by byte, a proper prefix first. |
| `Materialization.SameBytesIffPermutation` | internal/lifecycle/omp_adapter.go:823-837 | For distinct paths, the hashed bytes are equal exactly when one list is a permutation of the other. |
| `Materialization.FeedHash` | internal/lifecycle/omp_adapter.go:823-837 | Sorting a copy and feeding each file gives those bytes. |
| `GrillReview.EveryRunIsConsistent` | gui/src/grill-review.ts:73-170 | Over every interleaving: a shown evaluation is of the current revision, and pending holds exactly when an in-flight task holds the current operation number. |
| `GrillReview.OldRepliesChangeNothing` | gui/src/grill-review.ts:152-170 | Any number of replies to older operations, in any order, change nothing shown. |
| `GrillReview.RefreshShows` | gui/src/grill-review.ts:97-107 | A refresh ends by showing the evaluation that answers it, or else an error beside what was shown before, and is no longer pending, whatever older replies come in between. |
| `GrillReview.RecordShows` | gui/src/grill-review.ts:110-143 | So does a decision that may be recorded; when recording fails the error is shown and no reply is. |
| `GrillReview.MayRecordMeans` | gui/src/grill-review.ts:110-123 | A decision may be recorded exactly when the first shown question of that id is about the current revision, nothing is pending, and a waiver is of the one rule that allows it. |
| `GrillReview.ControlsAre` | gui/src/grill-review.ts:73-107 | The shown revision set again changes nothing, another clears the panel and supersedes what is in flight; becoming unavailable withdraws the evaluation; nothing begins while something is pending. |
| `GrillReview.NewRevisionSilencesTheRest` | gui/src/grill-review.ts:73-89 | After a new revision is set, nothing still in flight can show anything. |
| `GrillReview.ReviewController.ChangeRevision` | gui/src/grill-review.ts:73-89 | Reports a change exactly when the revision differs, and supersedes what was in flight. |
| `GrillReview.ReviewController.StartRefresh` | gui/src/grill-review.ts:97-107 | Begins an operation exactly when there is a revision and none is pending. |
| `GrillReview.ReviewController.StartRecord` | gui/src/grill-review.ts:110-123 | Begins only for a shown question of the current revision, and a waiver only where allowed. |
| `GrillReview.ReviewController.OnRecorded` | gui/src/grill-review.ts:124-143 | Goes on to evaluate only while its operation is current. |
| `GrillReview.ReviewController.OnEvaluated` | gui/src/grill-review.ts:152-158 | Shows a reply only while its operation is current and the identity matches. |
| `GrillReview.ReviewController.OnFail` | gui/src/grill-review.ts:160-164 | Shows the error only for the current operation. |
| `GrillReview.ReviewController.BecomeUnavailable` | gui/src/grill-review.ts:90-94 | Supersedes what was in flight and withdraws the evaluation. |
| `GrillReview.ReviewController.OnFinish` | gui/src/grill-review.ts:166-170 | Ends pending only for the current operation. |

## Left out

- The API handlers and JSON projections of the engine, apart from cancellation: field copying.
- Supervisor authentication, adoption of a live supervisor, and outbox reconciliation (`engine.go:590-850`): adoption reaches the run row as a store call by another actor.
- File identity checks: a transcript that was replaced or became unreadable is an opening or a pass that does nothing, with the transition to `cleanup_required` made by another store client.
- `Seek` is taken to succeed, and an exit watcher to fire only on a real exit; `backend.go:160-171` also closes its channel on a kevent error.
- What `json.Unmarshal` makes of a transcript line is a parameter: any function from lines to envelopes.
- Unmarshalling of canonical bytes into Go structs: in `CanonicalCodec` results are about JSON trees; in `SupervisorIntent` and `RecoveryChain` the decoder is an arbitrary function, of which nothing is assumed but in the two failing cases, where it reads members from the tree.
- The direct encoding of Go integers and floats: `json.Marshal` is modelled on the trees the decoder builds.
- Float parsing and formatting: parameters with stated laws.
- A no-process failure is a step between daemon operations, where the launch makes it; inside a pass or a handoff other store clients do not make it.
- A process that left the run's group is not modelled to come back into it, and the file is written only by the supervisor and by processes that were, or descend from, members of the group.
- `TranscriptHandoff.StartTailing` is one step, whereas `engine.go:1346-1409` loads the run, opens the file and reads its size one after another; what happens in between is not in the model.
- Acknowledgement of the outbox row (`engine.go:1030-1033`): the engine may reap an exited supervisor at any time after its run is terminal.
- SQLite: each call is one transaction. Foreign keys are not modelled; the pragma that enforces them is off.
- Row creation times in the journal, and the JSON text of terminal events.
- Conjunctions of plain field equalities in the contract checks: predicates of the environment in `SupervisorIntent` (bindings of repository, sandbox, dispatch and release pins).
- `authorization.go:145-189` apart from its times, and the predecessor rule for a second attempt: equalities over the same seal pattern.
- The durable observation that classification also reports: it is the name of the record count.
- X.509 and signature checks: a certificate is a span of time.
- `validHash` is an arbitrary predicate where it is only checked: a fixed digest length and injectivity cannot both hold.
- The syntax of adapter transcript lines (`omp_adapter.go:898-952`): a line is its normalised kind, or none.
- Starting an adapter session, descriptors, directory trees and process signals of the adapter.
- `Materialization.SameBytesIffPermutation`: for lists with distinct paths; with equal paths the order of the unstable sort is not fixed by the source.
- Rendering and event binding in `grill-review.ts`, and its other callers.
- Mutation hooks: the production setting, all off.
