# A verified model of the LeanCTX SDK

The LeanCTX SDK talks to an Engine that it starts as a child process, and seals what it receives with
digests over canonical JSON. This project models the parts of the SDK on which everything else rests and
proves what they promise, for all inputs and all interleavings. `dafny verify dfyconfig.toml` checks it.

- **The agent session** (`AgentProtocol`, `AgentInvariants`, `AgentSafety`): many callers, the transport
  goroutines they start and one cleanup, as a step relation. Deadlines, cancellations, exhausted budgets,
  Engine output and the reaping of the process are steps that may come at any time. `AgentProgress` shows
  that no call waits forever, `AgentGivingUp` that one that gives up leaves no trace, `AgentManyCalls`
  what any number of exchanges does to the request ids.
- **Ending a process** (`ProcessEvents`, `ProcessUnix`, `OneShot`, `PythonCleanup`): the signal, repeat and
  confirm loops, the one-shot client in two phases, and the Python cleanup under its lock.
  `CleanupMachine` is the rule that both cleanups are for. `AgentRefinement` proves that every run of the
  Go session follows it and what its callers are told, `PythonCleanup` that every run of the Python one
  follows it in which no error of the operating system hides a failure.
- **The canonical JSON codec** (`Utf8`, `Decimals`, `Numbers`, `Json`, `GoValues`, `Parser`, `RoundTrip`,
  `Decoder`, `Codec`, `PlainGraphs`, `SurrogateScanner`, `ExactReader`,
  `ScannedDocuments`): Go values, their canonical bytes, the library's token automaton with the strict decoder above it, and an independent reader written from
  sections 2 to 7 of RFC 8259. Keys are ordered by code point. `ExactReader` is that reader without the
  replacement of unpaired surrogates.
- **The Product session** (`Evidence`, `Sessions`, `ContextSessions`): views, receipts, the six states.
- **The Enterprise binding checks** (`ByteOrder`, `Digests`, `Distinct`, `DeclaredPlans`, `Lineage`, `SourcePlans`,
  `PresentedUse`): checks by loops, counts and sets, and the bijections and permutations they imply.
- **Hello and evidence** (`Capabilities`, `Containment`, `WireTranscript`): the announced tools, and the framed transcript
  of a session. `Containment` is the record of the acknowledgement.

Imperative code keeps its form: objects are classes, loops carry invariants, and each method is proved
against a function or a predicate about which the laws are then proved. `Wrappers` holds the option and
result types.

## Where the code does not do what its documentation says

- The Python cleanup is documented to raise a cleanup failure to every later caller. It stores only its own
  error type. If a pass in which ending the tree fails ends in an error of the operating system instead,
  nothing is stored, and a later caller can be told success. That error can be a denied kill of the leader
  (`src/leanctx_sdk/agent.py:1056`, and the fallback in `_kill_posix_tree`), an error log that does not
  close, or a policy file that cannot be removed. `PythonCleanup.FailureIsKeptIff` gives the exact
  condition. A caller of an open session can only meet the first two: its policy file was removed before
  the constructor returned (`src/leanctx_sdk/agent.py:394-398`). Where the removal raises, the later caller
  is the constructor's own handler, the write watchdog or the finalizer.

## What a reader of the code may not expect

No document promises these; each is stated with its exact condition.

- Completing a Product session again with the same arguments returns the same receipt, as a test expects for
  one input (`packages/go/session_test.go:70`), exactly if the usage has canonical bytes
  (`Sessions.CompleteIsIdempotentIff`). A usage that can be copied but has none, such as one with a
  fractional number, is accepted once and refused when repeated.
- Prepare records a degraded view exactly if the client is not the concrete one
  (`packages/go/session.go:248-251`, `Sessions.DegradedIsRecordedIff`).
- Request ids increase on the wire exactly while the 64-bit counter has not wrapped
  (`AgentManyCalls.IncreaseUntilWrap`); a session that wraps is reachable (`AgentManyCalls.WrapIsReached`).
- The one-shot client does not look at why reading an output stopped (`packages/go/engine.go:991`,
  `packages/go/engine.go:1104-1111`). What it returns is all that was written exactly if no read error came
  before the last byte (`OneShot.OutputIsCompleteIff`; `OneShot.CutOutputIsReturned` is an input with a byte
  left behind). There is one exception: reading stops inside the acknowledgement, and the output behind
  it is just what was read (`OneShot.SwallowedInput`).
- A caller of the Go cleanup is told success exactly when the rule of `CleanupMachine` grants it, unless it was
  overtaken: it saw the policy directory recorded, another caller removed it and cleared the record, and
  its own removal fails with another error than "does not exist" (`packages/go/agent.go:555-560`). It is told
  failure then (`AgentRefinement.VerdictsAreGranted`, `AgentRefinement.OvertakenIsReached`).

## Tests in the code that never decide

- The second test for empty digits (`packages/go/protocol.go:559`), the tests for a missing plan and a missing
  receipt (`packages/go/session.go:182`, `packages/go/session.go:320`), the error test in
  `packages/go/session.go:435`, the tests of `closed` and of the process state on admission
  (`packages/go/agent.go:648`), and the test for two nil usages (`packages/go/session.go:499`).

## Model

| member | source | states |
|---|---|---|
| `AgentSafety.OneOwner` | packages/go/agent.go:834-858 | In every interleaving at most one call ever takes the command, the cleanup has one owner, that owner is inside it only while it is unfinished, and a call that never started a transport is not the owner |
| `AgentSafety.ReportsAreBacked` | packages/go/agent.go:747-756 | Whoever returns a terminal error or the result of Close or Cancel has ended the session, and unless it says "still pending" the cleanup is done |
| `AgentSafety.CleanIsConfirmed` | packages/go/agent.go:824-833 | No caller of Close, Cancel or a failing exchange reports a clean cleanup before the owner has finished it without a stored failure, with the process terminated and reaped, and with the policy directory gone |
| `AgentSafety.FailureIsTrouble` | packages/go/agent.go:881-905 | When the cleanup is done, the stored failure is set exactly if terminating or reaping the process failed or ran out of its budget |
| `AgentSafety.VerdictIsFinal` | packages/go/agent.go:834-877 | Along every run, a finished cleanup, its stored failure, its owner and a closed session never change again, and a confirmed success stays confirmed |
| `AgentSafety.SignalBeforeReap` | packages/go/agent.go:783-803 | In every reachable state no signal follows the start of Wait, and whoever can still signal does so before Wait was started |
| `AgentSafety.MissingCommandDecides` | packages/go/agent.go:647-652 | Of the three tests an exchange makes on admission, the missing command alone decides: the other two are never true without it |
| `AgentSafety.OneTransport` | packages/go/agent.go:639-694 | At most one transport goroutine uses the pipes, a running one with the slot free implies a closed session, and the slot has one holder |
| `AgentSafety.TransportOutlivesExchange` | packages/go/agent.go:807-816 | The case that the previous row provides for is reachable: joining gives up, the slot is released, and the transport still runs |
| `AgentSafety.AckOnlyFirst` | packages/go/agent.go:344-353 | The containment acknowledgement is skipped at most once in a session, and only as its first line |
| `AgentSafety.AnswerIsOwn` | packages/go/agent.go:695-744 | An exchange returns a result only from a valid line that its own transport read and that bears its own request id |
| `AgentSafety.UntouchedCall` | packages/go/agent.go:631-668 | A call that gave up waiting for the slot, found the session over or could not encode its request started no transport, so no byte on the wire is its own |
| `AgentGivingUp.GaveUpLeavesNoTrace` | packages/go/agent.go:631-645 | In every run, without the steps of a call that gave up waiting for the slot it is still a run and ends in the same state apart from that call: the session and the running call are left intact |
| `AgentProgress.NobodyIsStuck` | packages/go/agent.go:777-781 | In every state each call that has not returned has a step of its own that waits for nobody: where it waits, its own deadline or budget |
| `AgentProgress.StepsAreBounded` | packages/go/agent.go:777-781 | In every run the rank of a call bounds the steps it makes, signals apart, and falls with each of them; nobody else can raise it |
| `AgentProgress.ReturnsWithin31` | packages/go/agent.go:777-781 | A call returns within 31 steps of its own, besides signals, whatever the others do |
| `CleanupMachine.VerdictStands` | packages/go/agent.go:824-833 | The cleanup rule: in every run of it what is done stays done with the same failure; after a failure nobody is told success, after one success everybody is |
| `AgentRefinement.VerdictsAreGranted` | packages/go/agent.go:834-877 | In every reachable state of the Go session each step is invisible to that rule or one of its actions, and a caller gets a verdict exactly by asking and is told success exactly when the rule grants it and no other caller cleared the policy while its own removal failed |
| `AgentRefinement.OvertakenIsReached` | packages/go/agent.go:549-567 | That exception is met: two callers see the policy recorded, one removes it, and the removal of the other fails, who is told failure although the rule grants success |
| `AgentRefinement.RunFollows` | packages/go/agent.go:834-877 | Every run of the Go session, in whatever interleaving, is a run of that rule |
| `AgentSafety.NoLateBytes` | packages/go/agent.go:647-655 | Once the session is closed, a call that begins or gets the slot later never writes a byte |
| `AgentSafety.WireIDsIncrease` | packages/go/agent.go:594-597 | In the order of their bytes on the wire, the request ids of different requests strictly increase while fewer than 2^64 were issued |
| `AgentManyCalls.IncreaseUntilWrap` | packages/go/agent.go:594-597 | In every reachable session whose requests all have bytes on the wire, the ids of different requests increase in wire order exactly while the 64-bit counter has not wrapped |
| `AgentManyCalls.WrapIsReached` | packages/go/agent.go:594-597 | Such a session is reachable for every number of requests, so also one that has wrapped |
| `AgentManyCalls.ServedAll` | packages/go/agent.go:623-745 | Any number of exchanges can be answered one after the other, each from its own line |
| `AgentSafety.StepKeepsInv` | packages/go/agent.go:623-877 | Every step of a call, of the cleanup, of a transport and of the environment keeps the joint invariant |
| `AgentSafety.RunSticks` | packages/go/agent.go:834-877 | Along every run, nothing that was closed, claimed, finished, removed or written is undone |
| `Containment.ContainmentState.FirstLine` | packages/go/agent.go:344-353 | Answers true exactly for a first line that is the acknowledgement, and records it |
| `Containment.TrueAtMostOnce` | packages/go/agent.go:342-353 | Over all lines of a start it answers true at most once, and only for the first |
| `AgentInvariants.CallKeepsTransports` | packages/go/agent.go:639-694 | Starting, abandoning and receiving from transports keeps the tie between a running transport and the holder of the slot |
| `AgentInvariants.CleanupKeepsOneWait` | packages/go/agent.go:787-803 | Every step of the cleanup keeps: one taker of the command, and signals only before Wait |
| `AgentInvariants.CleanupKeepsReports` | packages/go/agent.go:865-877 | Every step of the cleanup keeps: who is about to report success does so for a finished, unfailed cleanup without policy directory |
| `AgentInvariants.TransportKeepsFirstLine` | packages/go/agent.go:681-686 | Every step of a transport keeps: until the first line has been classified no other line is read, so only it can be skipped |
| `ProcessUnix.TerminateProcess` | packages/go/process_unix.go:49-106 | Group error exactly if the group did not end as far as signals and the process table tell; otherwise success or a process error as killing the leader says; a missing or reaped command is not signalled; the leader is killed last |
| `ProcessUnix.RepeatSignal` | packages/go/process_unix.go:64-73 | The group is signalled again until a signal is not sent, at most three times |
| `ProcessUnix.ConfirmGroup` | packages/go/process_unix.go:82-99 | Success exactly if some look within the budget shows no live member or cannot see; one signal for each look that shows one |
| `ProcessUnix.EndGroup` | packages/go/process_unix.go:62-100 | Each answer to the first signal is settled as the platform rules say, with exactly the signals this takes |
| `ProcessUnix.ConfirmationDecides` | packages/go/process_unix.go:86-99 | The number of confirmation rounds is determined by what the looks show, and its last look decides the verdict |
| `ProcessUnix.SignalsBounded` | packages/go/process_unix.go:62-100 | At least one and at most four signals before the confirmation, and at most one for each of its rounds |
| `ProcessUnix.ReapAgentProcess` | packages/go/agent.go:881-905 | Reports exactly the failures there are: the tree survives, the process was not reaped within the budget, or Wait failed otherwise; Wait is started after the last signal |
| `OneShot.CollectStream` | packages/go/engine.go:975-995 | Delivers everything that was read exactly if it fits its bound, and gives up at the first chunk that does not |
| `OneShot.SignalBeforeReap` | packages/go/engine.go:1008-1103 | In every run of the one-shot client no signal follows the start of Wait; in phase two, and in a run that reports the Engine as left running, nothing was ever signalled |
| `OneShot.RemarkIsHonest` | packages/go/engine.go:1008-1036 | A run that was ended early is silent about its cleanup only if the process was terminated and reaped, is right in what it says otherwise, and leaves the containment record of the run before it |
| `OneShot.OutputIsAllRead` | packages/go/engine.go:1104-1144 | A returned output is all that was read from stdout, within its bound, without the acknowledgement, whose presence is what the client records |
| `OneShot.OutputIsCompleteIff` | packages/go/engine.go:975-995 | In every run a returned output is the beginning of what was written to stdout, without the acknowledgement; it is all of it exactly if no read error came before the last byte, but for a cut inside the acknowledgement that is hidden by stripping; without a read error nothing can be written any more |
| `OneShot.StripDecides` | packages/go/engine.go:1112-1117 | Of a text and a beginning of it the same is left without the acknowledgement exactly if they are equal, or the beginning ends inside the acknowledgement and is just what follows it |
| `OneShot.SwallowedInput` | packages/go/engine.go:1112-1117 | An input for that exception: the acknowledgement with its own first character behind it, of which only that character was read |
| `OneShot.CutOutputIsReturned` | packages/go/engine.go:1104-1111 | The input that shows it: stdout ends in a read error with a byte unread, and what was read until then is returned |
| `OneShot.OverflowNeverReturns` | packages/go/engine.go:975-995 | A run in which a stream passed its bound returns none of its data: it can only be ended, and never as left running |
| `OneShot.BothCollected` | packages/go/engine.go:1079-1111 | Two collected results are all that was read from stdout and all that was read from stderr, whatever their order |
| `OneShot.StepKeepsInv` | packages/go/engine.go:975-1144 | Every step of collectors, client and environment keeps the joint invariant of the run |
| `PythonCleanup.AgentContext.TerminateOnce` | src/leanctx_sdk/agent.py:1022-1082 | One pass: nothing is signalled once the return code is set; a denied kill, an error log that does not close and a policy file that cannot be removed end it in an error of the operating system, and only without these it reports the failure of the tree or the reap, or success |
| `PythonCleanup.AgentContext.Terminate` | src/leanctx_sdk/agent.py:965-991 | A stored failure is raised without another pass; a cleanup failure of a pass is stored; a caller without the lock learns that the cleanup is pending |
| `PythonCleanup.AgentContext.ResendGroupKill` | src/leanctx_sdk/agent.py:1145-1171 | Failure exactly if every look within the budget shows a live member |
| `PythonCleanup.StoredFailureSticks` | src/leanctx_sdk/agent.py:965-991 | After a stored failure every later caller is told failure or pending, and the session does not change |
| `PythonCleanup.AgentContext.KillTree` | src/leanctx_sdk/agent.py:1197-1214 | What stopping and killing the tree reports, and when the kill of the leader raises instead |
| `PythonCleanup.AgentContext.Reap` | src/leanctx_sdk/agent.py:1053-1060 | Reaps by the first wait, by the look before the kill or by the second wait; a denied kill raises and leaves the process unreaped |
| `PythonCleanup.FailureIsKeptIff` | src/leanctx_sdk/agent.py:965-991 | After a pass in which ending the tree failed, some later caller can be told success exactly if the pass ended in an error that is not stored: a denied kill, an error log that does not close, or a policy file that cannot be removed |
| `PythonCleanup.LostDenial` | src/leanctx_sdk/agent.py:1053-1060 | An input that shows it in an open session: every signal is denied and a member is alive; the pass changes nothing, and when the leader has exited the next caller is told success |
| `PythonCleanup.LostFailure` | src/leanctx_sdk/agent.py:1078-1082 | An input that shows it while a session is being opened: live members remain, the leader is reaped, the removal raises, and the next caller is told success |
| `PythonCleanup.OpenedLosesOnlyDenials` | src/leanctx_sdk/agent.py:394-398 | In an open session, whose policy file is gone, with an error log that closes, a denied kill is the only way to lose a failure |
| `PythonCleanup.CallRefines` | src/leanctx_sdk/agent.py:965-991 | A call that hides nothing is a run of the cleanup rule that the Go session implements, and its caller is told success exactly when the rule grants it, but for an error log that does not close |
| `PythonCleanup.RunRefines` | src/leanctx_sdk/agent.py:965-991 | Every run of the Python cleanup in which nothing is hidden is a run of that rule |
| `PythonCleanup.SuccessIsConfirmed` | src/leanctx_sdk/agent.py:965-1082 | In such a run, success means that the process was reaped, that the first pass ended its tree, and that the policy file is gone |
| `Codec.CanonicalRoundTrip` | packages/go/protocol.go:195-205 | For every object over the safe integers: decoding its canonical bytes and normalizing gives back exactly that object, and encoding it again the same bytes |
| `Codec.CanonicalUnique` | packages/go/protocol.go:195-205 | Two values have the same canonical bytes exactly if they are the same JSON value, whatever the order of their map keys |
| `Codec.CanonicalIdempotent` | packages/go/protocol.go:195-205 | The canonical form of an accepted document decodes to the same value and is its own canonical form |
| `Codec.DecodeCanonical` | packages/go/protocol.go:585-602 | The strict decoder accepts the canonical bytes of a value exactly if it is an object, and gives it back with its numbers as text |
| `Codec.CanonicalJSON` | packages/go/protocol.go:195-205 | An error exactly if the value has no portable meaning, else the UTF-8 text of that meaning |
| `Codec.EncodeCanonical` | packages/go/protocol.go:404-469 | Appends exactly the text of the value's meaning, and fails exactly when a number is not a safe integer or a key or string is not UTF-8 |
| `Codec.EncodeMembers` | packages/go/protocol.go:451-464 | Writes the members in the order of the sorted keys, separated by commas, or fails where a value has no meaning |
| `Codec.WriteCanonicalString` | packages/go/protocol.go:473-502 | Appends the quoted text with exactly the escapes of the canonical form |
| `Codec.KeyLess` | packages/go/protocol.go:505-513 | The comparison of the sort is the order by code point |
| `Codec.SortCodePoints` | packages/go/protocol.go:504-514 | The keys of a map come out strictly sorted by code point, none lost and none added |
| `Codec.PlainValue` | packages/go/protocol.go:220-402 | Normalization: number text becomes the integer it denotes or an error, everything else is copied |
| `PlainGraphs.PlainGraph` | packages/go/protocol.go:360-402 | Over maps and slices that share and nest through references: an error exactly if something contains itself or the value without sharing cannot be normalized; sharing alone is no cycle |
| `PlainGraphs.PlainItem` | packages/go/protocol.go:360-402 | The visited addresses are put back, and the result is the normalization of what the references stand for, or an error if they stand for nothing |
| `PlainGraphs.EndsWithin` | packages/go/protocol.go:360-402 | Without a cycle the references end within as many steps as there are maps and slices |
| `PlainGraphs.CycleInside` | packages/go/protocol.go:360-402 | What has a cycle inside stands for no value |
| `Codec.CloneMap` | packages/go/protocol.go:1196-1209 | A normalized copy; nil becomes the empty object |
| `Codec.CloneCanonical` | packages/go/protocol.go:1196-1209 | A copy has the canonical bytes of its original, also for nil, and what cannot be copied has none |
| `Codec.CloneAcceptsMore` | packages/go/protocol.go:1196-1209 | Copying accepts values that have no canonical bytes: a fractional float |
| `Codec.ValuesEqual` | packages/go/enterprise_execution.go:816-820 | True exactly if both values have a portable meaning and it is the same |
| `Json.SortedListingUnique` | packages/go/protocol.go:504-514 | A set of keys has only one listing that is strictly sorted by code point |
| `GoValues.PlainMeaning` | packages/go/protocol.go:220-402 | Normalization keeps the meaning of every value, and what it refuses has none |
| `GoValues.MeaningIsSafe` | packages/go/protocol.go:404-430 | Whatever has a meaning is a JSON value whose numbers are all safe integers |
| `RoundTrip.ReadPrinted` | packages/go/protocol.go:404-502 | The reader of RFC 8259 reads every printed value back, and stops where it ends, whatever follows |
| `RoundTrip.PrintInjective` | packages/go/protocol.go:404-502 | Different JSON values have different canonical texts |
| `Numbers.NormalizeNumber` | packages/go/protocol.go:516-581 | Returns n exactly if the text is a JSON number whose exact rational value is the safe integer n, with an exponent within 100000 and not a negative zero |
| `Numbers.NormalizedMeans` | packages/go/protocol.go:516-581 | The specification of the previous row says so for every text and every integer |
| `Numbers.DenotesUnique` | packages/go/protocol.go:516-581 | The text of a number denotes at most one integer |
| `Numbers.ScaleDigits` | packages/go/protocol.go:540-581 | Scaling the digits by the power of ten is exact; the second test for empty digits never succeeds |
| `Numbers.CutNumber` | packages/go/protocol.go:524-539 | The text is cut into the exponent, the whole digits and the fraction digits that the grammar gives it |
| `Numbers.MatchNumberOf` | packages/go/protocol.go:41 | Every number of the grammar is matched by the pattern as that number |
| `Numbers.FormatIntNormalizes` | packages/go/protocol.go:416-430 | The text written for a safe integer normalizes back to it |
| `Decoder.StrictJSONLoads` | packages/go/protocol.go:585-602 | Accepts exactly the UTF-8 texts that are one JSON object without repeated keys with nothing but space around it, and gives that object |
| `Decoder.DecodeStrictValue` | packages/go/protocol.go:604-655 | Over the token stream of the library decoder: reads exactly the value that the grammar has at that place |
| `Decoder.DecodeObject` | packages/go/protocol.go:611-635 | Reads exactly the members that the grammar has there, and fails on a repeated key |
| `Decoder.DecodeArray` | packages/go/protocol.go:636-649 | Reads exactly the items that the grammar has there |
| `SurrogateScanner.UnicodeEscapesValid` | packages/go/engine_context.go:414-447 | The loop that moves its index by hand computes the recursive scan |
| `SurrogateScanner.ScanDecides` | packages/go/engine_context.go:414-447 | On text in which every backslash starts an escape, the scan passes exactly if every high surrogate is followed at once by a low one and every low one follows a high one |
| `SurrogateScanner.DecoderReadsPieces` | packages/go/engine_context.go:414-447 | The decoder turns the pieces of a string body into exactly the characters the pairs denote, an unpaired surrogate into the replacement character |
| `ScannedDocuments.ScanDecidesDocuments` | packages/go/engine_context.go:414-447 | For every document that the strict decoder accepts, the scan passes exactly if all its surrogate escapes are paired |
| `ScannedDocuments.ScannedLoadsAreExact` | packages/go/engine_context.go:414-447 | Text is never silently rewritten: for all bytes, the strict decoder behind the scan gives exactly what an independent reader gives that refuses unpaired surrogates, the same value or an error |
| `Utf8.DecodeEncode` | packages/go/protocol.go:473-502 | Decoding the UTF-8 bytes of a text gives it back |
| `Utf8.EncodeDecode` | packages/go/protocol.go:586-588 | Bytes that decode are the encoding of what they decode to |
| `Sessions.StatesAreMeant` | packages/go/session.go:161-341 | In every run: executing implies planned and prepared, completed a receipt that is not aborted, aborted an aborted receipt, closed a receipt; so the guards for a missing plan or receipt never decide |
| `Sessions.AtMostOnce` | packages/go/session.go:161-341 | In every run the Engine is asked for a view at most once and at most one receipt is made |
| `Sessions.NothingIsTakenBack` | packages/go/session.go:139-397 | As a run goes on the rank of the state never falls, and plan, receipt and prepared view never change |
| `Sessions.ReceiptIsHonest` | packages/go/session.go:477-483 | In every run a receipt names the session's plan and view and is sealed exactly if the view's evidence is complete |
| `Sessions.StepKeepsInv` | packages/go/session.go:139-439 | Every operation keeps the invariant of the session and takes nothing back |
| `Sessions.RepeatedComplete` | packages/go/session.go:288-293 | A repeated complete returns the stored receipt exactly if the outcome is the stored one and the usage has the canonical bytes of the first |
| `Sessions.CompleteIsIdempotentIff` | packages/go/session.go:267-311 | Repeating the very same complete is idempotent exactly if its usage has canonical bytes |
| `Sessions.RepeatedFractionIsRefused` | packages/go/session.go:493-503 | The input that shows it: a fractional number in the usage is accepted once and refused when repeated |
| `Sessions.NilUsageRepeats` | packages/go/session.go:493-503 | A nil usage is in the canonical domain and repeats |
| `Sessions.ReplanningIsStable` | packages/go/session.go:146-155 | In every unfinished run with a plan, planning again with the same JSON intent returns that plan; with another one it is refused unless the hashes collide; nothing changes |
| `Sessions.DegradedIsRecordedIff` | packages/go/session.go:185-193 | In every run a degraded view that prepare returns has left its mark, then and ever after, exactly if the client is not the concrete one: the variant with a cancellation does not record it |
| `Sessions.AbortSucceedsIff` | packages/go/session.go:334-340 | In every unfinished run an abort succeeds exactly if the type name of the error is safe; otherwise the run goes on as if it had not been asked for |
| `ContextSessions.ContextSession.PlanLocked` | packages/go/session.go:139-159 | Plans, returns the first plan again, or refuses, as the specification says, and keeps the invariant |
| `ContextSessions.ContextSession.Prepare` | packages/go/session.go:161-210 | Both variants of prepare do what the specification says although it has no case for a plan that could not be established |
| `ContextSessions.ContextSession.PrepareContext` | packages/go/session.go:212-265 | With a cancellation: a client that is not the concrete one is not asked when it has come before, and nothing changes; otherwise as prepare, where the concrete client does not record a degraded view |
| `ContextSessions.ContextSession.AbortInstanceFailure` | packages/go/session.go:415-439 | After an Engine failure the receipt is always made: its error test never decides |
| `ContextSessions.ContextSession.Complete` | packages/go/session.go:267-311 | Completes, repeats or refuses as the specification says |
| `ContextSessions.ContextSession.Abort` | packages/go/session.go:313-341 | Aborts, repeats or refuses as the specification says |
| `ContextSessions.ContextSession.Close` | packages/go/session.go:386-397 | Closes only a completed or aborted session, and repeats |
| `ContextSessions.ContextSession.Recover` | packages/go/session.go:343-375 | Recovers exactly a source with the binding of the session's own view, in the states that allow it |
| `ContextSessions.ContextSession.ParseArguments` | packages/go/session.go:271-287 | The last argument that gives an outcome or a usage wins; an unsupported one or too many are refused |
| `ContextSessions.ContextSession.AddDegradation` | packages/go/session.go:406-413 | Adds the mark unless it is there |
| `Evidence.VerifyView` | packages/go/protocol.go:1264-1298 | True exactly if the evidence is complete: the output is there and recoverable, its source is in the lineage, observation and link speak of this invocation and output |
| `Evidence.NewReceipt` | packages/go/receipt.go:36-94 | Succeeds exactly under the conditions on plan id, outcome, exception, usage, degradations and sealed evidence, with all fields as given and the usage normalized |
| `Evidence.VerifyReceipt` | packages/go/receipt.go:152-154 | True exactly for a sealed receipt with complete evidence |
| `Evidence.SameCompletion` | packages/go/session.go:493-503 | True exactly if the outcomes agree and both usages are the same JSON value |
| `DeclaredPlans.CheckDeclaredPlan` | packages/go/enterprise_execution.go:595-606 | Accepts exactly a plan with the source plan's id, a decision reference if none was declared, and otherwise the declared fields with the declared values: only these two fields may differ |
| `DeclaredPlans.CheckExecutionPlan` | packages/go/enterprise_execution.go:577-613 | Accepts exactly if also the budget is the source plan's, the plan has the local-native form, and the evaluation time is the one asked for |
| `DeclaredPlans.DeclaredBudget` | packages/go/enterprise_execution.go:587-606 | So the budget that was declared is the source plan's budget |
| `DeclaredPlans.U64Means` | packages/go/enterprise_execution.go:740-771 | A value with a meaning that is read as an unsigned integer means that integer |
| `DeclaredPlans.SameObjectIff` | packages/go/enterprise_execution.go:816-820 | Two objects have the same canonical bytes exactly if they have the same fields with the same meanings |
| `Lineage.CheckLineage` | packages/go/enterprise_execution.go:1037-1086 | Accepts exactly if the input reference binds the input digest and the references are a permutation of the four built from the four digests |
| `Lineage.CheckReferences` | packages/go/enterprise_execution.go:1053-1084 | The loop with its counts accepts exactly if every reference binds and every kind comes once |
| `Lineage.ReferencesExact` | packages/go/enterprise_execution.go:1053-1084 | One binding reference of each kind is the same as being a permutation of the four references |
| `Lineage.DigestSuffix` | packages/go/enterprise_execution.go:1026-1035 | Gives the digest exactly if the value is the prefix followed by the digits of a digest |
| `Lineage.KindsApart` | packages/go/enterprise_execution.go:30-33 | No reference has two of the four prefixes |
| `SourcePlans.CheckSelections` | packages/go/enterprise_engine.go:691-724 | Accepts exactly if every selection parses, no reference repeats and the mathematical sum of the selected tokens is within the budget; of well-formed input, over budget exactly if that sum exceeds it, in spite of the 64-bit sum |
| `SourcePlans.CheckBindings` | packages/go/enterprise_engine.go:967-1007 | Accepts exactly if the bindings are strictly sorted, as many as the selected entries, and each matches one |
| `ByteOrder.EncodingKeepsOrder` | packages/go/enterprise_engine.go:977-979 | The order of the bytes, in which Go compares strings, is the order by code point |
| `SourcePlans.CheckSourcePlan` | packages/go/enterprise_engine.go:934-1019 | The plan and its bindings together: accepts exactly if the plan is for the requested task, within its budget and the requested one, the bindings match and the digest is theirs; so it selects at most the requested budget, and its selected entries and bindings correspond one to one |
| `SourcePlans.SelectedBound` | packages/go/enterprise_engine.go:981-1007 | The one-way match is two-way: every selected entry has exactly one binding with its reference, provider and digest |
| `SourcePlans.BindingSelected` | packages/go/enterprise_engine.go:981-1007 | Every binding has exactly one selected entry |
| `SourcePlans.CheckScope` | packages/go/enterprise_engine.go:1021-1044 | Accepts exactly if every selection and binding is within the requested sources and every binding is permitted |
| `SourcePlans.SelectedIsPermitted` | packages/go/enterprise_engine.go:1021-1044 | Every selected entry of an accepted plan in scope names requested sources, has a digest, and its binding is permitted |
| `SourcePlans.SourceIDs` | packages/go/enterprise_engine.go:222-263 | Accepts exactly at most 64 UUIDs, none of them nil, that do not repeat in any case, and lowers them |
| `PresentedUse.MatchByDeleting` | packages/go/enterprise_presented_use.go:170-188 | The length check and the loop that deletes on match accept exactly if the listed ids are a permutation of the requested ones |
| `PresentedUse.ListedIDs` | src/leanctx_sdk/presenter.py:195-203 | Accepts exactly the lists of non-empty strings without repetition |
| `PresentedUse.MatchBySets` | src/leanctx_sdk/enterprise_instance.py:938-942 | With that parser before it, the comparison of sets accepts exactly the lists that the Go loop accepts |
| `Distinct.Pigeonhole` | packages/go/enterprise_engine.go:981-1007 | A list without repetition inside one that is no longer covers it |
| `Capabilities.UniqueStrings` | packages/go/agent.go:127-139 | Removes repetitions in place: the kept prefix of the array is the list without elements that equal their predecessor |
| `Capabilities.UniqueOfSorted` | packages/go/agent.go:127-139 | Of a sorted list every element is kept once, strictly sorted |
| `Capabilities.AcceptCapabilities` | packages/go/agent.go:973-1002 | Accepts exactly the one strictly sorted listing of the tools that the permissions admit |
| `WireTranscript.ReadTranscript` | scripts/agent_wire_evidence.py:88-90 | A decoder inverts the framing, for every sequence of records whose lengths fit into eight bytes |
| `WireTranscript.TranscriptDetermines` | scripts/agent_wire_evidence.py:88-90 | The hashed bytes determine the records |
| `WireTranscript.WireRecorder.Record` | scripts/agent_wire_evidence.py:74-92 | The recorder describes, keeps and frames exactly the first 64 records, keeps lines of up to 65536 bytes, and marks an overflow exactly if there were more |
| `WireTranscript.NothingDropped` | scripts/agent_wire_evidence.py:88-110 | Without an overflow the transcript decodes to everything that was recorded |
| `WireTranscript.Pair` | scripts/agent_wire_evidence.py:114-134 | Pairs requests with answers in order, and refuses exactly if there are fewer than two, their numbers differ, a kept line does not parse, or the language tells two kept ids apart |
| `WireTranscript.EveryFrameOnce` | scripts/agent_wire_evidence.py:114-134 | Accepted evidence puts every frame in exactly one exchange, except the acknowledgement, which is in none |

## Left out

- The operating system and the libraries: processes, pipes, files, timers, `ps`, HTTP and TLS are steps, parameters or oracles; `packages/go/process_windows.go` and the Windows branches are not modelled.
- SHA-256, signatures and keys: a hash is a parameter of which only the form of its result is known.
- Time: a deadline is a step that may come at any point; a budget is a number of rounds.
- Codec.PlainValue: works on finite trees and has no reflection over arbitrary Go types; number text that is not valid UTF-8 is not a value of the model.
- PlainGraphs.PlainGraph: gives every slice a backing array of its own; a slice that starts at the same element as one around it has the same address in the code, which then reports a cycle even where there is none.
- Codec.WriteCanonicalString: writes text, not bytes; the buffer is encoded to UTF-8 once at the end, which is the same because everything written to it is valid text.
- Codec.SortCodePoints: the library's sort is an insertion sort with the same comparison, on a list rather than in place.
- Capabilities.AcceptCapabilities: covers the capabilities of a hello, not its version fields and its admitted Engine pairs; the library's sort is an insertion sort.
- ContextSessions.ContextSession.Prepare: the Engine's answer is a parameter; the stored first error, which nothing reads, is left out.
- ContextSessions.ContextSession.PlanLocked: plans, views and receipts are values, so changes that a caller makes through a reference it was given are not captured; the checks of a source are a parameter.
- Lineage.CheckLineage: takes the four digests as given; computing them is left out.
- PythonCleanup.AgentContext.TerminateOnce: closing the pipes is left out, and so is a session whose reader thread could not be started, for which joining it raises; killing through a Popen object looks for an exit first, and an error log counts as closed also when closing it raised, as the library does it.
- WireTranscript.Pair: the checks that the first exchange is a hello and the last one a close are left out.
- AgentSafety.StepKeepsInv: the content of requests and results, the metrics and the stderr collector are left out; writing a request is any number of writes before the flush.
- Parsing of invocations, observations, responses, tool results, gateways, stores and outcomes: mostly one check per field, which would add only easy members.
- Error texts, and the error codes that the one-shot client reads from stderr.
- The Python exchange: its time limits rest on library behaviour.
