# Verified model of the CPK server SDK core

A Dafny 4.11 model of the parts of the control-plane server SDK in which several threads, caller code or untrusted
bytes decide what happens next: the process-local replay coordinator, the optimistic atomic variable, the routes that put
one over the other, the strict reading of credentials, and the installation of the control routes.
`dafny verify dfyconfig.toml` checks everything.

## How it is laid out

**The replay coordinator** (`_replay.py`). `ReplayTable` has the table and a class that updates it in place as the
coordinator does: the prune loop over a copied item list with deferred deletes, the look-up loop, the publication, and
`Execute`, in which whatever other threads do meanwhile is a parameter. Each method is proved equal to a function of the
old table (`Pruned`, `Decide`, `Looked`, `TerminalOf`). `ReplayProtocol` is the concurrent form: any number of calls, on
any number of threads, each with a stack of nested calls, moving one critical section or one unlocked stretch at a time.
A label carries every choice the environment makes (which call moves, each clock reading, how a dispatch ends), so the
statements about label sequences are statements about every scheduling, every clock, and every outcome. It uses the same
functions as the class.

- `ReplayInvariant`: the inductive invariant (size, ownership, no lost wake-up, terminal shapes, answers, stacks).
- `ReplayRefinement`: every run is a run of `IdempotencyTable`, a table with atomic operations, no lock, no waiting and
  no clock; answers are given once, inside the call they answer, and all callers of one incarnation converge.
- `ReplayAtomicity`: each call takes effect at exactly one step of its own, and calls that do not overlap in their order.
- `ReplayCauses`: every ending of a call, exactly, by what it found in the table or its environment did.
- `ReplayHistory`: what runs do to one key: one dispatch per incarnation, and how long a terminal is kept.
- `ReplayProgress`: every run is bounded; with nested keys in increasing order none gets stuck.
- `ReplayDeadlock`: exactly which nested calls can get stuck: those among which threads hold and wait in a ring. The
  increasing order rules a ring out, but is not needed.
- `ReplayForgetting`: two promises the code does not keep, with a run that breaks both and the exact condition of each.
- `ReplaySchedules`: the pieces that particular runs are built from.

**The atomic variable** (`atomic.py`). `VariableCell` is the one-step cell and histories of it, `AtomicVariable` the class
whose `Apply` may be overtaken, `VariableProtocol` the concurrent form: capture, compare outside the lock, revalidate by
identity. Snapshot addresses may be used again once no live reference holds them, so the absence of ABA is proved from
the references calls hold, not assumed. The outcome of comparing a candidate is an oracle of each call.

**The routes** (`_interpret`). `RoutedCommands` runs one coordinator together with any number of variables: a dispatch is
one `apply` on the variable its request names. Each machine's part of a run is a run of that machine, so what is proved
of them alone carries over, the status of each response included. `RoutedProgress` bounds the runs, shows that none gets
stuck and that what the variable answers is what the caller is told, and builds the run in which an undisturbed caller is
told APPLIED. `RoutedForgetting` builds the run in which an applied command is forgotten, dispatched
again and refused.

**The credential front end** (`verification.py`). `Base64Url`, `CompactCredential` and `StructuralJson`. One set of proofs,
for all bounds, covers the command and the surface-read credentials.

**Route installation** (`fastapi.py`). `ControlRoutes`: classification against a matching semantics with arbitrary
captures, installation on a list of route objects, and histories of installs, additions and removals.

## What is assumed

- A result codec is deterministic: it is a pair of functions. That decoding undoes encoding is the predicate
  `RoundTrips`; only the statements that mention it use it.
- Equal idempotency key and digest mean the same request and the same codec. This is the predicate `Coherent`
  (and `Faithful` for the commands behind it); again only the statements that mention it use it.
- A thread identifier belongs to one running thread.
- A dispatch ends: on top of its thread's stack a dispatching call can always take the step that ends it.
- Only a dispatch calls `execute` again; a clock or a codec that did so is not modelled.
- A plain parse of the claims and the parse with the pairs hook see the same tree.

The statements about runs are not vacuous: `ReplayProtocol.InitInv`, `VariableProtocol.InitInv` and
`RoutedCommands.InitInv` start them from every initial state, and `ReplayForgetting.ForgottenAtOnce`,
`ReplayDeadlock.DeadlockExactly`, `ReplayProgress.RunsComplete`, `RoutedProgress.UndisturbedIsApplied` and
`RoutedForgetting.ForgottenAndSentAgain` construct runs.

## Where the code and its documentation differ

`docs/decisions/0011-process-local-node-control-replay.md:16` says that terminal retention cannot begin before
publication. The first pass over a published terminal may use a clock value that was read before the publication
(`_replay.py:177`), so it can. `ReplayForgetting.ForgottenAtOnce` is a run, with clock readings that never go back, in
which every reading precedes the publication and the second pass after it removes the result.
`ReplayForgetting.RetainedFromPublication` gives the exact condition, which can be checked when the result is published:
the window counted from there is kept unless some call has read its clock earlier and is still to take the lock. What
always holds is the bound from the completion sample (`ReplayHistory.KeptFromCompletion`), which the same paragraph also
states.

The same document says (line 12) that callers with the same key and digest converge on one dispatch. A waiter whose entry
was published and removed before it looks again may dispatch, as the same run shows.
`ReplayForgetting.WaiterSharesExactly` says, by the clock values of the passes since the publication, when it shares the
answer; and `RoutedCommands.RedispatchIsRejected` that a second dispatch of an applied command is told that its
precondition failed.

## Model

| member | source | states |
|---|---|---|
| ReplayCodec.StoredExactly | src/control_plane_kit_server_sdk/_replay.py:100-140 | With a codec that decodes what it encodes, the results that can be stored are exactly those that encode to 1 to 16384 bytes and are a success for this request, with either evidence, or a rejection or failure of APPLY for it; each is stored as its encoding and comes back unchanged. |
| ReplayCodec.PreparedExactly | src/control_plane_kit_server_sdk/_replay.py:293-307 | A call is prepared exactly if the closed APPLY failure of its own request can be stored, and that is its fallback. |
| ReplayCodec.PreparedAlwaysDecodes | src/control_plane_kit_server_sdk/_replay.py:348-367 | Whatever bytes are in the table, a call that got past its preparation has a result for its own request. |
| ReplayTable.ReplayCoordinator.Create | src/control_plane_kit_server_sdk/_replay.py:148-163 | A coordinator is made exactly for capacities 1 to 4096, with an empty table. |
| ReplayTable.ReplayCoordinator.Prune | src/control_plane_kit_server_sdk/_replay.py:321-345 | The in-place loop with deferred deletes, over any order of the items, computes one pointwise function of the table. |
| ReplayTable.ReplayCoordinator.DeleteAll | src/control_plane_kit_server_sdk/_replay.py:344-345 | The deferred deletes remove the collected keys and nothing else. |
| ReplayTable.PruneIsIdempotent | src/control_plane_kit_server_sdk/_replay.py:321-345 | A second pass at the same clock value changes nothing; no pass touches a reservation or removes a terminal it is the first to see. |
| ReplayTable.PrunedSize | src/control_plane_kit_server_sdk/_replay.py:185-192 | Pruning never grows the table, so the capacity test that follows it keeps the bound. |
| ReplayTable.ReplayCoordinator.Look | src/control_plane_kit_server_sdk/_replay.py:187-201 | One turn of the loop: the decision and the new table are the specified ones, and the capacity bound is kept. |
| ReplayTable.FirstTurn | src/control_plane_kit_server_sdk/_replay.py:186-201 | The turn at which a call gets its way is the first one whose table does not make it wait. |
| ReplayTable.ReplayCoordinator.TakeTurn | src/control_plane_kit_server_sdk/_replay.py:184-201 | The loop stops at the first table that does not make it wait, and leaves every table before it as it was. |
| ReplayTable.ReplayCoordinator.Publish | src/control_plane_kit_server_sdk/_replay.py:243-264 | Publishes exactly if the caller's own reservation is in place; otherwise the table is unchanged. |
| ReplayTable.ReplayCoordinator.Execute | src/control_plane_kit_server_sdk/_replay.py:165-273 | The outcome, whether it dispatched and the table it leaves, for every clock, dispatch outcome and interference. |
| ReplayInvariant.NextInv | src/control_plane_kit_server_sdk/_replay.py:165-273 | Every step of every call keeps the whole invariant. |
| ReplayInvariant.RunInv | src/control_plane_kit_server_sdk/_replay.py:165-273 | Every reachable state satisfies it: size within capacity, one owner a reservation, terminals in one of three shapes, no lost wake-up. |
| ReplayRefinement.StepRefines | src/control_plane_kit_server_sdk/_replay.py:165-273 | Each step is the atomic operations it stands for: forgetting the expired keys, asking, settling, or nothing. |
| ReplayRefinement.RunRefines | src/control_plane_kit_server_sdk/_replay.py:165-273 | Every interleaved run is a run of the atomic idempotency table. |
| ReplayRefinement.OpsAreOwn | src/control_plane_kit_server_sdk/_replay.py:184-201 | A call's operation happens in a step of that call, between its start and its end, and before it has any answer. |
| IdempotencyTable.AnswersAreFinal | src/control_plane_kit_server_sdk/_replay.py:186-209 | A call is answered once, and its answer never changes. |
| ReplayRefinement.OutcomeIsAnswer | src/control_plane_kit_server_sdk/_replay.py:189-209 | A finished call reports exactly the table's answer; the "reservation was lost" branch is never reached. |
| ReplayRefinement.GivenBytesDecode | src/control_plane_kit_server_sdk/_replay.py:347-367 | A caller given bytes returns what they decode to; the decode fallback is never taken. |
| ReplayRefinement.Converge | src/control_plane_kit_server_sdk/_replay.py:196-273 | All callers answered from one incarnation, the owner included, return the same result from the same bytes. |
| ReplayAtomicity.StepAnswers | src/control_plane_kit_server_sdk/_replay.py:184-264 | A step of any call keeps every answer and gives one only to the call that moves, while it is active and by an operation of its own in that step. |
| ReplayAtomicity.TakesEffectOnce | src/control_plane_kit_server_sdk/_replay.py:165-273 | In every run from the start each answered call has exactly one step, its own and between its start and its end, before which it has no answer and after which always the same one; and it reports that answer when it finishes. |
| ReplayAtomicity.EffectsKeepRealTime | src/control_plane_kit_server_sdk/_replay.py:165-273 | A call that finished before another began takes effect before it. |
| ReplayCauses.StepDecides | src/control_plane_kit_server_sdk/_replay.py:165-273 | A step brings a call to one of six endings exactly if it is a step of that call that finds the table so, or has its environment do so. |
| ReplayCauses.EndsForACause | src/control_plane_kit_server_sdk/_replay.py:165-273 | In every run from the start a call is refused for another digest, for want of room, for its own re-entry or as a bad call, raises after process control, or is given bytes, exactly if some step of the run is the cause of that. |
| ReplayHistory.StepEntry | src/control_plane_kit_server_sdk/_replay.py:184-264 | The complete effect of any step on any key. |
| ReplayHistory.ReservationIsStable | src/control_plane_kit_server_sdk/_replay.py:187-264 | Nothing changes or removes a reservation but its own owner's publication, and that turns it terminal. |
| ReplayHistory.ReservationHasOneFrame | src/control_plane_kit_server_sdk/_replay.py:187-250 | Each reservation belongs to exactly one active call frame, with its key, digest and thread. |
| ReplayHistory.NoLostWakeUp | src/control_plane_kit_server_sdk/_replay.py:184-264 | In every reachable state a waiting, un-notified call waits for a reservation of its own key and digest on another thread, whose owner is still to publish. |
| ReplayHistory.OneDispatchPerIncarnation | src/control_plane_kit_server_sdk/_replay.py:187-215 | Over any run, presence of the key and dispatches on one side equal presence and removals on the other. |
| ReplayHistory.DispatchesBoundedByRemovals | src/control_plane_kit_server_sdk/_replay.py:187-215 | From the empty table, dispatches for a key are its removals, plus one exactly if the key is there. |
| ReplayHistory.IncarnationIsFixed | src/control_plane_kit_server_sdk/_replay.py:194-264 | Until it is removed a key keeps its digest, its owner and, once published, its bytes. |
| ReplayHistory.ReentryIsNested | src/control_plane_kit_server_sdk/_replay.py:199-200 | A call is refused as re-entry if and only if a frame below it on its own thread is dispatching the same key and digest. |
| ReplayHistory.AnchoredRetention | src/control_plane_kit_server_sdk/_replay.py:338-345 | An anchored terminal stays unchanged exactly until a pass at or beyond its anchor plus the window. |
| ReplayHistory.PendingRetention | src/control_plane_kit_server_sdk/_replay.py:326-345 | A fresh terminal survives its first pass, which anchors it at the later of its completion sample and that pass's clock value; then as above. |
| ReplayHistory.NeverRemovedEarly | src/control_plane_kit_server_sdk/_replay.py:227-345 | However the clock moves, nothing is removed before its completion sample plus the window. |
| ReplayHistory.UnprunableForever | src/control_plane_kit_server_sdk/_replay.py:326-345 | An unprunable terminal is never removed or changed in any continuation. |
| ReplayHistory.OwnerPublishes | src/control_plane_kit_server_sdk/_replay.py:211-263 | With any steps of other calls between the end of the dispatch, the completion sample and the publication: unprunable exactly after process control or an invalid completion clock, and then the closed failure; otherwise the dispatch's bytes, pending from the completion sample. |
| ReplayHistory.KeptFromCompletion | src/control_plane_kit_server_sdk/_replay.py:227-345 | In every such run a result completed at n is kept by every later pass less than the window past n, however the clock moves. |
| ReplayForgetting.SameIncarnation | src/control_plane_kit_server_sdk/_replay.py:187-192 | After any run the entry is the one the same call made if and only if no pass removed it. |
| ReplayForgetting.WaiterSharesExactly | src/control_plane_kit_server_sdk/_replay.py:186-201 | A waiter that looks again after the publication finds what was published if and only if that is unprunable, or no pass came since, or no later pass reached the window past the anchor set by the first; it dispatches if and only if the key was removed once more than dispatched since, and there is room. |
| ReplayForgetting.RetainedFromPublication | docs/decisions/0011-process-local-node-control-replay.md:16-20 | In the state after a publication, every run that reads the clock from the publication on keeps the result for the whole window if and only if no call stands before the lock with an earlier reading, with the completion sample earlier too and the clock able to reach the end of the window. |
| ReplayForgetting.ForgottenAtOnce | docs/decisions/0011-process-local-node-control-replay.md:12-20 | A run with never-decreasing readings, all before the publication, in which the result is removed by the second pass after it and the woken waiter dispatches again. |
| ReplayProgress.StepDecreases | src/control_plane_kit_server_sdk/_replay.py:186-264 | Every step lowers one measure of the calls' phases, although a publication wakes every waiter. |
| ReplayProgress.RunsAreBounded | src/control_plane_kit_server_sdk/_replay.py:165-273 | n calls take at most n(n + 11) steps between them, whatever the schedule and the keys. |
| ReplayProgress.SomeoneMoves | src/control_plane_kit_server_sdk/_replay.py:186-264 | If nested calls take keys in increasing order, then while a call is running some running call can step. |
| ReplayProgress.StuckMeansQuiet | src/control_plane_kit_server_sdk/_replay.py:186-264 | Under that order a state without steps has no running call and every top-level call finished. |
| ReplayProgress.RunsComplete | src/control_plane_kit_server_sdk/_replay.py:165-273 | Under that order every reachable state leads to such a state. |
| ReplayDeadlock.DeadlockExactly | src/control_plane_kit_server_sdk/_replay.py:186-201 | From the empty table some run gets stuck with a call running if and only if there are two or more chains of nested calls, on as many threads, that hold different keys within the capacity, each asking last for a key and digest that the next holds. |
| ReplayDeadlock.OrderedHasNoRing | src/control_plane_kit_server_sdk/_replay.py:186-201 | Calls whose nested keys increase have no such chains. |
| VariableCell.VersionCountsApplied | src/control_plane_kit_server_sdk/atomic.py:183-202 | The version is the initial one plus the applied commands, and never exceeds 2^53 - 1. |
| VariableCell.AppliedMeans | src/control_plane_kit_server_sdk/atomic.py:188-202 | An applied command took the cell from its expected version to the next and put its candidate there. |
| VariableCell.AppliedVersionsConsecutive | src/control_plane_kit_server_sdk/atomic.py:189-202 | Applied versions are consecutive. |
| VariableCell.AppliedVersionsDistinct | src/control_plane_kit_server_sdk/atomic.py:189-202 | Applied versions increase strictly along the history. |
| VariableCell.VersionHasOneAuthor | src/control_plane_kit_server_sdk/atomic.py:189-202 | At most one command was ever told a given version is its own. |
| VariableCell.StateHasAuthor | src/control_plane_kit_server_sdk/atomic.py:189-202 | A state past the initial version is the candidate of the unique command that was told this version. |
| VariableCell.NoSecondApply | src/control_plane_kit_server_sdk/atomic.py:154-164 | After an applied command every later one that expects the same version fails its precondition and changes nothing. |
| VariableCell.EveryOperationIsTold | src/control_plane_kit_server_sdk/atomic.py:85-211 | In a history a valid read is told the initial version plus the commands applied before it, and the initial state or the candidate of the one command told that version; and of a command exactly when it is invalid, late, without change, applied, failed (an equality that raises, or the maximum version) or interrupted. |
| AtomicVariable.Variable.Create | src/control_plane_kit_server_sdk/atomic.py:69-80 | A variable is made exactly for initial versions 0 to 2^53 - 1. |
| AtomicVariable.Variable.Read | src/control_plane_kit_server_sdk/atomic.py:85-111 | A valid read returns the version and the state of the one captured snapshot, and an invalid one fails; both as the cell does. |
| AtomicVariable.Variable.Revalidate | src/control_plane_kit_server_sdk/atomic.py:199-202 | Publishes exactly if the field still holds the captured object. |
| AtomicVariable.Variable.Apply | src/control_plane_kit_server_sdk/atomic.py:113-211 | Left alone it is the cell's own step. Overtaken by any number of publications, it changes nothing and answers as the cell would on the newest snapshot, unless it was already invalid or stale at the capture or its comparison raises. |
| VariableProtocol.RevalidationIsThePrecondition | src/control_plane_kit_server_sdk/atomic.py:199-210 | No ABA: the identity test fails exactly if the precondition is stale at this instant. |
| VariableProtocol.NextInv | src/control_plane_kit_server_sdk/atomic.py:113-211 | Every step keeps the invariant, reused addresses included. |
| VariableProtocol.RunInv | src/control_plane_kit_server_sdk/atomic.py:113-211 | Every reachable state satisfies it, and histories only grow. |
| VariableProtocol.Linearizable | src/control_plane_kit_server_sdk/atomic.py:85-211 | Every run has a legal sequential history of the cell that ends in the current snapshot, consists of operations of calls that were made, each once, with its own command and the response it returns, and has every returned call. |
| VariableProtocol.EveryCallIsTold | src/control_plane_kit_server_sdk/atomic.py:85-211 | In every run each call that has returned has a place in the history and was told exactly what the operations before it left. |
| VariableProtocol.RealTimeOrder | src/control_plane_kit_server_sdk/atomic.py:85-211 | A call that returned before another was made comes before it in that history. |
| VariableProtocol.LaterReadsNeverGoBack | src/control_plane_kit_server_sdk/atomic.py:104-111 | Of two reads that do not overlap the later never shows an earlier version, and equal versions show equal states. |
| RoutedCommands.RunInv | src/control_plane_kit_server_sdk/_fastapi_variable_routes.py:189-204 | The coordinator and every variable keep their invariants when they run together, and published bytes come from the one dispatch of their call. |
| RoutedCommands.CoordinatorRuns | src/control_plane_kit_server_sdk/_fastapi_variable_routes.py:189-204 | The coordinator's part of a run of the routes is a run of the coordinator, ending in the same state. |
| RoutedCommands.VariableRuns | src/control_plane_kit_server_sdk/_fastapi_variable_routes.py:189-204 | Each variable's part of a run of the routes is a run of that variable, ending in the same state. |
| RoutedCommands.GenuineResult | src/control_plane_kit_server_sdk/_fastapi_variable_routes.py:194-198 | Published bytes decode to the closed failure or to the dispatch's own result. |
| RoutedCommands.ResponseIsGenuine | src/control_plane_kit_server_sdk/_fastapi_variable_routes.py:189-211 | A result sent with status 200 is the closed failure, or what the variable answered to the one dispatch for the caller's own command. |
| RoutedCommands.StatusExactly | src/control_plane_kit_server_sdk/_fastapi_variable_routes.py:183-211 | In every run from the start a finished call gets 409 exactly if it found its key with another digest, 503 exactly if it found its key absent and the table full, no response exactly after process control, 200 exactly if it was given bytes, and 500 exactly for its own re-entry or a bad call. |
| RoutedCommands.AppliedHappenedOnce | src/control_plane_kit_server_sdk/_fastapi_variable_routes.py:194-204 | A caller told APPLIED can rely on it: the history has exactly one operation applied at that version, with the caller's expected version and candidate. |
| RoutedCommands.NoDoubleApply | src/control_plane_kit_server_sdk/_fastapi_variable_routes.py:194-198 | Of two dispatches to one variable expecting the same version at most one is applied, and one that takes effect after it fails its precondition and leaves the state alone. |
| RoutedCommands.LaterApplyFails | src/control_plane_kit_server_sdk/_fastapi_variable_routes.py:194-198 | After an applied dispatch, one that has not reached the variable and expects the same version is told PRECONDITION_FAILED in every run in which it ends, and leaves the state alone. |
| RoutedCommands.SentAgainFails | src/control_plane_kit_server_sdk/_fastapi_variable_routes.py:194-198 | The same for a request with the key and digest of an applied one, whatever the table holds by then. |
| RoutedCommands.RedispatchIsRejected | src/control_plane_kit_server_sdk/_fastapi_variable_routes.py:194-198 | If a command already applied is dispatched again, then its entry was removed in between, and the second dispatch is told PRECONDITION_FAILED and leaves the state alone. |
| RoutedCommands.AppliedAtMostOnce | src/control_plane_kit_server_sdk/_fastapi_variable_routes.py:189-204 | In every run, through retries, concurrency and replay evictions, at most one dispatch to a variable for each expected version is applied. |
| RoutedProgress.RunsAreBounded | src/control_plane_kit_server_sdk/_fastapi_variable_routes.py:189-204 | n routed calls and m calls on the variables take at most n(n + 11) + 5m steps between them. |
| RoutedProgress.StuckMeansAnswered | src/control_plane_kit_server_sdk/_fastapi_variable_routes.py:189-211 | With rising nested keys a run that can go no further has finished every top-level routed call and left none running. |
| RoutedProgress.RunsComplete | src/control_plane_kit_server_sdk/_fastapi_variable_routes.py:189-211 | Under that order every reachable state leads to such a state. |
| RoutedProgress.AnswerIsReported | src/control_plane_kit_server_sdk/_fastapi_variable_routes.py:194-204 | Whatever the variable answers to a dispatch (a success with either evidence, a rejection for either reason, a failure), a call that holds its reservation can run to where its caller is told just that and it is stored; needed are only a codec that round-trips and an encoding of 1 to 16384 bytes. |
| RoutedProgress.NothingElseIsReported | src/control_plane_kit_server_sdk/_replay.py:211-273 | And in every run, whatever other calls do: if the completion clock gives an integer in range, the caller is told what the variable answered and nothing else. |
| RoutedProgress.UndisturbedIsApplied | src/control_plane_kit_server_sdk/_fastapi_variable_routes.py:189-204 | From any state, a request that finds its key free and expects the current version can run, no other call moving, to where its caller is told APPLIED at the next version and that result is stored for its key. |
| RoutedForgetting.ForgottenAndSentAgain | src/control_plane_kit_server_sdk/_fastapi_variable_routes.py:189-204 | One request sent three times can be applied, then answered from the table, then, a window later, forgotten, dispatched again and told PRECONDITION_FAILED without effect; the state between meets every premise of `RedispatchIsRejected`. |
| Base64Url.StrippedIsEncode | src/control_plane_kit_server_sdk/verification.py:460 | Padded encoding with its padding stripped is the canonical spelling. |
| Base64Url.SpellsTheSameBits | src/control_plane_kit_server_sdk/verification.py:455-460 | The canonical spelling is the one string whose characters, by their places in the alphabet of RFC 4648 section 5, write in base 64 the number the bytes are in base 256, with four or two zero bits after it where the length leaves one or two over a multiple of three. |
| Base64Url.DecodeUndoesEncode | src/control_plane_kit_server_sdk/verification.py:455-459 | Decoding the spelling of any byte string gives it back. |
| Base64Url.SegmentDecodesExactly | src/control_plane_kit_server_sdk/verification.py:449-462 | A segment decodes to a byte string if and only if that is not empty and the segment fits the bound and writes its bits, by the places of its characters in that alphabet. |
| Base64Url.ReencodesIffNoStrayBits | src/control_plane_kit_server_sdk/verification.py:455-461 | The re-encoding test passes exactly if the bits left over at the end are zero. |
| Base64Url.SegmentAccepted | src/control_plane_kit_server_sdk/verification.py:449-462 | Acceptance read off the segment: bound, alphabet, length not 1 modulo 4, and zeros in the bits of the last place that no byte uses. |
| CompactCredential.SplitInThree | src/control_plane_kit_server_sdk/verification.py:440-442 | Splitting gives three pieces if and only if the credential is those pieces, free of dots, joined by dots. |
| CompactCredential.DecodeCompact | src/control_plane_kit_server_sdk/verification.py:436-463 | The loop that stops at the first refused segment computes the specified decoding, for any bounds. |
| CompactCredential.CompactDecodesExactly | src/control_plane_kit_server_sdk/verification.py:436-463 | A credential decodes to a triple if and only if it is the spelling of that triple and the triple fits: a bijection. |
| CompactCredential.DecodingIsInjective | src/control_plane_kit_server_sdk/verification.py:466-493 | No other credential decodes as an accepted one does; holds for the bounds of surface-read credentials as for the others. |
| CompactCredential.TotalBindsExactly | src/control_plane_kit_server_sdk/verification.py:436-463 | The bound on the whole credential refuses one whose segments all fit if and only if the longest spellings of the three segments and two dots are longer than it, no spelling being of length 1 modulo 4. |
| CompactCredential.OnlySurfaceTotalBinds | src/control_plane_kit_server_sdk/verification.py:41-49 | So the total of 12288 bytes decides nothing for command credentials, and the total of 4096 does for surface-read ones. |
| StructuralJson.Walker.Walk | src/control_plane_kit_server_sdk/verification.py:510-538 | The recursive walk with its shared counter computes the specified walk and leaves the counter where that says. |
| StructuralJson.Walker.WalkMembers | src/control_plane_kit_server_sdk/verification.py:520-533 | Members are walked in order, each with the count its elder siblings left, and put into a dictionary. |
| StructuralJson.Walker.WalkItems | src/control_plane_kit_server_sdk/verification.py:534-535 | The same for lists. |
| StructuralJson.WalkStructuralJson | src/control_plane_kit_server_sdk/verification.py:507-540 | A walk of a whole tree starts at depth zero with nothing counted. |
| StructuralJson.WalkedExactly | src/control_plane_kit_server_sdk/verification.py:510-538 | From any count and depth, a walk succeeds if and only if the tree is closed and within both limits, then counts each member once and returns the ordinary parse. |
| StructuralJson.StructuralExactly | src/control_plane_kit_server_sdk/verification.py:507-540 | Accepted are exactly the trees at most 16 deep, with at most 64 members in all, no repeated or non-text key, and only JSON values. |
| StructuralJson.AdmittedExactly | src/control_plane_kit_server_sdk/verification.py:507-540 | The same node by node: no path leads more than 16 steps down, every node it leads to is a JSON value with text keys and, as parsed, no key twice, and there are at most 64 members in all. |
| StructuralJson.TotalByNodes | src/control_plane_kit_server_sdk/verification.py:514-527 | Every object counts its own members, and every node what its children count. |
| StructuralJson.ResultIsTheTree | src/control_plane_kit_server_sdk/verification.py:510-538 | What an accepted walk returns has the same names in the same order, the same items and the same leaves as what it was given. |
| StructuralJson.LastWins | src/control_plane_kit_server_sdk/verification.py:220-234 | The dictionary an ordinary parse builds holds, for each name, the last member with it. |
| StructuralJson.MaterialisedShape | src/control_plane_kit_server_sdk/verification.py:235-236 | Without repetitions, materialising a tree keeps its depth and its count, and doing it again changes nothing. |
| StructuralJson.ClaimsAreThePayload | src/control_plane_kit_server_sdk/verification.py:218-236 | If the inspection passed, the claims walked after the signature check pass too and are exactly the payload inspected before. |
| StructuralJson.OrdinaryParseHidesRepetition | src/control_plane_kit_server_sdk/verification.py:496-518 | The walk of the claims alone would not do: a repeated name is refused by the first and invisible to the second. |
| ControlRoutes.FirstSegmentIsKept | src/control_plane_kit_server_sdk/fastapi.py:40-48 | Every path that a template with a literal first segment matches has that first segment, whatever its captures accept. |
| ControlRoutes.DisjointTakesNoControlPath | src/control_plane_kit_server_sdk/fastapi.py:51-61 | A route classified as disjoint takes no path whose first segment is `__control`, mounts included. |
| ControlRoutes.DisjointExactly | src/control_plane_kit_server_sdk/fastapi.py:40-61 | Disjoint are exactly the routes and mounts whose path is a slash, a first segment without braces other than `__control` (and not empty, for a mount), and then nothing or a slash and anything, captures included. |
| ControlRoutes.LiteralRoutesAreClassifiedExactly | src/control_plane_kit_server_sdk/fastapi.py:40-58 | For routes and mounts without a brace up to the second slash, whatever captures follow, if captures accept every text: those that take some control path are exactly the refused ones, except those refused for the form of their path alone. |
| ControlRoutes.CapturedFirstSegmentTakesControl | src/control_plane_kit_server_sdk/fastapi.py:46-47 | A route or mount whose first segment starts with a capture is refused, and does take a control path if its captures accept every text. |
| ControlRoutes.BuildMarked | src/control_plane_kit_server_sdk/fastapi.py:128-129 | The marking loop marks each new route and changes nothing else. |
| ControlRoutes.VerdictExactly | src/control_plane_kit_server_sdk/fastapi.py:75-130 | An attempt succeeds exactly with valid arguments, every prior route unmarked and outside the control segment, and four built routes with the canonical names, verbs and paths; which failure is reported otherwise. |
| ControlRoutes.App.Prepare | src/control_plane_kit_server_sdk/fastapi.py:75-130 | Which of the four outcomes, in the order of the tests, with no change to the application or its routes. |
| ControlRoutes.App.Install | src/control_plane_kit_server_sdk/fastapi.py:133-169 | A failed install leaves the very list; a successful one appends four new marked routes to it, and no route that was there changes. |
| ControlRoutes.AttemptCounts | src/control_plane_kit_server_sdk/fastapi.py:99-106 | An attempt succeeds only where no marked route is left and then leaves exactly four; any retained marked route is reported. |
| ControlRoutes.NeverTwoFamilies | docs/decisions/0014-atomic-fastapi-control-route-installation.md:52-54 | Over any history of attempts, additions and removals there are at most four marked routes, or those of the start, and those the host itself put back. |
| ControlRoutes.PuttingBackAdds | src/control_plane_kit_server_sdk/fastapi.py:99-104 | That bound is reached: marked routes put back after an installation stay beside the four installed. |
| ControlRoutes.ControlPathsReachControlRoutes | docs/decisions/0014-atomic-fastapi-control-route-installation.md:48-54 | While the host adds only routes of its own and only at the end, the first route that takes a path of an installed control route is a marked one. |
| ControlRoutes.InsertedInFrontMayShadow | src/control_plane_kit_server_sdk/fastapi.py:99-106 | A host route put in front afterwards can take a control path, so the restriction is needed. |

## Left out

- Interrupts between arbitrary bytecodes, such as a signal between reserving and dispatching, and a process-control
  exception raised while a call prepares its digest and fallback: steps are whole critical sections and whole unlocked
  stretches.
- ReplayTable.ReplayCoordinator.Execute: waits and the time outside the lock are parameters of this sequential form
  (`wakes`, `meanwhile`); the concurrent form is `ReplayProtocol`.
- Waking without a notification, and a thread identifier used again after its thread has ended.
- Type guards, the wrong-operation guard of `_prepare`, redaction of representations and of exception chains: of a
  request that fails its guards only the refusal is modelled (`valid`, `argumentsValid`, a fallback that is `None`).
- The bodies of the core package (codecs, canonical digest, grant verification), signature verification, PEM parsing,
  JSON and UTF-8 decoding of bytes: functions or inputs here.
- `_compact_result`: its re-encoding with ASCII escapes and its failure are not part of the status a routed call gets.
- The surface-read routes and verifier: their framing is covered by the bounds parameter, the rest repeats the command
  path.
- Header, payload and grant profiles, congruence with the grant, key selection, and the ordering and uniqueness of key
  sets: conjunctions and a sort that a reader can check.
- `_credential`, `_body`, `_build_variable_registry`, response building and the thread-pool hand-off.
- ControlRoutes.DisjointTakesNoControlPath: a request is its path; methods, root paths, redirects of trailing slashes and
  a newline that a regular expression may leave unmatched at the end are not modelled.
- Building the four routes: what was built, or that building failed, is an input of an installation attempt.
