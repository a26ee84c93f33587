# ModKit verification model

A Dafny model of the self-contained cores of ModKit, a Rust module framework, with machine-checked proofs of what they
promise. `dafny verify dfyconfig.toml` checks the whole project.

| part | files | what is modelled |
|---|---|---|
| Module registry | `Graphs`, `CycleSearch`, `KahnSort`, `Registry`, `SystemPriority` | the registration builder, the three-colour search for a cycle, Kahn's sort over an in-degree array and a queue, entry assembly, system-first reordering |
| Lifecycle controller | `Lifecycle`, `LifecyclePhased`, `LifecycleReady`, `LifecycleRuns`, `LifecycleLimits`, `LifecycleUnseen`, `LifecycleAnswers` | start, stop, the background task and the ready watcher as one step relation; a step is one atomic load, store, compare-and-swap, take, spawn or join |
| OData core | `Decimals`, `FilterNormalForm`, `Strings`, `OrderBy`, `RowOrder`, `Base64Url`, `Cursor` | the filter text that is hashed, signed order tokens, orders as row comparators, cursor tokens and their validation |
| Advisory locks and retries | `FileLocks`, `LockRetry`, `RpcRetry` | file locks as a step relation over atomic create-new, the backoff loop of `try_lock`, the retry loop of gRPC calls |
| Configuration | `EnvExpansion`, `JsonMerge`, `HandleCache` | `${NAME}` expansion by repeated replacement, the recursive JSON overlay, the handle cache under concurrent `get` |
| String derivations | `GtsCodes`, `PathSyntax` | GTS code validation, accessor names, route path syntax |
| Shared | `Seqs` | options, duplicate-free lists, hash-table iteration order |

Conventions. The iteration order of a hash table is an arbitrary enumeration of its keys (`Seqs.SomeOrder`), so every
result holds for every order. Strings are sequences of characters. A concurrent protocol is a function `Next` on states
with a predicate `Enabled`; a run is a list of steps, `Legal` says that each step was possible and permitted, and `Exec`
gives the state reached. Theorems about a protocol quantify over all legal runs. Library behaviour that is not visible
in the repository enters as a parameter: the printing of library values, lower-casing, the JSON codec, hash functions,
the Unicode alphanumeric test, the multiplication of durations, and the outcome of each attempt of a retry loop.

The lifecycle theorems hold for phased runs: a start is called when every call has returned, a stop when no start is in
flight, any number of stops may overlap, and the number of epochs is not bounded. One start followed by concurrent stops
is such a run, and so is everything a serial controller does (`Lifecycle.SerialIsPhased`). What each premise is for:

- Stops wait for the start: with that, once a stop was called and every call has returned, the task is over
  (`LifecyclePhased.StopsReturnedMeansStopped`). In every reachable state where a start is past its
  compare-and-swap and its task is not over, a stop called at once can return with the task left alive
  (`LifecycleLimits.OverlappingStopIsLost`).
- Starts wait for the stops: with that, at most one task is live (`LifecyclePhased.OneLiveTask`). From every state with a
  live task and no start in flight, overlapping stops alone lead to a state where a start that does not wait makes a
  second live task (`LifecycleLimits.OverlappingStopsAllowTwoTasks`).
- Ready mode after a restart: Running means that the current task has notified if no earlier ready watcher can still fire
  when the start wins (`LifecycleReady.SettledRunningNeedsNotify`), and from every state where one can, the start can
  return Running with nobody notified (`LifecycleLimits.PendingWatcherMarksNextEpochRunning`). The ready signal may
  outlive the body it was passed to. A controller cannot see watchers; it is enough that it has read Running in each
  earlier ready-mode epoch before it starts the next one (`LifecycleReady.ObservedRunningNeedsNotify`), and no weaker
  rule about what it has done and read will do: if one such epoch was never seen Running, some run with the same calls
  and the same readings goes wrong (`LifecycleUnseen.UnseenEpochCanGoWrong`).

Other promises hold under a condition that is proved to be exact:

- Cutting the backoff of `try_lock` off at each step is cutting it off once if and only if the first backoff is within
  the cap (`LockRetry.BackoffClosedFormIff`); then it is the capped exponential up to the accumulated rounding to whole
  nanoseconds (`LockRetry.BackoffNearExponential`).
- Some backoff of `try_lock` is zero if and only if the first backoff or the cap is zero, or the multiplier is below one
  half, or is one half and half a nanosecond is rounded down (`LockRetry.BackoffVanishesIff`). Without a time limit the
  call on a busy lock gives up at that point, unless a product overflows before it, and otherwise only for used-up
  attempts (`LockRetry.UnlimitedGivesUpIff`).
- Environment expansion is simultaneous substitution for all templates over some variables if and only if no value of
  theirs contains a reference to one of them or ends in the beginning of one, unless that variable stands for its own
  reference (`EnvExpansion.ExpansionIsSubstitutionIff`).
- The filter text is faithful on all filters written with some characters if and only if strings and identifiers have no
  closing parenthesis and function names do not have it together with a comma, other values having none anyway
  (`FilterNormalForm.FaithfulIffSafe`).
- The JSON overlay is associative if and only if no path holds an object, then a non-object, then an object that does
  not cover the first (`JsonMerge.MergeAssociativeIff`).
- System-first order respects dependencies if and only if system modules depend only on system modules
  (`SystemPriority.SystemPriorityDependencyOrder`).
- A text parses as an order if and only if some segment names a field and none is a lone sign (`OrderBy.ParsesIff`).

Where code and documentation disagree, the model follows the code:

- `try_lock` is documented to return no guard on a time-out or when the attempts are used up. Without a time limit it
  also gives up as soon as the backoff is zero, which a multiplier below one half brings about from any first backoff
  (`LockRetry.QuarteringGivesUp`); if the backoff lasts, only used-up attempts end the call without a guard
  (`LockRetry.UnlimitedGivesUpForAttempts`).
- The backoff of `call_with_retry` is called exponential; it grows linearly with the attempt number.
- `validate_gts_format` offers versions `vN` and `vN.M`; a minor version is always refused, because segments are split
  at dots first (`GtsCodes.MinorVersionRefused`).
- `start_core` is documented to switch to Running after the spawn; without ready mode it does so before it
  (`LifecyclePhased.RunningBeforeSpawn`).
- `equals_signed_tokens` skips a lone sign that `from_signed_tokens` rejects, and lets the empty order equal a blank text
  (`OrderBy.EqualsWithoutParsingIff`).

## Model

| member | source | states |
|---|---|---|
| `CycleSearch.Search.constructor` | libs/modkit/src/registry.rs:269-270 | the search starts with every node white and an empty path |
| `CycleSearch.Search.Position` | libs/modkit/src/registry.rs:244 | finds a node on the current path, or shows that it is not there |
| `CycleSearch.Search.CloseCycle` | libs/modkit/src/registry.rs:245-250 | the rest of the path, closed by the back edge, is a simple cycle of the graph written with module names |
| `CycleSearch.Search.Enter` | libs/modkit/src/registry.rs:236-237 | keeps the invariant that the gray nodes are exactly the current path and that the path is a walk without repetition |
| `CycleSearch.Search.Leave` | libs/modkit/src/registry.rs:264-265 | keeps the invariant; a node turns black only when all its neighbours are black, which yields the finishing times that rule out cycles |
| `CycleSearch.Search.Dfs` | libs/modkit/src/registry.rs:229-267 | either a genuine cycle is returned, or the path is restored, the node is finished and no visited node changes colour |
| `CycleSearch.DetectCycle` | libs/modkit/src/registry.rs:218-281 | sound and complete: a reported path is a simple cycle, None is returned if and only if the graph is acyclic, and then a ranking of the nodes exists |
| `Graphs.RankedIsAcyclic` | libs/modkit/src/registry.rs:218-281 | a ranking that falls along every edge excludes every closed walk |
| `KahnSort.InDegrees` | libs/modkit/src/registry.rs:432-437 | the table counts incoming edges with multiplicity, so duplicate dependencies count twice |
| `KahnSort.Sources` | libs/modkit/src/registry.rs:439-444 | exactly the nodes with count zero are queued, each once |
| `KahnSort.Relax` | libs/modkit/src/registry.rs:449-454 | removing a node's edges never underflows a count, keeps the counts equal to the pending edges and queues each node exactly when its count reaches zero |
| `KahnSort.EveryNodeComesOut` | libs/modkit/src/registry.rs:446-455 | if a ranking exists, an empty queue means that all nodes have been emitted |
| `KahnSort.RankFromOrder` | libs/modkit/src/registry.rs:446-455 | conversely a complete order gives a ranking |
| `KahnSort.Sort` | libs/modkit/src/registry.rs:431-455 | the order has no repetition, every predecessor stands strictly first, and its length is the number of nodes if and only if a ranking exists |
| `Registry.RegistryBuilder.constructor` | libs/modkit/src/registry.rs:119-131 | a new builder is empty |
| `Registry.RegistryBuilder.RegisterCore` | libs/modkit/src/registry.rs:141-154 | a known name is recorded as an error and nothing else changes; a new one is added to both tables, so their keys stay equal |
| `Registry.RegistryBuilder.RegisterRestHost` | libs/modkit/src/registry.rs:164-176 | the first host stays, later ones become errors |
| `Registry.RegistryBuilder.RegisterGrpcHub` | libs/modkit/src/registry.rs:194-206 | the first hub stays, later ones become errors |
| `Registry.RegistryBuilder.ValidateCapabilities` | libs/modkit/src/registry.rs:284-342 | passes if and only if no error was recorded and every capability belongs to a core module; otherwise the error names a real offender, for every key order |
| `Registry.RegistryBuilder.AddEdges` | libs/modkit/src/registry.rs:354-366 | one module's edges are added and no others; fails exactly on an unknown dependency |
| `Registry.RegistryBuilder.BuildDependencyGraph` | libs/modkit/src/registry.rs:345-369 | succeeds if and only if all dependencies are known; the graph then has an edge from every dependency to every dependent and no other |
| `Registry.RegistryBuilder.AssembleEntries` | libs/modkit/src/registry.rs:372-413 | one entry per position, which carries exactly what was registered under its name, field by field; the errors name a module that lacks dependencies or core |
| `Registry.RegistryBuilder.EntryCarries` | libs/modkit/src/registry.rs:392-409 | an entry has each capability exactly if it was registered under its name, and the host or hub only if it is the registered one |
| `Registry.RegistryBuilder.EntriesAreSound` | libs/modkit/src/registry.rs:457-458 | a complete predecessor-first order of node numbers becomes a permutation of the registered modules with dependencies first |
| `Registry.CycleInNames` | libs/modkit/src/registry.rs:426-429 | a cycle of the graph is a cycle of declared dependencies between the named modules |
| `Registry.OrderedHasNoCycle` | libs/modkit/src/registry.rs:419-479 | modules that can be listed dependencies-first have no dependency cycle |
| `Registry.RegistryBuilder.BuildTopoSorted` | libs/modkit/src/registry.rs:419-479 | succeeds if and only if there is no recorded error, no unknown capability or dependency and no cycle; the result is then a permutation of all registered modules, each carrying its own capabilities and no others and standing after all its dependencies, although the order's length is never checked; every error is accurate and the two assembly errors never occur |
| `SystemPriority.ModulesBySystemPriority` | libs/modkit/src/registry.rs:76-90 | a permutation with system modules first and the relative order kept inside both groups |
| `SystemPriority.StablePartitionUnique` | libs/modkit/src/registry.rs:72-74 | that description determines the result |
| `SystemPriority.SystemPriorityDependencyOrder` | libs/modkit/src/registry.rs:72-90 | the reordered list still has dependencies first if and only if system modules depend only on system modules |
| `Lifecycle.LegalConcat` | libs/modkit/src/lifecycle.rs:244-419 | runs compose |
| `Lifecycle.SerialIsPhased` | libs/modkit/src/lifecycle.rs:244-419 | every run of a serial controller is a phased run with the same end |
| `LifecyclePhased.StepKeepsInv` | libs/modkit/src/lifecycle.rs:244-419 | every atomic step of start, task, watchers and any number of stop callers keeps the invariant, over any number of epochs |
| `LifecyclePhased.RunKeepsInv` | libs/modkit/src/lifecycle.rs:244-419 | the invariant holds after every phased run |
| `LifecyclePhased.OneLiveTask` | libs/modkit/src/lifecycle.rs:249-264 | at most one task is live, and it belongs to the latest successful start |
| `LifecyclePhased.StartFindsNoLiveTask` | libs/modkit/src/lifecycle.rs:249-264 | a start wins only when every earlier task has made its last write or died |
| `LifecyclePhased.FinishWritesAreCurrent` | libs/modkit/src/lifecycle.rs:304-320 | a finishing write always belongs to the current epoch and never falls between a later start's compare-and-swap and its spawn |
| `LifecyclePhased.TakenAtMostOnce` | libs/modkit/src/lifecycle.rs:341-370 | each epoch's token and join handle are taken at most once, however many stops race |
| `LifecyclePhased.RunningBeforeSpawn` | libs/modkit/src/lifecycle.rs:292-304 | without ready mode the status is Running before the task exists |
| `LifecyclePhased.FinishedIsCurrent` | libs/modkit/src/lifecycle.rs:263-310 | between starts the finished flag is about the latest task, never left over from an earlier epoch |
| `LifecyclePhased.StoppingIsFinal` | libs/modkit/src/lifecycle.rs:339-416 | once Stopping or Stopped was written in an epoch, no later state of that epoch is Starting or Running |
| `LifecyclePhased.StopsReturnedMeansStopped` | libs/modkit/src/lifecycle.rs:330-419 | when a stop was called in an epoch and all calls have returned, the status is Stopped, finished is set and every task is over |
| `LifecycleAnswers.StopAnswers` | libs/modkit/src/lifecycle.rs:333-366 | every answer of `stop` in every phased run has its cause: Timeout exactly if it timed out; Cancelled exactly if it saw the task finished with the epoch's token taken and marked; Finished if the taker had not marked it yet, or at once if there was nothing to stop |
| `LifecycleAnswers.AnswerHasCause` | libs/modkit/src/lifecycle.rs:333-366 | the same in runs of any discipline, with the flag as it was read |
| `LifecycleAnswers.CauseHasAnswer` | libs/modkit/src/lifecycle.rs:357-418 | conversely each cause leads to its answer, whatever happens later |
| `LifecycleAnswers.TakenIsCancelled` | libs/modkit/src/lifecycle.rs:341-345 | in any run exactly the tokens that were taken are cancelled, once their takers have got that far |
| `LifecycleAnswers.AbortNeedsTimeout` | libs/modkit/src/lifecycle.rs:371-374 | in any run a task is aborted only if some stop has timed out |
| `LifecycleAnswers.TimeoutAborts` | libs/modkit/src/lifecycle.rs:365-416 | from every state with a waiting stop and a body that does not return, the stop can time out, abort the task, join it and answer Timeout |
| `LifecycleAnswers.PanicIsJoined` | libs/modkit/src/lifecycle.rs:368-416 | the same for a body that panics |
| `LifecycleAnswers.FinishedStopReturns` | libs/modkit/src/lifecycle.rs:357-416 | a waiting stop whose task is over can return with the answer of the flag |
| `LifecycleReady.RunKeepsReadyInv` | libs/modkit/src/lifecycle.rs:272-291 | if no earlier watcher can fire when a ready-mode start wins, no stale watcher ever exists |
| `LifecycleReady.SettledRunningNeedsNotify` | libs/modkit/src/lifecycle.rs:272-291 | under that condition Running in ready mode means that the current task notified, in every epoch, and before the task exists the status is Starting |
| `LifecycleReady.RunningNeedsNotify` | libs/modkit/src/lifecycle.rs:272-291 | with one start and any number of later stops, Running in ready mode occurs only after notify |
| `LifecycleReady.ObservedRunningNeedsNotify` | libs/modkit/src/lifecycle.rs:272-291 | the same over any number of epochs for a controller that has read Running in each earlier ready-mode epoch before it starts the next |
| `LifecycleUnseen.UnseenEpochMayBePending` | libs/modkit/src/lifecycle.rs:272-291 | after any observing run with a ready-mode epoch never seen Running, another observing run with the same calls, steps and readings ends with that watcher pending |
| `LifecycleUnseen.UnseenEpochCanGoWrong` | libs/modkit/src/lifecycle.rs:272-291 | so the observable condition is exact: a ready-mode start made with an epoch unseen can, in a run the controller cannot tell from its own, be Running with nobody notified |
| `LifecycleLimits.StopDuringStartIsLost` | libs/modkit/src/lifecycle.rs:263-320 | from every state with a start past its compare-and-swap and no live task to join, a stop called now can return and leave the new task alive |
| `LifecycleLimits.OverlappingStopIsLost` | libs/modkit/src/lifecycle.rs:263-320 | in particular from every such state that phased runs reach |
| `LifecycleLimits.OverlappingStopsAllowTwoTasks` | libs/modkit/src/lifecycle.rs:368-416 | from every state with a live task, overlapping stops and one start that does not wait for them can make two live tasks |
| `LifecycleLimits.PendingWatcherMarksNextEpochRunning` | libs/modkit/src/lifecycle.rs:276-284 | the condition on watchers is exact: from every state where a start wins while an earlier watcher can still fire, the start can return Running with nobody notified |
| `LifecycleLimits.RestartRunningWithoutNotify` | libs/modkit/src/lifecycle.rs:276-284 | such a state is reachable with serial calls, with a ready signal that outlives the body |
| `Decimals.NormalizedDecides` | libs/modkit-odata/src/pagination.rs:59 | two decimals have the same normal form if and only if they are the same number |
| `FilterNormalForm.ReadBack` | libs/modkit-odata/src/pagination.rs:9-72 | unique readability: a normal form followed by a delimiter or nothing can be read in one way only, including empty lists |
| `FilterNormalForm.NormalFormFaithful` | libs/modkit-odata/src/pagination.rs:9-72 | for identifiers and rendered values without closing parenthesis and function names whose end can be seen, normal forms are equal if and only if the filters are equal up to case of names and numeric normalisation |
| `FilterNormalForm.OperatorForms` | libs/modkit-odata/src/pagination.rs:22-29 | the text of each comparison operator |
| `FilterNormalForm.CompareForm` | libs/modkit-odata/src/pagination.rs:21-36 | the form of a comparison, its sides in order |
| `FilterNormalForm.ListForms` | libs/modkit-odata/src/pagination.rs:37-52 | the forms of a list are joined with commas |
| `FilterNormalForm.EquivalentSameForm` | libs/modkit-odata/src/pagination.rs:9-72 | equivalent filters always have equal normal forms, with no premise on names |
| `FilterNormalForm.ParenthesesCollide` | libs/modkit-odata/src/pagination.rs:66 | counterexample without the premise: two different filters with one normal form |
| `FilterNormalForm.FaithfulIffSafe` | libs/modkit-odata/src/pagination.rs:9-72 | for any three sets of characters allowed in strings, identifiers and function names, the form is faithful on all such filters if and only if strings and identifiers exclude the closing parenthesis and function names exclude it or the comma |
| `FilterNormalForm.StringsCollide` | libs/modkit-odata/src/pagination.rs:66 | two different filters with one normal form, with a closing parenthesis as a string |
| `FilterNormalForm.IdentifiersCollide` | libs/modkit-odata/src/pagination.rs:53-55 | the same with a closing parenthesis as an identifier |
| `FilterNormalForm.FunctionsCollide` | libs/modkit-odata/src/pagination.rs:45-52 | the same with a function name that has a comma and a closing parenthesis |
| `FilterNormalForm.EquivalentSameHash` | libs/modkit-odata/src/pagination.rs:77-85 | equivalent filters have the same digest, and a digest exists if and only if there is a filter |
| `Strings.SplitJoin` | libs/modkit-odata/src/lib.rs:94-106 | splitting undoes joining when no part contains the separator |
| `Strings.JoinSplit` | libs/modkit-odata/src/lib.rs:113-115 | joining undoes splitting |
| `Strings.TrimCuts` | libs/modkit-odata/src/lib.rs:116 | trimming takes away all whitespace at both ends and nothing else |
| `OrderBy.FromSignedTokens` | libs/modkit-odata/src/lib.rs:113-137 | the loop computes the strict reading of the segments, with the error for the first lone sign and for an empty order |
| `OrderBy.SignedTokensRoundTrip` | libs/modkit-odata/src/lib.rs:94-137 | printing and parsing give the order back if and only if it is not empty and its fields are non-empty, comma-free and do not end in whitespace |
| `OrderBy.EverySpellingParses` | libs/modkit-odata/src/lib.rs:113-137 | however an order is spelled, with whitespace around the tokens and the plus sign left out, it parses to that order; a field without a sign is ascending |
| `OrderBy.EqualsIffParsedEqual` | libs/modkit-odata/src/lib.rs:113-165 | whenever a text parses, comparing with it is the same as comparing with the parsed order |
| `OrderBy.LenientAgrees` | libs/modkit-odata/src/lib.rs:113-165 | the strict and the lenient reading agree exactly on texts without a lone sign |
| `OrderBy.ParsesIff` | libs/modkit-odata/src/lib.rs:113-137 | a text parses if and only if some segment names a field and no segment is a lone sign |
| `OrderBy.EqualsWithoutParsingIff` | libs/modkit-odata/src/lib.rs:113-165 | a text that equals an order fails to parse if and only if the order is empty or the text has a lone sign |
| `OrderBy.LoneSignEqualsWithoutParsing` | libs/modkit-odata/src/lib.rs:141-165 | counterexamples for both cases: texts that equal an order and do not parse |
| `OrderBy.ReverseInPlace` | libs/modkit-odata/src/lib.rs:179-184 | every direction is flipped, in place, and no field changes |
| `RowOrder.TotalIffDistinguishing` | libs/modkit-odata/src/lib.rs:168-176 | an order is strict and total on a set of rows if and only if its fields tell any two of them apart |
| `RowOrder.TiebreakerMakesTotal` | libs/modkit-odata/src/lib.rs:168-176 | a tiebreaker on a field with unique values makes any order strict and total |
| `RowOrder.TiebreakerOnlyBreaksTies` | libs/modkit-odata/src/lib.rs:168-176 | the tiebreaker decides only between rows that the order leaves tied |
| `RowOrder.ReverseIsConverse` | libs/modkit-odata/src/lib.rs:64-69 | reversing all directions gives exactly the converse comparator |
| `RowOrder.ReverseIsInvolution` | libs/modkit-odata/src/lib.rs:179-184 | reversing twice changes nothing |
| `RowOrder.SortedUnique` | libs/modkit-odata/src/lib.rs:178-184 | a collection of rows can be sorted in one way only |
| `RowOrder.BackwardIsReversed` | libs/modkit-odata/src/lib.rs:178-184 | a permutation of the rows is sorted by the reversed order if and only if it is the forward sequence reversed |
| `Base64Url.DecodeEncode` | libs/modkit-odata/src/lib.rs:387-398 | decoding undoes encoding, section 5 of RFC 4648 without padding |
| `Base64Url.EncodeDecode` | libs/modkit-odata/src/lib.rs:387-398 | each byte string has one text: whatever decodes is what encoding produces |
| `Base64Url.SymbolsAreTheAlphabet` | libs/modkit-odata/src/lib.rs:387-398 | the symbols are those of the URL-safe alphabet of RFC 4648, in its order |
| `Base64Url.GroupValue` | libs/modkit-odata/src/lib.rs:387-398 | three bytes and their four symbols denote the same 24-bit number |
| `Base64Url.EncodeGroup` | libs/modkit-odata/src/lib.rs:387-398 | groups are encoded one after the other |
| `Cursor.CursorRoundTrip` | libs/modkit-odata/src/lib.rs:307-384 | a cursor survives encode and decode if and only if it is well formed; otherwise exactly its first defect is reported |
| `Cursor.ForeignTokens` | libs/modkit-odata/src/lib.rs:340-384 | every record that can be written into a token is answered by its first defect, a foreign version first, and accepted field by field if it has none |
| `Cursor.UnreadableTokens` | libs/modkit-odata/src/lib.rs:357-358 | text that is not base64 or not such a record is refused as that |
| `Cursor.IssuedCursorValidates` | libs/modkit-odata/src/lib.rs:276-384 | a cursor issued for a printable order survives its token; it validates if and only if the order is the same and no two known filter hashes disagree, and the two mismatches are told apart |
| `FileLocks.StepKeepsInv` | libs/modkit-db/src/advisory_locks.rs:395-481 | every file-system step keeps files and occupying calls in one-to-one correspondence |
| `FileLocks.MutualExclusion` | libs/modkit-db/src/advisory_locks.rs:395-518 | over every interleaving a lock path has at most one holder, a live guard or a pending unlock, and its file exists, even when keys share a path |
| `FileLocks.RemovedAtMostOnce` | libs/modkit-db/src/advisory_locks.rs:106-160 | each guard removes its file at most once, by release or by drop |
| `FileLocks.RemovesItsOwnFile` | libs/modkit-db/src/advisory_locks.rs:156-160 | the file removed is the one the guard's own call created; no other lock is broken |
| `FileLocks.FileMeansOccupied` | libs/modkit-db/src/advisory_locks.rs:106-160 | a lock file exists if and only if its path is held, was abandoned or was left over from before |
| `FileLocks.LockSucceedsIff` | libs/modkit-db/src/advisory_locks.rs:395-481 | a call gets the lock if and only if the lock file does not exist, and is refused otherwise |
| `FileLocks.LockGivesGuard` | libs/modkit-db/src/advisory_locks.rs:395-481 | a call on a free path ends with a live guard |
| `FileLocks.ReleaseRemovesFile` | libs/modkit-db/src/advisory_locks.rs:106-160 | releasing a guard, or dropping it where a runtime is alive, removes its lock file |
| `FileLocks.ReleasedCanBeLocked` | libs/modkit-db/src/advisory_locks.rs:106-160 | in every reachable state with a live guard, after its release anybody can lock the path again |
| `FileLocks.AbandonedOnlyBy` | libs/modkit-db/src/advisory_locks.rs:117-126 | a lock file is left behind only by a failed clone, a drop without a runtime or a failed removal |
| `FileLocks.HeldUntilGivenUp` | libs/modkit-db/src/advisory_locks.rs:106-127 | a guard stays live until its owner releases or drops it |
| `LockRetry.JitterFactor` | libs/modkit-db/src/advisory_locks.rs:258-266 | the factor lies within the clamped jitter of one |
| `LockRetry.JitterSpreads` | libs/modkit-db/src/advisory_locks.rs:258-266 | the hash decides in proportion where between the two extremes the factor lies |
| `LockRetry.BackoffClosedFormIff` | libs/modkit-db/src/advisory_locks.rs:228-273 | cutting off at the cap after each rounded step is cutting off once, for every sleep, if and only if the first backoff is within the cap |
| `LockRetry.BackoffNearExponential` | libs/modkit-db/src/advisory_locks.rs:228-273 | the k-th backoff is the smaller of the cap and the first backoff times the k-th power of the multiplier, up to the accumulated rounding |
| `LockRetry.BackoffVanishesIff` | libs/modkit-db/src/advisory_locks.rs:228-273 | some backoff is zero if and only if the first backoff or the cap is, or the multiplier is below one half, or is one half and the tie is rounded down |
| `LockRetry.SleepOrGiveUp` | libs/modkit-db/src/advisory_locks.rs:248-273 | sleeps exactly as long as the backoff and the time left allow, if any time is left, and grows the backoff; finds exactly the products that are no durations |
| `LockRetry.Iterate` | libs/modkit-db/src/advisory_locks.rs:230-274 | one iteration: the limits, an attempt, a pause, and the account of what happened |
| `LockRetry.RetryLoop` | libs/modkit-db/src/advisory_locks.rs:230-274 | for any multiplications: attempts within the maximum, each sleep exactly the backoff cut off at the time left, the outcome that of the last attempt, the end within the deadline, and overflows of the attempt counter and of durations told apart |
| `LockRetry.RoundedStaysWithin` | libs/modkit-db/src/advisory_locks.rs:268-269 | a sleep stretched by at most the jitter and rounded ends by the stretched limit and half a nanosecond, which counts once however many sleeps there are |
| `LockRetry.TryLock` | libs/modkit-db/src/advisory_locks.rs:219-275 | at most `max_attempts` acquisitions; each sleep is the backoff, cut off at what is left of `max_wait` after the earlier stretched sleeps; if time passes only in sleeps, the call is over by (1 + jitter) times `max_wait` and half a nanosecond; giving up with attempts left means that `max_wait` has passed, or without it, that the backoff does not last |
| `LockRetry.UnlimitedGivesUpForAttempts` | libs/modkit-db/src/advisory_locks.rs:232-255 | without a time limit and with a lasting backoff, the only cause of giving up is that the attempts are used up |
| `LockRetry.UnlimitedGivesUpIff` | libs/modkit-db/src/advisory_locks.rs:249-255 | without a time limit, the loop on a busy lock reaches a point where it gives up if and only if some backoff is zero and no product fails before it; if no product fails at all, if and only if the backoff does not last |
| `LockRetry.ZeroBackoffGivesUp` | libs/modkit-db/src/advisory_locks.rs:249-255 | without a time limit, a zero first backoff means that no sleep and hence no second attempt follows |
| `LockRetry.QuarteringGivesUp` | libs/modkit-db/src/advisory_locks.rs:271-273 | fifty milliseconds with a multiplier of a quarter vanish, so a positive multiplier does not prevent giving up |
| `RpcRetry.CallWithRetry` | libs/modkit-transport-grpc/src/rpc_retry.rs:157-232 | terminates; the calls end with the first success or non-retryable error or after `max_retries` + 1; the last outcome is returned; the sleeps add up to the capped linear backoffs; the first backoff too long for a duration and the overflow of the 32-bit counter are told apart and occur exactly in the stated cases |
| `RpcRetry.LastCallUnique` | libs/modkit-transport-grpc/src/rpc_retry.rs:192-213 | the outcomes determine the number of calls |
| `RpcRetry.TotalPauseBound` | libs/modkit-transport-grpc/src/rpc_retry.rs:215-228 | the total sleep is at most the number of retries times the cap |
| `RpcRetry.TotalPauseBelowCap` | libs/modkit-transport-grpc/src/rpc_retry.rs:215-228 | below the cap the pauses add up like the numbers from one on |
| `RpcRetry.PauseIsCapped` | libs/modkit-transport-grpc/src/rpc_retry.rs:215-219 | each pause is the base times the attempt number, or the cap if that is less |
| `RpcRetry.RetryableIff` | libs/modkit-transport-grpc/src/rpc_retry.rs:202-203 | exactly Unavailable and DeadlineExceeded are retried |
| `EnvExpansion.ExpandEnvVars` | libs/modkit-db/src/options.rs:495-508 | the loop performs the replacements of the references found in the input, in order, and stops at the first unset one |
| `EnvExpansion.ReferencesOfTemplate` | libs/modkit-db/src/options.rs:496-502 | the scan finds exactly the variables of a template, in order |
| `EnvExpansion.ReferencesAround` | libs/modkit-db/src/options.rs:496-502 | in every text the scan finds every reference, whatever stands around it, in order |
| `EnvExpansion.ReferencesIff` | libs/modkit-db/src/options.rs:496-502 | a name is found if and only if a reference to it occurs |
| `EnvExpansion.ExpansionFailsIff` | libs/modkit-db/src/options.rs:500-503 | for every input, expansion fails if and only if a reference that occurs in it is unset, and names such a one |
| `EnvExpansion.FirstUnsetIsReported` | libs/modkit-db/src/options.rs:500-503 | the first unset reference from the left is the one reported |
| `EnvExpansion.ReplaceAround` | libs/modkit-db/src/options.rs:504 | a replacement works on both sides of each occurrence separately |
| `EnvExpansion.ReplaceAbsent` | libs/modkit-db/src/options.rs:504 | a text without the reference is left alone |
| `EnvExpansion.ReplaceBinds` | libs/modkit-db/src/options.rs:504 | a global replacement binds one variable throughout a template, whatever the value |
| `EnvExpansion.ExpansionIsSubstitution` | libs/modkit-db/src/options.rs:495-508 | with values free of the dollar sign, the replacements are one simultaneous substitution; failure if and only if a referenced variable is unset |
| `EnvExpansion.ExpansionIsSubstitutionIff` | libs/modkit-db/src/options.rs:495-508 | expansion is simultaneous substitution for every template over some set variables if and only if their values are inert: they neither contain a reference to one of the variables nor end in the beginning of one, unless it stands for itself |
| `EnvExpansion.NotInertBreaks` | libs/modkit-db/src/options.rs:504 | a template for every value that is not inert: the text that completes the reference stands behind the value |
| `EnvExpansion.DollarValueIsExpandedTwice` | libs/modkit-db/src/options.rs:504 | counterexample without the premise: a value containing a reference is expanded again |
| `JsonMerge.MergeJsonObjects` | libs/modkit-bootstrap/src/oop.rs:340-358 | the loop gives the same result for every order of the source keys |
| `JsonMerge.PathLaw` | libs/modkit-bootstrap/src/oop.rs:338-358 | at every path the source's leaf wins, the target survives where the source is silent, and objects merge |
| `JsonMerge.MergeIdempotent` | libs/modkit-bootstrap/src/oop.rs:340-358 | overlaying the same source again changes nothing |
| `JsonMerge.CoveredVanishes` | libs/modkit-bootstrap/src/oop.rs:340-358 | nothing of the target remains if and only if the source covers it |
| `JsonMerge.MergeAssociativeIff` | libs/modkit-bootstrap/src/oop.rs:340-358 | three values associate if and only if no path holds an object, then a non-object, then an object not covering the first |
| `JsonMerge.MergeNotAssociative` | libs/modkit-bootstrap/src/oop.rs:340-358 | a concrete triple that does not associate |
| `HandleCache.CacheOnlyGrows` | libs/modkit-db/src/manager.rs:56-79 | along every interleaving cached entries and returned handles never change |
| `HandleCache.OneHandlePerModule` | libs/modkit-db/src/manager.rs:56-79 | all handles ever returned for a module are the same and are the cached one, however many callers built their own |
| `HandleCache.CachedIsAnswered` | libs/modkit-db/src/manager.rs:57-60 | a cached module is answered from the cache |
| `HandleCache.PublishAnswers` | libs/modkit-db/src/manager.rs:63-75 | the first handle to be published is cached and answered, a later one gives way to it |
| `HandleCache.BuildAnswers` | libs/modkit-db/src/manager.rs:63-78 | a failed build and a missing configuration are answered as such and leave the cache alone |
| `GtsCodes.ValidateGtsFormat` | libs/modkit-errors-macro/src/lib.rs:296-392 | accepts exactly the codes in GTS format; an error describes the first fault from the left |
| `GtsCodes.AcceptsIff` | libs/modkit-errors-macro/src/lib.rs:296-392 | which codes are accepted, in terms of how they are written: first part beginning with `gts` and going on, every segment a word, the last part with five segments besides a leading `gts` and ending in `v` and digits |
| `GtsCodes.PrefixGivesFirst` | libs/modkit-errors-macro/src/lib.rs:318-324 | the second test of the first segment cannot fail |
| `GtsCodes.MinorVersionRefused` | libs/modkit-errors-macro/src/lib.rs:366-380 | a code ending in a dot and digits is refused, whatever stands before |
| `GtsCodes.LastGtxIsLastPart` | libs/modkit-errors-macro/src/lib.rs:498-504 | the text behind the last tilde is the last part that the validator saw |
| `GtsCodes.AcceptedCodeHasAlias` | libs/modkit-errors-macro/src/lib.rs:512-534 | every accepted code has an alias, and it is a non-empty identifier over lowercase letters, digits and underscore, not starting with a digit and not a keyword |
| `GtsCodes.AliasText` | libs/modkit-errors-macro/src/lib.rs:506-534 | the alias is the last part without its vendor, dots turned into underscores, with an underscore in front of a leading digit |
| `GtsCodes.CollectNames` | libs/modkit-errors-macro/src/lib.rs:537-553 | the table maps each short name to all its codes in entry order; fails exactly when some name cannot be derived |
| `GtsCodes.ComputeShortNames` | libs/modkit-errors-macro/src/lib.rs:537-581 | succeeds if and only if every name can be derived and all are distinct; the names come in entry order, an explicit alias taking precedence; a collision names all its codes |
| `PathSyntax.ConvertAxumPathToMatchit` | modules/api_ingress/src/auth.rs:70-91 | the nested loop computes the recursive conversion |
| `PathSyntax.ConvertCommutes` | modules/api_ingress/src/auth.rs:66-91 | converting the colon rendering of any route gives exactly its brace rendering |
| `PathSyntax.ConvertShape` | modules/api_ingress/src/auth.rs:70-91 | for every input the output has no colon and is longer by the number of colons |
| `PathSyntax.ConvertIdempotent` | modules/api_ingress/src/auth.rs:70-91 | converting twice is converting once |

## Left out

- `WithLifecycle` wrappers and `Drop` implementations of the lifecycle: they rest on the semantics of dropped futures.
- Wake-up liveness of `Notify`, `wait_stopped` and the dropping of a `stop` future: the wait in `stop` is a choice between seeing the finished flag and timing out.
- PostgreSQL and MySQL locks, connection building and pools: foreign database calls.
- Directory creation and the debug text of lock files: best-effort input and output that no branch depends on.
- `FilterNormalForm.NormalFormFaithful`: the printing of decimals, UUIDs, dates and times is a parameter assumed injective on each kind of value, for decimals on normalised ones only; lower-casing is an arbitrary function, of which `FilterNormalForm.FaithfulIffSafe` asks only that it leaves no capital letter and does not touch parentheses and commas.
- `Cursor.CursorRoundTrip`: the JSON text is an abstract lossless codec; the default for a missing direction field in foreign tokens belongs to that codec.
- `LockRetry.TryLock`: a product of a duration is the exact one rounded to a nearest nanosecond, either way at a tie; the further error of 64-bit floating point on durations beyond some hundred days, and factors that are not numbers, are not modelled; `budget` bounds the iterations observed and is arbitrary, because the loop need not end.
- `RpcRetry.CallWithRetry`: an overflow is an outcome of its own (for the counter a panic or a wrap-around, depending on the build), and responses are opaque numbers.
- `PathSyntax.ConvertCommutes`: the Unicode alphanumeric test is a parameter of which only the rejection of colon and slash is assumed.
- `EnvExpansion.ExpandEnvVars`: variables whose value is not valid Unicode count as unset, and the regular expression is modelled by a scanner.
- `JsonMerge.MergeJsonObjects`: the target is a value that is returned, not a location updated through a reference; numbers are integers, because no branch looks at them.
- `Registry.RegistryBuilder.ValidateCapabilities`: the source's second look at the REST host is not repeated, since the first decides it.
- `GtsCodes.AcceptedCodeHasAlias`: explicit aliases in an error catalogue are taken as they are; the code does not check them.
- `CycleSearch.Search.Dfs`: the depth of recursion is not bounded.
- Flat merging of logging configurations, field-by-field merging of database settings, connection pragmas: finite case analyses that would only add easy members.
- Authentication middleware, claims, role matching, rate limiting, router and client registries, error-to-status mappings, procedural-macro output, lints and node information: plumbing around libraries.
