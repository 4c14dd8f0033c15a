# Verification of the template's lifecycle scripts

This project models the lifecycle scripts of the Rust service template and proves what they are
relied upon for: the validation queue and its child scopes, the cancellation channel, portable
synchronisation, the initializer's projections, the campaign budget, upgrade acceptance, duplicate
admission, the dead-letter controller and the bounded protobuf reader.  `dafny verify dfyconfig.toml`
checks all of it.

| file | models |
|---|---|
| `ChildScope.dfy` | one child scope: helper, forked anchor, session, guardian and recovery, with a crash between any two steps |
| `Queue.dfy` | generations, tickets, the gate, resources and protected native observers, over any number of child scopes |
| `QueueProgress.dfy` | what the queue can still do: commands start, gates are freed, the next ticket gets its turn |
| `Frames.dfy` | the text of cancellation grants and the receiver that reads them in pieces |
| `Sentinel.dfy` | the loop inside a session that delivers grants and decides when the session is over |
| `Protobuf.dfy` | varints and length-delimited fields |
| `JsonScan.dfy` | the JSON span scanner, as functions and as the index-moving object |
| `JsonText.dfy` | the texts the scanner accepts, stated as layouts |
| `JsonSplice.dfy` | what a scan of a spliced text yields |
| `JsonSetting.dfy` | setting one managed leaf by splicing |
| `SyncPlan.dfy` | building, applying and reading back a synchronisation plan |
| `Markers.dfy` | profile sections of template files |
| `CargoLock.dfy` | pruning, relabelling and renaming in Cargo.lock |
| `Budget.dfy` | integer time accounting of a campaign |
| `Upgrade.dfy` | acceptance of an upgrade candidate |
| `Duplication.dfy` | charging reported duplicates to reviewed slots |
| `SourceText.dfy` | CRLF offsets, anchors and the reduction test |
| `Dlq.dfy` | the one-record dead-letter controller and its broker |

Concurrent protocols are step systems: a state value, a predicate `Enabled` and a function `Apply` per
step, and runs as sequences of steps.  A crash forgets what a process held in memory and keeps what was
written durably.  That such a system does what it is for is shown by continuations: runs that exist from
every reachable state.  Each proof goes from a step invariant to all runs.  Loops and objects of the source
that update variables are methods proved equal to a specification function, and the results are proved
about that function.

## Premises

- Every ordinary process stays in its recorded session; a report that a session is absent is true, and
  absence is stable (scripts/ci/validation-lock.py:322-335).
- An atomic JSON write happens fully or not at all; the queue mutex serialises the locked blocks.
- Freshness of a first deadline is a fixed verdict per deadline in the statements about split reads.
- The guard is asked while a running stage, if any, is in the program; `DroppingRunIsStuck` shows what
  happens otherwise.
- Package keys in Cargo.lock are distinct, package names hold no spaces, and the service name chosen
  for the rename is fresh among the local records (`RenameResolution` takes it fresh among all).
- Broker sequences are assigned once per stream incarnation; a success reply to a delete follows its
  effect; an acknowledgement from the source stream names a sequence that holds the publication.
- Git commits are immutable, and one upgrade command runs at a time on a candidate.

## Findings

Properties one would expect of the code that do not hold as such; each has a lemma with an input or a
run that shows it, and a lemma that says when the property does hold.

- A child whose helper dies after preparation was authorised and before the identity was recorded is
  never marked stopped, although all its processes are gone, and its generation's gate can never be
  freed (`UnidentifiedReachable`, `StoppableUnlessUnidentified`, `GateFreesUnlessBlocked`).
- The second grant is refused exactly if the cancellation time was lowered after the first was sent
  (`LoweringReachable`, `LoweredKillRefused`, `KillGrantedUnlessLowered`).
- A file with a set-user-id, set-group-id or sticky bit is written, and then always fails the readback,
  which compares permission bits only.  Rendering keeps the mode of an existing settings file, so a
  sticky one gets there (`ReadbackCounterexample`, `ReadBack`).
- Outside edits are not all refused by `finish_sealing`.  A control record staged at rest or before the
  index update is lost (`StagedControlLost`), so is an edit of the control file between the checks and
  its write, before or after the swap (`LateControlLost`), and a ref moved away behind the swap is
  recorded as accepted (`MovedRefAccepted`).  `EditOverwritten` and `AcceptedElsewhere` give the exact
  conditions at every phase (`EveryPhaseReachable`); up to the swap the ref is protected
  (`SwapRespectsEdits`).
- Each dead-letter controller reads the session document before it takes the lock.  With an outdated
  freeze flag and a lost stream, a restore can put another record under a delete still under way
  (`StaleSnapshotReachable`); with a current flag, or without a lost stream, it cannot
  (`EverySoundRun`).
- A free anchor counts occurrences that do not overlap, so an anchor that overlaps itself resolves
  although it occurs twice (`OverlappingAnchor`, `AnchorExists`).
- Nothing checks that a confirmation leaves the running stage in the program, and a campaign can get
  there (`DroppingRunIsStuck`, `DroppedActiveIsStuck`).

## Model

| member | source | states |
|---|---|---|
| `ChildScope.StopIsFinal` | scripts/ci/validation-lock.py:1014-1113 | in every run, once a child is marked stopped by any path, then after any further steps and crashes no process of its session exists, none can still appear, and its command is not started again |
| `ChildScope.StopPersists` | scripts/ci/validation-lock.py:1037-1113 | the stopped mark and the number of command starts never change afterwards |
| `ChildScope.GuardianVerdict` | scripts/ci/validation-lock.py:1037-1113 | of a child it serves the guardian can mark stopped in one step exactly a retired one that was never claimed, never prepared, or whose session is absent with its helper gone or waited for |
| `ChildScope.StoppableUnlessUnidentified` | scripts/ci/validation-lock.py:880-1113 | from every reachable state of a child some run of guardian, helper and session marks it stopped, if and only if the child is not unidentified |
| `ChildScope.FinishedReachable` | scripts/ci/validation-lock.py:880-1113 | a run from reservation through one start of the command to the stopped mark |
| `ChildScope.EveryOtherWinds` | scripts/ci/validation-lock.py:1241-1267 | without its guardian, every child that is not unidentified can wind down to where recovery marks it stopped |
| `ChildScope.WaitedIsNoOrphan` | scripts/ci/validation-lock.py:1037-1046 | once the helper has waited for the anchor, no run ever lets the guardian take the child for an orphan |
| `ChildScope.RetirementRecorded` | scripts/ci/validation-lock.py:975-982 | a retirement closes the channel, is recorded as unknown exactly if the guardian lost sight of the child, and rules out a later launch |
| `ChildScope.StartsOnceAfterDecision` | scripts/ci/validation-lock.py:880-958 | in every run a command starts at most once, and then only after `launch_may_have_occurred` was durable and some earlier moment of the run was a launch decision with no cancellation, no retirement and the cutoff not reached |
| `ChildScope.DecisionExists` | scripts/ci/validation-lock.py:1037-1087 | a durable launch permission has a launch decision in the run before it |
| `ChildScope.NoCommandEffectIsFinal` | scripts/ci/validation-lock.py:833-849 | a reported `no_command_effect` stays true through every continuation: the command was not started and never will be |
| `ChildScope.RunInv` | scripts/ci/validation-lock.py:880-1113 | every interleaving and crash of helper, anchor, session and guardian keeps the scope invariant |
| `ChildScope.RecoveryVerdict` | scripts/ci/validation-lock.py:1241-1267 | recovery marks a child stopped exactly if its session is empty and an authorised preparation left an identity |
| `ChildScope.UnidentifiedNeverStops` | scripts/ci/validation-lock.py:1241-1267 | a child without identity is never marked stopped by any run, although nothing of it runs |
| `ChildScope.UnidentifiedReachable` | scripts/ci/validation-lock.py:880-958 | such a child is reached by a run |
| `ChildScope.LatchRun` | scripts/ci/validation-lock.py:815-819 | over every run a set latch stays set and only moves down, and is unchanged if and only if no step named an earlier moment |
| `ChildScope.LoweringReachable` | scripts/ci/validation-lock.py:1014-1041 | a run of guardian and child in which the latch is lowered between two moments at which a frame can be sent |
| `Queue.OnlyOwnerBusy` | scripts/ci/validation-lock.py:1938-2156 | in every run only the generation that holds the gate has a root command, child command or native observer alive |
| `Queue.PublicationIsExclusive` | scripts/ci/validation-lock.py:1967-2041 | in every run, when a gate is published nothing launched by any generation is alive, the publisher holds a live ticket, and no smaller ticket is live, tickets of dead guardians whose prepared scope may remain included |
| `Queue.GateMoves` | scripts/ci/validation-lock.py:1181-1277 | the gate is taken only when free and given up only by its holder, a holder outside the queue included |
| `Queue.ReleaseIsFinal` | scripts/ci/validation-lock.py:1181-1277 | after a release or recovery of a gate nothing of that generation ever runs again |
| `Queue.RunInv` | scripts/ci/validation-lock.py:1115-1277 | every run keeps the queue invariant: mutex, ticket order and per-generation custody |
| `Queue.ObserverCustody` | scripts/ci/validation-lock.py:1883-1913 | under every interleaving observer lists are append-only, all but the last observer are absent with receipts, and only the first may create the container |
| `Queue.NoneAddedAfter` | scripts/ci/validation-lock.py:1369-1401 | in every run, once the originating child of a resource is cancelled, retired or past its cutoff, or its generation withdrew or lost its guardian, no continuation adds an observer to it |
| `Queue.BarredStep` | scripts/ci/validation-lock.py:1369-1401 | no step of any actor lifts that bar or adds an observer under it |
| `QueueProgress.EverythingRuns` | scripts/ci/validation-lock.py:1938-2041 | a run from the empty queue after which a root command, a child command and a native observer are all alive under one gate |
| `QueueProgress.LaunchCanStart` | scripts/ci/validation-lock.py:2030-2041 | in every reachable state a published generation whose root waits for the launch byte has a continuation that starts its command |
| `QueueProgress.EnterStarts` | scripts/ci/validation-lock.py:1967-2041 | a generation whose turn it is can publish its gate and start its command |
| `QueueProgress.GateFrees` | scripts/ci/validation-lock.py:1181-1277 | a gate holder without an unidentified child, its guardian alive or dead, has a continuation that frees the gate and changes no other generation |
| `QueueProgress.GateFreesUnlessBlocked` | scripts/ci/validation-lock.py:1181-1277 | in every reachable state a held gate can be freed by some continuation if and only if no child of its generation is unidentified |
| `QueueProgress.NextCanStart` | scripts/ci/validation-lock.py:1967-2041 | then the waiting generation with the next live ticket can publish its own gate and start its command |
| `QueueProgress.ObserverCanFollow` | scripts/ci/validation-lock.py:1883-1913 | a resource whose generation and origin admit effects can get one more observer, up to the limit |
| `QueueProgress.TicketCanGo` | scripts/ci/validation-lock.py:1140-1165 | outside the publication block a ticket can be given up, by its waiter, after a launch, or for a dead generation without the gate |
| `Frames.ParseInverse` | scripts/ci/validation-lock.py:338-351 | decoding a sent grant gives the grant back, and the frame is short enough for an atomic write |
| `Frames.ParsesExactly` | scripts/ci/validation-lock.py:402-406 | the decoder accepts a line as a grant if and only if it matches the frame pattern |
| `Frames.SplitIndependent` | scripts/ci/validation-lock.py:393-421 | the grants queued and the error flag depend on the bytes alone, not on how reads split them, before and after the end of the channel |
| `Frames.PartialLine` | scripts/ci/validation-lock.py:419-421 | a partial line is an error exactly from its 128th byte on, and at the end of the channel from its first |
| `Frames.GrantsFormLadder` | scripts/ci/validation-lock.py:401-418 | every byte stream queues at most two grants: INT or TERM first, then KILL with the same deadline |
| `Frames.BothGranted` | scripts/ci/validation-lock.py:403-418 | two sent frames are both granted if and only if they form that ladder and the first deadline is near |
| `Frames.KillGrantedUnlessLowered` | scripts/ci/validation-lock.py:984-1003 | TERM for a child and KILL after any further run of it are both granted, however split, if and only if no step of the run latched an earlier moment |
| `Frames.LoweredKillRefused` | scripts/ci/validation-lock.py:1024-1041 | the run that lowers the latch sends such a pair, and the receiver refuses it |
| `Sentinel.Loop.Frame` | scripts/ci/validation-lock.py:402-418 | one line of the pipe changes the loop's variables as the grant rules say |
| `Sentinel.Loop.TakeLines` | scripts/ci/validation-lock.py:401-418 | the line loop takes up exactly the complete lines of the buffer |
| `Sentinel.Loop.Receive` | scripts/ci/validation-lock.py:393-421 | one read of the pipe, with the partial-line rule |
| `Sentinel.Loop.Run` | scripts/ci/validation-lock.py:354-511 | the loop's variables follow the specified turns for every sequence of answers |
| `Sentinel.LoopedInv` | scripts/ci/validation-lock.py:424-490 | every turn keeps: no grant is lost without an error, and every observed group is served, in hand or to do, in order |
| `Sentinel.ZeroExit` | scripts/ci/validation-lock.py:491-507 | if the loop exits 0, the very turn that returned saw nobody else in the session and, after that, the stop deadline not reached, with the command finished, the pipe closed, no error, and nothing queued, active or relayed |
| `Sentinel.SettledTurn` | scripts/ci/validation-lock.py:491-507 | a turn that finds the session settled returns 0 if and only if nobody else is there, no error occurred and neither clock reading is late, returns 1 otherwise when nobody is there, and goes on exactly if somebody is or nobody could tell |
| `Sentinel.TurnFails` | scripts/ci/validation-lock.py:424-490 | which answers of a turn end in the error: lateness, a failed relay, an expired or unobserved grant, a delivery not made in time |
| `Sentinel.TurnSucceeds` | scripts/ci/validation-lock.py:424-490 | a turn without any of these leaves no error |
| `Sentinel.ZeroExitDelivers` | scripts/ci/validation-lock.py:437-507 | exit 0 also implies that every grant ever queued reached all groups observed for it and the own group, and that no KILL was ever granted |
| `Sentinel.NoKill` | scripts/ci/validation-lock.py:477-490 | a loop that returns has delivered no KILL |
| `Protobuf.ReadVarint` | scripts/ci/validation-lock.py:152-166 | the varint loop returns the value and length the wire format defines, below 2^64, always advancing, and never reaches "unterminated" |
| `Protobuf.ReadField` | scripts/ci/validation-lock.py:169-180 | one pass of the field loop reads the specified field and advances, or refuses as specified |
| `Protobuf.Fields` | scripts/ci/validation-lock.py:168-181 | the field loop computes the specified parse, and never refuses as "unterminated" |
| `Protobuf.ReadsExactly` | scripts/ci/validation-lock.py:148-181 | a byte string is read as a list of fields if and only if it is a wire encoding of that list |
| `Protobuf.RoundTrip` | scripts/ci/validation-lock.py:148-181 | reading inverts the canonical encoder for all fields with non-zero numbers and values below 2^64 |
| `Protobuf.FitsLimit` | scripts/ci/validation-lock.py:155-166 | ten groups stay below 2^64 exactly if the tenth byte is at most 1 |
| `JsonScan.Scanner.ParseAll` | scripts/lib/template_sync.py:110-115 | the scanner object returns the specified tree and spans, or refuses with it |
| `JsonText.ParsesExactly` | scripts/lib/template_sync.py:103-197 | a text is read as a tree if and only if it is laid out as that tree: blanks between tokens, strings up to the first unescaped quote, literals, number runs, distinct decoded keys, and the spans as returned |
| `JsonText.ValueRead` | scripts/lib/template_sync.py:140-197 | every laid-out value is read as what it lays out |
| `JsonText.ValueText` | scripts/lib/template_sync.py:140-197 | whatever is read is laid out so |
| `JsonScan.Scanner.ScanValue` | scripts/lib/template_sync.py:140-197 | one value from the current index, and where the index ends up |
| `JsonScan.Scanner.ScanMembers` | scripts/lib/template_sync.py:153-170 | the member loop of an object |
| `JsonScan.Scanner.ScanItems` | scripts/lib/template_sync.py:177-185 | the element loop of an array |
| `JsonScan.Scanner.ScanArray` | scripts/lib/template_sync.py:171-185 | an array from its bracket, empty or not |
| `JsonScan.Scanner.String` | scripts/lib/template_sync.py:121-138 | a string's span and decoded value |
| `JsonSplice.ValueMoves` | scripts/lib/template_sync.py:140-197 | a value scanned at another place of another text, with the same characters and a proper end, is the same value with shifted spans |
| `JsonSplice.MembersReplace` | scripts/lib/template_sync.py:153-170 | replacing one member's value text replaces that node and shifts the members behind it |
| `JsonSplice.MembersAppend` | scripts/lib/template_sync.py:592-596 | text added before the closing brace adds one member |
| `JsonSplice.MeaningMoves` | scripts/lib/template_sync.py:140-197 | moving a text does not change what its nodes mean |
| `JsonSetting.RenderSetsLeaf` | scripts/lib/template_sync.py:599-631 | for every accepted document with object root and object parent, if any, the spliced text parses and means the old document with exactly the managed leaf set |
| `JsonSetting.RenderAccepts` | scripts/lib/template_sync.py:612-617 | documents are rendered if and only if the root, and the managed parent if present, are objects |
| `JsonSetting.RenderIdempotent` | scripts/lib/template_sync.py:599-631 | rendering twice changes nothing more |
| `JsonSetting.RenderSplices` | scripts/lib/template_sync.py:618-629 | every character outside the spliced stretch is unchanged |
| `JsonSetting.SetLeafExact` | scripts/lib/template_sync.py:618-629 | setting the leaf touches no other top-level key and no other key of the parent |
| `JsonSetting.AppendParent` | scripts/lib/template_sync.py:618-619 | the missing-parent splice |
| `JsonSetting.AppendLeaf` | scripts/lib/template_sync.py:622-624 | the missing-leaf splice |
| `JsonSetting.ReplaceLeaf` | scripts/lib/template_sync.py:625-629 | the replacing splice |
| `JsonSetting.ManagedTokens` | scripts/lib/template_sync.py:568-589 | both token forms that are managed are complete JSON tokens |
| `SyncPlan.BuildPlan` | scripts/lib/template_sync.py:779-804 | the loop over both trees computes the plan path by path, and refuses exactly the incomparable pairs |
| `SyncPlan.Worktree.Sync` | scripts/lib/template_sync.py:928-943 | a run either refuses with the tree untouched or converges: scoped tree equal to the stage, nothing outside changed but missing parent directories created, the rebuilt plan empty, no step failing half-way; the readback verdict is exact |
| `SyncPlan.RefusedFor` | scripts/lib/template_sync.py:725-738 | `Sync` refuses exactly for a file or link above a scope, a scope of another type than announced, a link outside the two generated families, or a path of two kinds |
| `SyncPlan.SkillLinkIs` | scripts/lib/template_state.py:1175-1185 | the links that are read, written or removed are exactly the two generated families |
| `SyncPlan.LinksAccepted` | scripts/lib/template_state.py:1175-1185 | a stage with links of both families is accepted and both are planned |
| `SyncPlan.InScopeExactly` | scripts/lib/template_sync.py:275-281 | the selected paths are each scope's own and everything below a directory scope |
| `SyncPlan.Worktree.CreateDirectories` | scripts/lib/template_sync.py:807-815 | directory creation succeeds in shallow-first order and places exactly the planned directories |
| `SyncPlan.Worktree.WriteFiles` | scripts/lib/template_state.py:1353-1356 | file writes succeed and place exactly the planned files |
| `SyncPlan.Worktree.RemoveAll` | scripts/lib/template_state.py:1357-1373 | removals succeed, files and links before directories deepest first |
| `SyncPlan.Worktree.WriteLinks` | scripts/lib/template_state.py:1374-1379 | link writes succeed and complete the staged tree |
| `SyncPlan.NothingBelow` | scripts/lib/template_state.py:1372-1373 | a directory is empty when its turn to be removed comes |
| `SyncPlan.ConvergedPlan` | scripts/lib/template_sync.py:779-804 | a converged tree has an empty plan |
| `SyncPlan.AlwaysAdmitted` | scripts/lib/template_state.py:1285-1325 | a built plan passes admission before and after the directories are created |
| `SyncPlan.ReadBack` | scripts/lib/template_state.py:1328-1346 | the readback succeeds if and only if no written file has a mode bit above the permissions |
| `SyncPlan.ReadbackCounterexample` | scripts/lib/template_state.py:1328-1346 | a sticky settings file that differs in content is planned and converges, and the readback of every converged tree fails |
| `Markers.Transform` | scripts/lib/template_init.py:1064-1098 | the line loop over one file computes the specified pass |
| `Markers.Snapshot.ApplyMarkers` | scripts/lib/template_init.py:1050-1100 | the loop over the files rewrites the tree and collects the markers as specified, refusals included |
| `Markers.BlocksExact` | scripts/lib/template_init.py:1070-1096 | a file parses into blocks if and only if it is a sequence of text lines and bracketed, unnested sections, in one way only |
| `Markers.InventoryExact` | scripts/lib/template_init.py:1050-1100 | the pass is accepted if and only if every file is well bracketed with each marker once and the markers found are the inventory; then every file is its projection and nothing else changed |
| `Markers.PortableAgrees` | scripts/lib/template_init.py:1103-1117 | if the full projection is accepted, so is the portable one, and both agree on every manifest file |
| `Markers.ProjectionIsText` | scripts/lib/template_init.py:1071-1077 | no marker line is left |
| `Markers.MoreProfilesMoreLines` | scripts/lib/template_init.py:1075-1077 | selecting more profiles gives a supersequence |
| `Markers.InertExactly` | scripts/lib/template_init.py:1057-1066 | exactly undecodable files and patches below the replay directory are left alone |
| `CargoLock.Reachable` | scripts/lib/template_init.py:1862-1873 | the worklist ends with exactly the packages reachable from the roots, or refuses exactly if one is missing or has a dependency that does not resolve uniquely |
| `CargoLock.Successors` | scripts/lib/template_init.py:1872-1873 | resolves all dependencies of a record, or refuses exactly if one does not resolve |
| `CargoLock.Project` | scripts/lib/template_init.py:1862-1875 | the records kept are the reachable ones, and every dependency label of theirs resolves in the new file to the package it resolved to before |
| `CargoLock.Canonicalize` | scripts/lib/template_init.py:1827-1838 | relabelling in place, while later labels are resolved against the partly rewritten list, equals relabelling all at once, and every label is the shortest that tells its package apart |
| `CargoLock.CanonicalResolves` | scripts/lib/template_init.py:1827-1838 | a shortened label resolves to the same package |
| `CargoLock.ResolvesExactly` | scripts/lib/template_init.py:1536-1543 | a label resolves to a package if and only if that package and no other is meant by its name, or name and version |
| `CargoLock.CanonicalIsShortest` | scripts/lib/template_init.py:1833-1836 | the label written is the name alone if and only if no other package of the file has it, and otherwise name and version |
| `CargoLock.CanonicalKeepsGraph` | scripts/lib/template_init.py:1827-1838 | relabelling keeps every resolved edge and is idempotent |
| `CargoLock.PruneKeepsResolution` | scripts/lib/template_init.py:1536-1543 | pruning keeps the resolution of every label whose target stays |
| `CargoLock.ReorderKeepsResolution` | scripts/lib/template_init.py:1536-1543 | resolution does not depend on the order of the records |
| `CargoLock.RenameResolution` | scripts/lib/template_init.py:1527-1533 | what the service rename does to every label's resolution |
| `CargoLock.DeclaredExact` | scripts/lib/template_init.py:1665-1686 | of a record whose edges resolve to all declared names, exactly the edges to those names are kept |
| `CargoLock.ProjectEdges` | scripts/lib/template_init.py:1665-1686 | the loop over the local packages edits their records in place to the declared edges, and refuses exactly if a package is missing, has a label that does not resolve or lacks a declared name |
| `CargoLock.ProjectLock` | scripts/lib/template_init.py:1848-1875 | declared edges, rename, worklist and relabelling together: when the projection refuses, and that the output holds exactly the reachable packages, each input record's kept labels in order, each the name alone if that is unique in the output and name and version otherwise, resolving to what it resolved to in the input |
| `CargoLock.SortedLock` | scripts/lib/template_init.py:1841-1877 | the same holds of the output in any order |
| `CargoLock.RootsKept` | scripts/lib/template_init.py:1859-1861 | the renamed service and every other local package are in the output |
| `CargoLock.LabelSurvives` | scripts/lib/template_init.py:1527-1543 | a label that resolved in the input and resolves after edges and rename resolves to the same package |
| `Budget.ClockCharges` | scripts/lib/postgres_sustained_budget.py:30-70 | at any time the time left is the limit minus the time charged, and a hold charges exactly the time before it |
| `Budget.Conservation` | scripts/lib/postgres_sustained_budget.py:110-157 | deadline minus now minus required time equals the unused maxima of completed stages, the maxima of removed stages and the released reserve |
| `Budget.RunConservation` | scripts/lib/postgres_sustained_budget.py:73-211 | this holds in every run from the initial state before cleanup, so the program always fits |
| `Budget.ObservationVerdict` | scripts/lib/postgres_sustained_budget.py:110-157 | an observation fails only for a clock that moved back, a hard bound or overhead; the "cannot fit" refusal is unreachable |
| `Budget.InitialInv` | scripts/lib/postgres_sustained_budget.py:73-107 | an admitted initial state satisfies the accounting invariant |
| `Budget.ProgramTotal` | scripts/lib/postgres_sustained_budget.py:73-107 | the maxima of the program add up to 13 620 seconds less the debits, which leaves 540 seconds and the debits for overhead |
| `Budget.StepInv` | scripts/lib/postgres_sustained_budget.py:160-211 | every successful transition before cleanup keeps it |
| `Budget.StageCharges` | scripts/lib/postgres_sustained_budget.py:160-211 | stopping a stage charges it exactly the time since it began; a paused stage is open and can begin again at once, a finished one never, and cleanup charges the running stage |
| `Budget.ConfirmationVerdict` | scripts/lib/postgres_sustained_budget.py:174-189 | when a confirmation is admitted, and exactly which stages stay |
| `Budget.GuardSound` | scripts/lib/postgres_sustained_budget.py:297-319 | without a cancel reason, and with the active stage in the program, every observation through the next twenty seconds succeeds |
| `Budget.GuardExact` | scripts/lib/postgres_sustained_budget.py:297-319 | while wall and monotonic stage clocks agree, the guard stays silent if and only if every observation through one millisecond past the tail succeeds |
| `Budget.LaterVerdict` | scripts/lib/postgres_sustained_budget.py:110-157 | what an observation some time after a successful one comes to |
| `Budget.DroppedActiveIsStuck` | scripts/lib/postgres_sustained_budget.py:174-189 | after a confirmation with a stage running, pausing, finishing and entering cleanup fail for ever if the stage was dropped, and cleanup succeeds if it was kept |
| `Budget.DroppingRunIsStuck` | scripts/lib/postgres_sustained_budget.py:160-211 | from every admitted initial state, screening eight cells, beginning cell 17 and confirming sixteen goes through and leaves such a stuck campaign |
| `Budget.SomeCampaign` | scripts/lib/postgres_sustained_budget.py:73-107 | every deadline that fits the program and both reserves is admitted |
| `Budget.Campaign.Observe` | scripts/lib/postgres_sustained_budget.py:110-157 | the observing loop over the stages computes the specified report |
| `Budget.Campaign.Transition` | scripts/lib/postgres_sustained_budget.py:160-211 | a successful action leaves the specified state, and an action is refused exactly when specified, with the same fault |
| `Budget.Campaign.LockedTransition` | scripts/lib/postgres_sustained_budget.py:297-325 | the durable state changes only on success of the transition and, if asked for, the guard, which names a reason to cancel exactly as specified and fails exactly on an event without overhead or a running stage that is gone |
| `Upgrade.RefMovesOnlyToSeal` | scripts/lib/template_upgrade.py:606-636 | the tool moves the ref only from the recorded resolved commit to the recorded seal |
| `Upgrade.TerminalIsAbsorbing` | scripts/lib/template_upgrade.py:562-645 | in every run with crashes and edits, accepted and aborted are absorbing and a recorded seal is never exchanged |
| `Upgrade.QuietRun` | scripts/lib/template_upgrade.py:606-636 | without outside edits every crash leaves a recoverable or a settled state |
| `Upgrade.RecoveryCompletes` | scripts/lib/template_upgrade.py:562-636 | from a crash at any step, repeated reruns end accepted with ref, control file and index entry at the one recorded seal |
| `Upgrade.FirstAcceptance` | scripts/lib/template_upgrade.py:562-636 | `accept` on a prepared attempt ends accepted if and only if all evidence passes, the candidate is on its branch and clean, the consumer is unmoved, a conflicted attempt has a resolution commit, and the seal adds just the control record and verifies; otherwise the candidate is untouched |
| `Upgrade.AbortVerdict` | scripts/lib/template_upgrade.py:639-645 | `abort` ends exactly the attempts that are neither accepted nor sealing |
| `Upgrade.RerunVerdict` | scripts/lib/template_upgrade.py:606-636 | on a candidate in any condition a rerun settles if and only if branch, ref, content and control file are as the command itself could have left them and the consumer is unmoved or the ref at the seal, and otherwise writes nothing; the staged control entry plays no part |
| `Upgrade.RestVerdict` | scripts/lib/template_upgrade.py:606-636 | for every phase, and at rest, and every candidate found there: exactly when the rest of the command refuses, and exactly which fields it writes otherwise |
| `Upgrade.EditOverwritten` | scripts/lib/template_upgrade.py:606-636 | an outside edit of any fields, at rest or at any phase of an undisturbed command, is overwritten if and only if it is not refused and changes the control file or its index entry before their write to something other than the seal's, or moves the ref back before the check |
| `Upgrade.AcceptedElsewhere` | scripts/lib/template_upgrade.py:626-636 | the attempt is recorded as accepted with the ref elsewhere if and only if the ref was moved away behind the compare-and-swap |
| `Upgrade.StagedControlLost` | scripts/lib/template_upgrade.py:616-634 | every control record staged between a crash and the rerun is lost without a refusal |
| `Upgrade.LateControlLost` | scripts/lib/template_upgrade.py:624-631 | every edit of the control file between the checks and its write, before or after the swap, is lost |
| `Upgrade.MovedRefAccepted` | scripts/lib/template_upgrade.py:629-636 | a ref moved away behind the swap stays there, and the attempt is accepted |
| `Upgrade.SwapRespectsEdits` | scripts/lib/template_upgrade.py:626-629 | a ref moved by somebody else is never overwritten |
| `Upgrade.EveryPhaseReachable` | scripts/lib/template_upgrade.py:606-636 | every undisturbed acceptance passes through every one of these phases |
| `Upgrade.Attempted.FinishSealing` | scripts/lib/template_upgrade.py:606-636 | the uninterrupted command, updating record and candidate in place, is the specified rerun |
| `Upgrade.Attempted.Accept` | scripts/lib/template_upgrade.py:562-603 | likewise for `accept` from every attempt state |
| `Upgrade.Attempted.Abort` | scripts/lib/template_upgrade.py:639-645 | abort changes the record unless it is accepted or sealing, and touches nothing else |
| `Duplication.Admit` | scripts/ci/duplication-check.py:259-295 | the loop with its three dictionaries reports exactly the failures of the charge-list specification |
| `Duplication.UniqueFamily` | scripts/ci/duplication-check.py:264-272 | a pair has a slot if and only if exactly one reviewed family fits both sides |
| `Duplication.ChargedExactly` | scripts/ci/duplication-check.py:264-294 | a pair is charged if and only if exactly one family fits, nothing of the slot is the same or shares a position with it, and the slot's tokens with its own do not exceed either ceiling |
| `Duplication.SideOrderIrrelevant` | scripts/ci/duplication-check.py:276-278 | the verdict does not depend on which side is reported first |
| `Duplication.ChargesAreDisjoint` | scripts/ci/duplication-check.py:279-294 | charges of a slot are non-empty, inside their envelopes and pairwise disjoint on both sides |
| `Duplication.ChargesFit` | scripts/ci/duplication-check.py:279-294 | their lengths sum to at most the envelope's length, on each side |
| `Duplication.TokensWithinCeiling` | scripts/ci/duplication-check.py:288-294 | their tokens total at most the smaller ceiling |
| `Duplication.NothingUnaccounted` | scripts/ci/duplication-check.py:263-295 | with no failures every reported pair is charged or repeats a charge exactly |
| `SourceText.RawOffset` | scripts/ci/duplication-check.py:248-253 | the counting loop computes the offset map |
| `SourceText.RawSplits` | scripts/ci/duplication-check.py:240-253 | for every mixed text and offset, the raw prefix and rest normalise to the normal prefix and rest |
| `SourceText.RawIncreases` | scripts/ci/duplication-check.py:248-253 | the map is strictly increasing |
| `SourceText.RawSlice` | scripts/ci/duplication-check.py:248-255 | the raw slice between two mapped offsets holds exactly the reviewed text |
| `SourceText.AnchorPlace` | scripts/ci/duplication-check.py:191-200 | where an anchor resolves its text stands, pinned to the file's end for a boundary anchor, and any other occurrence overlaps it |
| `SourceText.AnchorExists` | scripts/ci/duplication-check.py:191-200 | a free anchor resolves if and only if it occurs and all its occurrences overlap the first |
| `SourceText.AnchoredInterval` | scripts/ci/duplication-check.py:241-244 | the text between two anchors is framed by their texts |
| `SourceText.OverlappingAnchor` | scripts/ci/duplication-check.py:191-200 | an anchor that occurs twice and still resolves |
| `SourceText.Reduced` | scripts/ci/duplication-check.py:186-188 | the one-iterator greedy test holds if and only if an order-preserving embedding exists |
| `Dlq.StepInv` | scripts/ci/messaging-recovery.py:1055-1180 | every step keeps the controller's invariant and takes back no selection, acknowledgement or intent, and no absence unless a relied-upon stream is replaced |
| `Dlq.RunInv` | scripts/ci/messaging-recovery.py:1055-1180 | so does every run |
| `Dlq.SoundRun` | scripts/ci/messaging-recovery.py:1055-1076 | no relied-upon stream is replaced in a run in which controllers read the session under the lock, or no stream is lost |
| `Dlq.EverySoundRun` | scripts/ci/messaging-recovery.py:1055-1180 | in every such run from a fresh session a recorded `retired` means absent, every delete under way can reach only its own record, and every acknowledged sequence holds its publication |
| `Dlq.DeleteIsJustified` | scripts/ci/messaging-recovery.py:1127-1146 | in every run, sound or not, a delete is requested only under custody and freeze, with no client running, after a durable confirmation the source stream acknowledged; and under an exact match unless a relied-upon stream was replaced |
| `Dlq.LateDeleteIsExact` | scripts/ci/messaging-recovery.py:1143-1155 | however late it lands, a delete removes that record and no other |
| `Dlq.RetiredIsForever` | scripts/ci/messaging-recovery.py:1147-1176 | a record called retired, by the controller or by reconciliation, stays absent through every sound continuation |
| `Dlq.RetireVerdict` | scripts/ci/messaging-recovery.py:1127-1159 | whatever the broker does meanwhile, a finished `retire` journals: retired after a success reply or if missing at the reread, retained, stale or unknown as the reread says, what was seen if the record did not match; and it requested a delete exactly if the record matched |
| `Dlq.ReconcileVerdict` | scripts/ci/messaging-recovery.py:1161-1180 | a finished `reconcile` journals retired if and only if the record is missing and the journal said unknown, otherwise what is there, and requests nothing |
| `Dlq.RetiredReachable` | scripts/ci/messaging-recovery.py:1127-1159 | a run from a fresh session to a journal that says retired |
| `Dlq.RefusalVerdict` | scripts/ci/messaging-recovery.py:1127-1136 | `retire` of a journal without a positive confirmation from the source stream journals refused and begins nothing |
| `Dlq.ReplyVerdict` | crates/infra-messaging/examples/dlq_recovery.rs:478-497 | what the publisher journals for each answer |
| `Dlq.FetchVerdict` | crates/infra-messaging/examples/dlq_recovery.rs:436-482 | what the publisher journals before it publishes, for each way the record can stand in the stream |
| `Dlq.WaitVerdict` | scripts/ci/messaging-recovery.py:1066-1076 | an operation whose client failed keeps its in-flight file |
| `Dlq.OneOperation` | scripts/ci/messaging-recovery.py:1055-1076 | in every run, sound or not, the in-flight file is created only when absent, removed only by its operation or its reconciliation and never while a client runs, and covers every publication |
| `Dlq.StepFresh` | scripts/ci/messaging_recovery_scenarios.py:308-317 | with current snapshots no stream is restored after the freeze |
| `Dlq.StaleSnapshotReachable` | scripts/ci/messaging-recovery.py:436-457 | without either condition a run reaches a state where a delete under way would remove a record nobody selected |

## Left out

- The queue, the child scopes, the dead-letter controller and the crash model of upgrade acceptance are
  step systems over values, because their claims range over interleavings; the files behind the state,
  update in place and the aliasing of the source's dictionaries are not captured.
- Docker, buildx, git, cargo, psql and NATS invocations: their results are inputs of the steps.
- Kernel detail (file locks, sessions, process groups, `/proc`, Darwin calls), `fsync` and link races:
  abstracted to leases, session liveness and atomic writes.
- Build-kit evidence matching, builder cleanup and the rehearsal scenarios: tied to one external version's
  records, or scripted sequences.
- `ensure_safe_destination`, `safe_relative`, `_copy_manifest_to_stage` and the Make and skill checks of
  the synchroniser: single-path tests and copies around the plan.
- The missing-file case of `_render_setting`, Python's own JSON strictness and string escapes: what a
  quoted key decodes to is a function parameter.
- How a line is recognised as a marker, and Python's newline translation and line splitting: line
  recognition is a function parameter, and files are sequences of lines.
- The text of Cargo.lock, its sort key and `_project_optional_feature_edges`: records are values, and
  resolution is proved independent of their order.
- Report schema validation, `lines` and the loop of `envelopes`: `Distinct` states what its unique
  identifiers and enumeration give.
- Evidence export, hashing, receipts of `consume_recovery` and the child-scope threads of the budget
  script: input and output around the arithmetic.
- SHA-256 digests, base64 and the timestamp form of `exact_record`: a message is one value, and a match
  is equality.
- The `crates/` sources other than the publisher's journal steps in
  `crates/infra-messaging/examples/dlq_recovery.rs`.
- Markers.PortableAgrees: takes the manifest's files as a list without repetitions.
- Frames.SplitIndependent: the stop deadline kept after an error may depend on the split; only the queued
  grants and the error are claimed.
- Sentinel.ZeroExit: sessions and process groups are answers of the world, not processes.
- Duplication.ChargesFit: the two sides of one slot may lie in the same file and overlap each other.
