# nftably, verified model

nftably manages nftables firewalls: an operator edits a model of tables, chains and rules, applies it
behind an armed auto-revert, keeps named address lists in the kernel up to date, traces packets through
the rules, compares configurations and backs the model up. This project models that logic in Dafny and
proves what the program relies on. Five parts, and where they live:

- **The armed apply** (`Kernel`, `Bans`, `Protocol`, `CrashSafety`, `Lifecycle`, `Ledger`, `Baseline`,
  `Server`). nft scripts get an interpreter: a bare table statement makes sure a table exists, a delete
  faults when it is absent, a body merges into what is there, and a script is all or nothing. The state is
  the database (versions, one pending row, ledger, model, lists), the kernel, process memory and a bag of
  timers that may fire late. An event is a handler with every call that can fail under its own flag, an edit,
  an outside change, a crash between any two writes, or start-up recovery. `Protocol` gives each event the list
  of states its writes go through; `Server` is the imperative code, a class whose handlers are proved to write
  exactly those states in that order.
- **The packet simulator** (`Matching`, `Conditions`, `Simulation`, `Soundness`, `Gates`). The three-valued evaluator as it is coded,
  with its depth cut-off, its `uncertain` flag and the text-free part of its trace, against two references: the
  two-valued meaning of every condition on a complete packet, and a machine with an explicit jump stack, in which a
  limit may turn out differently at every step.
- **Address lists and set sync** (`Addresses`, `Lists`, `Sets`, `Render`, `ListSync`, `Membership`). Addresses
  are a family and a natural number, prefixes are aligned power-of-two blocks (section 3.1 of RFC 4632), and
  the proofs are divisibility arithmetic.
- **The diff engine** (`EditScript`, `Hunks`): the table of lengths, the script, the hunks, and a patch function
  that they are proved to drive correctly.
- **Ordered rows and backup** (`Positions`, `Database`, `Backup`): integer positions as sequences, and the whole
  model through a document and back. `Model`, `Selection`, `Strings` and `Wrappers` are shared.

A function states what a piece of code computes; where the code works in place the method beside it is proved
equal to that function, and the lemmas are about the function.

## What turned out different from what the code's comments say

- A diff may be empty although the texts differ (`Hunks.EmptyButDifferent`); it is empty exactly when the texts
  agree after line endings are unified and one final newline is dropped (`Hunks.EmptyExactly`).
- A restore is said to leave no half-restored model. A document whose table name comes twice passes the
  validation and fails after the old model is gone (`Backup.HalfRestored`); the rebuild succeeds exactly on
  `Acceptable` documents: no name used twice and lists that may be created (`Backup.RebuildExactly`).
- A restore validates a copy in which blanks are trimmed and a blank kind counts as base, but stores the document's own
  text. Of the chains validated as base exactly those whose kind is `base` to the letter hook in afterwards; any other
  filters nothing (`Backup.BlankKindIsValid`, `Backup.RestoredHooksExactly`).
- A ban with less than a second left comes back from an apply as a permanent ban
  (`Bans.ShortBanBecomesPermanent`, exact condition in `Bans.LifeKeptExactly`).
- A ban set that keeps its name but changes family makes the whole apply fail while an address is banned in it
  (`Bans.FlippedFamilyFaults`, exact condition in `Bans.BansConserved`).
- A failed version can become confirmed or reverted when the pending row of a rejected apply could not be
  cleared (`Lifecycle.FailedCanBecomeConfirmed`, exact condition in `Lifecycle.TerminalChangesExactly` and
  `Lifecycle.FailedRowExactly`).
- The applied baseline can name a configuration the kernel does not run: after a crash between recording a version
  and recording its row, or between clearing a row and writing the status of a rejected or reverted version, after a
  failure of that write, and after confirming a version that is not loaded (`Baseline.Strands`;
  `Baseline.PhantomVersion`, `Baseline.PhantomMisleads` and `Baseline.RevertedStaysPending` are such runs). It is right
  afterwards exactly under the condition of `Baseline.BaselineBreaksExactly`; on every run that avoids these points and
  partly failed pushes it is right throughout (`Baseline.BaselineTruth`).
- The applied-table ledger goes wrong in three ways, each with its exact condition in `Ledger.ConfirmRightExactly`.
  A confirm cut off, or failing, between clearing the row and writing the ledger leaves the old ledger
  (`Ledger.CrashInConfirmKeepsOldLedger`, `Ledger.FailedConfirmKeepsOldLedger`, a run in `Ledger.CrashOrphansTables`).
  After a restart whose recovery failed the set captured at apply time is lost, and a confirm, every write
  succeeding, records the tables of the live model, which may have been edited since (`Ledger.ConfirmedLedgerExactly`,
  a run in `Ledger.FailedRecoveryOrphansTables`). And the version confirmed may not be in the kernel: its load was
  rejected, or it was reverted, and its row could not be cleared (`Ledger.ConfirmedLedgerExactly`). Tables of a loaded
  version that the ledger misses stay in the kernel through the next apply unless the model still has them
  (`Ledger.NextApplyKeepsOrphans`). On every run whose confirms meet the condition the ledger is right
  (`Ledger.LedgerTruth`), and a confirm in the process that applied meets it (`Ledger.ConfirmByApplier`).
- The simulator answers definitely past a limit, quota, verdict map, ban, queue or synproxy statement, a raw rule,
  a port given by name and a set element it cannot read. An answer that went by sure readings of conditions holds in
  every world exactly when every rule it took to match is plain (`Soundness.DefiniteAnswerIsTrue`); two definite
  answers that are wrong are `Soundness.LimitMisleads` and `Soundness.NamedPortMisleads`. A limit, a quota and a rate
  ban can only match or not, and a rate ban drops what it matches; past these an answer is right exactly when every end
  they can lead to is ruled alike (`Gates.AnswerHoldsExactly`). Each single reading has its own exact condition
  (`Soundness.RulingReadExactly`, `Soundness.EffectReadExactly`, `Matching.AddrReadExactly`, `Matching.PortReadExactly`).
- The comment beside the priority check offers `srcnat - 5`. The simulator reads and orders by it, but validation
  refuses every base chain that has it; adding the negative amount is accepted and means the same place in the order
  (`Backup.MinusOffsetRefused`).

## Model

| member | source | states |
|---|---|---|
| Addresses.ContainsIsInterval | internal/store/lists.go:504-538 | A masked prefix contains exactly one interval of addresses |
| Addresses.MaskedIsMasked | internal/store/lists.go:321-334 | Masking is idempotent, keeps the block and every address in it |
| Addresses.CoversIsInclusion | internal/store/lists.go:520-536 | The containment test between cover and prefix is inclusion of address sets, both directions |
| Addresses.OverlapsIsNesting | internal/store/lists.go:410-418 | Comparing under the shorter mask is nesting of the two blocks |
| Addresses.OverlapsIsSharing | internal/store/lists.go:410-418 | Two prefixes overlap exactly when some address lies in both |
| Addresses.NestedOrDisjoint | internal/store/lists.go:429-433 | Blocks that share an address are nested, never partly overlapping |
| Addresses.CoverReachesBetween | internal/store/lists.go:520-536 | A prefix that covers a later one covers every prefix sorted between them |
| Model.PrefixLiteralRoundTrip | internal/store/lists.go:338-347 | Printing a prefix and reading it back gives the prefix |
| Lists.NormalizeIdempotent | internal/store/lists.go:321-334 | Normalising a normalised entry changes nothing |
| Lists.ListableV4 | internal/store/lists.go:540-547 | By its four bytes: every IPv4 address is listable but 127.x, 224.x to 239.x and 0.0.0.0 |
| Lists.ListableV6 | internal/store/lists.go:540-547 | By its groups: every IPv6 address is listable but ::, ::1 and those that start with ff |
| Lists.CanonicalIsPrefixText | internal/store/lists.go:549-554 | Canonical text is exactly the printed form of a masked, listable prefix |
| Lists.KeptIsMaximal | internal/store/lists.go:504-538 | De-overlapping returns exactly the containment-maximal admitted prefixes, strictly sorted |
| Lists.OneCoverSuffices | internal/store/lists.go:520-536 | Remembering a single cover is enough: nothing kept lies inside an earlier kept prefix |
| Lists.DroppedIsCovered | internal/store/lists.go:520-536 | Everything dropped lies inside something kept |
| Lists.KeptDisjoint | internal/store/lists.go:504-538 | No two results overlap |
| Lists.KeptCoverage | internal/store/lists.go:504-538 | The result covers exactly the addresses the admitted input covers |
| Lists.DedupeByContent | internal/store/lists.go:504-538 | Input order and duplicates do not matter |
| Lists.DedupeIdempotent | internal/store/lists.go:504-538 | De-overlapping a de-overlapped list changes nothing |
| Lists.DedupePrefixes | internal/store/lists.go:504-538 | The sorting loop with its running cover computes that result |
| Lists.AddAcceptsExactly | internal/store/lists.go:388-428 | A well-formed entry is accepted exactly when no address of it is on the list already |
| Lists.AddOutcomeExactly | internal/store/lists.go:388-428 | Which error comes when, first reason first: missing list, malformed, unlistable after masking, note over 120, overlap, naming the first entry met; else the masked prefix is accepted |
| Lists.OperationKeepsSound | internal/store/lists.go:388-462 | Adding, replacing and deleting keep every entry canonical and the entries of a list non-overlapping |
| Lists.ListsAlwaysSound | internal/store/lists.go:388-462 | So does every sequence of them |
| Lists.ReplacedEntries | internal/store/lists.go:435-462 | After a replacement the list holds exactly the de-overlapped input, in order, under fresh ids |
| Lists.ReplacedElsewhere | internal/store/lists.go:443 | and every other list holds what it held |
| Lists.AddedEntries | internal/store/lists.go:388-428 | An accepted entry is appended to its own list with the next id; every other list, and the list after a refusal, holds what it held |
| Lists.DeletedEntries | internal/store/lists.go:557-563 | Deleting leaves, in every list, exactly the entries of other ids, in order |
| Lists.IdsAlwaysFresh | internal/store/lists.go:388-462 | Over every sequence of operations ids are distinct and below the next one, so a deletion removes one row |
| Lists.ListStore.AddListEntry | internal/store/lists.go:388-428 | The entries of the list and of every other list afterwards, and the error returned, for a missing list, malformed or unlistable text, a long note and an overlap |
| Lists.ListStore.ReplaceListEntries | internal/store/lists.go:435-462 | The entries of the list afterwards, the count returned, and that every other list keeps its entries |
| Lists.ListStore.DeleteListEntry | internal/store/lists.go:557-563 | Every list keeps exactly its entries of other ids; an error exactly when the entry is missing |
| Lists.ListStore.ListEntries | internal/store/lists.go:350-365 | Reads exactly the list's rows, in id order |
| Sets.EveryBanDeclared | internal/render/sets.go:62-83 | Every ban statement of an enabled rule has its set declared |
| Sets.DeclaredBansExactly | internal/render/sets.go:62-83 | and a ban set is declared only by a ban statement of an enabled rule, with the name and family that statement gives, each name once |
| Sets.SetDefsContent | internal/render/sets.go:19-56 | A set is resolved exactly when an enabled rule references it, no ban set owns the name and it is half of a list; then with that half |
| Sets.SplitFamilyContent | internal/render/sets.go:122-149 | A half holds exactly the list's entries of its family |
| Sets.SplitFamilyRises | internal/render/sets.go:122-149 | in rising order of address |
| Sets.LoadedNamesDistinct | internal/render/sets.go:19-83 | No table declares a set name twice, also when a ban set claims a list's name |
| Sets.CollectNames | internal/render/sets.go:87-104 | The scan finds exactly the names the conditions of enabled rules reference |
| Sets.ReferencedNamesExactly | internal/render/sets.go:87-104 | A name is referenced exactly when a condition of an enabled rule has it behind an at sign |
| Sets.ResolveDynSets | internal/render/sets.go:62-83 | In place, each table gets the ban sets of its enabled rules and changes in nothing else |
| Sets.ResolveSets | internal/render/sets.go:19-56 | In place, each table gets its list-backed sets |
| Sets.LoadTrees | internal/web/model.go:14-51 | Loading resolves ban sets first, lists second, over every table |
| Render.RenderedSets | internal/render/render.go:85-112 | A rendered table declares exactly its ban sets, empty, and its list-backed sets with their elements |
| Render.RulesRender | internal/render/render.go:129-140 | The rendered rules are exactly the enabled rules that are raw or have a condition or statement, in order, each with its own conditions, statements or raw line |
| Render.ModelRenders | internal/render/render.go:72-144 | Every table renders to its flowtables and, one for one, to its chains with their name, hook, type, priority, policy and device and those rules |
| Render.ConfigSound | internal/render/render.go:72-144 | A model with sound lists renders to tables the kernel accepts |
| Render.StoredListSound | internal/store/lists.go:350-365 | What the row operations keep about a list is what rendering needs |
| Membership.ReferencedListDecides | internal/simulate/match.go:188-245 | End to end: after a replacement from any input, a condition on the list's set is yes exactly when an admitted prefix contains the packet's address, else no, never undecided |
| Membership.ClaimedNameUndecided | internal/render/sets.go:19-56 | When a ban set owns the name the condition stays undecided |
| Membership.SetReferenceReads | internal/simulate/match.go:84-245 | A source-address condition on one set name reads that set and nothing else |
| Kernel.ReplaceClears | internal/render/apply.go:52-55 | The ensure and delete pair never faults and removes exactly its table |
| Kernel.TripleReplaces | internal/render/apply.go:21-55 | With the body behind it, the table holds just the new body, whatever it held |
| Kernel.ApplyRuns | internal/render/apply.go:21-33 | The apply script never faults, and its effect on the whole ruleset |
| Kernel.OverlayHolds | internal/render/apply.go:21-33 | Every candidate table ends up exactly as rendered |
| Kernel.RevertRestores | internal/render/apply.go:37-49 | From any ruleset that differs in snapshotted tables only, the revert script gives the snapshotted ruleset back |
| Kernel.ApplyThenRevert | internal/web/apply.go:79-95 | For every model, ledger and ruleset: neither script faults, tables outside both are untouched, and revert after apply is the identity |
| Kernel.RunKeepsSound | internal/nft/client.go:82-96 | No script leaves an unsound ruleset behind |
| Kernel.UnionContent | internal/web/model.go:96-106 | The union names every table of either side, each once |
| Kernel.MinusContent | internal/web/model.go:109-121 | The difference names exactly the first side's tables not in the second |
| Kernel.BuildApplyFile | internal/render/apply.go:21-33 | The loops emit the removals and the replacing triples in order |
| Kernel.BuildRevertFile | internal/render/apply.go:37-49 | The loop emits, for each snapshot, the pair and the old body when there was one |
| Kernel.SnapshotTables | internal/web/model.go:83-93 | Snapshots what each named table holds, or that it is absent |
| Kernel.UnionRefs | internal/web/model.go:96-106 | The loop with its seen-map computes the union |
| Kernel.RefsMinus | internal/web/model.go:109-121 | The loop computes the difference |
| Bans.BuildPreservedElements | internal/nft/sets.go:101-153 | The loop emits one statement for each kept set with elements |
| Bans.KeepKeys | internal/web/apply.go:102-107 | Collects exactly the keys of the model's ban sets |
| Bans.PreservedRuns | internal/nft/sets.go:101-153 | The statements succeed exactly when every set they name kept its family; then each holds its carried elements and no other set changed |
| Bans.BansConserved | internal/web/apply.go:97-110 | The whole transaction succeeds exactly when the model declares every listed ban set it still has, and that holds addresses, with the family it was listed with; and then every ban set still in the model holds the same addresses and prefixes with their carried life, and one not listed as a ban set is empty |
| Bans.LifeKeptExactly | internal/nft/sets.go:155-177 | A ban keeps its whole seconds, or stays permanent, exactly when it is permanent or has a second left |
| Bans.CarriedExactly | internal/nft/sets.go:155-177 | Which elements are carried: all but ranges; and with what life: the whole seconds left, or for ever when there is not one |
| Bans.ShortBanBecomesPermanent | internal/nft/sets.go:155-177 | Half a second left becomes permanent |
| Bans.FlippedFaults | internal/web/apply.go:97-110 | Whenever the one listed ban set of a table is declared with the other family, the apply fails |
| Bans.FlippedFamilyFaults | internal/web/apply.go:97-110 | A concrete apply that fails because a ban set changed family |
| ListSync.DeltaTurns | internal/web/listsync.go:120-138 | Deleting what left and adding what came turns the old half into the new one, and what left was there |
| ListSync.ListEntryDelta | internal/web/listsync.go:120-138 | The two loops compute the entries that came and that left |
| ListSync.GroupBySet | internal/web/listsync.go:100-115 | Addresses are grouped under the set of their family when the table uses it |
| ListSync.PushCommands | internal/web/listsync.go:62-82 | The element commands table by table, deletions before additions |
| ListSync.ResolvedAfterUpdate | internal/render/sets.go:19-56 | Changing one list changes the elements of its two sets and nothing else |
| ListSync.PushRefinesRender | internal/web/listsync.go:33-138 | From a kernel in sync every command goes through, the kernel ends in sync with the new rendering, and no other table changes |
| Protocol.StopTimerMemory | internal/web/apply.go:312-317 | Stopping the timer touches only the timers |
| CrashSafety.EventStaysSafe | internal/web/apply.go:135-158 | In every state an event passes through, an unconfirmed config in the kernel has a row with the pre-apply state of exactly the touched tables |
| CrashSafety.AlwaysSafe | internal/web/apply.go:140-158 | So in every state of every run, with crashes between any two writes |
| CrashSafety.RowNeverOverwritten | internal/store/configversions.go:158-174 | An armed snapshot is never overwritten: the row stays the same or goes |
| CrashSafety.RevertingRestores | internal/web/apply.go:275-294 | A revert that reaches nft succeeds and restores the pre-apply kernel |
| CrashSafety.CrashSafeRevert | internal/web/apply.go:254-290 | From an apply cut short anywhere, through any run that keeps it pending, to rollback, timer or recovery: touched tables return to their pre-apply state and no other table changes |
| Lifecycle.ApplyArms | internal/web/apply.go:135-158 | An apply that loads leaves its row pending, its timer armed and its callback in flight once more than before, free to fire |
| Lifecycle.AutoRevertComes | internal/web/apply.go:157-247 | On every run on which the row stays pending, without a crash and with nothing that stops or fires that timer, the callback stays free to fire; firing it puts the touched tables back to what they were before the apply and marks the version reverted |
| Lifecycle.ResolvingDisarms | internal/web/apply.go:312-317 | Confirming and rolling back stop the timer, and its callback will not come unless it was running already |
| Lifecycle.ResolvingForgets | internal/web/apply.go:189-204 | After an event that settles the row nothing captured at apply time is remembered |
| Lifecycle.CrashForgets | internal/web/apply.go:254-270 | A crash at any write keeps database and kernel as of the cut and loses timers and captured tables, so no revert comes until start-up recovery |
| Lifecycle.TerminalChangesExactly | internal/store/configversions.go:37-55 | A final status changes exactly when the row's version has failed and the event resolves that row |
| Lifecycle.FailedRowExactly | internal/web/apply.go:150-155 | That row comes about exactly through a rejected apply whose row could not be cleared |
| Lifecycle.TerminalIsFinal | internal/store/configversions.go:37-55 | On every run without that, a final status is final |
| Lifecycle.FailedCanBecomeConfirmed | internal/web/apply.go:150-155 | With it, a run in which a failed version ends up confirmed |
| Lifecycle.StaleTimerHarmless | internal/web/apply.go:236-247 | Once a version is resolved its timer changes neither database nor kernel in any later state, however many timers are in flight |
| Lifecycle.ResolvedForever | internal/web/apply.go:236-247 | A resolved version stays resolved on every run |
| Lifecycle.ScriptRuns | internal/web/apply.go:110-122 | A script without carried bans never faults |
| Ledger.ScriptTables | internal/web/apply.go:79-95 | A load removes exactly the ledger's tables the model dropped and adds the model's |
| Ledger.LedgerAlwaysHolds | internal/web/apply.go:167-209 | The ledger invariant over every run in which each confirm that clears its row is right, through rejected applies, failed reverts and recoveries, crashes and edits |
| Ledger.ConfirmRightExactly | internal/web/apply.go:180-204 | At its end and at every point where it can be cut off, a confirm that cleared its row leaves the ledger telling the truth exactly when it is right: what the ledger then names, and what the kernel has |
| Ledger.LedgerTruth | internal/web/apply.go:189-204 | On every such run from a fresh installation, with no apply armed, the ledger is the newest confirmed table set, and of all tables ever confirmed exactly these are in the kernel |
| Ledger.LedgerTruthExactly | internal/web/apply.go:180-204 | The condition is exact: the first confirm of such a run that clears its row, whole or cut off, leaves the ledger right if and only if it meets it |
| Ledger.ConfirmedLedgerExactly | internal/web/apply.go:189-200 | With every write succeeding: a loaded version is recorded rightly exactly when the tables written are its own; one that is not loaded needs its tables to be in the kernel and to include the ledger's as well |
| Ledger.ConfirmByApplier | internal/web/apply.go:189-200 | Confirming in the process that applied is right, however the model is edited in between |
| Ledger.ConfirmedTablesRead | internal/web/apply.go:194-199 | The tables a confirm writes: the captured ones, else those of the live model one by one, else none when it cannot be read |
| Ledger.NextApplyRemovesDropped | internal/web/apply.go:79-87 | So the next load leaves, of all tables ever confirmed, exactly the candidate's |
| Ledger.StaleLedgerExactly | internal/web/apply.go:180-204 | With the row cleared and the ledger not written, the ledger names the tables nftably left in the kernel exactly when it named the confirmed apply's tables already |
| Ledger.CrashInConfirmKeepsOldLedger | internal/web/apply.go:180-204 | A crash at either point after the row is cleared keeps the old ledger through recovery, and the exact condition under which it still tells the truth |
| Ledger.FailedConfirmKeepsOldLedger | internal/web/apply.go:185-200 | The same when the write of the status or of the ledger fails |
| Ledger.NextApplyKeepsOrphans | internal/web/apply.go:79-95 | After a confirm that left the ledger wrong, the next load leaves its own tables and the orphans the ledger misses, so it removes exactly what the model dropped if and only if the model still has every orphan |
| Ledger.CrashOrphansTables | internal/web/apply.go:180-204 | A run: apply any model, crash in the confirm, empty the model, apply; every table is still in the kernel and the ledger is empty |
| Ledger.FailedRecoveryOrphansTables | internal/web/apply.go:189-200 | A run in which every write succeeds: crash once armed, a recovery that fails, empty the model, confirm, apply; the confirm leaves the ledger wrong, and every table is still in the kernel |
| Baseline.ScriptMatches | internal/web/apply.go:110-155 | After a load the kernel holds the candidate |
| Baseline.AppliedTables | internal/web/apply.go:79-158 | After an apply that loads the kernel holds, for every table of the model, its flowtables, chains and exactly the rules that speak |
| Baseline.AcceptedExactly | internal/web/apply.go:55-136 | From a sound state an apply gets past the checks exactly when no row is pending, every call before the row is written succeeds and no kept ban set flipped its family |
| Baseline.AppliedBans | internal/web/apply.go:97-110 | and afterwards every listed ban set the model still has holds the addresses that were carried |
| Baseline.BaselineMovesExactly | internal/web/listsync.go:56-95 | A push touches the recorded baseline only when every command it computes was run and succeeded |
| Baseline.PushLands | internal/web/listsync.go:33-95 | When every call succeeds a push leaves the baseline equal to the new rendering and the kernel matching it |
| Baseline.StaysInStep | internal/store/configversions.go:104-131 | The baseline invariant over every run that strands no version, crashes and failed writes included |
| Baseline.BaselineTruth | internal/store/configversions.go:104-131 | On such a run the latest applied config is the rendering of what the kernel holds in those tables; while an apply is armed but not loaded, the one before it is |
| Baseline.BaselineBreaksExactly | internal/store/configversions.go:104-116 | Ending or crashing at a point that strands a version leaves the baseline right, through recovery too, exactly when the version declares no recorded table differently and every further table of it is in the kernel as rendered |
| Baseline.StrandedExactly | internal/store/configversions.go:104-116 | The same for any state with a newest version in force that is not loaded |
| Baseline.PhantomVersion | internal/web/apply.go:135-148 | A crash between version and row, or a failure to write the row, leaves a pending version that was never loaded |
| Baseline.PhantomMisleads | internal/web/apply.go:135-148 | A run on a fresh installation after which the baseline is an apply of which the kernel has no table |
| Baseline.RevertedStaysPending | internal/web/apply.go:286-292 | A crash between clearing a reverted row and writing its status leaves the version pending for good, the kernel back at what was before it |
| Server.Server.InsertConfigVersion | internal/store/configversions.go:37-47 | One write: the version with its status |
| Server.Server.SetConfigVersionStatus | internal/store/configversions.go:49-55 | One write: the status of that version |
| Server.Server.SetPendingApply | internal/store/configversions.go:158-174 | One write, refused when a row exists |
| Server.Server.ClearPendingApply | internal/store/configversions.go:235-240 | One write: the row is gone |
| Server.Server.SetAppliedTables | internal/store/configversions.go:220-231 | One write: the ledger |
| Server.Server.LatestAppliedConfig | internal/store/configversions.go:104-116 | Finds the newest confirmed or pending version |
| Server.Server.UpdateLatestAppliedConfig | internal/store/configversions.go:123-131 | Rewrites exactly that version's text |
| Server.Server.ApplyFile | internal/nft/client.go:90-96 | Commits the whole script or leaves the kernel as it was |
| Server.Server.Prepare | internal/web/apply.go:72-115 | Candidate, one table for each of the model with exactly the rules that speak, snapshots of exactly the touched tables, and script with the live bans |
| Server.Server.HandleApply | internal/web/apply.go:55-163 | Writes exactly the states of an apply, in order, for every combination of failures; when it loads, the kernel holds the model's tables and the timer is armed |
| Server.Server.HandleApplyConfirm | internal/web/apply.go:167-209 | Writes exactly the states of a confirm |
| Server.Server.TablesToRecord | internal/web/apply.go:194-199 | The tables captured at apply time, or the live model's when they are lost |
| Server.Server.HandleApplyRollback | internal/web/apply.go:213-232 | Writes exactly the states of a rollback |
| Server.Server.AutoRevert | internal/web/apply.go:236-247 | Writes exactly the states of a timer callback, nothing when the row is not its own |
| Server.Server.RecoverPendingApply | internal/web/apply.go:254-270 | Writes exactly the states of a recovery, and serving begins afterwards |
| Server.Server.Revert | internal/web/apply.go:275-294 | Script, row, memory, status, stopping at the first failure |
| Server.Server.PushSetElements | internal/web/listsync.go:33-95 | Steps aside unless the model was in sync and nothing is armed; else writes exactly the states of the push |
| Server.Server.RunCommands | internal/web/listsync.go:56-82 | Each command its own transaction; whether any landed and whether all did |
| Server.Server.ChangeList | internal/web/listsync.go:19-95 | Capture, change and push as one event |
| Matching.AddrReadExactly | internal/simulate/match.go:188-245 | A definite address reading is right in every world exactly when it is sure; otherwise a world in which it is wrong |
| Conditions.AddressConditions | internal/simulate/match.go:84-155 | ip and ip6, saddr and daddr, with every operator and value: which field of the packet is read and what the answer is |
| Conditions.PortConditions | internal/simulate/match.go:110-184 | The same for tcp and udp, sport and dport, with comparisons |
| Conditions.OtherConditions | internal/simulate/match.go:88-127 | The same for both interfaces, the protocol and the connection state; every other key is undecided |
| Conditions.DestinationIsHost | internal/simulate/match.go:101-102 | A destination condition on one host: yes exactly when the packet goes there, whatever its source |
| Conditions.RuleReadExactly | internal/simulate/simulate.go:294-308 | A rule matches when every condition does and not when one does not |
| Matching.PortReadExactly | internal/simulate/match.go:267-284 | A port reading is right in every world exactly when it hits a number or names no service |
| Matching.MatchAgrees | internal/simulate/match.go:84-129 | A definite, sure condition means the same on every completion of the packet |
| Matching.MatchMisread | internal/simulate/match.go:84-129 | One that is not sure is wrong in a world |
| Matching.RuleAgrees | internal/simulate/simulate.go:294-308 | A definite rule that rests on sure conditions means the same on every completion, whatever its unknown conditions are |
| Matching.RuleMisread | internal/simulate/simulate.go:294-308 | A rule read as matching that does not rest on them fails to match in a world |
| Matching.MatchMonotone | internal/simulate/match.go:84-129 | Specifying more of the packet never changes a definite condition |
| Matching.RuleMonotone | internal/simulate/simulate.go:294-308 | Nor a definite rule |
| Simulation.Simulate | internal/simulate/simulate.go:93-146 | The loop over the base chains computes the trace |
| Simulation.RunChain | internal/simulate/simulate.go:107-128 | One chain: the walk from its first rule, or its policy |
| Simulation.Eval.WalkChain | internal/simulate/simulate.go:216-289 | Appends exactly the walk's trace, raises the flag exactly when the walk does, and returns its end, on cyclic graphs too |
| Simulation.Eval.WalkRule | internal/simulate/simulate.go:222-286 | One rule: go on with the next, or end here, with the same trace and flag |
| Simulation.BaseChainsOnHook | internal/simulate/simulate.go:157-176 | Collects and orders the base chains of the hook |
| Simulation.CandidatesExactly | internal/simulate/simulate.go:157-193 | Which chains are walked: the base chains of that hook, not nat, in tables of a family that meets the packet |
| Simulation.SortedByPriority | internal/simulate/simulate.go:170-174 | They are a permutation in rising priority |
| Simulation.PriorityScale | internal/simulate/match.go:16-42 | The number of every keyword, and of a keyword with an amount added or taken off |
| Simulation.VerdictRead | internal/simulate/match.go:57-75 | A rule rules as its first verdict statement says, jumps with the trimmed target |
| Simulation.FindChainExactly | internal/simulate/match.go:44-51 | A jump finds the first chain of that name |
| Simulation.ChainRules | internal/simulate/simulate.go:112-146 | What a chain rules: its decision or its policy, blank meaning accept |
| Simulation.FirstRulingDecides | internal/simulate/simulate.go:105-146 | The chains shown are those up to the first that rules, the answer is its ruling or accept, and it is uncertain exactly when one of their walks was |
| Simulation.TraceIsHonest | internal/simulate/simulate.go:222-286 | Every line of a trace is about an enabled rule of the table and says what its conditions gave and what it rules |
| Simulation.WalkDecidesFinally | internal/simulate/simulate.go:216-289 | A walk that decides ends in accept, drop or reject |
| Simulation.OnlyFirstChainRuns | internal/simulate/simulate.go:105-140 | With valid policies only the first base chain in priority order is evaluated |
| Soundness.WalkIsMachine | internal/simulate/simulate.go:216-289 | A certain walk that went by sure readings and plain rules: the jump-stack machine reaches its outcome on top of any stack, and its trace is the machine's log of the rules it visited |
| Soundness.PathMisleads | internal/simulate/simulate.go:216-289 | A certain walk that went by a rule that is not plain: for any ruling, a world in which the machine decides against it, on top of any stack |
| Soundness.ChainAnswerHolds | internal/simulate/simulate.go:105-128 | On one base chain, in every world completing the packet, such an answer holds, and the trace is the log of the machine that decides so |
| Soundness.ChainAnswerFails | internal/simulate/simulate.go:105-128 | And one that went by a rule that is not plain fails in the contrary world |
| Soundness.DefiniteAnswerIsTrue | internal/simulate/simulate.go:93-146 | The first base chain decides, the same for every completion; a definite answer that went by sure readings holds for every completion and every meaning of what is not modelled exactly when every rule it took to match is plain |
| Soundness.LimitMisleads | internal/simulate/match.go:57-71 | A limit before an accept on a chain that drops: a definite accept for every packet, and over the limit a drop |
| Soundness.NamedPortMisleads | internal/simulate/match.go:267-284 | A port by name: a definite drop for every TCP packet, and an accept where the name stands for its port |
| Soundness.DecidesOnce | internal/simulate/simulate.go:216-289 | The machine decides a packet in one way only |
| Soundness.MoreInformationKeepsTrace | internal/simulate/simulate.go:93-146 | Specifying more of a packet of known family changes neither a definite answer nor a line of its trace, in every model |
| Soundness.LimitNeverReached | internal/simulate/simulate.go:216-221 | On an acyclic graph nested at most 16 deep a higher limit gives the same walk |
| Soundness.AcyclicIsDefinite | internal/simulate/simulate.go:216-289 | There, with every condition known, the answer is definite |
| Soundness.LoopBails | internal/simulate/simulate.go:216-221 | In any table a walk that runs into a cycle bails at the limit and says so, from any depth and with any limit |
| Soundness.SelfJumpBails | internal/simulate/simulate.go:216-221 | A chain that only jumps to itself decides nothing, and says so |
| Soundness.CutOff | internal/simulate/simulate.go:216-221 | The cut-off comes at depth 17, and only there is the flag raised without a rule |
| Soundness.RulingReadExactly | internal/simulate/match.go:57-71 | What a rule does is read rightly in every world exactly when no gating statement comes first |
| Soundness.EffectReadExactly | internal/simulate/match.go:57-71 | The same for whole rules, raw ones included |
| Gates.TameRuling | internal/nftcat/catalogue.go:391-631 | However limits, quotas and rate bans turn out, a rule does what it does when all of them match, or when the first one ends it |
| Gates.RunsToEnd | internal/simulate/simulate.go:216-289 | However they turn out at each step, the jump-stack machine comes to one of the computed ends, on top of any stack |
| Gates.EndIsReached | internal/simulate/simulate.go:216-289 | And to every one of them: for each end there are turns of the gates that lead there |
| Gates.PlainEnds | internal/simulate/simulate.go:216-289 | A certain walk by sure readings and plain rules has its own end as the only one |
| Gates.AlwaysRuledExactly | internal/simulate/simulate.go:105-128 | On a clear chain nft always rules so, for every completion of the packet and every turn of the gates, exactly when every end is ruled so |
| Gates.AnswerHoldsExactly | internal/simulate/simulate.go:93-146 | So the simulator's answer holds exactly when every end is ruled as it rules |
| Gates.LimitEnds | internal/simulate/match.go:57-71 | A limit before a drop on a chain that drops is harmless; before an accept there, neither ruling holds always |
| EditScript.LcsBounds | internal/render/diff.go:61-76 | The table bounds the length of every common subsequence |
| EditScript.LcsScript | internal/render/diff.go:61-101 | Filling the table and reading it off gives the script |
| EditScript.ScriptEdits | internal/render/diff.go:78-101 | The two projections are the old and the new lines, and the line numbers are theirs |
| EditScript.KeptIsLongest | internal/render/diff.go:61-101 | The kept lines are a common subsequence and none is longer |
| EditScript.FewestChanges | internal/render/diff.go:61-101 | No script between the same texts changes fewer lines |
| EditScript.DeletionsFirst | internal/render/diff.go:78-101 | Within a run of changes the deletions come first |
| EditScript.SameLines | internal/render/diff.go:43-50 | When two texts have the same lines |
| EditScript.UnixEndsExactly | internal/render/diff.go:43-50 | Exactly the pairs of carriage return and newline become newlines |
| Hunks.BuildHunk | internal/render/diff.go:144-162 | The loop computes starts, counts and lines of a segment |
| Hunks.MarkKept | internal/render/diff.go:119-127 | The marking loops show exactly the steps within the context of a change |
| Hunks.Hunks | internal/render/diff.go:105-142 | Marking and cutting gives one hunk for each maximal run within the context of a change |
| Hunks.HunksPatch | internal/render/diff.go:105-162 | For any context, copying the gaps and applying the hunks in order turns the old lines into the new ones, every header and context line fitting |
| Hunks.HunksHonest | internal/render/diff.go:105-162 | Hunks are ordered with unchanged lines between them, and both ranges of a header name exactly the hunk's lines |
| Hunks.HunksShowContext | internal/render/diff.go:103-142 | Each hunk begins and ends exactly the context away from a change or at the end of the script, shows nothing further from a change, and every change is in one |
| Hunks.Stat | internal/render/diff.go:165-177 | Counts the added and the removed lines across all hunks |
| Hunks.StatIgnoresContext | internal/render/diff.go:165-177 | The counts are the script's, whatever the context |
| Hunks.Diff | internal/render/diff.go:31-41 | The whole pipeline, negative context clamped |
| Hunks.DiffShowsContext | internal/render/diff.go:31-41 | The same for the whole diff, a negative context shown as none |
| Hunks.DiffThenPatch | internal/render/diff.go:31-41 | Patching with the diff gives the new text's lines |
| Hunks.EmptyExactly | internal/render/diff.go:26-41 | When the diff is empty |
| Hunks.EmptyButDifferent | internal/render/diff.go:26-41 | Two different texts with an empty diff |
| Positions.ListingIs | internal/store/model.go:431-445 | A listing is determined by the scope's rows: any sorted sequence of them is it |
| Positions.CreatedItems | internal/store/model.go:564-594 | Creating appends to, or prepends to, exactly its own scope |
| Positions.MovedItems | internal/store/model.go:782-821 | Moving exchanges the row with its neighbour in its scope, or nothing at the end, and touches no other scope |
| Positions.NeighbourIsAdjacent | internal/store/model.go:797-808 | The neighbour query finds the adjacent row of the listing |
| Positions.FinalPermutes | internal/store/model.go:735-750 | Whatever stale or repeated ids are asked for, no row is dropped or duplicated |
| Positions.FreshRequestObeyed | internal/store/model.go:735-750 | A request naming every row once is obeyed to the letter; one naming none changes nothing |
| Positions.FinalOrders | internal/store/model.go:735-750 | For any request and any two rows: what was asked for comes first, in the order it was first asked for, the rest follows in the order it was in |
| Positions.ReorderedItems | internal/store/model.go:702-758 | Reordering lists exactly the scope's rows in the final order, and no other scope changes |
| Positions.RearrangedPermutes | internal/store/model.go:702-758 | The reordered listing holds the same items, each once |
| Positions.ReassignedItems | internal/store/model.go:766-777 | The row leaves its chain and becomes the last of the target, also when the two are one |
| Positions.DeletedItems | internal/store/model.go:657-663 | Deleting removes the row and keeps the order of the rest |
| Positions.WithoutExactly | internal/store/model.go:657-663 | exactly the items of other ids are left, in order |
| Positions.StepRefines | internal/store/model.go:564-821 | Every operation on positions is the operation on sequences |
| Positions.RunRefines | internal/store/model.go:564-821 | Over every run positions stay distinct within a scope, and each step does to the listings exactly what it says |
| Positions.PositionTable.Create | internal/store/model.go:564-594 | The rows after an insert, under the next id |
| Positions.PositionTable.Move | internal/store/store.go:93-132 | The rows after a move; an error exactly for a missing row |
| Positions.PositionTable.Reorder | internal/store/model.go:702-758 | The rows after the renumbering loop |
| Positions.PositionTable.Reassign | internal/store/model.go:766-777 | The rows after a reassignment; an error exactly for a missing row |
| Positions.PositionTable.Delete | internal/store/model.go:657-663 | The rows after a deletion; an error exactly for a missing row |
| Positions.FinalOrder | internal/store/model.go:735-750 | The two loops with their placed-map compute the final order |
| Positions.InsertBanRules | internal/web/posture.go:489-499 | Inserting a recipe last rule first leaves its rules, enabled and in order, above the old ones, and no other chain changed |
| Database.NormalFlowtableIdempotent | internal/store/flowtables.go:38-63 | Storing a stored flowtable changes nothing |
| Database.NormalListIdempotent | internal/store/lists.go:73-107 | Storing a stored list changes nothing |
| Database.WrittenRuleIdempotent | internal/store/model.go:626-654 | Writing a written rule's children changes nothing |
| Database.RuleStored | internal/store/model.go:564-654 | A stored rule has the given comment, enabled flag, raw line and tags, and exactly its conditions and statements with a key, in order, an empty operator read as equality |
| Database.StoredExactly | internal/store/model.go:626-654 | Which rows are stored forms: every rule, disabled ones included, whose conditions and statements have keys and whose conditions have operators |
| Database.CreatesExactly | internal/store/schema.go:155-220 | When a creation succeeds: the name is free, a table's with its family, a chain's and a flowtable's within the table; the parent exists; flowtable and list are valid |
| Database.CreatedTable | internal/store/model.go:290-300 | A created table is the given one without its children, last of the tables; nothing else changes |
| Database.CreatedFlowtable | internal/store/flowtables.go:38-113 | A created flowtable is the given one with its text trimmed and blank devices left out, last of its table |
| Database.CreatedChain | internal/store/model.go:389-399 | A created chain is the given one, last of its table |
| Database.CreatedRule | internal/store/model.go:564-594 | A created rule is the given one as just said, last of its chain |
| Database.CreatedList | internal/store/lists.go:73-127 | A created list is the given one with its defaults filled in, last of the lists |
| Database.CreateTableSound | internal/store/model.go:290-300 | Creating a table keeps ids, positions, foreign keys, unique names and stored forms |
| Database.CreateFlowtableSound | internal/store/flowtables.go:100-113 | So does creating a flowtable |
| Database.CreateChainSound | internal/store/model.go:389-399 | So does creating a chain |
| Database.CreateRuleSound | internal/store/model.go:553-594 | So does creating a rule |
| Database.CreateListSound | internal/store/lists.go:111-127 | So does creating a list |
| Database.AddEntrySound | internal/store/lists.go:388-428 | So does adding an entry, accepted or not |
| Database.DeleteTableSound | internal/store/model.go:313-319 | Deleting a table and what hangs under it keeps all of it, and removes just that table |
| Database.DeletedTable | internal/store/model.go:313-319 | The table leaves its listing, its flowtables, chains and their rules go, and every other listing stays |
| Database.DeleteListSound | internal/store/lists.go:198-226 | Deleting an unreferenced list keeps all of it, and removes just that list |
| Database.DeletedList | internal/store/lists.go:198-226 | A list is deleted exactly when it exists and no rule references it; then it and its entries go and every other list keeps its own |
| Database.ReferencedListExactly | internal/store/lists.go:276-292 | A condition references a list by either of its set names, or by its own name when that has no family suffix |
| Database.ReferencedExactly | internal/store/lists.go:241-269 | A list is referenced when a condition of any rule, enabled or not, points at it |
| Backup.PutTableEffect | internal/web/backup.go:277-299 | A table is restored exactly when its name and the names inside it are free; then it is read back in stored form after the others |
| Backup.PutListEffect | internal/web/backup.go:262-276 | A list is restored exactly when it is valid and its name free; then it is read back with its surviving entries |
| Backup.WipedIsEmpty | internal/web/backup.go:249-261 | The wipe never fails and leaves nothing: with the tables gone no rule references a list |
| Backup.RebuildExactly | internal/web/backup.go:249-301 | The rebuild succeeds exactly on acceptable documents, and then building gives the document's normal form, whatever was stored before; every outcome leaves a sound store |
| Backup.AcceptableExactly | internal/web/backup.go:249-301 | The documents that rebuild, in plain words: lists valid, and no list, table, chain or flowtable named twice where that is one name |
| Backup.NormalDocumentKeeps | internal/web/backup.go:203-301 | What the normal form keeps: every table, flowtable, chain and rule in order with every field of it, disabled rules too, every list, and of its entries exactly those that fit |
| Backup.EntriesKept | internal/web/backup.go:262-276 | The entries kept are those that are listable, have a short note and overlap none kept before |
| Backup.BlankKindIsValid | internal/store/model.go:98-108 | A blank kind passes the validation exactly when the kind base does, though it is not base |
| Backup.RestoredHooksExactly | internal/web/backup.go:237-293 | After a restore a chain that was validated as base is among those a packet runs through exactly when its kind is base to the letter |
| Backup.RestoredChainsRule | internal/web/backup.go:219-301 | Every chain a packet runs through after a restore has a policy that rules and a priority that can be read, as `Simulation.OnlyFirstChainRuns` asks |
| Backup.BackupRoundTrip | internal/web/backup.go:89-301 | The document of any sound store, restored over any sound store: accepted exactly when it passes the validation, and then it builds the same document again, same order throughout, no entry skipped; refused, it changes nothing |
| Backup.NothingSkippedExactly | internal/web/backup.go:272-275 | A list loses an entry exactly when some entry cannot be listed, has too long a note or overlaps another |
| Backup.HalfRestored | internal/web/backup.go:219-301 | Over any store, a document that passes validation and is refused half-way |
| Backup.MinusOffsetRefused | internal/store/model.go:144-166 | A keyword less an amount is read and ordered by, refused in every base chain and document, and equal to adding the negative amount, which is accepted |
| Backup.ValidateDocument | internal/web/backup.go:220-247 | The nested loops accept exactly the valid documents |
| Backup.Store.RestoreBackup | internal/web/backup.go:219-301 | Nothing changes unless the document is valid; success exactly when it is acceptable too, and then the document built from the store keeps everything in it that can be stored |
| Backup.Store.BuildBackup | internal/web/backup.go:89-148 | The nested loops build the document |

## Left out

- Text: addresses, prefixes, numbers and priorities enter as what the parsers make of them, next to the text; the parsers themselves, IPv6 zones and mapped addresses are not part of this model.
- Rendered text: a rendered table is its flowtables, chains and sets, not a string; that nft lists a table so that the listing reloads to the same table is part of the kernel interpreter.
- Render.RenderTable: the named counters a table declares are left out; a rule that does not render, which the writer skips, is a rule that renders here, since what renders is the catalogue's word.
- Drift fingerprints, audit log, alerts, deadlines shown to the operator, HTTP, JSON and SQL encoding.
- Concurrency below the apply lock: every handler is one event, cut short only by a crash.
- ListSync.PushRefinesRender: capture, change and push are one step; a model edit racing between them is not modelled, and a partly failed push is left to the events of `Protocol`.
- Baseline.BaselineTruth: excludes the points named in `Baseline.Strands`, where `Baseline.BaselineBreaksExactly` says when the baseline is still right, and a push that fails or is cut off part-way, of which nothing is said; changes from outside leave the recorded tables alone.
- Ledger.LedgerTruth: excludes confirms that are not right, where it is false (`Ledger.LedgerTruthExactly`), and changes from outside that create or delete a table some version recorded.
- Lifecycle.TerminalIsFinal: excludes runs in which a rejected apply cannot clear its row, where it is false.
- Soundness.DefiniteAnswerIsTrue: exact for answers that went by sure readings of conditions, for packets of known family and a first base chain whose policy passes validation. Of a reading that is not sure nothing is said in general, since a rule that would match after all may decide the same; `Soundness.NamedPortMisleads` shows that it may not. A gating statement or a raw rule may end its rule in any way there.
- Gates.AnswerHoldsExactly: narrows that to what nft can do for limits, quotas and rate bans; a verdict map, a queue, a synproxy and a raw rule may still end their rule in any way. It asks for sure readings on every way the gates can lead.
- Simulation.Simulate: the texts of a trace (deciding rule, notes, previews) are left out; what a rule matched, its verdict and the flag are kept.
- Matching.MatchAgrees: interface names compare as the code compares them, so a wildcard name is an ordinary name.
- Bans.BansConserved: stated for a complete listing of the kernel's sets; when nft cannot be read the apply goes on without bans, which is the empty listing.
- Simulation.BaseChainsOnHook: the standard library sort is an insertion sort; chains of equal priority may come in any order in the theorems.
- Positions.RunRefines: time stamps are left out, and a row's parent is not checked here; `Database` checks it. Tables and lists use one common scope.
- Backup.Store.RestoreBackup: whether a rule renders is a parameter; statement parameters are decoded maps, so blank and empty ones are the same; a flowtable's devices are the pieces between its commas; characters stand for bytes in length limits.
- Database.CreateChainSound: updates of existing rows are left out; they would add only the same normal forms again.
- The hunk header line, the row updates, the list refresh sources (GeoIP, feeds, DNS), presets, posture grading, settings, pages, log parsers and the login limiter: easy members next to the above.
