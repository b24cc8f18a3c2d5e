# One-shot protocols and exact counts of the options research pipeline: a Dafny model

The repository runs a set of one-shot, fail-closed protocols over files, and some counting code
whose numbers decide whether a protocol may go on.  This project models the parts where a small
change of order would break a promise, and proves those promises for every input, every run and
every interleaving.

## What is modelled

**Crash-safe publication** (`Storage`, `Kernel`, `Emission`, `Publication`).  The census command
writes three files into a directory named after their content.  `Storage` keeps a live and a
durable copy of every directory and of the files, with background write-back, power loss, a removed
directory that a power loss brings back, and data that was never synced and may read back as
anything.  `Kernel.Machine` offers the system calls as methods; two plans decide for every call
whether it goes through, fails with an OSError, or is where the process is killed: one for the calls
that take names away again, the other for all the rest.  A killed process is dead, and a call's
contract asks for a live one.  `Emission` is the emitter
with its rollback, `Publication` the classifier, the commits and `main`.  The main results: at
whichever call a run stops, it leaves residue that a retry accepts (`PublishCensus`, `Campaign`); whatever
path attests, all names are durable (`PublishCensus`, `AttestedSurvivesPowerLoss`); an emission that fails
anywhere leaves the directory as it was unless a call of the clean-up itself fails, and in no case takes
away or changes a name it did not make (`EmitSet`).

**One-shot authority ledgers** (`HashChain`, `LedgerFiles`, `SealAuthority`, `SealMachine`,
`HoldoutLedger`, `WindowPartition`, `BarsLaunch`).  Hashes are terms, so they are injective, and the
genesis constant is never one.  Three machines run any number of processes interleaved step by step over a shared
ledger, each of which may crash anywhere: sealed-run executors and owners, executions of a holdout
window under a file lock, and bars launchers over many run stores.  A write to a ledger file may be
torn anywhere, also just before the newline.

**Budgeted capture** (`CaptureBudget`, `Deepening`, `AtmGrid`).  The request budget and the client are
objects; `FetchPage`, the page walk, the deepening rounds and the grid selector are the loops of the
source.  A cursor is the number of pages its chain can still have, which is what "a finite chain"
means here.

**Counting and planning** (`CoverageHistogram`, `Calendar`, `Lifecycle`, `Momentum`,
`ExecutionPlan`), over the general facts in `Ordering` and `Options`.

## What turned out different from the comments

- The owner's reconciliation checks one view of the ledger and appends on a later one.  Two owners
  can both credit the same spend, which locks that content for good (`SealMachine.TwoOwnersOverCredit`);
  one owner cannot (`SealMachine.OneOwnerKeepsCausalOrder`).
- A launcher that finds the ledger tail damaged, or moved by anything but its own manifest's consumption, ends by
  an exception nobody catches, and leaves its store's lease behind (`BarsLaunch.AppendOutcomes`).
- No writer of the three ledgers (holdout consumptions, seal authority, bars authority) looks whether the
  file ends in a newline.  A record that loses only its newline is accepted by every reader; the next
  append continues its line, both records become unreadable, and the second writer goes on to evaluate
  or to start its runner (`HoldoutLedger.LostNewlineLosesRecords`, `SealMachine.RunnerOnUnreadableSpend`).
  Nothing is spent twice all the same, because nobody appends past a damaged line.  Exactly when records
  stay readable: over a run of holdout executions, when no step writes a fragment or onto an unfinished
  line (`HoldoutLedger.RunStaysReadableIff`); for the spend of a started runner, whatever follows, when the
  last line was finished at its append (`SealMachine.SpendStaysReadableIff`,
  `BarsLaunch.SpendStaysReadableIff`).
- The budget cap holds over every run of calls exactly while the reserve is not negative, and a negative
  `--bars` is accepted (`CaptureBudget.CapHoldsIffReserveIsNotNegative`; `CaptureBudget.Overspend` is the
  run that goes over).  With a negative cap the grid's picks are not
  prefixes of each other either (`AtmGrid.SmallerCapIsPrefixIff`).
- A cached body that no longer decodes may send requests and then fail, or cost more than is left:
  those requests are never charged, and this is the only way the wire outruns the spend
  (`CaptureBudget.FetchPage`).  Any number of requests can go out so, under any cap
  (`CaptureBudget.FailedHealsAreFree`).
- The comment in `_deepen` allows a live round to run out of budget after a self-heal.  It cannot:
  the check before the round covers that as well (`Deepening.Round`).
- Attestation makes names durable, not bytes: the idempotent path never syncs the member files it
  did not write.  The bytes survive exactly when each file was synced
  (`Storage.BytesSurviveIffSynced`); every file the emitter writes is, and a complete set that somebody
  else wrote and never synced is attested all the same (`Publication.AttestUnsynced`).
- Exit 0 of the census does not say that every pair's master was parsed: a master parsed for a pair
  outside the universe makes up for one that does not parse
  (`CoverageHistogram.CompleteMeansCoveredIff`; `CoverageHistogram.StandInCensus` is such a census).
- The scorer trusts its bars to name a security and a session once.  If a later bar repeats a date, it
  replaces the bar that was visible: the dates a row is computed from move exactly when the repeated
  date is in the row's window (`Momentum.LateBarMovesWindowIff`), and after exactly 21 visible bars the row
  is gone (`Momentum.LateBarTakesRow`).  Nothing in the scorer refuses such bars; whether a loader can
  hand them over is not part of this model.

## Model

| member | source | states |
|---|---|---|
| Storage.PowerLossIsRecoverable | scripts/build_coverage_census.py:921-1011 | a power loss at any moment leaves only final names with exactly the rendered, synced bytes and temps, also when it brings back a directory that had been removed |
| Storage.AttestedSurvivesPowerLoss | scripts/build_coverage_census.py:1283-1405 | what was attested is still there, name for name and byte for byte, after any power loss |
| Storage.BytesSurviveIffSynced | scripts/build_coverage_census.py:1384-1405 | what power losses may do to attested names without synced bytes: every loss leaves all of them intact if and only if each member file was itself synced |
| Storage.PowerLossIs | scripts/build_coverage_census.py:1241-1319 | what a power loss leaves: the chain as far as its components were all durable, and the digest directory with its durable entries, with those of a removed one that comes back, or not at all |
| Storage.WriteBackIs | scripts/build_coverage_census.py:1241-1319 | background write-back makes exactly the entries and components it picks durable |
| Storage.ParentSyncedIs | scripts/build_coverage_census.py:1283-1319 | syncing a parent makes one component durable in it and nothing else |
| Storage.RereadIs | scripts/build_coverage_census.py:1112-1118 | synced data reads back as it was, other data as anything |
| Storage.RemovalCanReturn | scripts/build_coverage_census.py:1835-1875 | a removed digest directory can come back with what it had on disk exactly when its entry had reached the disk |
| Kernel.Machine.CreateTemp | scripts/build_coverage_census.py:1093-1107 | an exclusive create yields a name and an inode that nobody had, and keeps the crash invariant whatever its fate |
| Kernel.Machine.Enter | scripts/build_coverage_census.py:1060-1150 | every call takes the next planned fate and write-back, and a killed process is dead: no contract of a later call can then be met |
| Kernel.Machine.Write | scripts/build_coverage_census.py:1108-1118 | an interrupted write leaves the prefix of the data that its fate says |
| Kernel.Machine.Publish | scripts/build_coverage_census.py:1136-1150 | renaming a temp that holds exactly the rendered synced bytes keeps every copy of the directory recoverable |
| Emission.UnlinkIfOurs | scripts/build_coverage_census.py:1204-1215 | whatever happens, the name only goes while it maps to the inode this run wrote, and nothing else changes; when unlink and lstat go through, it does go |
| Emission.RollBack | scripts/build_coverage_census.py:1172-1194 | no name this run did not create is touched, however it ends; when unlink and lstat go through and the names were free, every published member is taken back and nothing else changes |
| Emission.PublishOrRollBack | scripts/build_coverage_census.py:1136-1194 | success publishes and verifies the whole set; a raise over free names leaves none of it published when unlink and lstat go through; names and files of others stay in every case |
| Emission.EmitSet | scripts/build_coverage_census.py:1014-1201 | a manifest that changed refuses before anything is written, and so does an output name taken by something that is no regular file; success publishes exactly the given members, makes their names durable and verifies the whole set; a raise over free names leaves the directory equal to the one before whenever the calls that take names away go through; for every ending each name it found stays and each new name is a file it created; every call keeps the crash invariant |
| Publication.Classify | scripts/build_coverage_census.py:921-1011 | an undisturbed classification refuses exactly what is not residue of this rendering; a directory with foreign or diverging names is left alone; otherwise only temps are removed, for good, and the missing members are exactly those it names |
| Publication.CreateChain | scripts/build_coverage_census.py:1241-1280 | all missing components are made, each outer one durable in its parent, and the digest directory is then empty |
| Publication.CommitOutputChain | scripts/build_coverage_census.py:1283-1319 | afterwards every component and the digest directory's entry are durable in their parents |
| Publication.RemoveTree | scripts/build_coverage_census.py:1835-1875 | the removal of a refused fresh directory keeps the crash invariant and, undisturbed, removes it |
| Publication.CommitAndAttest | scripts/build_coverage_census.py:1322-1405 | it attests only when the chain, the digest entry and the members are durable and re-read as rendered |
| Publication.PublishCensus | scripts/build_coverage_census.py:1547-1960 | every stop leaves recoverable residue; every attesting path is durable and passed the manifest gate; when the manifest has changed by the write moment no final name appears, and only a set that was complete before is attested; an undisturbed run over residue or over names with the rendered bytes is never refused; however a run ends, no final name it found is taken away or changed, and a complete publication is never rewritten |
| Publication.AttestUnsynced | scripts/build_coverage_census.py:1690-1924 | a complete set of members written by somebody else is attested although one was never synced, and a power loss can then take its bytes |
| Publication.Campaign | scripts/build_coverage_census.py:1690-1924 | after any number of runs stopped at any call, each finding what the one before it or a power loss after it left, one undisturbed run attests exactly the rendered set |
| HashChain.SameTailSameRecords | src/tree_options/seal/ledger.py:195-213 | one tail hash determines all records, so compare-and-append on the tail is compare-and-append on the ledger |
| HashChain.StampIffFollows | src/tree_options/seal/ledger.py:174-213 | a file is what a writer leaves if and only if every line follows the records before it |
| SealAuthority.CheckAuthority | scripts/g4_seal.py:320-411 | it accepts exactly when ids recompute, this very run was never consumed, reconciliations of its six content fields never outrun consumptions at any prefix, the totals are equal and a recomputed approval exists; each error answer has its own exact condition |
| SealAuthority.IdsTellApart | src/tree_options/seal/identity.py:31-59 | two identities share a content exactly when all fields but the checkout and the packet agree, and a run exactly when all fields agree; no run id is a content id |
| SealAuthority.FirstFault | scripts/g4_seal.py:344-392 | the first unreadable or already consuming record decides the answer and makes every longer ledger unsound |
| SealMachine.OneShot | scripts/g4_seal.py:495-666 | under every interleaving, crash and torn write no sealed run is consumed twice, a content is never consumed more than once beyond its re-arms at any prefix, every consumption was approved before, a started runner has its own record, and a reader gets everything ever recorded unless the final line is damaged |
| SealMachine.OneRunnerPerRun | scripts/g4_seal.py:495-666 | two started runners differ in some field of their identities |
| SealMachine.NoFreshLook | scripts/g4_seal.py:382-411 | between two consumptions that agree in the six content fields stands a reconciliation of those fields, whatever the checkout and whatever was recorded before the run |
| SealMachine.RunnerPassedEveryGate | scripts/g4_seal.py:530-660 | a started runner passed both authority checks, the binding, the preflight and the spend, once each and in that order |
| SealMachine.ClosedGateStops | scripts/g4_seal.py:530-660 | an executor that does not pass a gate stops, with nothing written |
| SealMachine.CrashStops | scripts/g4_seal.py:495-515 | a crash writes nothing and stops an executor whose runner has not started |
| SealMachine.StoppedForGood | scripts/g4_seal.py:495-515 | a stopped executor never moves again and writes nothing |
| SealMachine.OwnerMoves | src/tree_options/seal/ledger.py:1267-1395 | an owner holds the check it made through an approval or a note, and loses it with a reconciliation, a cut write or a crash |
| SealMachine.StepKeeps | scripts/g4_seal.py:495-666 | every step of every process, its write whole or torn, keeps the file, record and process invariant and removes nothing from what was recorded |
| SealMachine.ReconciliationKeepsOrderIff | src/tree_options/seal/ledger.py:1310-1395 | a reconciliation keeps causal order if and only if a spend of that content is still uncovered when it lands |
| SealMachine.OverCreditedIsNeverAuthorised | scripts/g4_seal.py:344-392 | a content whose reconciliations ever outran its consumptions is refused whatever follows |
| SealMachine.OneOwnerKeepsCausalOrder | src/tree_options/seal/ledger.py:1310-1395 | with one owner process authority is never granted ahead of the spend it names, in any run |
| SealMachine.TwoOwnersOverCredit | src/tree_options/seal/ledger.py:1267-1395 | from every safe ledger with a finished last line and an uncovered spend, two owners can both credit it and lock the content |
| SealMachine.SpendStaysReadableIff | src/tree_options/seal/ledger.py:1149-1180 | whatever happens after an executor spent, readers get its record if and only if the last line was finished when it appended |
| SealMachine.RunnerOnUnreadableSpend | src/tree_options/seal/ledger.py:1149-1180 | after an approval that lost only its newline the approved executor starts its runner while neither record can be read |
| LedgerFiles.ReadConsumptions | scripts/run_p4_holdout.py:1047-1066 | it returns the records of an intact chain, and refuses exactly when no records produce the file |
| LedgerFiles.BadLineIsFatal | scripts/run_p4_holdout.py:1047-1066 | a line that does not follow the records before it spoils every continuation |
| LedgerFiles.AppendIsReadBackIff | scripts/run_p4_holdout.py:1069-1080 | after an append to an accepted file the records read back with the new one last if and only if the last line was finished; otherwise nobody reads the file again |
| LedgerFiles.SameLastHashSameLedger | scripts/run_p4_holdout.py:1047-1080 | two accepted ledgers whose last records carry the same hash hold the same records |
| LedgerFiles.Replay | src/tree_options/seal/ledger.py:195-213 | only a torn final line is tolerated, left out and reported; it refuses exactly when the lines before the last are no chain |
| LedgerFiles.WriteTracks | src/tree_options/seal/ledger.py:1149-1180 | after a write onto an intact file, whole or torn, a replay gives everything recorded or a prefix of it with a damaged final line; the file stays intact if and only if nothing was written, or no fragment and onto a finished line |
| LedgerFiles.WriteKeepsFirm | src/tree_options/seal/ledger.py:1149-1180 | records followed by a finished line stay readable through every later write, whole or torn |
| HoldoutLedger.OneLook | scripts/run_p4_holdout.py:1209-1273 | under every interleaving, crash and torn write no content is consumed twice, a reader gets every consumption ever recorded or refuses, an evaluating execution recorded its own, and two of them differ in kind, window, world, protocol, dataset, registration or sessions |
| HoldoutLedger.ContentTellsApart | scripts/run_p4_holdout.py:1031-1044 | two approvals have one content exactly when those seven fields agree, whatever head, reason and time they name |
| HoldoutLedger.NoLookTwice | scripts/run_p4_holdout.py:1209-1273 | no two recorded consumptions are for approvals that agree in the seven fields |
| HoldoutLedger.EvaluatesIffFresh | scripts/run_p4_holdout.py:1209-1273 | left alone, an execution ends evaluating on its own record if and only if no recorded approval agrees with its own in the seven fields; otherwise it stops with nothing written |
| HoldoutLedger.CrashStops | scripts/run_p4_holdout.py:1234-1273 | a crash releases the lock and stops an execution that does not evaluate yet |
| HoldoutLedger.StepKeeps | scripts/run_p4_holdout.py:1234-1273 | every step under the lock protocol, with its write whole or torn, keeps the distinct contents, each execution's own record and the choice between reading everything and refusing |
| HoldoutLedger.StaysReadableIff | scripts/run_p4_holdout.py:1047-1080 | a step keeps every record readable if and only if it writes no fragment and writes nothing onto an unfinished last line |
| HoldoutLedger.RunStaysReadableIff | scripts/run_p4_holdout.py:1047-1080 | at the end of a run all records can be read if and only if no step of it spoiled the file |
| HoldoutLedger.WholeWritesLoseNothing | scripts/run_p4_holdout.py:1209-1273 | from a file with a finished last line, every run whose writes are whole keeps all records readable |
| HoldoutLedger.LostNewlineLosesRecords | scripts/run_p4_holdout.py:1069-1080 | from every readable file with a finished last line two executions can end with the second one evaluating and neither record readable, after the first write lost only its newline |
| WindowPartition.LabelCompleteMeans | src/tree_options/trials/p4_verdict.py:69-105 | a session is permitted exactly when it is sealed and the label horizon of later grid sessions lies in the world |
| WindowPartition.LabelCompleteIff | src/tree_options/trials/p4_verdict.py:69-105 | there is a permitted set exactly when some session is label-complete, and it is not empty |
| WindowPartition.SealedAreFridays | src/tree_options/protocol/holdout.py:37-51 | the sealed dates are the thirteen Fridays from 8 May to 14 August 2026 without 19 June and 3 July |
| WindowPartition.DatesInOrder | scripts/run_p4_holdout.py:808-814 | dates compare by year, then month, then day |
| WindowPartition.ScopeIsUnspent | scripts/run_p4_holdout.py:730-806 | the extension has a scope exactly when evidence and committed registration of the base program agree on non-empty sealed dates, and it is then every sealed date not among those |
| WindowPartition.OneApprovalExecutes | scripts/run_p4_holdout.py:1276-1345 | given a registration, a world and a head, exactly one approval executes, and only when the registered dates are those the world permits |
| WindowPartition.ExtensionIsAllOrNothing | scripts/run_p4_holdout.py:807-831 | the extension is accepted exactly when its base records verify and its whole scope is label-complete, and then gets all of it |
| WindowPartition.WindowsPartition | scripts/run_p4_holdout.py:730-831 | the dates of an accepted extension are disjoint from those the base window consumed, and together they are the sealed enumeration |
| WindowPartition.SpentDatesRefuse | scripts/run_p4_holdout.py:1141-1206 | an extension approval that names a spent date, or finds no evidence, is refused |
| BarsLaunch.JoinFindsFirst | scripts/launch_bars_era.py:203-229 | the narrowings find the first approval that binds every input, and none only when there is none |
| BarsLaunch.OneLaunch | scripts/launch_bars_era.py:570-831 | for any launchers on any stores, under every interleaving, crash and torn write, each work manifest is consumed at most once after a binding approval, and a started runner's store is BARS_CAPTURING under its own lease, with its own record that binds all its inputs |
| BarsLaunch.RunnerPassedEveryGate | scripts/launch_bars_era.py:570-831 | a started runner found its store ready, passed the joins with a binding approval and an unspent manifest, took the lease, spent and moved its store, once each and in that order |
| BarsLaunch.ClosedGateRefuses | scripts/launch_bars_era.py:589-775 | a launcher whose store is not ready, whose joins do not hold or whose lease is taken is refused, and nothing else changes |
| BarsLaunch.RefusedDoesNothing | scripts/launch_bars_era.py:589-775 | a refused launcher changes neither ledger nor store |
| BarsLaunch.LaunchGoesThrough | scripts/launch_bars_era.py:570-831 | left alone over an intact ledger, a launcher with a ready store, a binding approval and an unspent manifest ends with its spend recorded, its store moved and its runner started |
| BarsLaunch.CrashLeavesLease | scripts/launch_bars_era.py:754-831 | a crash stops a launcher whose runner has not started and leaves its lease behind |
| BarsLaunch.ApprovalLands | src/tree_options/data/bars_manifest.py:1653-1680 | an approval is recorded on an intact ledger and on no other, and changes nothing else |
| BarsLaunch.OneRunnerPerWork | scripts/launch_bars_era.py:754-831 | two started runners share neither a work manifest nor a store |
| BarsLaunch.AppendOutcomes | scripts/launch_bars_era.py:754-831 | the loser of the duplicate race ends refused with its lease released and its store unchanged; a damaged line or a moved tail ends by exception with the lease left; otherwise the spend is followed by a legal transition |
| BarsLaunch.SpendStaysReadableIff | src/tree_options/data/bars_manifest.py:1467-1525 | whatever happens after a launcher spent, readers get its record if and only if the last line was finished when it appended |
| CaptureBudget.CapHoldsIffReserveIsNotNegative | scripts/capture_massive_structural.py:157-196 | every run of page fetches keeps the spend within the cap if and only if the reserve it runs under is not negative |
| CaptureBudget.Overspend | scripts/capture_massive_structural.py:940-998 | with any negative number of bars reserved, a run of fetches spends and sends more than the cap and ends with a negative balance |
| CaptureBudget.FailedHealsAreFree | scripts/capture_massive_structural.py:313-322 | under any cap any number of requests can go out in self-heals that fail, with nothing spent |
| CaptureBudget.ReplayBlocks | scripts/capture_massive_structural.py:161-182 | a block charge adds exactly its size to what the log replays to |
| CaptureBudget.Budget.ChargeBlock | scripts/capture_massive_structural.py:170-182 | all of the block or none of it is charged, and the log keeps replaying to the spend |
| CaptureBudget.Budget.Refund | scripts/capture_massive_structural.py:184-189 | only a positive refund counts, and the log keeps replaying to the spend |
| CaptureBudget.FetchPage | scripts/capture_massive_structural.py:280-325 | the exact result, charge and wire count of every call from the balance before it, a page carrying the next cursor of its own reply; spend plus unpaid always equals wire plus forfeits; the wire stays within the spend if and only if a hit that sends requests is answered and the balance covers them; a call that can pay its worst case is never refused |
| CaptureBudget.OnwardIs | scripts/capture_massive_structural.py:200-243 | a page has no next cursor exactly when its reply has none or no page is left, and keeps one that names a later page |
| Deepening.CaptureMaster | scripts/capture_massive_structural.py:328-381 | it keeps exactly the pages of the walk and ends as the walk ends: at the page limit, where the balance forbids a call, on a failing or rejected reply, on a foreign cursor, or on a page without a cursor; truncated, failed and not captured say which |
| Deepening.TrackFollowsReplies | scripts/capture_massive_structural.py:352-381 | every page of a walk carries the next cursor of its own reply, the walk goes on from there, and it ends complete exactly on the page without one |
| Deepening.TakeTurn | scripts/capture_massive_structural.py:1089-1116 | the reply decides the turn; at most one page is added, with that reply's next cursor, and what is left of the chain shrinks by it |
| Deepening.Round | scripts/capture_massive_structural.py:1084-1120 | a live round the balance covers, or any round over a full cache, is never exhausted; without exhaustion everything still pending is exactly one page deeper; nothing is counted as deepened exactly when no page was added; a capture leaves only when its chain ends or a note names it, and a round is cut short only by a failing reply; unless it is stuck, the total remaining chain shrinks |
| Deepening.Deepen | scripts/capture_massive_structural.py:1064-1129 | it terminates; live runs leave everything still truncated equally deep; it stops only when nothing is pending, the balance cannot cover another round, a reply failed, or a dry run is stuck after a round that added no page, which a full cache rules out |
| Ordering.SortIgnoresOrder | scripts/capture_massive_structural.py:662-662 | equal collections sort to the same list when the key tells their elements apart |
| AtmGrid.SelectAtmGrid | scripts/capture_massive_structural.py:591-740 | the loops with their seen set compute the first offer of every ticker in walk order, cut to the cap |
| AtmGrid.GroupByStrike | scripts/capture_massive_structural.py:715-717 | the dictionary holds exactly the distinct strikes of the ladder, each with its own contracts in order |
| AtmGrid.NoTickerTwice | scripts/capture_massive_structural.py:722-728 | no ticker is picked twice, under any cap |
| AtmGrid.SmallerCapIsPrefixIff | scripts/capture_massive_structural.py:734-739 | for all picks the smaller cap gives a prefix of the larger one's, if and only if both caps are on the same side of zero or the smaller is not negative |
| AtmGrid.CappedIs | scripts/capture_massive_structural.py:734-740 | a cap keeps the first picks, as many as it says, or all but as many when it is negative |
| AtmGrid.PicksInOrder | scripts/capture_massive_structural.py:662-728 | the picks follow the masters by name and then by date, so a cap drops the last ones |
| AtmGrid.EarliestMasterWins | scripts/capture_massive_structural.py:662-728 | a ticker is picked for the earliest master that has it on its grid |
| AtmGrid.ExpiriesInOrder | scripts/capture_massive_structural.py:693-693 | a master offers its expiries in ascending order |
| AtmGrid.StrikesInOrder | scripts/capture_massive_structural.py:718-724 | an expiry is offered strike by strike, the nearer to spot first and of two as near the lower one |
| AtmGrid.ContractsInOrder | scripts/capture_massive_structural.py:722-723 | a strike's contracts are offered by kind and then by ticker |
| AtmGrid.GridIgnoresCaptureOrder | scripts/capture_massive_structural.py:662-662 | the selection does not depend on the input order of uniquely keyed masters |
| AtmGrid.OffersIgnoreRowOrder | scripts/capture_massive_structural.py:662-728 | nor on the order in which the vendor returned a master's rows |
| AtmGrid.KeptIff | scripts/capture_massive_structural.py:718-721 | a strike is kept if and only if it is on the ladder and at most 2*band others are nearer to spot, ties going to the lower strike |
| AtmGrid.CallsBeforePuts | scripts/capture_massive_structural.py:722-723 | within a strike no put is offered before a call |
| AtmGrid.PickedIff | scripts/capture_massive_structural.py:591-740 | a ticker is on the grid if and only if some captured master with a spot close lists it in band, as a call or as a put where both sides are wanted, monthly, on a strike with at most 2*band others nearer or as near and lower |
| CoverageHistogram.PairEntries | scripts/build_coverage_census.py:243-252 | it refuses exactly when two entries name one pair |
| CoverageHistogram.ClassIs | src/tree_options/data/coverage_census.py:273-302 | the exact condition of every class, and of being incomplete |
| CoverageHistogram.PairClassIs | scripts/build_coverage_census.py:464-498 | the class of a pair from its entry, the disk, the closes and the calendar, class by class |
| CoverageHistogram.FinalClassIs | scripts/build_coverage_census.py:647-753 | a whole pair whose master is another pair's ends missing, one whose master stops short ends truncated, and every other pair keeps its class |
| CoverageHistogram.Reconcile | scripts/build_coverage_census.py:447-520 | exactly the grid is classified, the counters are the histogram of the classes and sum to names times Fridays, and the findings are the pairs that are not complete |
| CoverageHistogram.Observe | scripts/build_coverage_census.py:573-727 | it refuses exactly on a drifted file or an unreferenced pinned master; otherwise parsed and unparseable masters add up to the files named, with the findings of exactly the contradicting entries |
| CoverageHistogram.FindingsAreUnique | scripts/build_coverage_census.py:647-676 | with unique entries there is at most one semantic finding for a pair |
| CoverageHistogram.ApplyJoin | scripts/build_coverage_census.py:730-753 | the loop folds the findings in sorted order into the counters |
| CoverageHistogram.JoinKeepsSum | scripts/build_coverage_census.py:747-752 | the join never changes how many pairs are counted |
| CoverageHistogram.JoinIsHistogramIff | scripts/build_coverage_census.py:730-753 | after the join the counters are the histogram of the joined classes if and only if no pair that is not incomplete already has two findings |
| CoverageHistogram.JoinedClassIsFinal | scripts/build_coverage_census.py:730-753 | a pair ends in the class its own entry and master give it, whatever the order of the findings |
| CoverageHistogram.TakeCensus | scripts/build_coverage_census.py:1632-1638 | exact refusal condition; otherwise the counters are the histogram of every pair's final class, sum to names times Fridays, and the verdict is complete exactly when no final class is incomplete and as many masters were parsed as the grid has pairs |
| CoverageHistogram.CompleteMeansCoveredIff | scripts/build_coverage_census.py:1929-1955 | under a complete verdict every pair's whole master was read if and only if no master was parsed for a pair outside the grid |
| CoverageHistogram.StandInCensus | scripts/build_coverage_census.py:1929-1955 | for any pair, a manifest whose only master in the grid does not parse gets a complete verdict, because a master outside the grid does |
| Calendar.ImpliedCalendar | scripts/inspect_structural_coverage.py:1246-1277 | days spanned equals sessions plus weekday gaps plus weekend days; the gaps ascend strictly and are exactly the non-session weekdays of the span |
| Calendar.WeekendIs | scripts/inspect_structural_coverage.py:350-353 | the weekend is the sixth and the seventh day of the week, and no other |
| Lifecycle.SortSeries | scripts/inspect_structural_coverage.py:1343-1355 | the group is sorted by date, and refused exactly when two masters share one |
| Lifecycle.BirthsLessDeaths | scripts/inspect_structural_coverage.py:1097-1118 | a universe is the one before plus its births minus its deaths, and the born are exactly the new tickers |
| Lifecycle.DeathsSplit | scripts/inspect_structural_coverage.py:1113-1118 | every death is an expiry or an active delisting by its old expiration date, never both |
| Lifecycle.UniverseBalance | scripts/inspect_structural_coverage.py:1097-1146 | over any series the last universe is the first plus all births minus all expiries and delistings |
| Lifecycle.ListedSpans | scripts/inspect_structural_coverage.py:1206-1214 | first and last seen are the least and greatest date that list the ticker, and the count is how many do |
| Lifecycle.TraceLifecycle | scripts/inspect_structural_coverage.py:1206-1229 | one sorted entry for every ticker ever listed, with what the masters leave for it, and the number of contracts in every master |
| Lifecycle.LifecycleKeepsRows | scripts/inspect_structural_coverage.py:1206-1229 | the per-ticker counts add up to the contract rows of the series |
| Momentum.ScoreRows | scripts/run_lane2_wave.py:392-448 | the nested loops give, session by session and security by security, the row of the filed bars; sealed sessions are skipped unless included |
| Momentum.ScoredIff | scripts/run_lane2_wave.py:417-446 | a row is there exactly for a listed session that is not sealed, or included all the same, and a security with a bar that scores there |
| Momentum.RowIff | scripts/run_lane2_wave.py:424-446 | a row is there exactly when the newest visible bar and the twentieth before it exist with positive closes, and it depends on those two closes alone |
| Momentum.NoLookahead | scripts/run_lane2_wave.py:392-448 | two sets of bars that agree on what was published by a session's close give that session the same rows |
| Momentum.LateBarIsUnseenIff | scripts/run_lane2_wave.py:417-419 | filing a later bar leaves the visible bars unchanged if and only if it does not repeat the date of a visible one |
| Momentum.LateBarMovesWindowIff | scripts/run_lane2_wave.py:417-436 | a later bar moves the dates a row is computed from if and only if it repeats one of the last 21 visible dates |
| Momentum.LateBarKeepsRows | scripts/run_lane2_wave.py:417-446 | a later bar that repeats no date of its security's window leaves every row as it was |
| Momentum.LateBarTakesRow | scripts/run_lane2_wave.py:417-433 | after 21 daily bars the row is there, and any later bar that repeats one of the days takes it away |
| ExecutionPlan.MakePlan | scripts/run_lane2_wave.py:451-484 | through the shared entries every slot gets its group's place in its arm, the group's first slot and all its slots, sorted |
| ExecutionPlan.AliasMap | scripts/run_lane2_wave.py:351-358 | every uniquely named slot gets the sorted slots that share its parameters, which are the aliases of its plan row |
| ExecutionPlan.RunIndexIffAliases | scripts/run_lane2_wave.py:451-484 | within an arm two slots share a run index if and only if they are aliases |
| ExecutionPlan.EveryIndexHasAGroup | scripts/run_lane2_wave.py:462-475 | the run indexes of an arm are contiguous from 1, each with a group and a slot that executes |

## Left out

- Vendor HTTP, keys, argument parsing, printing, Markdown and JSON rendering, and the texts of notes and details: the rendering is three given byte strings, and notes are flags.
- SHA-256 and git: hashes are terms, committed bytes a given registration; preimages and collisions are outside the model.
- Tampering with directories between steps: only crashes and honest concurrent processes are modelled, so custody checks that compare inodes of directories always pass.
- Emission.EmitSet: the equality of directories needs unlink and the rollback's lstat to go through (`Kernel.Machine.Tidy`), because an unlink that itself fails leaves its name behind in the source as well.
- Publication.CreateChain: a component made by another process at the same moment is not modelled.
- Kernel.Machine.CreateTemp: a temp's random suffix is a number, and matching its file name against the pattern is the `Temp` constructor.
- Publication.Classify: a digest path that is not a directory, or cannot be opened, is a failing call.
- The manifest, the masters and the spot proxy are read before publication; a change of the manifest between the checks is two flags of `PublishCensus`.
- SealMachine.OneShot: the preflight, the rebuilt packet and the runner binding are outcomes chosen by the scheduler; the custody of the seal ledger's name, anchor and companion store is not modelled; their committed extents refuse already the reading of a glued record, where the machine refuses the append.
- SealMachine.TwoOwnersOverCredit: a raw append of a record kind by other callers of the ledger library is not modelled; owners act through approval, note and reconciliation.
- Record fields that no rule reads, such as reasons and times in the seal ledger, and records whose identity does not parse.
- HoldoutLedger.OneLook: the unlocked look at earlier evidence files before the spend is reduced to the look at the consumption ledger, which is the one that decides.
- WindowPartition.WindowsPartition: the sealed dates are fixed, and the base evidence is taken to be what the base execution wrote; the grid is given in ascending order.
- BarsLaunch.OneLaunch: the preflight reports, work-manifest verification and the vendor key are one outcome chosen by the scheduler; the transitions of a store outside the launch are not steps of the machine, and the committed extent of the bars ledger, which refuses already the reading of a glued record, is not modelled.
- HoldoutLedger.WholeWritesLoseNothing: nothing is promised after a torn write, since the source neither repairs nor looks for an unfinished line.
- CaptureBudget.FetchPage: one client call sends at most the attempt limit, which is the client's contract; bodies are reduced to their next cursor.
- Deepening.Deepen: uniform depth is a property of live runs only; in a dry run misses raise and hits deepen, so depths may differ.
- AtmGrid.SelectAtmGrid: strikes and spot are reals, and the monthly filters are one given predicate on dates.
- The representative chooser, bar capture, the spot proxy merge and the capture manifest: easy beside the grid and the budget.
- CoverageHistogram.Reconcile: finding details, the holiday and spot-gap lists and the spot counter are left out, as are row and contract totals of the re-read masters.
- Lifecycle.UniverseBalance: strike grids, tenors, adjustments and the value counts of a slice are left out; one underlying's series is modelled, not the sums over underlyings.
- Bar attribution by root: the owner set is popped as it goes, which attributes at most one series for a root; no promise rests on it.
- Momentum.ScoreRows: the logarithm of the two closes is a term, and a session's close is a given function.
- Multi-slot execution of a wave: it uses the entry left over from its check loop, and loads its state before it takes the lock, so no per-slot promise holds.
- Trials, statistics and verdicts of the sealed gates, probes, desk reports, calendar generators and the web front end.
