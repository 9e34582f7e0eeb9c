# Verification of the platform's bookkeeping

A Dafny model of six parts of the repository whose mistakes would be silent: merging an
accounts backup into the live database, choosing what each release cycle builds, inferring
names from source code and auditing gates over a call graph, the credential store, four step
protocols (the isolated child process, the agent run, the nightly backup's timetable and its
retention), and the build page's honesty rules. `dafny verify dfyconfig.toml` checks it all.

Code that changes state is modelled as classes and loops and proved equal to a specification
function; code made of expressions is modelled as functions. The theorems are about those
functions, over every input and every run.

| files | part of the repository |
|---|---|
| AccountsTables, MergePlan, EmailParking, Displacement, AccountsMerge, MergeGuarantees, MergeConstraints, OrphanRows, LiveCrowd, MergeVerification, MergeRepeat, RepeatedConflicts, ParkingTruth, QuietRepeats, QuietSources, DryRun, DryRunInputs, MergeOutcome | backend/scripts/migrate_accounts_to_postgres.py |
| ReleaseRotation, RotationPicks, RotationRuns, RotationMemory, RotationCoverage, ReleaseCycle, RotationRecord, WaveBudget | scripts/release_cycle.py |
| NameInference, NameDerivations, GateAudit | scripts/scan_hardwiring.py, scripts/audit_gates.py |
| CredentialStore, CredentialRules, CredentialPurge, CredentialRuns, CredentialLifetimes, CredentialUse, TokenLifetimes, CredentialAnswers | backend/app/core/accounts_store.py |
| Isolation, AgentEnvelope, EnvelopePaths, AgentRun, AgentTurns, BackupSchedule, ArchiveNames, BackupRetention | backend/app/cerebrum_product_kernel/isolation.py, runtime/, backend/app/core/backup_scheduler.py, backend/app/core/backup.py |
| BuildRecord, BuildHonesty, BuildCases, BuildObservation, ObservationCases | frontend/src/buildProgress.ts |
| Common, NameLists, Text | what several of these share |

## Where the code does not keep a promise

Each of these is a theorem: the code is modelled as it is, and the exact condition under
which the promise holds is proved.

- A child row whose account reference is empty is merged although it belongs to no account
  (`if account_id and ...`, line 396). `OrphanRows.NeverOrphansExactly`.
- An account whose id is the empty string counts as "no owner" of its email. A source account
  with that email is then dropped by the unique check with no conflict reported, and the merge
  fails its own verification. It happens to targets that hold such an account
  (`MergeVerification.VerificationExactly`) and to sources in which one comes before another
  row with its email (`MergeVerification.SourceVerificationExactly`; the smallest such source
  is `MergeVerification.TwinInput`).
- A parked address may be held by another account after normalisation when the displaced id
  has an upper-case letter, and then the merge leaves two accounts with one email.
  `EmailParking.ParkingFreshExactly`, `MergeConstraints.KeepsConstraintsExactly`.
- Without `prefer_source` a repeated merge reports the same conflicts only if no conflicting
  id got in through another row: for every target, exactly when no id of the source stands
  twice with different emails. `RepeatedConflicts.ConflictsRepeatExactly`, and the target of
  `RepeatedConflicts.RepeatedIdForgets`.
- With `prefer_source` a repeated merge parks accounts anew when two source accounts share an
  address, when one asks for an address of the parked form before another asks for one that is
  held, or when one asks for an address of the parked form with a letter in its name, where, but
  for letter case, an id with an upper-case letter is parked. Over all targets it is quiet exactly
  when the source does none of this (`QuietSources.QuietExactly`), and of a source that does
  neither of the first two, exactly for displaced ids without upper case
  (`QuietSources.QuietExactlyForId`). The targets are those of `QuietSources.SharedAddressParks`,
  `QuietSources.LateParkingRepeats`, `QuietSources.UpperAddressRepeats` and
  `QuietSources.UpperParkedAgain`.
- With `prefer_source` a dry run misreports as soon as a source row for an account that is not
  there yet asks for an address whose holder, after normalisation, the parking changes, or the
  database refuses an update. `DryRun.DryRunExactly` and `DryRun.DryRunOutcomeExactly`, and the
  inputs of `DryRunInputs.DryRunMisleads` (a conflict that the real run does not find) and
  `DryRunInputs.DryRunMisses` (one that the dry run does not).
- "Never picked again" holds of a certified blueprint only while its report is among the
  thirty newest runs, of which those without a report count too. While no more blueprints are
  left to certify than thirty-one cycles can pick, it lasts exactly when the committed seed lists
  the blueprint (`RotationMemory.CertificationLastsExactly`; the history of
  `RotationMemory.PickedAgain`). In a larger pool a blueprint that stands behind so many is never
  picked at all: `RotationMemory.ReachedExactly`.
- "The next pool blueprint never built" goes by the same thirty runs: what was built before them
  counts as never built, and comes first again if it stands early in the pool. Whatever the
  builds come to, every blueprint keeps being built exactly when no more are left uncertified by
  the seed than a cycle has slots and a window has reports (with a single slot, no more than
  one); in a larger pool failing cycles can go on for ever without one of them.
  `RotationCoverage.CoversExactly`.
- A purge can be observed: token lookups compare a stamp without a UTC offset to the clock,
  which raises, while the purge reads it as UTC and deletes the row, so that the lookup then
  finds nothing. `CredentialRuns.PurgeUnobservableExactly`.
- On a build whose state is `waiting` the page copy invites a download while the button says
  "Building…". `BuildHonesty.CopyAgreesExactly`, `BuildHonesty.WaitingMisleads`.
- A passing cycle certifies all its picks except a blueprint named `smoke_b`, whose entry the
  second smoke's replaces. `ReleaseCycle.PassingReportCertifies`.
- A halted or crashed agent run reports no changed file, whatever it wrote: a report names the
  written files exactly when the run completed or wrote nothing.
  `AgentRun.ReportsSplitTheDeclaration`, and the run of `AgentRun.UnreportedWrite`.

## Model

| member | source | states |
|---|---|---|
| MergePlan.PlanTable | backend/scripts/migrate_accounts_to_postgres.py:349-424 | The planning loop, branch by branch, ends in the plan that the row-by-row specification gives |
| MergePlan.PlanTracks | backend/scripts/migrate_accounts_to_postgres.py:355-424 | After any prefix of the source the planner's key sets, owners and known ids are those of the table with the payload already inserted |
| MergePlan.PlanCounts | backend/scripts/migrate_accounts_to_postgres.py:362-424 | Inserted plus skipped is the number of source rows, and only source rows are inserted |
| MergePlan.PlanKeepsConstraints | backend/scripts/migrate_accounts_to_postgres.py:362-424 | Inserting a payload never meets a primary-key or unique constraint, and keeps emails distinct after normalisation |
| MergePlan.PayloadAccountsKnown | backend/scripts/migrate_accounts_to_postgres.py:394-398 | A planned child row names a known account, or none at all |
| MergePlan.RowsExplained | backend/scripts/migrate_accounts_to_postgres.py:362-424 | Why a row was inserted or skipped at its turn still holds of the finished plan |
| MergePlan.LastExplained | backend/scripts/migrate_accounts_to_postgres.py:376-413 | Only an account with an empty id can hold an email that the later unique check finds taken |
| EmailParking.Park | backend/scripts/migrate_accounts_to_postgres.py:328-334 | The parking loop ends for every finite set of taken addresses, with an address not among them |
| EmailParking.CandidatesDistinct | backend/scripts/migrate_accounts_to_postgres.py:301-304 | No candidate address is ever tried twice |
| EmailParking.ParkedExactly | backend/scripts/migrate_accounts_to_postgres.py:301-334 | The address, written out: the first of the numbered ones that is not taken |
| Text.NormExactly | backend/scripts/migrate_accounts_to_postgres.py:175-176 | What is compared of an email: the text between the spaces at either end, its ASCII capitals made small |
| Text.WordCharsExactly | backend/scripts/migrate_accounts_to_postgres.py:301-304 | The letters, digits and underscores of an id, in order |
| EmailParking.ParkingFreshExactly | backend/scripts/migrate_accounts_to_postgres.py:301-334 | The parked address is free after normalisation, whatever is taken, exactly when the id has no upper-case letter |
| Displacement.MoveFrame | backend/scripts/migrate_accounts_to_postgres.py:307-346 | Parking changes nothing but the email of accounts it lists, and nothing at all on a dry run |
| Displacement.MoveRowsAccurate | backend/scripts/migrate_accounts_to_postgres.py:307-346 | When the accounts that source rows displace have lower-case ids no update is refused, emails stay distinct, and the loop's owners are those of the rows it updated |
| Displacement.MoveKeepsEnforced | backend/scripts/migrate_accounts_to_postgres.py:307-346 | Keys and raw emails stay unique through every accepted update |
| Displacement.MoveFrees | backend/scripts/migrate_accounts_to_postgres.py:307-346 | After the loop no source account's address is in another account's hands, unless an account was parked at that very address |
| Displacement.DisplacedHolds | backend/scripts/migrate_accounts_to_postgres.py:328-345 | Each reported move stands at the end, unless the account was moved once more: the account it names is there and has the parked address it names |
| AccountsMerge.Target.DisplaceConflictingEmails | backend/scripts/migrate_accounts_to_postgres.py:307-346 | The loop over the source accounts changes the accounts table as the specification says and reports the same moves |
| AccountsMerge.Target.Migrate | backend/scripts/migrate_accounts_to_postgres.py:462-558 | The merge leaves the specified tables and outcome: all of it, or nothing |
| AccountsMerge.Target.MergeTables | backend/scripts/migrate_accounts_to_postgres.py:506-529 | The loop over the tables, threading the known ids, comes to independent plans of the five tables |
| AccountsMerge.Target.VerifySourcePresent | backend/scripts/migrate_accounts_to_postgres.py:561-591 | The verification reports exactly the absent keys per table, excusing conflicts |
| AccountsMerge.Target.RunRestore | backend/scripts/migrate_accounts_to_postgres.py:594-651 | Merge, verify, and fail only on a missing account |
| AccountsMerge.Judge | backend/scripts/migrate_accounts_to_postgres.py:618-648 | The hard/advisory split: a missing account fails the restore, anything else is only reported |
| AccountsMerge.AbsentRows | backend/scripts/migrate_accounts_to_postgres.py:573-589 | The inner loop collects, in order, the keys neither excused nor present |
| AccountsMerge.MergedEnforced | backend/scripts/migrate_accounts_to_postgres.py:462-558 | Whatever the source, the merged tables satisfy what the database enforces |
| MergeOutcome.NotEmptyExactly | backend/scripts/migrate_accounts_to_postgres.py:470-479 | A merge is refused for a target that is not empty exactly when some table of it holds a row and nothing was forced, and then changes nothing |
| MergeOutcome.SchemaMissingExactly | backend/scripts/migrate_accounts_to_postgres.py:470-525 | Otherwise it is refused exactly when the target lacks a table of the source, and changes nothing |
| MergeOutcome.ViolationOnly | backend/scripts/migrate_accounts_to_postgres.py:495-509 | Otherwise only a parking update under `prefer_source` can be refused, and then nothing is changed |
| MergeOutcome.ReportExactly | backend/scripts/migrate_accounts_to_postgres.py:492-558 | The mode, and the row counts of every table before and after |
| MergeOutcome.AccountFateExactly | backend/scripts/migrate_accounts_to_postgres.py:376-413 | A source account is taken in exactly when, at its turn, no row of the table has its id or its normalised email, and conflicts exactly with the id whose row is the last with its email |
| MergeOutcome.ChildFateExactly | backend/scripts/migrate_accounts_to_postgres.py:394-413 | A child row is taken in exactly when it names no account or a known one, and no row has its key columns or, for a key or token, its hash |
| MergeOutcome.TakenInOrder | backend/scripts/migrate_accounts_to_postgres.py:362-424 | The rows taken in, in source order |
| MergeOutcome.AccountsLeft | backend/scripts/migrate_accounts_to_postgres.py:495-533 | A committed merge leaves the live accounts, moved if the source is preferred, followed by those taken in |
| MergeOutcome.ChildrenLeft | backend/scripts/migrate_accounts_to_postgres.py:495-533 | And of every other table the live rows, followed by what is taken in with the merged accounts known |
| MergeOutcome.MissingExactly | backend/scripts/migrate_accounts_to_postgres.py:561-591 | The check lists exactly the tables that lost a row, with exactly the keys of the rows that no row has and no conflict excuses |
| MergeOutcome.RestoreExactly | backend/scripts/migrate_accounts_to_postgres.py:594-651 | A restore fails as its merge did, is unverified exactly on a dry run or unasked, fails its verification exactly when a source account is neither in the table nor among the conflicts, and otherwise lists for advice exactly the other tables that lost a row |
| MergeGuarantees.KeepsConstraints | backend/scripts/migrate_accounts_to_postgres.py:307-424 | A merge is never refused by a constraint and keeps primary keys, hashes and normalised emails unique in every table, when the accounts it displaces have lower-case ids |
| MergeConstraints.KeepsConstraintsExactly | backend/scripts/migrate_accounts_to_postgres.py:301-346 | Every merge that finds at most one account in a source row's way keeps all of that exactly when this account's id has no upper-case letter |
| MergeGuarantees.EveryRowAccountedFor | backend/scripts/migrate_accounts_to_postgres.py:506-558 | Per table inserted plus skipped is the source, the target grows by exactly the inserted rows, all of them from the source |
| MergeGuarantees.LiveRowsStay | backend/scripts/migrate_accounts_to_postgres.py:495-558 | Live rows stay as they are, but for the email of an account listed as displaced; a refused merge or dry run changes nothing |
| MergeGuarantees.ChildRowsHaveAccounts | backend/scripts/migrate_accounts_to_postgres.py:394-398 | Every inserted child row names an account of the target, or none at all |
| OrphanRows.NeverOrphansExactly | backend/scripts/migrate_accounts_to_postgres.py:394-398 | A source table leaves no orphan in any target, over every merge, exactly when each of its rows names an account |
| MergeVerification.AccountLands | backend/scripts/migrate_accounts_to_postgres.py:372-422 | Every source account is in the target afterwards or listed as a conflict, when no empty id holds its email; the unique-email skip drops none silently |
| MergeVerification.PassesItsVerification | backend/scripts/migrate_accounts_to_postgres.py:561-648 | A committed merge passes its own hard verification, given a target without an empty id and a source in which none comes before a row with its email |
| MergeVerification.VerificationExactly | backend/scripts/migrate_accounts_to_postgres.py:372-422 | Every merge of such a source into a target, with any options, passes exactly when the target has no account with an empty id |
| MergeVerification.SourceVerificationExactly | backend/scripts/migrate_accounts_to_postgres.py:372-422 | For a source with distinct ids, its merge into every target without an empty id, with any options, passes exactly when no empty id comes before a row with the same normalised email |
| MergeVerification.TwinInput | backend/scripts/migrate_accounts_to_postgres.py:372-422 | Two source rows that an empty target takes one of and drops the other, failing the verification |
| MergeVerification.DroppedAccount | backend/scripts/migrate_accounts_to_postgres.py:372-413 | A source that a target with an empty id drops silently, failing the verification |
| MergeVerification.EveryAccountReported | backend/scripts/migrate_accounts_to_postgres.py:366-422 | The migrated, skipped and conflicting emails together are the emails that the source accounts have, the empty ones left out, each as often as it stands there, and the migrated ones are those of the inserted rows in order |
| MergeGuarantees.DryRunAgrees | backend/scripts/migrate_accounts_to_postgres.py:462-558 | A dry run writes nothing and reports what the real run then does, unless it has an address to park |
| DryRun.DryRunExactly | backend/scripts/migrate_accounts_to_postgres.py:307-346 | For every committed merge with `prefer_source` the dry run's report is the real one exactly when every source row that asks for an address whose holder, after normalisation, the reported moves change is for an account that is there by then |
| DryRun.DryRunOutcomeExactly | backend/scripts/migrate_accounts_to_postgres.py:462-558 | For every merge with `prefer_source`, committed or not: dry and real run come out the same exactly when neither starts, or the database refuses no update and that condition holds |
| DryRun.DryRunExactlyByIds | backend/scripts/migrate_accounts_to_postgres.py:307-346 | With distinct source ids: exactly when every account that asks for such an address is live already |
| DryRun.DryRunFalse | backend/scripts/migrate_accounts_to_postgres.py:307-346 | Otherwise, for a source row of an account that is not there yet, one of the two reports lists a conflict that the other does not: the dry one if its address had a holder with an id, else the real one |
| DryRunInputs.DryRunMisleads | backend/scripts/migrate_accounts_to_postgres.py:307-346 | One live account and a new one with its address: a conflict reported dry and not found in the real run |
| DryRunInputs.DryRunMisses | backend/scripts/migrate_accounts_to_postgres.py:301-346 | A live account whose id has an upper-case letter, another with the address asked for first, and a new one that asks for the parked address in lower case: a conflict of the real run that the dry run does not report |
| MergeRepeat.Repeated | backend/scripts/migrate_accounts_to_postgres.py:355-424 | A second run that parks nothing inserts nothing and leaves every table alone |
| MergeRepeat.RepeatWithoutPreferSource | backend/scripts/migrate_accounts_to_postgres.py:355-424 | Repeating a merge inserts and parks nothing, and reports the same conflicts exactly when no conflicting id landed |
| RepeatedConflicts.ConflictsRepeatExactly | backend/scripts/migrate_accounts_to_postgres.py:362-413 | A source reports the same conflicts again after every merge into every target exactly when no id of it stands earlier and again later with another normalised email |
| RepeatedConflicts.RepeatedIdForgets | backend/scripts/migrate_accounts_to_postgres.py:362-413 | For two source rows with one id and two emails, a target whose merge reports a conflict that the repeated merge does not |
| ParkingTruth.AgreesUpTo | backend/scripts/migrate_accounts_to_postgres.py:307-346 | When the displaced ids have no upper case, or no source row asks for an address that one with upper case comes to: at every other address the loop's owners are those of the rows it updated, and at most one row is there |
| ParkingTruth.ParkableExactly | backend/scripts/migrate_accounts_to_postgres.py:301-304 | Ids without upper case are parked at just the addresses `displaced+name@..` whose name is of lower-case letters, digits and underscores |
| ParkingTruth.UpperParkableExactly | backend/scripts/migrate_accounts_to_postgres.py:301-304 | The others are parked, but for letter case, at just those whose name has a letter |
| QuietRepeats.RepeatWithPreferSource | backend/scripts/migrate_accounts_to_postgres.py:307-424 | Repeating a merge that prefers the source inserts, parks and changes nothing, when no two source accounts share an address, none that an account could be parked at is asked for before another address is, and either the displaced ids have no upper-case letter or no row asks for an address that an id with one is parked at but for letter case |
| QuietSources.QuietExactly | backend/scripts/migrate_accounts_to_postgres.py:301-424 | For a source with distinct ids: over every target, exactly when its addresses meet the two conditions and no row asks for an address that an id with an upper-case letter could be parked at |
| QuietSources.QuietExactlyForLowerIds | backend/scripts/migrate_accounts_to_postgres.py:301-424 | Over the targets whose displaced accounts have ids without upper case: exactly when they meet the first two |
| QuietSources.QuietExactlyForId | backend/scripts/migrate_accounts_to_postgres.py:301-346 | Every repeated merge of a source that meets these two, and finds at most one account in a row's way, is quiet exactly when this account's id has no upper-case letter |
| QuietSources.UpperParkedAgain | backend/scripts/migrate_accounts_to_postgres.py:301-346 | A live account with such an id, a row that takes its address, and one that asks for its parked address in lower case: parked anew at every run |
| QuietRepeats.PreferSourceLeavesNoConflict | backend/scripts/migrate_accounts_to_postgres.py:307-424 | Such a merge, under the conditions of `RepeatWithPreferSource`, leaves no email conflict on either run, but those of rows without id or email |
| ReleaseRotation.RotationState | scripts/release_cycle.py:184-246 | One pass over the reports gives the state said at once, or the first error |
| ReleaseRotation.NewerReport | scripts/release_cycle.py:199-246 | One newer report adds its certified picks, appends its counted picks to tried, and puts its failures ahead of the older ones |
| ReleaseRotation.FailingIsTriedUncertified | scripts/release_cycle.py:199-246 | Failing is tried minus certified, each name once |
| RotationRecord.CertifiedExactly | scripts/release_cycle.py:200-230 | A name is certified exactly when the seed lists it or some report picked it and has an exported and certified run of it |
| RotationRecord.TriedExactly | scripts/release_cycle.py:200-236 | It is tried exactly when the seed lists it or some report picked it that is not voided or certified it |
| RotationRecord.FailingExactly | scripts/release_cycle.py:200-240 | It is failing exactly when it is not certified, and was tried by the seed or picked without a certified export by a report that is not voided |
| RotationRecord.TriedInOrder | scripts/release_cycle.py:231-236 | Names are ordered by when they were last picked, after the seed's |
| RotationRecord.CyclesExactly | scripts/release_cycle.py:208-220 | The counter is the number of reports that name picks |
| RotationRecord.ReadExactly | scripts/release_cycle.py:209-219 | The record is read exactly when every report can be; otherwise it fails for the newest that cannot |
| RotationRecord.RefusedExactly | scripts/release_cycle.py:249-277 | Selection is refused exactly for a number of slots outside one to the size of the pool, or for a remembered name outside the pool |
| RotationPicks.SelectRotation | scripts/release_cycle.py:249-277 | The selection loop gives the specified picks or the specified refusal |
| RotationPicks.ChosenForm | scripts/release_cycle.py:266-277 | The picks are the leading failures, then fresh names, then older failures |
| RotationPicks.PicksAreSound | scripts/release_cycle.py:249-277 | Picks are distinct, from the pool, uncertified, and as many as asked for or as there are |
| RotationPicks.FreshPickedExactly | scripts/release_cycle.py:266-277 | A never-built blueprint is picked exactly when one exists and a slot is left for it |
| RotationRuns.PlanCycle | scripts/release_cycle.py:701-713 | The picks are those of the thirty newest completed runs, or the first error among them |
| RotationRuns.RotationProgress | scripts/release_cycle.py:184-353 | With two or more slots, and while all runs so far are still read, each judged cycle takes at least one blueprint off the never-built ones until none is left; voided cycles and silent runs in between change nothing |
| RotationRuns.AllTriedInTime | scripts/release_cycle.py:184-353 | Once the oldest runs that one window holds contain as many judged cycles as the pool has blueprints, everything has been tried or certified |
| RotationRuns.CertifiedNeverPicked | scripts/release_cycle.py:201-277 | What the seed or a report in the window certifies, a voided cycle's too, is not picked |
| RotationRuns.NextPickExactly | scripts/release_cycle.py:201-353 | A name can be picked next, in some pool and number of slots, exactly when neither the seed nor a report in the window certifies it |
| RotationMemory.CertificationLastsExactly | scripts/release_cycle.py:184-353 | Over every way a history of planned cycles can go on, a blueprint of the pool stays unpicked for good exactly when the seed certifies it, when no more blueprints than thirty-one cycles pick are left uncertified by the seed |
| RotationMemory.ReachedExactly | scripts/release_cycle.py:184-353 | For a pool of any size, when the seed leaves no failure of its own: exactly when the seed certifies it or at least as many uncertified blueprints as thirty-one cycles pick stand before it in the pool |
| RotationMemory.PickedAgain | scripts/release_cycle.py:184-353 | A cycle that certifies the only blueprint, thirty with nothing left to pick, and then the same blueprint is picked again |
| RotationCoverage.BuiltWithin | scripts/release_cycle.py:184-353 | With two slots or more and at most picks + 30 blueprints that the seed does not certify: after thirty-one judged cycles in a row, whatever they came to, every blueprint new to the seed is among the picks of the newest sixty-one runs |
| RotationCoverage.CoversExactly | scripts/release_cycle.py:184-353 | With a seed that leaves no failure of its own, over every history: any stretch of sixty-one or more judged cycles picks every blueprint the seed does not certify exactly when there are at most picks + 30 of them, or one with a single slot |
| RotationCoverage.Starves | scripts/release_cycle.py:249-277 | With two slots or more and more blueprints than that: for every number of cycles, a history of that many failing ones that never pick one of them |
| ReleaseCycle.PlanRuns | scripts/release_cycle.py:369-387 | The anchors, then the picks, refused exactly when two names are equal |
| ReleaseCycle.AssignAccounts | scripts/release_cycle.py:433-454 | Refused exactly when names repeat or accounts run short; otherwise the runs have the accounts after the smoke's, one each, in order |
| ReleaseCycle.OwnReportsAreRead | scripts/release_cycle.py:602-642 | From its own reports the rotation always plans: it refuses only a number of slots or a name outside the pool |
| ReleaseCycle.PassingReportCertifies | scripts/release_cycle.py:597-642 | A passing report certifies each of its picks for as long as it is in the window, except a blueprint named `smoke_b` |
| RotationRecord.VerdictExactly | scripts/release_cycle.py:597-642 | A cycle passes exactly when both smokes pass, some repro ran, each exported and is certified, and the live sha is the commit, which is not empty |
| RotationRecord.RunsExactly | scripts/release_cycle.py:624-642 | The runs that its report records, each under its name |
| ReleaseCycle.PlanSplitsPicks | scripts/release_cycle.py:701-724 | As far as the window goes, what a plan calls fresh was never built and what it calls repeats was tried and failed |
| WaveBudget.BudgetSuffices | scripts/release_cycle.py:390-398 | In every work-conserving schedule every build, however late it starts, ends within the budget |
| WaveBudget.BudgetIsTight | scripts/release_cycle.py:390-398 | Some work-conserving schedule that never runs more builds than there are slots needs all of it |
| NameInference.IsTextMonotone | scripts/scan_hardwiring.py:309-328 | More text names never make an expression less of a text |
| NameInference.TextNames | scripts/scan_hardwiring.py:287-306 | The in-place iteration ends in the least set closed under the assignment rules |
| NameInference.TextOrderIndependent | scripts/scan_hardwiring.py:287-306 | The answer does not depend on the order of the walk |
| NameDerivations.IsTextExactly | scripts/scan_hardwiring.py:283-328 | An expression is text exactly when sides of additions, values of boolean operators and bases of subscripts lead from it to a string, an f-string, `str(..)`, a listed method's call or a text name |
| NameDerivations.TextNamesExactly | scripts/scan_hardwiring.py:283-328 | A name is found exactly when it is a `str` parameter or a finite chain of assignments leads to it from one or from text on its own |
| NameInference.BlockBoundNames | scripts/scan_hardwiring.py:650-666 | The in-place iteration ends in the least set closed under the iteration rules |
| NameInference.BlockOrderIndependent | scripts/scan_hardwiring.py:650-666 | Nor does this answer |
| NameInference.CarriesMonotone | scripts/scan_hardwiring.py:642-647 | More bound names never make an expression carry fewer blocks |
| NameDerivations.CarrierNameExactly | scripts/scan_hardwiring.py:629-666 | A name is a carrier exactly when one of eight words stands in it, in lower case, between underscores or ends |
| NameDerivations.CarriesExactly | scripts/scan_hardwiring.py:629-666 | An expression carries blocks exactly when a name or attribute anywhere in it is bound or is a carrier |
| NameDerivations.BlockBoundNamesExactly | scripts/scan_hardwiring.py:629-666 | A name is found exactly when a finite chain of loops leads to it from a loop over a carrier |
| GateAudit.ReachableFrom | scripts/audit_gates.py:171-181 | The worklist ends on cyclic graphs and returns exactly what call paths lead to |
| GateAudit.Audit | scripts/audit_gates.py:227-305 | The findings are exactly the unreachable gates, those no directly tested gate reaches, and the unread roster |
| GateAudit.CleanMeansWired | scripts/audit_gates.py:245-305 | With nothing registered an audit is clean exactly when the roster is read and every gate is reachable from it and from a gate some test sees refuse |
| GateAudit.CoverageRunsDown | scripts/audit_gates.py:245-252 | A refusal test of a gate covers whatever it calls |
| CredentialStore.AccountsStore.Handle | backend/app/core/accounts_store.py:354-999 | Whichever of the thirteen operations is asked for, the handler that does it leaves the store and gives the answer that the step function says |
| CredentialStore.AccountsStore.PurgeExpiredTokens | backend/app/core/accounts_store.py:1014-1070 | The store without its expired credentials, and three exact counts |
| CredentialRules.StepKeepsWellFormed | backend/app/core/accounts_store.py:354-726 | Every operation keeps ids and hashes unique and minted |
| CredentialRules.RunKeepsWellFormed | backend/app/core/accounts_store.py:354-726 | So does every run, purges included |
| CredentialPurge.LapsedIsInvisible | backend/app/core/accounts_store.py:509-726 | Two stores that differ only in lapsed credentials answer each operation alike and stay so |
| CredentialRuns.AlikeForever | backend/app/core/accounts_store.py:509-726 | And answer every later run alike |
| CredentialRuns.PurgeUnobservableExactly | backend/app/core/accounts_store.py:1002-1070 | No later caller can tell that a store was purged exactly when nothing in it carries a past expiry without an offset |
| CredentialRuns.PurgesAreUnobservable | backend/app/core/accounts_store.py:1002-1070 | Purging at any moments of any run changes no answer, given stamps as the store writes them |
| CredentialAnswers.CreatedExactly | backend/app/core/accounts_store.py:354-383 | An account is refused exactly when its id or normalised email is taken, and otherwise added |
| CredentialAnswers.SignedInExactly | backend/app/core/accounts_store.py:386-394 | A sign-in names exactly the account with the address and the password |
| CredentialAnswers.SessionIssuedExactly | backend/app/core/accounts_store.py:494-506 | A session token is refused exactly when it is stored, and is good for seven days |
| CredentialAnswers.SessionAnswersExactly | backend/app/core/accounts_store.py:509-527 | It resolves exactly while in time and its account is there; a stamp without an offset is a failure |
| CredentialAnswers.KeyIssuedExactly | backend/app/core/accounts_store.py:530-544 | A key is refused exactly when it is stored |
| CredentialAnswers.KeyAnswersExactly | backend/app/core/accounts_store.py:547-560 | A key resolves exactly when a row has it unrevoked and its account is there |
| CredentialAnswers.KeyRevokedExactly | backend/app/core/accounts_store.py:581-592 | A revocation succeeds exactly for a key this account has unrevoked, and touches no other |
| CredentialAnswers.VerifyIssuedExactly | backend/app/core/accounts_store.py:595-606 | A verification token replaces the account's, for a day |
| CredentialAnswers.VerifyConfirmedExactly | backend/app/core/accounts_store.py:609-628 | A parked token confirms its account exactly while in time, marks it verified and is spent |
| CredentialAnswers.ResetIssuedExactly | backend/app/core/accounts_store.py:631-649 | A reset token is answered exactly when an account has the normalised address, and then parked on that account for an hour; otherwise no row changes |
| CredentialAnswers.ResetConfirmedExactly | backend/app/core/accounts_store.py:652-681 | A parked reset token sets the password exactly while in time, is spent and closes every session of the account and no other |
| CredentialAnswers.UnknownTokenExactly | backend/app/core/accounts_store.py:609-681 | A token parked nowhere confirms nothing |
| CredentialAnswers.PasswordChangedExactly | backend/app/core/accounts_store.py:684-726 | A change is made exactly for a held id and a password, and leaves exactly the kept session and those of others |
| CredentialAnswers.DeletedExactly | backend/app/core/accounts_store.py:974-999 | An account is deleted exactly when its id is there and not empty, with exactly its own sessions and keys |
| CredentialAnswers.PurgedExactly | backend/app/core/accounts_store.py:1002-1070 | A purge takes away exactly the sessions and parked tokens whose time is past, a stamp without an offset read as UTC, and changes nothing else |
| CredentialAnswers.PurgeCountsExactly | backend/app/core/accounts_store.py:1002-1070 | Its counts are those of the rows it takes a token from |
| CredentialLifetimes.VerifyTokenWorksOnce | backend/app/core/accounts_store.py:609-628 | A confirmed verification token is never accepted again |
| CredentialLifetimes.ResetTokenWorksOnce | backend/app/core/accounts_store.py:652-681 | A confirmed reset token is never accepted again |
| CredentialLifetimes.ResetEndsSessions | backend/app/core/accounts_store.py:652-681 | After a reset no earlier session of that account ever resolves |
| CredentialLifetimes.PasswordChangeEndsOthers | backend/app/core/accounts_store.py:684-726 | After a password change every session but the kept one is dead for good |
| CredentialLifetimes.PasswordChangeKeeps | backend/app/core/accounts_store.py:684-726 | The kept session, and other accounts' sessions, answer as before |
| CredentialLifetimes.DeletedIsNeverResolved | backend/app/core/accounts_store.py:974-999 | After a deletion no password, session, key or single-use token ever resolves to that id |
| CredentialUse.SessionLifetimeExactly | backend/app/core/accounts_store.py:494-527 | After any later run a session answers with its account exactly until seven days are over or a reset, password change or deletion of that run closed it |
| TokenLifetimes.VerifyTokenExactly | backend/app/core/accounts_store.py:595-628 | After any later run a verification token confirms its own account, and touches no other, exactly within a day and until the run used it, issued another for the account or deleted the account |
| TokenLifetimes.ResetTokenExactly | backend/app/core/accounts_store.py:631-681 | After any later run a reset token works exactly within the hour and until the run used it, issued another for the account, changed its password or deleted it; then exactly the new password signs the account in, and no other row changes |
| CredentialUse.AfterKeepsEmails | backend/app/core/accounts_store.py:354-384 | No operation and no purge gives two accounts one email |
| CredentialUse.RunKeepsEmails | backend/app/core/accounts_store.py:354-726 | Nor does any run |
| CredentialUse.NewPasswordExactly | backend/app/core/accounts_store.py:684-726 | A password change is made exactly for an id that an account has and a password that is not empty; then exactly the new password signs that account in, and every other sign-in is as it was |
| CredentialUse.KeyLifetimeExactly | backend/app/core/accounts_store.py:530-592 | After any later run an API key answers with its account exactly until it is revoked or that account deleted: no reset, password change or length of time ends it |
| CredentialUse.RevokedKeyIsDead | backend/app/core/accounts_store.py:547-592 | A revoked key never resolves again, over every later run |
| Isolation.ApplyBudget | backend/app/cerebrum_product_kernel/isolation.py:114-145 | The limit is the parent's size plus the budget or the hard limit, whichever is less; none when it is refused or unknown |
| Isolation.Processes.StartWork | backend/app/cerebrum_product_kernel/isolation.py:179-186 | The child sets the limit and the nesting mark, and sends nothing |
| Isolation.Processes.SendResult | backend/app/cerebrum_product_kernel/isolation.py:161-192 | One send, whichever way the function ended |
| Isolation.Processes.Await | backend/app/cerebrum_product_kernel/isolation.py:235-242 | The parent takes the first message, the end of the pipe, or the deadline |
| Isolation.Processes.Clean | backend/app/cerebrum_product_kernel/isolation.py:243-248 | The parent closes its end and waits for the child or ends it |
| Isolation.Processes.Conclude | backend/app/cerebrum_product_kernel/isolation.py:249-266 | The answer that goes with the status |
| Isolation.AtMostOneMessage | backend/app/cerebrum_product_kernel/isolation.py:179-201 | Under every interleaving and kill, at most one message enters the pipe: how the function ended |
| Isolation.AnswersAreExact | backend/app/cerebrum_product_kernel/isolation.py:218-266 | `(v, {})` exactly when the parent read the function's own `v`, otherwise the fallback with a non-empty diagnosis |
| Isolation.DiagnosesAreTrue | backend/app/cerebrum_product_kernel/isolation.py:218-266 | Each diagnosis tells what happened, and a result that was sent is lost only to the timeout |
| Isolation.RefusalIsSilent | backend/app/cerebrum_product_kernel/isolation.py:114-145 | A host that refuses the limit and one that grants it see the same runs |
| Isolation.NestedRunsInline | backend/app/cerebrum_product_kernel/isolation.py:74-88 | While the function runs, a nested call does not fork |
| Isolation.RunsAreShort | backend/app/cerebrum_product_kernel/isolation.py:179-266 | No interleaving has more than ten steps |
| Isolation.ParentNeverStuck | backend/app/cerebrum_product_kernel/isolation.py:235-266 | Until it returns, the parent always has a step to take |
| Isolation.ChildNeverStuck | backend/app/cerebrum_product_kernel/isolation.py:179-201 | Until it is gone, the child has a step of its own to take |
| Isolation.TimeoutsAreTrue | backend/app/cerebrum_product_kernel/isolation.py:235-242 | A timeout is diagnosed only for a child that has neither sent nor hung up by the deadline, so that only a later result is lost |
| Isolation.DetailsExactly | backend/app/cerebrum_product_kernel/isolation.py:252-266 | The detail of each diagnosis, word by word |
| AgentEnvelope.ResolvedInside | runtime/envelope.py:16-20 | A path is accepted exactly when its target is under the root, and then holds no `..` |
| AgentEnvelope.PosixResolvesBack | runtime/envelope.py:22-26 | A declared name, written out and resolved again, is the same name |
| EnvelopePaths.ResolvesExactly | runtime/envelope.py:16-20 | Any written path is accepted exactly when its standing names begin with the root, and is the rest of them; a name stands when no stretch after it goes up more often than down |
| EnvelopePaths.UpIsRefused | runtime/envelope.py:16-20 | `..` is refused |
| EnvelopePaths.UpTakesAway | runtime/envelope.py:16-20 | `p/../q` is p without its last name, and then q |
| EnvelopePaths.DotsCountForNothing | runtime/envelope.py:16-20 | `p/./q` and `p//q` are p/q |
| EnvelopePaths.UpAndBackExactly | runtime/envelope.py:16-20 | `../q` is accepted exactly when q begins with the root's own last name |
| EnvelopePaths.FromTheTopExactly | runtime/envelope.py:16-20 | An absolute path is accepted exactly when it begins with the root |
| EnvelopePaths.GuardExactly | runtime/envelope.py:22-26 | A declaration is invalid, or escapes, exactly when stated entry by entry; otherwise exactly what its entries resolve to is declared |
| EnvelopePaths.CheckExactly | runtime/envelope.py:31-35 | A write passes, escapes or violates the envelope exactly when its path is declared, not below the root, or below it and undeclared |
| AgentEnvelope.Envelope.Guard | runtime/envelope.py:22-26 | The declared set is replaced by the resolved files, or nothing changes and the run halts |
| AgentEnvelope.Envelope.CheckWrite | runtime/envelope.py:31-35 | A write passes exactly when it resolves inside to a declared file |
| AgentEnvelope.Envelope.RecordWrite | runtime/envelope.py:37-38 | The write is added to the record |
| AgentEnvelope.Envelope.Deviations | runtime/envelope.py:43-44 | The two lists split the declared set when every write was declared |
| AgentRun.Runtime.ToolResult | runtime/runtime.py:61-78 | One tool action: checked, done, recorded, or a halt |
| AgentRun.Runtime.ImplementPhase | runtime/runtime.py:81-103 | The turn loop of a phase |
| AgentRun.Runtime.Run | runtime/runtime.py:108-135 | The run's trace and its ending |
| AgentRun.RunsStayInside | runtime/runtime.py:61-103 | Every write of both phases is a declared file inside the root, and every command is on the allowlist, however the run ends |
| AgentRun.WritesAreRecorded | runtime/runtime.py:68-73 | Unless the run crashes, what was handed to the disk is what was recorded, in order |
| AgentRun.RunsAreBounded | runtime/runtime.py:108-135 | At most two gate rounds, and 1 + 2 * max_turns completions |
| AgentRun.GatesDecide | runtime/runtime.py:117-125 | Completed exactly when the last round has no failure, `gate_failed_twice` exactly when two rounds failed |
| AgentRun.ReportsSplitTheDeclaration | runtime/runtime.py:125-135 | A completed report splits the declaration into written and not written; a report names the written files exactly when the run completed or wrote nothing |
| AgentRun.UnreportedWrite | runtime/runtime.py:81-135 | A run that writes its declared file, is cut off, and reports no changed file |
| AgentTurns.AllowedExactly | runtime/runtime.py:13-54 | A command is allowed exactly when its words begin like one of nine |
| AgentTurns.CommandsStayOnList | runtime/runtime.py:44-58 | However a run ends, it has started no other command |
| AgentTurns.ActionsPass | runtime/runtime.py:61-78 | When every action passes, what they write and start is done and recorded in order |
| AgentTurns.ActionsStop | runtime/runtime.py:61-78 | The first action that does not pass stops the run, with its condition, after exactly what came before it |
| AgentTurns.PhaseExactly | runtime/runtime.py:81-103 | A phase goes on through the replies that continue and ends with the first that does not, or when its turns are used up |
| AgentTurns.FinishedPhase | runtime/runtime.py:81-103 | A phase that finishes has written and started exactly what its replies say, in order |
| AgentTurns.CompletedExactly | runtime/runtime.py:108-125 | A run completes exactly when it declares a valid set, finishes a phase in its turns, and the gates pass at once or after one more phase |
| AgentTurns.GatesExactly | runtime/runtime.py:117-125 | The same told by return codes: completed exactly when the last round is all zero, failed twice exactly when neither is |
| AgentTurns.UndeclaredExactly | runtime/runtime.py:108-116 | How a run ends that declares nothing, having done nothing |
| AgentTurns.EndingExactly | runtime/runtime.py:108-135 | What `run` returns or raises, for every way the work can go |
| BackupSchedule.ScheduledHour | backend/app/core/backup_scheduler.py:56-66 | The configured hour exactly when it is one from 0 to 23, otherwise three |
| BackupSchedule.NextRunIsNext | backend/app/core/backup_scheduler.py:79-90 | The delay is in (0, 24h], lands on the hour, and passes over no earlier one |
| BackupSchedule.NextStart | backend/app/core/backup_scheduler.py:79-90 | After a run that took d the next start is 24h * (floor(d / 24h) + 1) after its own |
| BackupSchedule.SchedulerLoop | backend/app/core/backup_scheduler.py:263-267 | The starts of any number of rounds |
| BackupSchedule.LoopKeepsTheHour | backend/app/core/backup_scheduler.py:263-267 | Over the whole loop every start is on the hour, at that distance |
| BackupSchedule.NoHourIsMissed | backend/app/core/backup_scheduler.py:263-267 | No scheduled hour is passed over unless the round before was still going |
| BackupSchedule.ShortRoundsRunDaily | backend/app/core/backup_scheduler.py:263-267 | A round that ends within a day is followed by the next start exactly 24h after its own |
| ArchiveNames.NamesOrderAsTime | backend/app/core/backup.py:45-46 | Archives sort by name exactly as by time |
| ArchiveNames.NameTellsTime | backend/app/core/backup.py:45-46 | The second an archive was taken can be read back from its name |
| BackupRetention.KeepCount | backend/app/core/backup_scheduler.py:69-76 | The configured number exactly when it is at least one, otherwise fourteen |
| BackupRetention.SortedDown | backend/app/core/backup.py:411-415 | The listing, newest name first |
| BackupRetention.Archives.PruneBackups | backend/app/core/backup.py:406-420 | What is left is exactly the newest; a prune fails exactly when a file that is to go cannot be deleted, with exactly those before it gone |
| BackupRetention.Archives.RunBackupOnce | backend/app/core/backup_scheduler.py:195-246 | A run succeeds exactly when an archive was made and nothing stuck is to go, and keeps exactly the newest; a failed one loses none of them |
| BackupRetention.KeptCount | backend/app/core/backup.py:406-420 | As many are kept as asked for, or all there are |
| BackupRetention.KeptAreNewer | backend/app/core/backup.py:406-420 | Every archive kept is newer than every one pruned |
| BackupRetention.RunsKeepTheNewest | backend/app/core/backup_scheduler.py:195-218 | After any series of successful runs the archives are the newest of all there ever were |
| BackupRetention.RetentionIsByTime | backend/app/core/backup.py:406-420 | The same, told by the clock |
| BuildHonesty.PilotLevelExactly | frontend/src/buildProgress.ts:82-121 | The grade reads Store-green or founding exactly when every authoritative field allows it |
| BuildHonesty.FoundingExactly | frontend/src/buildProgress.ts:82-121 | And founding exactly when it is also claimed and nothing demotes it |
| BuildHonesty.LevelTestIsRedundant | frontend/src/buildProgress.ts:147-154 | The level test in `isPilotZipReady` follows from its other conditions |
| BuildHonesty.GoldExactly | frontend/src/buildProgress.ts:972-1046 | The gold button, exactly: a pilot zip ready and a readable ledger |
| BuildHonesty.KkExactly | frontend/src/buildProgress.ts:57-75 | k/k in terms of the raw record, where a total under twelve counts as twelve |
| BuildHonesty.GoldVouches | frontend/src/buildProgress.ts:972-1046 | Gold means passed = total >= 12 and authorship not below its floor |
| BuildHonesty.InviteExactly | frontend/src/buildProgress.ts:856-895 | The copy invites a download exactly when the button is gold or the build is `waiting` and unrefused |
| BuildHonesty.CopyAgreesExactly | frontend/src/buildProgress.ts:856-1046 | Copy and button agree exactly unless a build is `waiting` and nothing refuses it |
| BuildHonesty.WaitingMisleads | frontend/src/buildProgress.ts:856-1046 | A record on which they disagree |
| BuildHonesty.FailureCopyAgrees | frontend/src/buildProgress.ts:856-1046 | Copy that tells of a failure never stands beside a gold or prototype button, and scores agree |
| BuildHonesty.RepaintKeepsGold | frontend/src/buildProgress.ts:758-801 | Repainting neither strips a gold button nor makes one, after the second look at a sticky refusal |
| BuildHonesty.SecondLookExactly | frontend/src/buildProgress.ts:538-574 | That second look turns gold exactly on a pilot cycle with k/k acceptance and a readable ledger |
| BuildHonesty.LedgerHonestyKeepsGold | frontend/src/buildProgress.ts:804-810 | Marking a crashed run failed takes no gold button away |
| BuildCases.AuthoredExactly | frontend/src/buildProgress.ts:401-442 | The count of authored files is the largest of those the record gives |
| BuildCases.NeedExactly | frontend/src/buildProgress.ts:444-452 | The floor is what was asked for, within one and five, or five |
| BuildCases.FloorExactly | frontend/src/buildProgress.ts:598-604 | A build is below the floor exactly when something is counted and all of it is less |
| BuildCases.ThinExactly | frontend/src/buildProgress.ts:646-658 | Hardly written by the agent, in terms of the counts |
| BuildCases.ScoreExactly | frontend/src/buildProgress.ts:57-68 | The score: what passed, out of at least twelve |
| BuildCases.LevelExactly | frontend/src/buildProgress.ts:82-122 | Each grade, exactly, in terms of the record's fields |
| BuildCases.ZipExactly | frontend/src/buildProgress.ts:147-154 | A pilot zip is ready exactly on a success with full marks |
| BuildCases.RefusedExactly | frontend/src/buildProgress.ts:721-738 | An export is refused exactly when stated field by field |
| BuildCases.ButtonExactly | frontend/src/buildProgress.ts:972-1046 | Each button, exactly, in terms of the record's fields |
| BuildCases.CopyExactly | frontend/src/buildProgress.ts:856-895 | Each copy, exactly, in terms of the record's fields |
| BuildCases.SecondLook | frontend/src/buildProgress.ts:538-574 | Which refusals are looked at again, and what becomes of every field |
| BuildCases.DemotedExactly | frontend/src/buildProgress.ts:740-801 | Which builds repainting demotes, and what becomes of every field |
| BuildObservation.PollNoYounger | frontend/src/buildProgress.ts:268-310 | A later poll of the same event shows it no younger, whatever age the server gives |
| BuildObservation.AgeNeverFalls | frontend/src/buildProgress.ts:268-334 | Across any polls of one event the age shown never falls |
| BuildObservation.StallExactly | frontend/src/buildProgress.ts:813-850 | A building record is shown as dead exactly when its event is older than the model call's deadline, or than half an hour when no call is under way |
| BuildObservation.StallStays | frontend/src/buildProgress.ts:813-850 | A fixed snapshot once shown as dead stays so |
| BuildObservation.StallStaysAcrossPolls | frontend/src/buildProgress.ts:268-334 | And so across polls of one event while the model call's fields stay |
| BuildObservation.HeartbeatAgrees | frontend/src/buildProgress.ts:336-372 | The heartbeat line and the state shown agree |
| ObservationCases.StampExactly | frontend/src/buildProgress.ts:268-309 | A poll of the same event keeps the stamp, any other is stamped now, and nothing else changes |
| ObservationCases.AgeExactly | frontend/src/buildProgress.ts:316-334 | The age shown is the largest reading there is |
| ObservationCases.DeadExactly | frontend/src/buildProgress.ts:813-850 | Shown as failed or stalled exactly when some reading is as old as the build is waited for |
| ObservationCases.HeartbeatExactly | frontend/src/buildProgress.ts:336-372 | Each heartbeat line, exactly |

## Left out

- SQL, reflection and database drivers: tables are sequences of rows, a transaction is one method, and a missing table or a refused statement is an outcome.
- Columns that only one side has: the merge copies whole rows, and rows with null ids or emails are rows with empty ones.
- Case folding and stripping beyond ASCII: `Text.Norm` handles ASCII letters and Python's ASCII white space.
- The sorting of the email lists and displacement report before they are shown.
- `run_restore` passes no `prefer_source`; `AccountsMerge.Target.RunRestore` takes any options.
- MergeGuarantees.KeepsConstraints: under `prefer_source` assumes that the accounts displaced have ids without upper-case letters, as the store mints them (backend/app/core/accounts_store.py:361); `MergeConstraints.KeepsConstraintsExactly` gives the exact condition on an id.
- MergeVerification.PassesItsVerification: assumes a target without an empty account id and a source in which none comes before a row with its email; `MergeVerification.VerificationExactly` and `MergeVerification.SourceVerificationExactly` show that neither can be spared.
- QuietRepeats.RepeatWithPreferSource: assumes conditions on source addresses and displaced ids; that they are exact is shown for sources whose ids are distinct (`QuietSources.QuietExactly`, `QuietSources.QuietExactlyForLowerIds`, `QuietSources.QuietExactlyForId`).
- Reading cycle reports from GitHub, live builds and smokes: their records are arbitrary inputs. A blueprint is its id.
- RotationRuns.RotationProgress: counts the judged cycles of a history that one window still holds; what happens beyond it is `RotationCoverage.CoversExactly`. Whether every failure is retried is not claimed: old ones may starve.
- RotationMemory.CertificationLastsExactly: assumes that no more than thirty-one cycles' picks are left uncertified by the seed; `RotationMemory.ReachedExactly` needs no bound, but a seed all of whose earlier tries it certifies.
- RotationCoverage.CoversExactly: for seeds all of whose earlier tries they certify; `RotationCoverage.BuiltWithin` holds for every seed.
- The current run is left out of the reports by its id (scripts/release_cycle.py:339-341): a history is that of the other completed runs, and a window of thirty counts them alone. An expired or unreadable artifact is an unreadable entry.
- WaveBudget.BudgetSuffices: `math.ceil` of the quotient is taken exactly, and there is at least one slot.
- GateAudit.Audit: states which findings there are, not the order in which they are listed.
- Python's syntax tree: names, constants, calls, additions, boolean operators, subscripts and attributes; reading files and collecting gates, calls and refusal tests.
- Hashing, passwords and random values: a token and its hash are one value, and a minted token or id is new. Billing, sessions' owners and usage counters of an account.
- The trial, label and creation fields of accounts and keys; two calls at once, since each operation holds the store's lock.
- Exceptions that arrive between any two instructions of the child, a send that is cut short, unpickling failures in the parent, and what the exit code says.
- Symbolic links and platform paths in `Envelope._resolve`; files that a `run_command` touches are outside the envelope claim, and the report's lists are sets.
- The texts of prompts and messages: a completion is arbitrary, and the conversation is not modelled.
- Failures while the run's report is written.
- What a backup contains, restoring, the decision to take one at start-up, and the running time's effect on the stamp: an archive is its name.
- BackupSchedule.NextStart: sleeping may overshoot by any amount, which counts into d; a wake-up before the hour is the case of a negative d, in which the same hour comes again.
- Text tests of the page are fields holding their answers, for `detail` one field that repainting rewrites; the details a stall or time-out writes, formatting of ages and scores, views and routing.
- Idempotence of `withExportHonesty`, which does not hold in corner cases.
