# CodeWave: the transactional protocols of the backend

CodeWave is a desktop agent. Its backend keeps settings, secrets, scheduled tasks, trust decisions and usage figures
in stores that can fail, be shared by several processes and be cut off at any moment. This project models the
hand-written protocols over these stores and proves what each of them keeps over every run. Paths in the next
table are under `src-tauri/src`.

| what | modules | how it is modelled |
|---|---|---|
| Configuration commits (`core/config_commit.rs`) | `Accounts`, `Credentials`, `LegacyEdits`, `CredentialMeaning`, `Journals`, `ConfigModel`, `ConfigCommit`, `ConfigStores`, `ConfigAtomic`, `ConfigAcceptance`, `ConfigSafety`, `ConfigUpdates`, `ConfigCoordinators` | The configuration file, the journal and the keyring are one value, `Stores`. Every store action may fail in the ways the code allows for, and a number, `power`, says after how many actions the process dies. `Committed`, `Recovered` and `Marked` are the calls as functions of memory, stores and faults; the class `ConfigCoordinator` performs them in place; `ConfigSafety` runs any number of instances, each with the two reads of its startup, over shared stores, and `ConfigUpdates` says when their updates are lost. `CredentialMeaning` and `ConfigAcceptance` say what was asked for and when it is accepted. |
| Scheduled tasks (`core/scheduler.rs`) | `Schedules`, `Tasks`, `TaskSafety`, `TaskDurability`, `TaskRevocation`, `TaskRuns`, `TaskEffects`, `TaskTables` | A task file is what a reader sees now and the set of contents a power loss may leave. Each operation is a function of the table and of how its write ends; the class `TaskTable` performs it in place; `TaskSafety` is the step relation with crashes and restarts; `TaskEffects` says when each operation is accepted and what it does. A crash inside an operation leaves what a crash after the same operation, or after none, leaves, because memory is lost with the process. |
| Trust decisions (`core/trust.rs`) | `Trust`, `TrustOutcomes` | A backend of records whose write may store and still report failure; compare-exchange and batch revocation as functions, and as methods of `TrustStore`. |
| Usage statistics (`core/stats.rs`) | `Aggregates`, `StatsFlush`, `StatsWriter` | The counters and their four tables; a state machine of any number of flushing processes over the lease table; the writer as a class. |
| Leases (`core/coordinator.rs`) | `Leases` | The table as a value with its calls, and the class that updates it. |
| Tool names and wildcards (`mcp/tools.rs`, `mcp/config.rs`) | `Wildcard`, `ToolNames` (with `Decimal`), `Lists` | The matcher and the allocator as methods, against declarative meanings. |
| Activity (`core/activity.rs`) | `Activity`, `ActivityEffects` | The event-driven state as a value with its steps, what each event does, and the class that updates it. |

Where a class and functions model the same code, each method's contract equates the new state with the function of the
old one, and the theorems are about the functions.

Several properties turned out to hold under a condition only. They are stated with that condition, in both directions,
and with a concrete run where one was wanted:

* Memory that is right about the file of a task stays so after every scheduler step except two: a project deletion that
  fails after removing the file of a saved task, and a restart after a process crash that reads a file whose last rename
  was never confirmed and does not rewrite it. It becomes right again with the next write that replaces the file, the
  next result, a removal, or a restart that does not take the file on trust, so after any run it is right if and only if
  one of these came last. In the same way a task is saved for good after a run if and only if a confirmed write, or a
  restart that reads it so, came after everything that ends it (`StepSynced`, `RunSynced`, `RunExact`,
  `TrustedAfterProcessCrash`, `FailedDeletionLosesFile`).
* Releasing an old candidate leaves a newer pending one alone if and only if the two are different identities. They can
  be equal after a claim that failed to write, or whose write stayed uncertain until a confirmed retry, but never after
  the candidate was revoked or handed out (`ReleaseDropsOnlyItself`, `LateReleaseDropsEqualCandidate`,
  `UsedIdentityNeverReturns`).
* A figure is missing after any run of flushes if and only if some write replaced a day file that held some of it and
  did not read back (`MissingIffDestroyed`, `UnreadableFileIsLost`). The other lossy branch of the code, a day that
  cannot be serialized and is counted as committed, is modelled as written, although serializing tables of counters
  under text keys does not fail.
* A compare-exchange that fails with a known error changed nothing. A batch revocation may fail so after it has revoked
  something if and only if it meets a revocable grant before its last account (`KnownErrorChangesNothing`,
  `PartialFailureIff`, `BatchFailureExample`), which the code documents as a conservative revocation.
* A function name parses back into its parts if and only if the server part has no `__` and does not end in `_`
  (`ParseRoundTrip`).
* The check for external changes compares the file with what the instance saw last, not with what it holds. The startup
  loads the settings first (`core/host_services.rs`, line 166) and records the file later (`core/config_commit.rs`, lines
  355-362), and the load falls back to the default when the file does not read or parse at that moment (`core/config.rs`,
  lines 590-604). The first write of an instance builds on what is on disk if and only if what it loaded is what it
  attached to. There are two ways to fail: somebody changed the file between the two reads, or the load fell back although
  the file is readable by the attachment. In both the check passes and settings on disk are taken back, in the second
  without any other instance and with or without coordination (`FirstWriteBuildsOnDiskIff`, `OvertakenStartupOverwrites`,
  `TolerantStartupOverwrites`). By the comment at `core/config_commit.rs`, line 411, a tolerant load is never authority to
  replace an unreadable file; the latch behind it covers a file that does not read at a later call, and not one that
  failed at the load only. Only the two statements about lost updates need an instance that holds what it saw.
* A provider that is not saved yet and appends no new key takes the keys it was submitted with; every other edit gives
  exactly the pool it names (`CredentialMeaning.Gives`, `IntendedGives`).

## Model

| member | source | states |
|---|---|---|
| `ConfigAtomic.CommitIsAtomic` | src-tauri/src/core/config_commit.rs:597-959 | Whatever the patch, the faults and the point of death: the old configuration is on disk with every pool it refers to untouched, or the new one is, and then it is what the patch asked for, field by field and pool by pool; errors mean the former and unchanged memory |
| `ConfigAtomic.LandedDelivers` | src-tauri/src/core/config_commit.rs:638-828 | After the commit point of a page patch, each submitted provider is there and resolves to the pool of its own edit; without one, to what was saved if its keys echo the saved ones, else to what the old string editor makes of them. After any other patch each provider resolves as before |
| `ConfigAtomic.PlannedFields` | src-tauri/src/core/config_commit.rs:638-721 | Every other field is the submitted one where the patch is about it and the old one elsewhere: fonts trimmed, one override set, one skill switched, one command added, overrides of missing models dropped |
| `CredentialMeaning.EditForAsked` | src-tauri/src/core/config_commit.rs:732-760 | An explicit edit is taken as it is; keys that equal the saved ones or their masks ask for nothing; other keys are edits |
| `CredentialMeaning.IntendedGives` | src-tauri/src/core/config_commit.rs:761-811 | What each edit gives: nothing new keeps the saved pool, clearing gives none, replacing the typed keys, appending the saved ones and behind them the typed ones |
| `CredentialMeaning.NormalizedGrows` | src-tauri/src/core/config_commit.rs:1102-1124 | Typed keys join a pool once each, behind the keys that are there and in the order in which they were first typed |
| `CredentialMeaning.WrittenMeans` | src-tauri/src/core/config_commit.rs:761-828 | A provider with a new pool refers to its new account and counts its keys; an emptied one has no key, no reference and the count zero; one that keeps its keys keeps reference and count |
| `CredentialMeaning.ResolvedMeans` | src-tauri/src/core/config_commit.rs:1125-1149 | A provider resolves to its keys in the clear and, behind the placeholder, those of its account, each once; it fails if and only if that account is needed and missing |
| `CredentialMeaning.TrimTrims` | src-tauri/src/core/config_commit.rs:1105 | Trimming takes away the white space around a text and nothing else |
| `CredentialMeaning.MaskShows` | src-tauri/src/core/config.rs:671-681 | A mask shows three stars and the last four characters |
| `ConfigAcceptance.PlannedIff` | src-tauri/src/core/config_commit.rs:634-871 | A commit is planned if and only if it was made against the current version, its draft is well formed, each provider has its saved reference and an edit whose keys can be entered and whose accounts can be read, and the compacted journal has less than 512 records |
| `ConfigAcceptance.ExecutedIff` | src-tauri/src/core/config_commit.rs:872-900 | An executed plan succeeds if and only if the intent is written, every pool is written and reads back, and the configuration is replaced; the error names the first that failed |
| `ConfigAcceptance.FailureLeavesNoCandidate` | src-tauri/src/core/config_commit.rs:953-958 | A commit that fails after its intent takes back every account it may have written, if deletions work |
| `ConfigAcceptance.GuardIff` | src-tauri/src/core/config_commit.rs:386-434 | A commit passes the checks if and only if the lock is free, the file is the one seen last, and both files are readable and the configuration always was; an unreadable one is remembered |
| `ConfigAcceptance.BlockedForGood` | src-tauri/src/core/config_commit.rs:411-434 | An instance that met an unreadable configuration commits and recovers nothing any more |
| `ConfigAcceptance.RecoveryIff` | src-tauri/src/core/config_commit.rs:525-566 | When a recovery succeeds |
| `ConfigAcceptance.MarkIff` | src-tauri/src/core/config_commit.rs:567-588 | When the post-processing mark is set, and that it completes the first record of the operation alone |
| `ConfigAcceptance.ReplayIff` | src-tauri/src/core/config_commit.rs:468-509 | A call goes on if and only if its id is neither the last one committed nor remembered and the history is not full; it is answered from a receipt if and only if it is the last one committed or has a committed record |
| `ConfigAcceptance.HealthyCallLands` | src-tauri/src/core/config_commit.rs:597-952 | When nothing fails, a call with a new id succeeds if and only if its patch is accepted; then the file is what the patch asked for, the instance publishes it, and its record is committed, and complete unless a session cleanup is due |
| `ConfigAtomic.HealthyCommitLands` | src-tauri/src/core/config_commit.rs:873-959 | Without faults a planned commit reaches the disk and memory and raises the sequence by one |
| `ConfigAtomic.LostAnswerIsReplayed` | src-tauri/src/core/config_commit.rs:468-490 | If the process dies anywhere after the commit point, the next instance answers the same operation with its receipt |
| `ConfigAtomic.RecoverySettlesReceipt` | src-tauri/src/core/config_commit.rs:540-547 | Recovery marks the record of the last committed operation as committed |
| `ConfigUpdates.CoherentIffLoadedIsAttached` | src-tauri/src/core/config_commit.rs:355-368 | An instance holds what it saw if and only if what its startup loaded, be it the file or the default, is the file it attached to, or the default when that does not read under coordination |
| `ConfigUpdates.FirstWriteBuildsOnDiskIff` | src-tauri/src/core/config_commit.rs:355-400 | Its first write, with or without coordination, replaces the file of the attachment, and builds on it if and only if the startup loaded that very file, whatever else happens before that write |
| `ConfigUpdates.OvertakenStartupOverwrites` | src-tauri/src/core/config_commit.rs:355-400 | A run from no file at all in which an overtaken instance passes the check and takes back a setting another one has written |
| `ConfigUpdates.TolerantStartupOverwrites` | src-tauri/src/core/config.rs:590-605 | A run from no file at all in which a lone instance whose load fell back to the default passes the check and takes back a setting on disk, with or without coordination |
| `ConfigUpdates.RunKeepsCoherent` | src-tauri/src/core/config_commit.rs:401-408 | An instance that holds what it saw goes on doing so, whatever it or others do |
| `ConfigAtomic.PlannedOk` | src-tauri/src/core/config_commit.rs:833-873 | The intent forgets no operation and no live account, lists every new account, and stays within 512 records |
| `ConfigAtomic.RetiredExactly` | src-tauri/src/core/config_commit.rs:844-864 | Exactly the eligible, unlisted references that the new configuration drops are registered in addition |
| `ConfigAtomic.CommitPoint` | src-tauri/src/core/config_commit.rs:874-900 | With the process alive the configuration is replaced only when every new pool is stored and verified |
| `ConfigAtomic.PlannedPage` | src-tauri/src/core/config_commit.rs:639-651 | A page patch is accepted only at the current page version of this boot, and keeps fonts and all overrides but those of removed models |
| `ConfigAtomic.PlannedRole` | src-tauri/src/core/config_commit.rs:652-678 | A role patch is accepted only at the current version of that role and sets nothing but its override |
| `ConfigAtomic.PlannedOverrides` | src-tauri/src/core/config_commit.rs:708-721 | No committed override names a missing model |
| `ConfigAtomic.PlannedLists` | src-tauri/src/core/config_commit.rs:694-704 | A skill is disabled as asked and all others as before; an allowed command joins the list once |
| `ConfigSafety.CompletedSame` | src-tauri/src/core/config_commit.rs:579-587 | The post-processing mark completes the first record of the operation and nothing else |
| `ConfigAtomic.PublishedTells` | src-tauri/src/core/config_commit.rs:901-912 | A commit raises the page version by one if and only if schema, providers, skills, allowlist, retention or another page field changed, and a role version if and only if that override did |
| `ConfigModel.SamePageIff` | src-tauri/src/core/config_commit.rs:1039-1050 | The comparison sees every field but the last operation, the fonts and the overrides |
| `ConfigSafety.EveryRunIsSafe` | src-tauri/src/core/config_commit.rs:525-959 | In every reachable state, with crashes, restarts and overtaken startups: at most 512 records with distinct ids, every pool in use as it was when the configuration was written, no operation written twice, every created account that exists listed on disk |
| `ConfigSafety.NeverAgain` | src-tauri/src/core/config_commit.rs:468-509 | An id that ever reached the journal stays in a record or in the tombstones for ever, and its operation never writes the configuration again |
| `ConfigSafety.WritesAreCommits` | src-tauri/src/core/config_commit.rs:627-632 | The file is only replaced by a commit, once, for an operation that was not remembered |
| `ConfigSafety.RememberedIsRefused` | src-tauri/src/core/config_commit.rs:468-509 | The receipt check never lets a remembered id through |
| `ConfigUpdates.NoLostPageUpdate` | src-tauri/src/core/config_commit.rs:639-651 | A written page patch of an instance that holds what it last saw replaces a configuration that equals, field by field, the page its client saw, whatever ran in between, and keeps newer fonts and overrides |
| `ConfigUpdates.NoLostRoleUpdate` | src-tauri/src/core/config_commit.rs:652-678 | The same for the override of a role |
| `ConfigSafety.RunTells` | src-tauri/src/core/config_commit.rs:901-912 | Over any run of one boot, equal versions mean that every page field, or the override of the role, is the same |
| `ConfigSafety.EarlierConfigurationResolves` | src-tauri/src/core/config_commit.rs:831-833 | Until the next recovery no account changes, so whoever holds an earlier configuration still resolves its pools, whatever is committed, fails or dies |
| `ConfigAtomic.CommitKeepsAccounts` | src-tauri/src/core/config_commit.rs:812-828 | A commit changes no account that was there before it, even one it drops |
| `ConfigSafety.NoKeyReachesTheFile` | src-tauri/src/core/config_commit.rs:1150-1162 | From the first commit on the file never holds a key |
| `ConfigSafety.RunKeepsInv` | src-tauri/src/core/config_commit.rs:386-408 | Over every run the stores stay sound whatever the instances hold in memory, and without coordination there is one instance at a time |
| `ConfigStores.RecoveryKeeps` | src-tauri/src/core/config_commit.rs:525-566 | However a recovery fails or dies, pools in use, listed accounts and remembered operations survive |
| `ConfigStores.RecoveryCollects` | src-tauri/src/core/config_commit.rs:546-563 | When its deletions work, every registered eligible account that is not in use is gone from keyring and journal, so every created account that exists is in use |
| `ConfigStores.VerifiedPoolsAreStored` | src-tauri/src/core/config_commit.rs:874-889 | If all writes verified and the process lives, each account holds its pool and no other account changed |
| `Credentials.NewPoolIsIntended` | src-tauri/src/core/config_commit.rs:755-811 | A pool made for storage is the intended one and has no duplicates |
| `Credentials.ReferencesAreAssigned` | src-tauri/src/core/config_commit.rs:725-731 | A written reference is the saved one, none, or newly generated, never a submitted one |
| `Credentials.ExtendedIsUnion` | src-tauri/src/core/config_commit.rs:1118-1124 | Extending keeps the old keys in front and in order and adds exactly the missing ones, each once |
| `Credentials.ExtendUnique` | src-tauri/src/core/config_commit.rs:1118-1124 | The loop is that function |
| `Credentials.NormalizedKeys` | src-tauri/src/core/config_commit.rs:1102-1117 | Accepted if and only if no trimmed key is a marker or has a line break; the result holds each nonempty trimmed key once |
| `Credentials.NormalizeNewKeys` | src-tauri/src/core/config_commit.rs:1102-1117 | The loop is that function |
| `Accounts.CleanupIff` | src-tauri/src/core/config_commit.rs:1170-1182 | A cleanup may delete an account if and only if its name is a UUID, or a provider id that is not empty and has no marker, the marker, and a UUID |
| `Accounts.UuidIff` | src-tauri/src/core/config_commit.rs:1174-1182 | The four spellings of a UUID that are accepted |
| `Accounts.GeneratedEligible` | src-tauri/src/core/config_commit.rs:1170-1182 | A generated account may be cleaned up if and only if its provider id is nonempty and has no marker |
| `Accounts.GeneratedSplits` | src-tauri/src/core/config_commit.rs:1174-1182 | Splitting a generated name at its last marker gives back the provider and the UUID |
| `Accounts.GeneratedInjective` | src-tauri/src/core/config_commit.rs:818-822 | Generated names determine provider and UUID |
| `Journals.CompactionForgetsNothing` | src-tauri/src/core/config_commit.rs:1010-1037 | Compaction clears no tombstone, makes every dropped id test positive, keeps every record with accounts, and leaves less than half of the bits set |
| `Journals.KeptExactly` | src-tauri/src/core/config_commit.rs:1014-1024 | Exactly the records with accounts or among the newest 128 stay, in order |
| `Journals.SaturationIsPermanent` | src-tauri/src/core/config_commit.rs:1002-1013 | Bits are only added, so a full history stays full and no compaction succeeds again |
| `Journals.RememberedAll` | src-tauri/src/core/config_commit.rs:1028-1032 | Setting the four bits of each id in 64-bit words makes all of them test positive and clears nothing |
| `Journals.CompactedBits` | src-tauri/src/core/config_commit.rs:1010-1037 | The bits of a compacted journal are those it had and the four of each dropped record, and no others |
| `Journals.ExpiredExactly` | src-tauri/src/core/config_commit.rs:984-1037 | After a compaction an operation tests positive if and only if there are tombstones and each of its four bits was set or is one of a dropped record |
| `Journals.FullIff` | src-tauri/src/core/config_commit.rs:1002-1037 | Compaction fails if and only if half of the 524288 bits would be set, where the sum of the words is the number of bits |
| `Journals.CommitJournal.Compact` | src-tauri/src/core/config_commit.rs:1010-1037 | The in-place compaction is the function those lemmas are about |
| `ConfigModel.RefsIff` | src-tauri/src/core/config_commit.rs:1163-1169 | Which accounts a configuration uses |
| `ConfigModel.ValidatedMeans` | src-tauri/src/core/config_commit.rs:1051-1101 | Validation accepts if and only if format, font sizes, provider and model ids, headers and named edits are as required |
| `ConfigCoordinators.ConfigCoordinator.CommitWith` | src-tauri/src/core/config_commit.rs:597-952 | The in-place commit is the function the theorems are about, for memory, stores and result |
| `ConfigCoordinators.ConfigCoordinator.Prepare` | src-tauri/src/core/config_commit.rs:634-871 | Everything decided before the first write |
| `ConfigCoordinators.ConfigCoordinator.Execute` | src-tauri/src/core/config_commit.rs:872-952 | Intent, pools, commit point, publication and receipt, with removal on failure |
| `ConfigCoordinators.ConfigCoordinator.Recover` | src-tauri/src/core/config_commit.rs:525-566 | The in-place recovery is the function the theorems are about |
| `ConfigCoordinators.ConfigCoordinator.MarkPostProcessed` | src-tauri/src/core/config_commit.rs:567-588 | The same for the post-processing mark |
| `ConfigCoordinators.ConfigCoordinator.Attach` | src-tauri/src/core/config_commit.rs:355-368 | Attaching records the file as it is by then, or nothing when it does not read |
| `ConfigCoordinators.ConfigCoordinator.Guard` | src-tauri/src/core/config_commit.rs:386-434 | Refusal order of the checks, and the latch on an unreadable configuration |
| `ConfigCoordinators.ConfigCoordinator.FindReceipt` | src-tauri/src/core/config_commit.rs:468-509 | The receipt search gives the outcome the theorems use |
| `ConfigCoordinators.ConfigCoordinator.WriteKeys` | src-tauri/src/core/config_commit.rs:874-889 | Write and read back in order, stopping at the first failure |
| `ConfigCoordinators.ConfigCoordinator.DiscardCandidates` | src-tauri/src/core/config_commit.rs:953-958 | All candidates are deleted, failures ignored |
| `ConfigCoordinators.PrepareProviders` | src-tauri/src/core/config_commit.rs:723-828 | The provider loop prepares every provider or none |
| `ConfigCoordinators.ValidateProviders` | src-tauri/src/core/config_commit.rs:1070-1093 | The validation loop finds the first error of the function above |
| `LegacyEdits.LegacyEditMeans` | src-tauri/src/core/config_commit.rs:1186-1234 | A submitted list is refused if and only if it has a placeholder without a saved pool or a mask of no or several saved keys; else it keeps the pool exactly when the placeholder is in it, and its new keys are those the other entries name, in order |
| `LegacyEdits.NothingNamedIsDropped` | src-tauri/src/core/config_commit.rs:1184-1185 | The pool that results holds the saved pool in front, every saved key whose mask was submitted and every key entered, so masks never delete a key silently |
| `ConfigCoordinators.LegacyCredentialEdit` | src-tauri/src/core/config_commit.rs:1186-1234 | The loop gives the edit those two lemmas are about |
| `TaskSafety.OccurrencesOnce` | src-tauri/src/core/scheduler.rs:703-773 | Over every run from an empty table, through edits, failed and uncertain writes, crashes and restarts, the occurrences handed out for one incarnation of a project task strictly increase, and one handed out under an interval lies at least that interval after every earlier one |
| `TaskSafety.ClaimsAreRecorded` | src-tauri/src/core/scheduler.rs:722-772 | The record of claims those statements use grows by exactly the scheduled claims that hand out a snapshot |
| `TaskSafety.RunKeepsInv` | src-tauri/src/core/scheduler.rs:256-287 | Ledgers, claims, generations and the execution lock stay consistent in memory and in every possible image |
| `TaskSafety.StepKeepsInv` | src-tauri/src/core/scheduler.rs:321-446 | One step of any operation, crash or restart keeps them |
| `TaskSafety.HandedOut` | src-tauri/src/core/scheduler.rs:725-772 | A scheduled claim hands out the very occurrence the task waited for, not before its time, and moves the next one past now |
| `TaskSafety.RecoveredOk` | src-tauri/src/core/scheduler.rs:945-1008 | Startup recovery clears the active run and never moves an occurrence back before a claimed one |
| `TaskDurability.StepSynced` | src-tauri/src/core/scheduler.rs:448-480 | After any step memory without unsaved mark is the only possible image of the file if and only if the step settles it, or it was so and the step is not one of two named ones; and a task is saved for good if and only if the step confirms it, or it was and the step does not disturb it |
| `TaskDurability.RunSynced` | src-tauri/src/core/scheduler.rs:448-480 | After any run with any crashes, memory is right about a file if and only if some step settled it and none since weakened it, or it was right and none did |
| `TaskDurability.RunExact` | src-tauri/src/core/scheduler.rs:448-480 | After any run a task is saved for good if and only if some edit, claim, result, retry or restart confirmed it and nothing since disturbed it, or it was and nothing did |
| `TaskDurability.StepAllSynced` | src-tauri/src/core/scheduler.rs:448-480 | Memory that is right about every file stays so, exactly if the step is not one of the two |
| `TaskDurability.PowerLossSettles` | src-tauri/src/core/scheduler.rs:256-287 | A restart after a power loss is exact whatever came before |
| `TaskDurability.UnsavedUntilConfirmed` | src-tauri/src/core/scheduler.rs:387-394 | The unsaved mark only goes away with a confirmed write: an edit, a result or a retry |
| `TaskDurability.UnsavedIsQuarantined` | src-tauri/src/core/scheduler.rs:635-641 | An unsaved task is neither due nor claimable, and the attempt changes nothing |
| `TaskDurability.SnapshotIsDurable` | src-tauri/src/core/scheduler.rs:722-772 | A snapshot comes from a synced task, and its claim is by then the only image of the file |
| `TaskDurability.TrustedAfterProcessCrash` | src-tauri/src/core/scheduler.rs:256-273 | A run after which a task counts as saved while its file may vanish |
| `TaskDurability.FailedDeletionLosesFile` | src-tauri/src/core/scheduler.rs:416-446 | A run after which a failed project deletion left a saved task without its file |
| `TaskRevocation.RevokedForGood` | src-tauri/src/core/scheduler.rs:225-231 | A candidate collected before a successful edit of its task, or an attempt to delete its project, is never handed out afterwards in this process, even after delete and re-create, and its release drops nothing |
| `TaskRevocation.StepMovesGeneration` | src-tauri/src/core/scheduler.rs:225-231 | The generation of a task rises with exactly the revoking steps and stays with all others |
| `TaskRevocation.ReleaseDropsOnlyItself` | src-tauri/src/core/scheduler.rs:680-685 | A release drops a pending entry if and only if it is the same identity |
| `TaskRevocation.UsedIdentityNeverReturns` | src-tauri/src/core/scheduler.rs:680-701 | An identity that was revoked or handed out never becomes pending again in this process, so a late release costs at most collecting anew |
| `TaskRevocation.LateReleaseDropsEqualCandidate` | src-tauri/src/core/scheduler.rs:680-701 | A run in which the identity comes back and a late release drops the newer entry |
| `TaskRuns.LedgersHold` | src-tauri/src/core/scheduler.rs:931-943 | In every reachable state each ledger, in memory and in every image, has at most 20 records with distinct ids, and never that of the active run |
| `TaskRuns.AtMostOneActive` | src-tauri/src/core/scheduler.rs:1072-1082 | With claims made under the execution lock at most one task has an active run |
| `TaskRuns.FinishMergesResult` | src-tauri/src/core/scheduler.rs:776-805 | Finishing adds one record in front and leaves name, instruction, schedule, next run and enabled as edited; any other call changes nothing and revives nothing |
| `TaskRuns.FinishTwice` | src-tauri/src/core/scheduler.rs:783-795 | A second result of the same run changes nothing |
| `TaskRuns.RecoveryRecordsRun` | src-tauri/src/core/scheduler.rs:945-974 | Startup turns an active run into exactly one record and does not reschedule an overdue one-shot |
| `TaskRuns.EveryRunEndsOnce` | src-tauri/src/core/scheduler.rs:776-805 | A run that is handed out and later ends with a confirmed result is from then on, in every later state and whatever crashes, active in no task and no image and recorded at most once in each |
| `TaskRuns.ClaimOwnsRun` | src-tauri/src/core/scheduler.rs:740-772 | A run that is handed out belongs to its task alone: no other task or image holds or records it |
| `TaskRuns.ConfirmedFinishEnds` | src-tauri/src/core/scheduler.rs:794-805 | After a confirmed result of a project task its run is active nowhere |
| `TaskRuns.ConfirmedRestartEnds` | src-tauri/src/core/scheduler.rs:945-974 | So is a run that a restart finds active in the file it reads and whose recovery it writes with confirmation |
| `TaskRuns.RunKeepsOver` | src-tauri/src/core/scheduler.rs:776-805 | Who does not hold a run that was handed out never comes to, and the number of its records never rises |
| `TaskRuns.DueIsClaimed` | src-tauri/src/core/scheduler.rs:628-773 | What is due is collected, and its candidate claims that occurrence and moves the task to the time its schedule text says comes next |
| `TaskEffects.ClaimIff` | src-tauri/src/core/scheduler.rs:703-773 | A run is handed out if and only if the task is idle and saved in an open project, the candidate still names its reserved occurrence and generation, that is due, and the write is confirmed; then it is the active run, a scheduled claim moves on as the text says, a manual one does not move |
| `TaskEffects.DueFrom` | src-tauri/src/core/scheduler.rs:628-678 | A task is due from its occurrence on and not before, and the entry names that occurrence and the generation |
| `TaskEffects.UpsertIff` | src-tauri/src/core/scheduler.rs:321-338 | When a task is added, and what is stored |
| `TaskEffects.UpdateIff` | src-tauri/src/core/scheduler.rs:340-362 | When an update is accepted; name, instruction and text are as asked, a new text starts from now, nothing else changes |
| `TaskEffects.EnableIff` | src-tauri/src/core/scheduler.rs:364-378 | When switching is accepted; turning on starts over from now, nothing else changes |
| `TaskEffects.RemoveIff` | src-tauri/src/core/scheduler.rs:396-412 | When a task is removed, with its file |
| `TaskEffects.DeleteProjectMeans` | src-tauri/src/core/scheduler.rs:416-446 | A deleted project has no task and takes none; a failed deletion keeps every task and leaves it open |
| `TaskEffects.ReleaseMeans` | src-tauri/src/core/scheduler.rs:680-685 | A release takes away the reservation of that very candidate and changes nothing else |
| `TaskEffects.RecoveryMeans` | src-tauri/src/core/scheduler.rs:945-1008 | A run that was active is recorded as failed, an overdue one-shot as skipped, a cron task gets its corrected time, everything else stays |
| `TaskRuns.CandidateIsSpent` | src-tauri/src/core/scheduler.rs:703-735 | A used candidate is refused during the run and after it |
| `TaskTables.TaskTable.constructor` | src-tauri/src/core/scheduler.rs:256-287 | Startup restores and recovers the files one by one |
| `TaskTables.TaskTable.Upsert` | src-tauri/src/core/scheduler.rs:321-338 | In place, the function the theorems are about |
| `TaskTables.TaskTable.Update` | src-tauri/src/core/scheduler.rs:340-362 | In place, the function the theorems are about |
| `TaskTables.TaskTable.SetEnabled` | src-tauri/src/core/scheduler.rs:364-378 | In place, the function the theorems are about |
| `TaskTables.TaskTable.CommitEdit` | src-tauri/src/core/scheduler.rs:387-394 | In place, the function the theorems are about |
| `TaskTables.TaskTable.Remove` | src-tauri/src/core/scheduler.rs:396-412 | In place, the function the theorems are about |
| `TaskTables.TaskTable.DeleteProject` | src-tauri/src/core/scheduler.rs:416-446 | The loop invalidates every task of the project, and a failure reopens it |
| `TaskTables.TaskTable.Persist` | src-tauri/src/core/scheduler.rs:448-480 | Fails before the rename, or writes with confirmed or unconfirmed durability |
| `TaskTables.TaskTable.CollectDue` | src-tauri/src/core/scheduler.rs:628-678 | The loop reserves exactly the due tasks that have no pending entry and returns them by time and id |
| `TaskTables.ResultIsOrdered` | src-tauri/src/core/scheduler.rs:671-677 | The returned list is sorted, holds each due candidate once, and is the same in whatever order the tasks are visited |
| `TaskTables.CollectedInIsCollected` | src-tauri/src/core/scheduler.rs:628-678 | In whatever order the tasks are visited, the same entries are reserved and returned |
| `TaskTables.TaskTable.Claim` | src-tauri/src/core/scheduler.rs:688-701 | The candidate is released whatever the outcome |
| `TaskTables.TaskTable.ClaimUnderLock` | src-tauri/src/core/scheduler.rs:703-773 | Recheck, persist, then publish, or quarantine |
| `TaskTables.TaskTable.FinishRun` | src-tauri/src/core/scheduler.rs:776-805 | In place, the function the theorems are about |
| `TaskTables.TaskTable.RetryUnsaved` | src-tauri/src/core/scheduler.rs:808-829 | In place, the function the theorems are about |
| `Schedules.NextAfterFires` | src-tauri/src/core/scheduler.rs:141-161 | The next time of a text is now plus its interval, the first enumerated instant after now, or its time if that is to come, and nothing else |
| `Schedules.ParseIff` | src-tauri/src/core/scheduler.rs:91-128 | Which texts are schedules, and what an interval text stands for |
| `Schedules.CorrectionIff` | src-tauri/src/core/scheduler.rs:165-177 | A stored time is kept if and only if nothing is left to come, or it is of the schedule and due or the earliest to come; else the earliest to come replaces it |
| `Schedules.CronSkipsNothing` | src-tauri/src/core/scheduler.rs:154-161 | On an increasing cron schedule no occurrence is skipped |
| `TrustOutcomes.AppliesIff` | src-tauri/src/core/trust.rs:252-324 | A call changes the authority if and only if the request is well formed, the account is readable and stands at the expected revision below the last one, no fault comes before the write, and the backend stores |
| `TrustOutcomes.OkIff` | src-tauri/src/core/trust.rs:252-324 | It answers `Ok` if and only if it wrote and read back, or the account already stands where this request would put it |
| `TrustOutcomes.HealthyDecisionLands` | src-tauri/src/core/trust.rs:211-324 | Without faults a decision at the current revision is stored; after a revocation nothing of the account is admitted, after a grant exactly its version at the new revision |
| `TrustOutcomes.HealthyBatchIff` | src-tauri/src/core/trust.rs:329-376 | Without faults a batch succeeds if and only if every account is readable and no grant stands at the last revision |
| `TrustOutcomes.BatchRevokesExactly` | src-tauri/src/core/trust.rs:329-376 | After `Ok` each grant of the batch is the same version, revoked, one revision up, and every other record is as it was |
| `TrustOutcomes.BatchUsesFreshIds` | src-tauri/src/core/trust.rs:348-353 | Each revocation carries the id generated for its round |
| `TrustOutcomes.NormalizeIff` | src-tauri/src/core/trust.rs:386-394 | A version is accepted if and only if it is 64 hexadecimal digits, bare or prefixed; its small spelling is bound |
| `TrustOutcomes.ReadIff` | src-tauri/src/core/trust.rs:396-415 | When an account reads as a record, and as empty |
| `TrustOutcomes.AdmitsIff` | src-tauri/src/core/trust.rs:211-229 | Only a readable grant of this version at this revision is admitted |
| `Trust.OkMeansStored` | src-tauri/src/core/trust.rs:252-324 | `Ok` means the requested record is what a read returns |
| `Trust.KnownErrorChangesNothing` | src-tauri/src/core/trust.rs:130-187 | Any error other than an unknown outcome means that the call changed nothing |
| `Trust.ExchangeEffect` | src-tauri/src/core/trust.rs:252-324 | A call that changes something puts the requested record one revision above the one it expected |
| `Trust.RetryIsIdempotent` | src-tauri/src/core/trust.rs:270-290 | A retry after any outcome of an applied request returns the stored record and writes nothing |
| `Trust.AppliedAtMostOnce` | src-tauri/src/core/trust.rs:252-324 | In any run an operation id with an expected revision is applied at most once to an account |
| `Trust.StepOneUp` | src-tauri/src/core/trust.rs:252-376 | Revisions rise by exactly one per change and records never vanish |
| `Trust.RunNeverGoesBack` | src-tauri/src/core/trust.rs:252-376 | Over a run revisions never fall, and an equal revision means the same record |
| `Trust.BatchIsConservative` | src-tauri/src/core/trust.rs:329-376 | Whatever a batch returns, what is admitted afterwards was admitted before, and other accounts are untouched |
| `Trust.BatchOkRevokes` | src-tauri/src/core/trust.rs:329-376 | After `Ok` none of the accounts is admitted |
| `Trust.RevokedUntilRegranted` | src-tauri/src/core/trust.rs:211-229 | Later, only a grant at a strictly higher revision is admitted |
| `Trust.PartialFailureIff` | src-tauri/src/core/trust.rs:329-376 | A batch may fail with a known error and yet have revoked if and only if, passing over readable accounts without a grant, it comes to a revocable grant that is not the last account |
| `Trust.BatchFailureExample` | src-tauri/src/core/trust.rs:329-376 | A batch that answers busy after it has revoked |
| `Trust.NormalFormIsFixed` | src-tauri/src/core/trust.rs:379-394 | Normalized versions are their own normal form, with or without prefix |
| `Trust.TrustStore.Admit` | src-tauri/src/core/trust.rs:211-229 | Admits exactly a readable grant of the version at the revision |
| `Trust.TrustStore.Read` | src-tauri/src/core/trust.rs:396-415 | Reads the valid record, its absence, or corruption |
| `Trust.TrustStore.CompareExchange` | src-tauri/src/core/trust.rs:231-324 | In place, the function the theorems are about |
| `Trust.TrustStore.RevokeBatch` | src-tauri/src/core/trust.rs:329-376 | The loop is the function the theorems are about |
| `StatsFlush.SubmittedIsAccounted` | src-tauri/src/core/stats.rs:212-320 | From a fresh start, for every interleaving of any number of processes: disk, backlogs and losses add up to the figures of the records submitted, for each counter of each date, model, workspace and kind |
| `StatsFlush.RunConserves` | src-tauri/src/core/stats.rs:267-320 | From any consistent state: disk, unwritten backlog and losses go on adding up to everything recorded |
| `StatsFlush.FlushAdvances` | src-tauri/src/core/stats.rs:267-320 | A flush starts with every date of the backlog, each of its steps leaves less to do whatever is refused or fails, a date is committed by its write alone, and exactly those leave the backlog |
| `StatsFlush.SomeStepFits` | src-tauri/src/core/stats.rs:267-320 | A flush is never stuck: some step fits every stage |
| `StatsFlush.NothingMissingAfter` | src-tauri/src/core/stats.rs:267-320 | From a fresh start nothing is missing unless a lossy write happened |
| `StatsFlush.MissingIffDestroyed` | src-tauri/src/core/stats.rs:283-306 | From a fresh start a figure is complete if and only if no write replaced a file it had not read while that file held some of it, nor dropped a backlog it could not serialize |
| `StatsFlush.LossyStepLoses` | src-tauri/src/core/stats.rs:283-306 | How much of each figure of any date the two lossy writes destroy |
| `StatsFlush.UnreadableFileIsLost` | src-tauri/src/core/stats.rs:283-306 | A run from a fresh start that loses the first of two records because the file does not read back at the second flush |
| `StatsFlush.MutualExclusion` | src-tauri/src/core/stats.rs:352-368 | No two processes read and write the same day at once |
| `StatsFlush.RunKeepsBalance` | src-tauri/src/core/stats.rs:231-243 | By model, by workspace and by kind each sum to the total, everywhere and over every run |
| `StatsFlush.FreshConserved` | src-tauri/src/core/stats.rs:212-230 | The start state conserves |
| `StatsWriter.Writer.Record` | src-tauri/src/core/stats.rs:231-243 | One record raises the figures of its model, workspace, kind and the total of its day by its own counters |
| `Aggregates.AddAdds` | src-tauri/src/core/stats.rs:111-121 | Each counter rises by the figure of that name, five of the record and four of its timing |
| `StatsWriter.RefusedIff` | src-tauri/src/core/stats.rs:352-368 | A day is refused if and only if its lease is with another process or attempt |
| `StatsWriter.FlushedFigures` | src-tauri/src/core/stats.rs:267-320 | Figure by figure, what a flush puts in the files and what stays in the backlog |
| `StatsWriter.Writer.FlushDay` | src-tauri/src/core/stats.rs:273-320 | One day: lease, read, merge, write, release; exact disk, leases and outcome |
| `StatsWriter.Writer.Flush` | src-tauri/src/core/stats.rs:267-320 | Exactly the dates neither refused nor failing are on disk and leave the backlog |
| `Aggregates.MergeAdds` | src-tauri/src/core/stats.rs:124-134 | Merging adds every counter |
| `Aggregates.AddRecordBalanced` | src-tauri/src/core/stats.rs:231-243 | Recording keeps the breakdowns summing to the total |
| `Aggregates.MergeDaysBalanced` | src-tauri/src/core/stats.rs:284-300 | So does merging two files |
| `Aggregates.ColumnSumMerges` | src-tauri/src/core/stats.rs:284-300 | Column sums of merged tables add |
| `Aggregates.MergeInto` | src-tauri/src/core/stats.rs:284-300 | The loop over the old file is the merge of the tables |
| `Leases.AcquireIff` | src-tauri/src/core/coordinator.rs:136-177 | A resource is granted if and only if its holder asks again with the same run and attempt, or it is free and the expected generation, if any, is the last one; what the lease then says |
| `Leases.OnlyTheHolderReenters` | src-tauri/src/core/coordinator.rs:136-177 | Until it is released, its holder gets a lease again and everybody else is refused |
| `Leases.ReleaseIff` | src-tauri/src/core/coordinator.rs:179-195 | A lease is released if and only if it is the current one, and alone |
| `Leases.CommitIff` | src-tauri/src/core/coordinator.rs:197-224 | A transaction commits if and only if its lease is current and every path names something; its receipt is the only change |
| `Leases.IssuedStrictlyIncrease` | src-tauri/src/core/coordinator.rs:136-177 | Over any run newly issued generations strictly increase |
| `Leases.LateCallsFail` | src-tauri/src/core/coordinator.rs:179-224 | Once released, a lease neither releases nor commits anything, whatever happens afterwards |
| `Leases.HeldUntilReleased` | src-tauri/src/core/coordinator.rs:136-195 | Nothing but its own release ends a lease |
| `Leases.FailureChangesNothing` | src-tauri/src/core/coordinator.rs:136-224 | A failing call changes no lease and commits nothing |
| `Leases.GoneForGood` | src-tauri/src/core/coordinator.rs:136-224 | An issued generation that is not current never is again |
| `Leases.RunKeepsInv` | src-tauri/src/core/coordinator.rs:113-134 | Leases sit at their resource with issued, distinct generations |
| `Leases.InProcessCoordinator.Acquire` | src-tauri/src/core/coordinator.rs:136-177 | In place, the function the theorems are about |
| `Leases.InProcessCoordinator.Release` | src-tauri/src/core/coordinator.rs:179-195 | In place, the function the theorems are about |
| `Leases.InProcessCoordinator.Commit` | src-tauri/src/core/coordinator.rs:197-224 | All writes are recorded, or none |
| `Wildcard.WildcardMatch` | src-tauri/src/mcp/config.rs:135-159 | True exactly when every star can be replaced by some string to give the input |
| `Wildcard.LeftmostServes` | src-tauri/src/mcp/config.rs:146-157 | Whatever place a match gives to a middle part, the leftmost serves |
| `Wildcard.Allows` | src-tauri/src/mcp/config.rs:120-127 | Allow and deny lists as sets of patterns |
| `ToolNames.BuildToolDefs` | src-tauri/src/mcp/tools.rs:61-86 | Names are allocated in the order of the tools, and the index maps each back to exactly its owner |
| `ToolNames.FreeName` | src-tauri/src/mcp/tools.rs:68-76 | The search ends, at the first free candidate |
| `ToolNames.AllocatedDistinctLegal` | src-tauri/src/mcp/tools.rs:33-86 | Allocated names are pairwise distinct and legal |
| `ToolNames.AllocatedNames` | src-tauri/src/mcp/tools.rs:52-86 | A tool is called by the prefix, its server and its own name, or with the least number from 2 on that is free |
| `ToolNames.PermutationInvariant` | src-tauri/src/mcp/tools.rs:61-66 | Names and index are the same for every order of the input |
| `ToolNames.SanitizeMeans` | src-tauri/src/mcp/tools.rs:33-50 | Every character a provider does not allow becomes an underscore in its place |
| `ToolNames.ParsesIff` | src-tauri/src/mcp/tools.rs:91-98 | A name parses if and only if it is the prefix and two nonempty parts, split at the first separator |
| `Decimal.TextIsDecimal` | src-tauri/src/mcp/tools.rs:68-76 | The number in a name is its decimal text |
| `ToolNames.ParseRoundTrip` | src-tauri/src/mcp/tools.rs:91-98 | When exactly a name parses back into its parts |
| `ToolNames.SortSorts` | src-tauri/src/mcp/tools.rs:61-66 | The tools are put in order without loss |
| `Activity.EveryHistory` | src-tauri/src/core/activity.rs:95-180 | In every reachable state: at most 50 entries with distinct ids, and the subs that no longer run are exactly the remembered finishers, at most 50 |
| `Activity.StepKeepsInv` | src-tauri/src/core/activity.rs:199-412 | Each event keeps this and the agreement of history and run |
| `Activity.FinishPublishes` | src-tauri/src/core/activity.rs:121-178 | Finishing publishes exactly the still-running subs, each as ended, and then the session, all of them new |
| `Activity.TerminalIsPublished` | src-tauri/src/core/activity.rs:351-412 | A sub's terminal event is published at once |
| `ActivityEffects.EndMeans` | src-tauri/src/core/activity.rs:351-412 | A terminal event counts for a running sub only: status, steps, detail and end as the event says, registration and questions dropped, the first of 50 finished subs gone, one entry with the right status published |
| `ActivityEffects.StepMeans` | src-tauri/src/core/activity.rs:362-366 | A step counts for a running sub only, raises its count and replaces its detail |
| `ActivityEffects.ReportMeans` | src-tauri/src/core/activity.rs:367 | A report is kept with a running sub |
| `ActivityEffects.SpawnMeans` | src-tauri/src/core/activity.rs:330-350 | A sub is announced once and then runs from step 0 |
| `ActivityEffects.AsksMean` | src-tauri/src/core/activity.rs:285-329 | Which questions count, and what closing takes away |
| `ActivityEffects.ObserveMeans` | src-tauri/src/core/activity.rs:254-412 | An event of another run, or one that does not count, changes nothing; else the revision rises |
| `ActivityEffects.EndedMeans` | src-tauri/src/core/activity.rs:121-160 | What the end of a session makes of a sub that still runs, and what is published about it |
| `ActivityEffects.SessionEndsFirst` | src-tauri/src/core/activity.rs:161-178 | The newest entry is then the session, with its title and status |
| `ActivityEffects.TitleMeans` | src-tauri/src/core/activity.rs:256-268 | A title reaches the live run and the entries of its session |
| `ActivityEffects.RegisterMeans` | src-tauri/src/core/activity.rs:234-252 | A running sub is registered with the run it was started for |
| `ActivityEffects.BeginMeans` | src-tauri/src/core/activity.rs:201-228 | A run begins without subs and questions |
| `ActivityEffects.PruneMeans` | src-tauri/src/core/activity.rs:416-466 | Sampled questions that are not valid go; the revision rises if and only if something changed |
| `Activity.RunningNotShown` | src-tauri/src/core/activity.rs:112-178 | No entry of the history can swallow a running sub |
| `Activity.ActivityState.Observe` | src-tauri/src/core/activity.rs:254-412 | In place, the step; an event of another run changes nothing |
| `Activity.ActivityState.Finish` | src-tauri/src/core/activity.rs:121-178 | In place, the step |
| `Activity.ActivityState.EndSub` | src-tauri/src/core/activity.rs:351-412 | In place, the end of one sub |
| `Activity.ActivityState.Reconcile` | src-tauri/src/core/activity.rs:416-466 | In place, the pruning of stale questions of a live run; the revision rises exactly if something changed |
| `Activity.ActivityState.Begin` | src-tauri/src/core/activity.rs:201-228 | In place, the step |
| `Activity.ActivityState.RegisterSub` | src-tauri/src/core/activity.rs:234-252 | In place, the step |
| `Activity.ActivityState.PushRecent` | src-tauri/src/core/activity.rs:112-119 | A known id changes nothing; a new one comes first and the list stays within 50 |

## Left out

- The digest of the configuration is a function of its value; the code serializes hash maps, whose order is not fixed.
- A power loss that takes back a configuration replacement whose directory was not synced: a stored configuration stays stored. Until the next recovery the pools of the earlier one are intact (`ConfigSafety.EarlierConfigurationResolves`); a recovery in between deletes those no longer in use.
- Warnings, snapshots for clients, the effects on proxy, logging and key pools, and the `operation` query.
- Journals that do not parse, and the identity of UUID spellings: ids are values, and an unparsable one is no operation.
- Multi-byte characters in masks and white space beyond ASCII in trimming, `validate_request_headers` (a flag of the provider), role aliases.
- A file of another format is one that does not read, except that the startup load may take its content.
- The digest of an operation id is any function of the id; no statement about how rare false positives are.
- Cron expressions are the instants their iterator enumerates; time zones, daylight saving and time texts are not modelled.
- Task issues and messages, `valid_id`, duplicate files and the project registry.
- Lazy initialization of the task table: startup comes before every other operation.
- One file per task id: files of the same id in two projects are not modelled.
- TaskRuns.EveryRunEndsOnce: is about project tasks; a task of no project has no file and is gone after a crash.
- TaskSafety.OccurrencesOnce: assumes that the clock does not go back, as `next_after` only looks forward from now.
- StatsFlush.RunConserves: covers every interleaving, but no process that dies between its write and its release.
- Retention cleanup and queries of statistics; the aggregate counters are values, not objects.
- The backing store of leases between processes and its lock files: mutual exclusion is that of the lease table.
- Leases.RunKeepsInv: generations are unbounded, so the wrap of a 64-bit counter is not modelled; nor is the filter of `recover`.
- ToolNames.FreeName: the counter is unbounded; the code's 32-bit counter would overflow only beyond 2^32 names.
- Schema normalization, transports, merging of scopes and validation of server entries.
- Lock waits, cancellation timing and asynchronous scheduling: each locked transaction is one step.
- Ids of history entries are structured values; the code formats them into strings, which could collide.
- Activity.StepKeepsInv: assumes a run id that is new to the history when the run begins, as the host generates one per run.
- Truncation of texts, the workflow field, clocks and weak references of the activity observer.
- Launch review, the review service, evaluation, wait targets, preferences, prompts, and the other services of the host.
