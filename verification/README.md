# Hakopod installation and release tooling: a Dafny model

This project models the parts of Hakopod's installer and release tooling that have to survive crashes, retries and
concurrent writers, and the text and graph algorithms with exact laws, and proves properties of them. Check it with
`dafny verify dfyconfig.toml`.

| files | what they model |
|---|---|
| `cleanup.dfy` | the cleanup operation: a receipt saved before and after every unlink, crashes between any two disk writes, other processes changing the directory |
| `upgrade.dfy` | one upgrade attempt and any number of them: stage, stop, back up, switch, start |
| `locks.dfy` | the process lock and the install lock, handed from the request thread to its worker, over any number of processes |
| `texts.dfy`, `versions.dfy`, `selection.dfy` | release versions, their order, and the choice of a release |
| `packager.dfy` | the dependency closure that is packaged with the dashboard |
| `deltas.dfy`, `chain.dfy` | source-inventory deltas and the hash-anchored chain of reviews |
| `named_lists.dfy`, `merge.dfy`, `controllers.dfy` | the merge that preserves foreign fields, and the plan/apply protocol against concurrent writers |
| `reservations.dfy` | the cached preparation of database node reservations |
| `templates.dfy`, `runtimes.dfy` | the owned sections in the containerd template, and the two runtimes that share it |
| `certificate.dfy` | dashboard certificate generations |
| `eligibility.dfy` | withdrawing and publishing a node's Actions eligibility, with the ClickHouse installer changing the same template |
| `prepare.dfy` | the resumable first steps of an installation |
| `relay.dfy` | the two-way relay of the pod stream example |
| `encoding.dfy`, `uris.dfy`, `uri_round_trip.dfy`, `uri_rules.dfy` | the restricted PostgreSQL URI, parsed and printed, and its rules |
| `base.dfy` | shared datatypes |

## How it is modelled

Code that updates state is a class with methods; each method's contract ties the new state to the old one, and the
laws are lemmas about the values in those contracts. Code made of expressions is functions. Every effectful step of a
protocol returns a `Signal`: it went on, raised an exception, or the process died; after a death no handler runs. A
step that may fail has both outcomes, before and after its effect where the effect is not atomic. Other processes are
explicit interference methods that may do anything their stated restriction allows. Ghost flags (`calm`, `failed`,
`trouble`, `failing`, `disturbed`) record whether a step failed by itself or somebody else interfered, so that a
contract can say that a run without either succeeds, and that a run that succeeds had none. Definitions that the code
and its specification share are tied to the fields they speak of by lemmas named `...Meaning`. Files replaced by a
rename are either old or new. Digests are free constructors or injective stand-ins, so they never collide. `hide`
statements only keep definitions folded that a proof does not need.

## Results about the code that its own text does not promise

- An upgrade whose copy into the release directory breaks off part-way, or whose removal of it fails, leaves that
  directory behind, and then every further attempt to the same version is refused. `Upgrades.Host.PerformUpgrade` states
  exactly when (`Undone`) and what follows (`Untouchable`). A left-over `current.next` is worse: later attempts stop the
  services and take a backup before they are refused at the switch.
- The process lock is lost for good, until the process ends, exactly where closing the lock file raises, since the release
  after it is then skipped (`Locks.AllGivenBack`; `Locks.LeakHappens` is such a run).
- A stable installation is guarded against prereleases by GitHub's flag alone: it is given a prerelease exactly when an
  unflagged release with a prerelease version is above all choosable stable ones (`Selection.PrereleaseChosenIff`), as on
  the list of `Selection.MislabelledIsChosen`.
- Merging raises exactly when a desired list repeats a name that the current list lacks (`Merging.MergeRaisesIff`).
- A delta whose result is empty or too large cannot be undone (`Deltas.ReversedUndoes`).
- A template that ends with a begin or end line without its line break gets a doubled marker from the first append, and is
  refused from then on; the same can happen to the other runtime's marker (`Templates.ExtendTwice`, `Templates.KeepsOther`).
  `Runtimes.StrayIsRefused` and `Runtimes.OtherIsRefused` are inputs on which this happens.
- If recording a certificate switch fails with an error after the restart, and the dashboard cannot be restarted on the
  generation the link goes back to, `applied` and `current` agree while the dashboard runs the other generation; this is the
  only way (`Certificates.Store.Install`).
- An item reported as removed is one at whose path a file was unlinked; that file is the reviewed one exactly if the
  reviewed one had not gone between the second look and the unlink (`Cleanup.RemovedMeaning`).
- `prepare` without the resume flag on a complete installation creates a missing secret anew; its callers refuse that
  combination earlier, in the preflight (`Preparation.Machine.Prepare`).
- The URI round trip is exact only for a lower-case host, since reading a URI lower-cases it (`UriRoundTrip.RoundTrip`);
  parsing itself can return another one, from the query (`UriRoundTrip.UpperCaseHost`).
- A ClickHouse run leaves the Actions label on while K3s gets a configuration that the Actions verification never saw; it
  is generated from the published template with the ClickHouse section added, and from nothing else (`Eligibility.Lifetime`).

## Model

| member | source | states |
|---|---|---|
| `Cleanup.Validate` | installer/maintenance.py:521-529 | accepts a request exactly when its id, items, distinct ids, sizes and total are within the limits |
| `Cleanup.ValidBodyMeaning` | installer/maintenance.py:521-529 | the limits of a request, field by field |
| `Cleanup.CleanupItemMeaning` | installer/maintenance.py:474-479 | which files can be cleaned up, and that the id tells apart path, device, inode, size and modification time |
| `Cleanup.Disk.Execute` | installer/maintenance.py:520-597 | whatever a run does and wherever it fails or dies: history only grows, a foreign or malformed request changes nothing, a finished operation is only reported again; a run that raises leaves the receipt alone or marks it interrupted, unless that save fails. What is returned is the stored, succeeded receipt of this very request, no step had failed, and every item is reported by what was found: removed exactly if the preview listed it as requested and the second look showed just that, and neither look misses a file that is still there. With nobody else at work and no failing step a directory within the bounds is always cleaned up, as it was found |
| `Cleanup.Disk.TryBody` | installer/maintenance.py:536-588 | the body of the `try`, with the memory the handler will find: never more than one save ahead of the disk |
| `Cleanup.Disk.Run` | installer/maintenance.py:545-588 | a new or unfinished operation: the memory left behind accounts for every unlink |
| `Cleanup.Disk.Resume` | installer/maintenance.py:552-588 | preview, loop and final save, resumed from any stored receipt |
| `Cleanup.Disk.Classify` | installer/maintenance.py:553-582 | after the loop every requested item has a verdict that follows from the preview and its second look; for items decided by earlier runs, uncertain ones included, nothing is unlinked again; left alone, the loop ends and exactly the paths of the removed items have gone |
| `Cleanup.Disk.Advance` | installer/maintenance.py:558-582 | an item that the preview lists as requested is removed exactly if the second look equals it, else skipped; any other is dismissed |
| `Cleanup.Disk.Process` | installer/maintenance.py:567-582 | an item is deleted exactly if a second look still finds the reviewed file, and skipped otherwise; the unlink is recorded with what had gone by that look |
| `Cleanup.Disk.Dismiss` | installer/maintenance.py:561-566 | an item the preview lost is uncertain exactly if it was pending, else skipped |
| `Cleanup.Disk.Delete` | installer/maintenance.py:577-582 | the id is on disk as pending before the unlink; an unlink that happened is never forgotten |
| `Cleanup.Disk.Unlink` | installer/maintenance.py:579 | each item is unlinked at most once; what was hit is recorded, with the identities that had gone by the look and by the unlink |
| `Cleanup.Disk.Preview` | installer/maintenance.py:481-501 | lists exactly the entries that can be cleaned up, sees every file that stays, lists only files that were on disk while it ran, and stops beyond 512 entries, 256 files or 8 GiB |
| `Cleanup.Disk.Save` | installer/maintenance.py:504-517 | the stored receipt is the old or the new one, never a mixture |
| `Cleanup.Disk.Finish` | installer/maintenance.py:583-588 | success is stored only when every item has a verdict and none is pending |
| `Cleanup.Disk.Interrupt` | installer/maintenance.py:589-594 | the handler stores what the memory knows and returns nothing |
| `Cleanup.Lifetime` | installer/maintenance.py:520-597 | over any number of attempts at one operation id, all successful answers are the same receipt |
| `Cleanup.AtMostOneCategory` | installer/maintenance.py:555-582 | an item is mentioned at most once over removed, skipped and uncertain, and mentioned exactly if it was decided |
| `Cleanup.SucceededClassifiesAll` | installer/maintenance.py:583-588 | a succeeded receipt puts every requested item in exactly one category |
| `Cleanup.CategoriesTellTheTruth` | installer/maintenance.py:555-582 | an item at whose path this operation unlinked a file is never recorded as skipped, and for one recorded as removed a file at its path was unlinked |
| `Cleanup.RemovedMeaning` | installer/maintenance.py:572-582 | for an item recorded as removed, the unlinked file was the reviewed one if and only if that file had not gone between the second look and the unlink |
| `Cleanup.RemovedWithinPlan` | installer/maintenance.py:584 | the reported total is that of the removed items, and with the skipped and the uncertain ones it adds up to what the request planned, at most 8 GiB |
| `Cleanup.InDone` | installer/maintenance.py:553 | the set of finished ids computed at the start is exactly the decided prefix of the request |
| `Upgrades.Host.Upgrade` | installer/maintenance.py:341-360 | how one attempt leaves the host, and that a raised attempt never leaves its status unreported unless saving the status failed |
| `Upgrades.Host.PerformUpgrade` | installer/maintenance.py:363-457 | `CURRENT` is the target exactly if the switch happened; a failure before it tried to remove the copy and asked the services to start again; the target's directory is left exactly when the copy broke off part-way or its removal failed; and an attempt fails exactly for a step that failed, a release that did not get ready, an existing target directory or a left-over switch file |
| `Upgrades.Host.Try` | installer/maintenance.py:377-438 | the three flags tell exactly how far the attempt came; an existing target directory stops it before any service is touched, a left-over switch file only at the switch |
| `Upgrades.Host.StageRelease` | installer/maintenance.py:378-412 | the copy counts as staged exactly when it is complete |
| `Upgrades.Host.TakeDown` | installer/maintenance.py:413-421 | reaching the switch means services down and a backup completed since |
| `Upgrades.Host.BringUp` | installer/maintenance.py:422-437 | success means switched, started, found ready and saved, in that order |
| `Upgrades.Host.Switch` | installer/maintenance.py:423-427 | demands stopped services and a backup; an existing `current.next` makes it raise and stays; a failure keeps the old release |
| `Upgrades.Host.CopyTree` | installer/maintenance.py:411-412 | a copy that breaks off may leave an incomplete directory, which the flag does not cover |
| `Upgrades.Host.RemoveStaged` | installer/maintenance.py:442-444 | only a copy that is not in use is removed; when that fails the directory is still there |
| `Upgrades.Host.AwaitReady` | installer/maintenance.py:431-436 | ready exactly when a probe passes after fewer than 45 failed ones; it raises exactly after 45 failed probes |
| `Upgrades.Host.Save` | installer/maintenance.py:127-132 | the status file is the old or the new one |
| `Upgrades.Host.Recover` | installer/maintenance.py:439-457 | before a switch: copy removed or known to be stuck, services asked to start; after it: nothing but a report |
| `Upgrades.SwitchesGuarded` | installer/maintenance.py:413-427 | every switch follows a stop and then a completed backup of the same attempt, with no start in between |
| `Upgrades.StartsNameCurrent` | installer/maintenance.py:430-447 | every start asked for is of the release in use at that moment |
| `Upgrades.OneStartAfterSwitch` | installer/maintenance.py:427-457 | after a switch the same attempt asks for at most one start: once the new release was started, no handler starts anything again |
| `Upgrades.SuccessEarned` | installer/maintenance.py:428-437 | success is saved only for a release that was switched to, then started, then found ready in that attempt |
| `Upgrades.RemovalBeforeSwitch` | installer/maintenance.py:442-444 | a copy is never removed in an attempt that switched to it |
| `Upgrades.CurrentIsLastSwitched` | installer/maintenance.py:427 | the release in use is the last one switched to |
| `Upgrades.AcceptableIsSafe` | installer/maintenance.py:363-457 | the safety statements hold of every position of every acceptable trace |
| `Upgrades.Serve` | installer/maintenance.py:718-726 | after the helper restarts, an abandoned operation is reported as failed |
| `Upgrades.Lifetime` | installer/maintenance.py:341-457 | over any number of attempts, deaths, reboots, starts by others and repairs the run stays safe and `CURRENT` names a complete release |
| `Locks.RunBalanced` | installer/maintenance.py:341-360 | in every run, each held process lock, open lock file and acquisition answers to exactly one task |
| `Locks.AcquireKeeps` | installer/maintenance.py:342-343 | taking the process lock opens one new acquisition, answered for by the taker |
| `Locks.DispatchKeeps` | installer/maintenance.py:689-699 | the hand-over moves both locks from the request thread to its worker, once |
| `Locks.LockKeeps` | installer/maintenance.py:347-349 | the install lock goes to a task only while no open file holds it |
| `Locks.CloseKeeps` | installer/maintenance.py:359 | closing the lock file frees the install lock it held and no other |
| `Locks.ReleaseKeeps` | installer/maintenance.py:360 | the release gives back exactly the releaser's own acquisition |
| `Locks.KillKeeps` | installer/maintenance.py:677-699 | a dying process takes its lock and files with it and leaves the others' alone |
| `Locks.OneOwner` | installer/maintenance.py:532-597 | at most one task per process owns the process lock, and at most one of all processes works under the install lock |
| `Locks.ReleasedOnce` | installer/maintenance.py:341-360 | no release hits a free lock; an acquisition is given back exactly once as soon as nobody answers for it, unless its process died |
| `Locks.AllGivenBack` | installer/maintenance.py:595-597 | when all tasks have ended the install lock is free, and a process lock is still held exactly where closing the lock file raised |
| `Locks.LeakedMeaning` | installer/maintenance.py:357-360 | a task leaks its process lock exactly when closing its lock file raised, read off the steps of the run, and its process has not died since |
| `Locks.FailedOpenGivesBack` | installer/maintenance.py:347-360 | a lock file that does not open costs nothing: the process lock is given back at the next step |
| `Locks.FailedLockGivesBack` | installer/maintenance.py:347-360 | an install lock that is taken costs nothing either |
| `Locks.FinishedGivesBack` | installer/maintenance.py:357-360 | finished work frees both locks |
| `Locks.LeakHappens` | installer/maintenance.py:359-360 | a run in which closing raises and the process lock is then held with nothing left to run |
| `Locks.Proceeds` | installer/maintenance.py:677-699 | a task that finds both locks free gets to work, through the worker for a request |
| `Locks.Progress` | installer/maintenance.py:677-699 | every step of an unfinished task, the hand-over included, uses up some of the work left |
| `Locks.BusyEnds` | installer/maintenance.py:341-360 | so all tasks under way end after a bounded number of steps, in any order and with any failures |
| `Versions.VersionKey` | installer/maintenance.py:45-55 | the parser with its loop computes exactly the specified key or error |
| `Versions.KeyOfRender` | installer/maintenance.py:45-55 | every well-formed key within 64 characters is the key of its printed text |
| `Versions.RenderKeyOf` | installer/maintenance.py:45-55 | only the canonical text of a key is accepted, so distinct accepted versions have distinct keys |
| `Versions.LessIsPrecedence` | installer/maintenance.py:45-55 | comparing the tuples is precedence by section 11 of Semantic Versioning 2.0.0 |
| `Versions.WordsAgree` | installer/maintenance.py:49-55 | words compare by the codes of their first differing characters, and a beginning comes first |
| `Versions.WordMeaning` | installer/maintenance.py:46-54 | a prerelease word is letters, digits and hyphens, not all digits |
| `Versions.LessTotal` | installer/maintenance.py:45-55 | version keys are strictly and totally ordered |
| `Versions.AcceptedOrdered` | installer/maintenance.py:45-55 | of two accepted texts exactly one precedes, or they are the same text |
| `Texts.LexMeaning` | installer/maintenance.py:45-55 | tuple and string comparison is decided by the first difference, and a beginning comes before its continuation |
| `Texts.FromNatMeaning` | installer/maintenance.py:46 | printing and reading a number are inverse, and printing gives canonical numerals |
| `Texts.ToNatMeaning` | installer/maintenance.py:46 | a canonical numeral is the printed form of its number |
| `Texts.SplitJoin` | installer/maintenance.py:50 | splitting undoes joining when no part holds the separator |
| `Texts.JoinSplit` | installer/maintenance.py:50 | joining undoes splitting |
| `Selection.Eligible` | installer/maintenance.py:77-93 | fails exactly for a bad installed version or a tag that is not text; otherwise the first newest choosable release, or nothing exactly when none is choosable |
| `Selection.Max` | installer/maintenance.py:93 | the first maximum of the choices |
| `Selection.ReleaseCheck` | installer/maintenance.py:96-124 | an offer is a supported choosable release and not older than any other such; with fewer than eight releases, up to date means every choosable one was refused; a failure has a tag that is not text or a candidate whose check fails; and the at most eight examined candidates are the newest ones, each refused |
| `Selection.ReportMeaning` | installer/maintenance.py:96-124 | an offer is the newest supported choosable release, and while one exists the answer is up to date only behind eight refused ones, none of them older |
| `Selection.ChoosableMeaning` | installer/maintenance.py:77-93 | a choice follows the installed version in the standard's order, stays in its series, and for a stable installation is not flagged as a prerelease |
| `Selection.ChoosableIff` | installer/maintenance.py:77-93 | the whole condition for a choice over the tag, the two flags and the assets of a release |
| `Selection.TagMeaning` | installer/maintenance.py:82 | a tag names its version with or without one leading v |
| `Selection.MislabelledIsChosen` | installer/maintenance.py:87 | a prerelease published without the flag is the answer for a stable installation, shown on 1.0.1-rc.1 |
| `Selection.PrereleaseChosenIff` | installer/maintenance.py:77-93 | a stable installation is given a prerelease exactly when some choosable release with a prerelease version is above every choosable stable one |
| `Packager.Packager.PackageRuntime` | release/build-installer.py:80-151 | succeeds exactly when every import resolves and everything reachable can be copied; then copies exactly the reachable packages, links every edge and lists each package once; over the fields of the packages: every wanted dependency, peers and optionals included, that is found is copied and linked, nothing else is linked, and each copy has its own store directory and one inventory entry |
| `Packager.Packager.CopyRoots` | release/build-installer.py:149 | all imports are copied and linked, or one of them cannot be |
| `Packager.Packager.CopyPackage` | release/build-installer.py:101-138 | ends on every finite, possibly cyclic graph, and copies nothing outside any closed set around the package |
| `Packager.Packager.CopyTree` | release/build-installer.py:104-129 | the checks of one package and its single inventory entry |
| `Packager.Packager.FollowAll` | release/build-installer.py:130-137 | after the loop every dependency edge is linked or may be missing |
| `Packager.Packager.FollowEdge` | release/build-installer.py:132-137 | one dependency: type packages skipped, optional ones may be missing, the others resolve, are copied and linked |
| `Packager.Resolve` | release/build-installer.py:90-97 | the nearest installed candidate, or none if no option is installed |
| `Packager.Packager.Link` | release/build-installer.py:98-100 | one link is added from the copy to its dependency's copy |
| `Packager.ReachableIffWalk` | release/build-installer.py:101-138 | the least closed set is exactly what walks along dependency edges reach |
| `Packager.EdgeMeaning` | release/build-installer.py:88-137 | an edge of the walk is a dependency, peer or optional outside `@types/`, found at the nearest enclosing directory that has it, or else in the root modules |
| `Packager.AcceptableMeaning` | release/build-installer.py:105-137 | what a package must satisfy to be copied, over its own fields |
| `Packager.PackageableMeaning` | release/build-installer.py:88-151 | packaging succeeds exactly when every import is in the root modules, everything reachable can be copied, and no two of it share name, version and peer context |
| `Packager.WalkStaysInside` | release/build-installer.py:101-138 | no walk leaves a closed set |
| `Deltas.ApplyChainDelta` | release/runtime-source-compatibility.py:285-311 | the loop computes exactly the specified result or error |
| `Deltas.AppliedMeaning` | release/runtime-source-compatibility.py:285-311 | the result of a delta over its fields: bounds, digests, no path twice, every change reviewed and expected, and exactly the changes made |
| `Deltas.ValidChangeMeaning` | release/runtime-source-compatibility.py:292-303 | what one change must be, field by field |
| `Deltas.SafePathMeaning` | release/runtime-source-compatibility.py:295-300 | a path that goes down from the root by proper components |
| `Deltas.StripMeaning` | release/runtime-source-compatibility.py:301 | stripping leaves the part between the white space at both ends |
| `Deltas.OrderDoesNotMatter` | release/runtime-source-compatibility.py:292-308 | success and result do not depend on the order of the changes |
| `Deltas.ReversedUndoes` | release/runtime-source-compatibility.py:285-311 | swapping before/after and the two hashes undoes a delta exactly when the result is within the inventory bounds |
| `Deltas.EmptyingCannotBeUndone` | release/runtime-source-compatibility.py:286 | removing the only recorded file applies and cannot be undone |
| `Deltas.RemovesOnlyRecorded` | release/runtime-source-compatibility.py:305-306 | every removed path was recorded with the digest that the change names |
| `Deltas.ActionIsExact` | release/runtime-source-compatibility.py:285-311 | a delta changes the paths it names, every one of them, and no other |
| `Chains.ValidateChain` | release/runtime-source-compatibility.py:314-343 | accepts exactly the reviews the specification accepts |
| `Chains.AcceptedMeaning` | release/runtime-source-compatibility.py:314-343 | acceptance over the links and files: the record is honest about its link, the anchored reviews and then its own delta lead from the recorded inventory to the current one, and its changes are trusted |
| `Chains.AcceptedIsAnchored` | release/runtime-source-compatibility.py:262-264 | every published review up to the record's link is there and has the digest that its link anchors |
| `Chains.AnchorsFixTheFiles` | release/runtime-source-compatibility.py:324-328 | with a collision-free digest no other file contents are accepted for the same links |
| `Chains.TamperingIsRefused` | release/runtime-source-compatibility.py:326-327 | a review edited after its release is refused, whatever else is said |
| `Chains.Replay` | release/runtime-source-compatibility.py:320-329 | the loop over the published reviews is the fold of their deltas, stopping at the first error |
| `Chains.CheckTrust` | release/runtime-source-compatibility.py:334-342 | untrusted changes touch nothing protected, and in the runtime scope all trusted paths change |
| `Chains.Telescopes` | release/runtime-source-compatibility.py:320-331 | once a review was accepted and anchored, validating the next release rebuilds exactly the accepted inventory |
| `Chains.HistoryChains` | release/runtime-source-compatibility.py:213-237 | over a whole history validated from one recorded inventory, the records' own deltas lead from the first accepted inventory to every later one |
| `Chains.HistoryProtects` | release/runtime-source-compatibility.py:335-340 | over a whole history a protected path outside the trusted ones keeps its first accepted digest |
| `Chains.ProtectedKept` | release/runtime-source-compatibility.py:335-340 | a protected path or trust root outside the trusted paths keeps its predecessor's digest |
| `Chains.TrustedChanges` | release/runtime-source-compatibility.py:341-342 | in the runtime scope every trusted path really changes |
| `Chains.UnnamedKept` | release/runtime-source-compatibility.py:322-331 | a path that no replayed delta and not the record names keeps its originally recorded digest |
| `Chains.AcceptanceOfDeltas` | release/runtime-source-compatibility.py:285-343 | with deltas acting as `apply_chain_delta` does: the accepted inventory is the record's delta applied to its predecessor, protected untrusted paths keep their digests, and in the runtime scope trusted paths change |
| `Chains.HistoryOfDeltas` | release/runtime-source-compatibility.py:213-343 | the same over a whole history: it plays through to every accepted inventory, and protected untrusted paths keep the first digest |
| `Merging.MergePreservingForeign` | installer/database_controllers.py:179-195 | the recursion with its local copies computes exactly the specified merge or error |
| `Merging.MergeFields` | installer/database_controllers.py:180-184 | the loop over the fields of an object |
| `Merging.MergeEntries` | installer/database_controllers.py:185-194 | the loop over named entries, positions of appended ones included |
| `Merging.MergeRaisesIff` | installer/database_controllers.py:188-193 | the merge raises exactly when some desired list repeats a name that the list it is merged into lacks, or a nested merge does |
| `Merging.DistinctNeverTrips` | installer/database_controllers.py:185-194 | desired trees with distinct names never raise |
| `Merging.RepeatedNameRaises` | installer/database_controllers.py:188-191 | a concrete pair of well-formed lists on which it raises |
| `Merging.MergeSelf` | installer/database_controllers.py:179-195 | merging a value with distinct names into itself gives it back |
| `Merging.MergeTwice` | installer/database_controllers.py:179-195 | merging the same desired value again changes nothing |
| `Merging.LeafWins` | installer/database_controllers.py:179-195 | every leaf of the desired value is in the result |
| `Merging.ForeignSurvives` | installer/database_controllers.py:179-195 | whatever the desired value does not address survives unchanged |
| `Merging.FindKnown` | installer/database_controllers.py:187-192 | a current entry keeps its place, merged with the last desired entry of its name |
| `Merging.FindFresh` | installer/database_controllers.py:193 | a desired entry with a new name is appended and found there |
| `NamedLists.AfterMeaning` | installer/database_controllers.py:186-194 | the loop state after any number of entries, and that it raises at the first entry it cannot place |
| `Controllers.Cluster.ApplyOne` | installer/database_controllers.py:224-246 | one object: written only at the reviewed identity and with the content meant for it, a Secret skipped only if the plan saw one, CRDs confirmed |
| `Controllers.Cluster.ReplaceOwned` | installer/database_controllers.py:198-212 | the fallback writes only the merge with an owned object that is still the reviewed one |
| `Controllers.MakePlan` | installer/database_controllers.py:159-176 | a plan lists, in the bundle's order, the reading of one look at each object; there is none exactly when a look fails or finds an unowned object |
| `Controllers.ApplyObjects` | installer/database_controllers.py:224-246 | the changes so far are those of a prefix of the priority order, only Secrets that the plan saw left out |
| `Controllers.ApplyPlan` | installer/database_controllers.py:215-251 | against arbitrary concurrent writers: every change was to an absent object or to exactly the reviewed, owned one, and sent the bundle's content or its merge; Secrets are only created and skipped only where the plan saw them, changes form a prefix of the order, and no Deployment is touched before all CRDs are confirmed; and with no other writer and no failing command a plan that fits the cluster is applied in full |
| `Controllers.SortedMeaning` | installer/database_controllers.py:223-224 | the application order holds the same objects, lower priorities first |
| `Controllers.KindsInOrder` | installer/database_controllers.py:223-224 | the order of the kinds, from namespaces to deployments |
| `Controllers.SortedIsStable` | installer/database_controllers.py:224 | objects of kinds that need no order among each other keep the order of the bundle |
| `Controllers.ReplacementMeaning` | installer/database_controllers.py:198-212 | when the fallback may replace, field by field |
| `Controllers.CrdsComeFirst` | installer/database_controllers.py:223-246 | when a Deployment's turn comes, every CRD of the bundle was confirmed |
| `Reservations.CheckReservations` | auth/runtime.go:318-451 | with caches and in any map order: succeeds exactly when every named scope is usable and there are at most 64, gives exactly the uncached description's result, checks each scope once, and writes nothing the caller can reach |
| `Reservations.PrepareAll` | auth/runtime.go:353-449 | the loop over the copies: prepared so far, untouched so far, and why it stops |
| `Reservations.PrepareOne` | auth/runtime.go:354-448 | one reservation becomes its plain description; it is refused for an unusable scope or for too many scopes |
| `Reservations.PrepareScope` | auth/runtime.go:362-447 | one scope adds exactly what the description says about it |
| `Reservations.Caches.CheckScope` | auth/runtime.go:363-375 | a scope is checked on first use only, and the bound counts distinct scopes |
| `Reservations.Caches.CheckPlatformScope` | auth/runtime.go:413-428 | a platform scope is checked on first use only |
| `Reservations.Caches.Load` | auth/runtime.go:405-436 | a pool is loaded and checked on first use only, and a cached pool is the store's |
| `Reservations.AddMissing` | auth/runtime.go:437-443 | workloads are appended in place or into a larger array, each key once |
| `Reservations.CloneAll` | auth/runtime.go:322-349 | the copies equal the originals and share no written memory with them or each other |
| `Reservations.CutMeaning` | auth/runtime.go:363 | a scope is cut at its first slash, and the parts give it back |
| `Reservations.ScopeMeaning` | auth/runtime.go:363-375 | a scope passes exactly when it is a non-empty project and a non-empty environment around its first slash and the store accepts the pair |
| `Reservations.AppendMissingMeaning` | auth/runtime.go:437-443 | originals stay in front, every added key is new, and the keys are exactly those of both lists |
| `Reservations.PreparedMeaning` | auth/runtime.go:353-449 | a prepared reservation keeps scopes and managed namespaces, its own workloads as a prefix, and has exactly the keys of both sources without new duplicates |
| `Reservations.PreparedWorkloads` | auth/runtime.go:354-443 | by kind and id: the caller's workloads stay in front, everything the store holds for the scopes is there, and what was added is held by the store and repeats nothing |
| `Reservations.PreparedNamespaces` | auth/runtime.go:444-446 | each namespace is that of a visited pool that has it, or else the caller's own |
| `Reservations.AdditionsMeaning` | auth/runtime.go:376-443 | the additions are the workloads of the pools of the scopes, or the databases of the scopes |
| `Reservations.KeyMeaning` | auth/runtime.go:356 | two keys are equal exactly for the same kind and id |
| `Reservations.PoolWorkloadKeys` | auth/runtime.go:437-443 | the keys gained from pools are those of the pools of the scopes, whatever their order |
| `Reservations.PoolsMeaning` | auth/runtime.go:395-404 | the visited pools are exactly the pools of the scopes |
| `Reservations.PoolsDistinct` | auth/runtime.go:401-404 | each pool is visited once |
| `Templates.ExtendTwice` | installer/actions_runtime.py:120-132 | a second splice alone decides and a repeated one changes nothing, exactly when the text was owned or the first splice completed no stray marker; otherwise every later splice is refused |
| `Templates.Spliced` | installer/actions_runtime.py:120-132 | a splice leaves exactly one section, an owned text's surroundings untouched, and otherwise the stripped text in front |
| `Templates.ExtendOwned` | installer/actions_runtime.py:122-129 | an owned section is replaced in place |
| `Templates.AcceptedIsOwned` | installer/actions_runtime.py:122-129 | an accepted text with the begin line holds exactly one section of the runtime |
| `Templates.Appended` | installer/actions_runtime.py:132 | an append gives one section, or a doubled marker exactly when the text ends with a marker that lacks its line break |
| `Templates.FixedIsExtend` | installer/clickhouse_runtime.py:38-44 | the ClickHouse splice is the Actions splice with a single profile |
| `Templates.KeepsOther` | installer/clickhouse_runtime.py:38-44 | the splice of one runtime keeps the other's section verbatim, unless its append completes a stray marker of the other, and then the other's splice is refused |
| `Templates.StaysVerbatim` | installer/clickhouse_runtime.py:38-44 | whatever a ClickHouse splice does to the file, an Actions section that stands in it word for word still does |
| `Templates.FixedAgain` | installer/clickhouse_runtime.py:38-44 | a second ClickHouse splice changes nothing, or is refused |
| `Templates.ExtendHolds` | installer/actions_runtime.py:120-132 | an accepted splice leaves its section word for word, whatever else is in the text |
| `Runtimes.RuntimesDiffer` | installer/actions_runtime.py:103-110 | the Actions and the ClickHouse runtime, with their own texts under any root without a hash sign, are runtimes that can share a template |
| `Runtimes.StrayIsRefused` | installer/actions_runtime.py:120-132 | on a file that is the Actions begin line without its line break, the first splice is accepted and every later one refused |
| `Runtimes.OtherIsRefused` | installer/clickhouse_runtime.py:38-44 | an owned Actions section with that stray line behind it is accepted by its own splice, and no longer after a ClickHouse splice |
| `Templates.SectionsApart` | installer/actions_runtime.py:103-132 | sections of different runtimes never overlap |
| `Templates.MarkersOk` | installer/clickhouse_runtime.py:30-31 | the four marker lines are comment lines and pairwise different |
| `Templates.Around` | installer/actions_runtime.py:120-132 | where a marker can occur around a section |
| `Certificates.Store.Install` | installer/dashboard_certificate.py:96-142 | the link stays absent or on a complete, validated generation; success means the pair is current and recorded, with at most the new and the previous generation left after a switch; the record turns false exactly when recording failed after a restart, the link went back and the dashboard was not reloaded; it fails only because a step failed, and never hides one |
| `Certificates.Store.InstallInto` | installer/dashboard_certificate.py:110-137 | fill, switch, or take back, with the exact condition under which the record becomes false |
| `Certificates.Store.SwitchTo` | installer/dashboard_certificate.py:124-128 | link, restart, record: where each failure leaves the three |
| `Certificates.Store.TakeBack` | installer/dashboard_certificate.py:129-137 | the link goes back before the new folder is removed, so it never dangles; without a failing step link, folders and dashboard are as before |
| `Certificates.Store.Recover` | installer/dashboard_certificate.py:101-109 | a switch that was never recorded is completed after a restart; a recorded one changes nothing |
| `Certificates.Store.Prune` | installer/dashboard_certificate.py:139-141 | only the new and the previous generation remain |
| `Certificates.Store.PointTo` | installer/dashboard_certificate.py:82-86 | the link names the old or the new generation, never something else |
| `Certificates.Lifetime` | installer/dashboard_certificate.py:96-142 | over any number of runs and deaths, with the dashboard stopping and starting: `applied` = `current` means loaded, unless recording a switch ever failed with an error |
| `Eligibility.Node.Install` | installer/actions_runtime.py:460-604 | however a run ends, a published node is either untouched or was just published for what is on its disk and for the configuration in use, which this run verified; success means published, owned and not being probed; undisturbed, it fails only for the named guards |
| `Eligibility.Node.Change` | installer/actions_runtime.py:568-594 | runtime files and template change only while the node is not published, and the run goes on only with the verified files and configuration |
| `Eligibility.Node.Withdraw` | installer/actions_runtime.py:528-531 | the labels go only at the resource version that was read |
| `Eligibility.Node.Publish` | installer/actions_runtime.py:600-604 | the label appears only at the re-read resource version, for the verified files, the template with the verified section, and the configuration that was verified |
| `Eligibility.Lifetime` | installer/actions_runtime.py:460-604 | over any number of Actions and ClickHouse runs with failures anywhere, and K3s restarting at any time: a published node has exactly the files verified by the run that published it, and its configuration in use is exactly the verified one, or was generated from the published template with the ClickHouse section added, which takes a ClickHouse run since |
| `Preparation.Machine.Prepare` | installer/host.py:400-432 | an existing id is kept, secrets are only added, other inputs or changed database files are refused untouched, a resumed complete installation regenerates nothing; and exactly a missing secret on a run that is not resumed is created anew; it fails only for a failing step or one of these reasons, and never hides a failing step |
| `Preparation.Machine.PrepareSecrets` | installer/host.py:416-425 | kept secrets are valid and unchanged; on a resumed complete installation a missing one raises |
| `Preparation.Machine.PreserveDatabase` | installer/host.py:376-397 | verified once secrets exist, else written from the password or the given URI; the digests match what was written |
| `Preparation.FilesMeaning` | installer/host.py:381-397 | the saved database files, written out |
| `Preparation.SecretMeaning` | installer/host.py:420 | what a valid secret is |
| `Preparation.Machine.ResumableMeaning` | installer/host.py:352-374 | when a run may go on from a marker: made for the same inputs and, once the secrets were created, with every recorded database file unchanged |
| `Preparation.Lifetime` | installer/host.py:400-432 | over an initial and any number of resumed runs with deaths, tampered database files and lost secrets: the ids after any two runs agree once there is one, a secret that was not lost in between is the same after both, and once all secrets were created none is new |
| `Relays.Relay.Transfer` | examples/owned-pod-stream.py:31-63 | for every schedule: both outputs are prefixes of their inputs, buffers stay within 64 KiB, closed input means all client bytes forwarded, ending on the pod's end delivers everything, the only other end is to be stopped, and the busy rounds are bounded by the traffic |
| `Relays.Relay.Round` | examples/owned-pod-stream.py:40-63 | one round takes in and passes on exactly where it is ready, loses nothing, and closes the input exactly when the client has ended and its buffer is empty |
| `Relays.Relay.NeverStuck` | examples/owned-pod-stream.py:36-63 | until the pod's end has been delivered there is something to wait for |
| `Relays.Receive` | examples/owned-pod-stream.py:47-54 | at most 32 KiB within the buffer's room; the end flag only on a real end |
| `Relays.Deliver` | examples/owned-pod-stream.py:55-58 | a first part of the buffer moves on, in order |
| `Encoding.UnquoteQuote` | installer/database.py:113-115 | percent-decoding undoes percent-encoding for every text |
| `Encoding.EscapeForm` | installer/database.py:113-119 | which bytes stay and how the others are written |
| `Encoding.HexValueForm` | installer/database.py:158 | both cases of a hexadecimal digit are read |
| `Encoding.UnquotePlusQuotePlus` | installer/database.py:121 | the same for query values, with plus signs for spaces |
| `Uris.ReadParams` | installer/database.py:141-148 | the parameter loop: known names, each once, without control characters |
| `UriRoundTrip.ParsedIsAccepted` | installer/database.py:124-203 | every connection that parsing returns meets all of the parser's rules |
| `UriRules.ParsedIsAllowed` | installer/database.py:158-203 | over the fields of the connection: local means loopback and external means not, external connections verify the server in full, a CA file goes with verification only, no unspecified or multicast address, and the shapes of host, database, user, password, port and timeout |
| `UriRules.AcceptedIffAllowed` | installer/database.py:143-203 | the parser's checks are exactly these rules |
| `UriRules.BuildMeaning` | installer/database.py:139-203 | a URL gives exactly the allowed connection that its parts stand for; each value comes from one place, and one given twice is refused |
| `UriRules.ExternalNeedsVerifyFull` | installer/database.py:185-189 | an external URL is refused unless it says `sslmode=verify-full` itself |
| `UriRules.SplitMeaning` | installer/database.py:132 | a split URL is its parts, in order and nothing else |
| `UriRules.RawMeaning` | installer/database.py:132-158 | what else a decoded URL promises of its location, path and query |
| `UriRules.ParamsMeaning` | installer/database.py:141-148 | the parameters are exactly the pairs of the query, or none when a name repeats |
| `UriRules.UrlTextMeaning` | installer/database.py:128-131 | which texts are looked at as a URL |
| `UriRoundTrip.RoundTrip` | installer/database.py:108-203 | printing and parsing a rule-abiding connection gives it back with a lower-case host, or is refused exactly for length; so it is the identity exactly for a lower-case host within the bound |
| `UriRoundTrip.ParsePrintParse` | installer/database.py:108-203 | whatever parsing returned can be printed and parsed again, exactly under that condition |
| `UriRoundTrip.QueryHostStays` | installer/database.py:158 | a host given in the query and not in the location is taken as it is written |
| `UriRoundTrip.UpperCaseHost` | installer/database.py:158 | so parsing can return an upper-case host, and that connection does not survive printing and parsing |
| `UriRoundTrip.RawBack` | installer/database.py:132-158 | every component of a printed URI is read back |
| `UriRoundTrip.NetBack` | installer/database.py:113-118 | user, password, bracketed or plain host, and port come apart again |
| `UriRoundTrip.QueryBack` | installer/database.py:117-121 | a printed query is read as the pairs it was printed from |
| `UriRoundTrip.HostLower` | installer/database.py:158-184 | an accepted host is accepted in lower case too |
| `Cleanup.Disk.Interfere` | installer/maintenance.py:555-582 | other processes may change any file between any two steps, but never bring an identity back |
| `Upgrades.Host.StopServices` | installer/maintenance.py:414-415 | stopping counts as asked before the command is tried |
| `Upgrades.Host.Backup` | installer/maintenance.py:416-418 | demands that the services are down |
| `Upgrades.Host.StartServices` | installer/maintenance.py:430 | a start is of whatever `CURRENT` names, and is possible only once in an attempt after a switch, or after a stop was asked for before one |
| `Upgrades.Host.Probe` | installer/maintenance.py:432-433 | one round of the readiness checks, logged with its outcome |
| `Locks.OpenKeeps` | installer/maintenance.py:348 | a newly opened lock file answers to its opener |
| `Locks.MoveKeeps` | installer/maintenance.py:343-354 | failed acquisitions, failed opens and finished work move a task without touching any lock |
| `Certificates.Store.MarkApplied` | installer/dashboard_certificate.py:89-93 | the record names the old or the new generation |
| `Certificates.Store.Fill` | installer/dashboard_certificate.py:113-123 | only a folder with both files, validated in place, counts as complete |
| `Eligibility.Node.Interfere` | installer/actions_runtime.py:563-604 | others change the node only under new resource versions and never publish it; K3s may restart at any time |
| `Eligibility.Node.ApplyClickHouse` | installer/clickhouse_runtime.py:75-106 | the ClickHouse installer rewrites the shared template and restarts K3s while the Actions label is on; ended anywhere, what was published stands but for its own section |
| `Deltas.ReversedEdit` | release/runtime-source-compatibility.py:304-308 | replaying the reversed changes restores the inventory path by path |
| `Reservations.PrepareNext` | auth/runtime.go:353-449 | preparing one copy leaves the others' contents alone |
| `Templates.KeepsOtherInPlace` | installer/actions_runtime.py:122-129 | replacing one runtime's section keeps the other's, before it or behind it |
| `Templates.KeepsOtherBehind` | installer/actions_runtime.py:132 | appending behind the other's section restores the line break that stripping took from it |
| `Versions.PartListsAgree` | installer/maintenance.py:49-54 | prerelease identifiers compare as section 11.4 of Semantic Versioning 2.0.0 says |

## Left out

- Subprocesses, systemd, kubectl, Docker, Git, HTTP and the network: each is a step that succeeds, raises or dies, with its effect on the modelled state.
- Cryptography, certificate validation, and the JSON, TOML, tar and gzip codecs: parameters, free constructors or nondeterministic steps.
- Clocks and deadlines: a deadline is a step that may abort at any time; no real-time bound is proved.
- The wall clock of a cleanup is an arbitrary value at each look, recorded with what the look showed.
- Power loss: a rename is atomic and durable once it returned; a lost directory entry after an unsynced rename is not modelled.
- Asynchronous exceptions between two statements, such as an interrupt after a rename and before the flag that records it.
- Reuse of a file identity (device, inode, size and time together) and of a random generation name or installation id.
- `installer/maintenance.py`: the release data, downloads and checks before the copy are one step each that may raise; `check_upgrade`, the log reader, the status cache and the HTTP framing are not modelled.
- `validate_manifest`: enters the selection as a verdict on each candidate.
- `Cleanup.Disk.Unlink`: the file hit is not always the reviewed one, because the code looks and unlinks in two steps.
- `Upgrades.Host.Upgrade`: does not cover a status file that cannot be read back.
- `release/build-installer.py`: scanning the bundle for bare imports, input and output errors while copying, and the order of the written inventory.
- Header fields of a chained review that are checked one by one are a single flag; a review file that cannot be read counts as absent.
- `Chains.ValidateChain`: the one delta of most runtimes and the scoped deltas of the Vitess runtime are both a map from scope to delta.
- `Chains.AcceptedMeaning`: for a record whose release has one link; releases are the keys of a dictionary in the code.
- Aliasing between a JSON value and its deep copies: JSON values are values here, so copying is invisible.
- `Controllers.MakePlan`: the node architecture check, the cluster identity read and the bundle's own validation.
- Rollout waiting after the last controller object has been applied.
- `Reservations.CloneAll`: the nested tables of a managed namespace are values, so that they are copied one level deeper is not visible.
- `Reservations.KeyMeaning`: kinds without a NUL character, as are all that the store and the callers use; likewise `Reservations.PreparedWorkloads`.
- The reservation store's reads are deterministic for the length of one call; a store that changes its answers in between is not modelled.
- `Runtimes.RuntimesDiffer`: a root directory whose path holds a hash sign; `Runtimes.OtherIsRefused` asks a little more of the root, so that its path cannot complete the word that the ClickHouse guard looks for.
- The literal stanzas and marker lines of the two runtimes are spelled out once, as constants.
- `Templates.Extend`: white space outside ASCII.
- `Eligibility.Node.Install`: the workspace probe after the publication, the saved workspace profile, the adoption of agents and the runtime class; that only holders of the installation lock change the runtime files and the template is assumed, so that an Actions run and a ClickHouse run never overlap; and what K3s generates is a function of the template.
- `Certificates.Store.Restart`: a failed restart is taken to leave the running dashboard as it was.
- The generated configuration and OAuth files that `prepare` writes, and the preflight before it.
- `Relays.Relay.Transfer`: an error of a read or a write ends the connection in the caller and is not modelled; neither are the listener, its threads and the process it starts.
- `Uris.ParseUrl`: Unicode white space, the compatibility check on non-ASCII host text, the stricter bracket check and the tolerance for an empty query in some library versions; the IP address parser, the UTF-8 decoder and the CA file check are parameters.
- `Connection.uri` with a CA path of its own; reading the URL file; `summary` and `runtime_url`.
- `Eligibility.Node.ApplyClickHouse`: the ClickHouse runtime's own files, label and runtime class.
- Native-evidence verifiers and recorders, manifest rendering, OpenAPI generation, acceptance scripts and all dashboard code: they would add long field checks or easy members.
