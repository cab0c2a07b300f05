# Verified model of the EKS Anywhere build tooling

This project models, in Dafny 4.11, the parts of the build tooling where one step depends on what
earlier steps left behind, and proves what those parts keep over every input and every run.

- `BuildAll.dfy`: the recursive `build-all` target and its marker files.
- `MakeCache.dfy`: lazily cached make variables.
- `MakeLists.dfy`, `BinaryGroups.dfy`, `LicenseFilters.dfy`, `BuildOutputs.dfy`: the word-list functions
  of `Common.mk`, the sorting of binaries into "together" and "alone", the license filters per go module,
  and the renaming of the outputs of a common build.
- `TargetNames.dfy`: target names and the rules that read them back.
- `Semver.dfy`, `Revision.dfy`, `Tracker.dfy`, `Bottlerocket.dfy`, `Upgrade.dfy`: the version tracker, from
  choosing a revision to any sequence of merged upgrade runs.
- `SnowBoot.dfy`: the boot of a Snow node with crashes and failures anywhere.
- `KillAfterFiles.dfy`: waiting for files and killing the command, on every interleaving.
- `UserData.dfy`: loading user data from numbered secrets.
- `Basics.dfy`: notions shared by the models.
- `AmiFiles.dfy`: the additional files of an AMI build, on shared slice storage.
- `KubeVip.dfy`: the kube-vip manifest patch.

Programs that change variables, files or storage step by step are methods, and classes where an object or a
set of make variables is updated; each is proved equal to a specification function or against the property
itself. A program's text-only functions are functions. Network, shell commands, clocks and random failures
are parameters: a record of answers, a set of failing indices, an outcome per effect, or a step of the
environment.

Some properties one would expect turn out to hold only under a condition. In each case the model keeps the
code's behaviour, a concrete input shows the failure, and a theorem gives the exact condition:

- `AmiFiles.MergeIsIntendedIff`: decoding the user's file list into the slice that shares storage with the
  default table overwrites the defaults (`AmiFiles.OwnSourcePrefixed`).
- `AmiFiles.OwnSourcesKeptIff`: user files that landed in the default table are prefixed as defaults
  (`AmiFiles.OwnSourcePrefixed`).
- `SnowBoot.NoFormatAfterMountIff`: a stat error counts as "marker exists", so a mounted device can be
  formatted in a later boot (`SnowBoot.WrongCheckFormatsMountedDevice`).
- `SnowBoot.NetworkMapping`: the two mismatch branches wrap a nil error and therefore report success
  (`SnowBoot.MismatchIsSilent`, `SnowBoot.MixIsSilent`).
- `SnowBoot.NetworkFileCompleteIff`: a partly written network file is taken for a finished one
  (`SnowBoot.TornFileAfterCrash`).
- `KillAfterFiles.FilesExistAtKillIff`: success is reported without the files (`KillAfterFiles.SuccessAfterRemoval`,
  `KillAfterFiles.SuccessAfterStatError`).
- `BuildAll.Workspace.BuildDep`: a release-branch marker may come from a build of another branch
  (`BuildAll.BranchMarkerWithoutBranchBuild`).
- `BuildOutputs.RenameOutputs`: a rename can overwrite an output that is still waiting for its own rename
  (`BuildOutputs.SwappedNames`).
- `BuildOutputs.TogetherNamedOnWindowsIff`: the renames never find an output with .exe
  (`BuildOutputs.WindowsMisnamed`).
- `LicenseFilters.LicenseRuleFindsOwnModule`: binaries whose names share a variable share the last one's module
  (`LicenseFilters.SharedVariableFindsOtherModule`).
- `UserData.RetryIff`: after an effective deletion a failed load cannot be repeated
  (`UserData.RetryAfterDeletion`).
- `Upgrade.StagedIsWrittenIff`: files that a command writes and the run does not predict stay behind
  (`Upgrade.WrittenNotStaged`).
- `Bottlerocket.AtRestIff`, `Bottlerocket.NoneFallsIff`: with another order of the channels a second update can
  change the files again and lower a version (`Bottlerocket.OtherOrderLowers`).
- `Upgrade.TagNotLowerIff`: the tag of a project with neither releases nor tags falls to a commit hash
  (`Upgrade.TagBecomesHash`).
- `Revision.FixpointIff`: a project with neither releases nor tags, when GitHub dates the empty commit name, is
  upgraded to a commit hash; the next query fails, or asks for the same upgrade again should the hash read as a
  version (`Revision.UpgradeToHash`).

## Model

| member | source | states |
|---|---|---|
| `BuildAll.EksaDepsAre` | Makefile:103-115 | the dependencies of a project are exactly what its eksa words read as, every one of them |
| `BuildAll.EksaDepsAreInOrder` | Makefile:103-104 | in the order of the words |
| `BuildAll.ReadDepWords` | Makefile:105-115 | a leading eksa is left off, the fourth field is the branch and the last field is then left off, for words of any length |
| `BuildAll.Workspace.MakeTarget` | Makefile:97-132 | for every graph: markers, log and exit status are those of the recursive specification; markers stay honest, builds ordered and skipped projects unbuilt; success leaves the plain marker; a broken project is never logged and fails; a present marker means nothing is done; on acyclic graphs only projects of at most the target's rank are built, and nothing broken means success |
| `BuildAll.Workspace.BuildDeps` | Makefile:100-121 | after the dependency loop every eksa dependency has been built; on acyclic graphs without branches the project itself has not |
| `BuildAll.Workspace.BuildDep` | Makefile:104-119 | a branch-qualified dependency ends with its suffixed marker, and is built for that branch exactly when neither its suffixed nor its plain marker was there |
| `BuildAll.Workspace.Finish` | Makefile:122-132 | the project's own build is logged last and its marker appears, keeping all invariants |
| `BuildAll.Workspace.BuildAllProjects` | Makefile:51-67 | from any valid state, also after failed runs: markers honest, builds ordered, no project built twice on acyclic branch-free graphs, success when nothing is broken, and on success every marker present |
| `BuildAll.BuildFromScratch` | Makefile:51-67 | from an empty workspace, on any acyclic graph without branch-qualified dependencies and with nothing broken: success, every marker present, and each project that is not skipped built exactly once and after the project of every eksa word in its list |
| `BuildAll.DepsInSequence` | Makefile:100-121 | dependencies are made one after the other, and the first that fails ends the recipe |
| `BuildAll.PassInSequence` | Makefile:51-67 | so are the projects of a pass |
| `BuildAll.ListedProjectsFirst` | Makefile:51-67 | without branch-qualified dependencies the two passes are one over the projects that list dependencies followed by the others |
| `BuildAll.BoundDoesNotMatter` | Makefile:97-132 | on an acyclic graph, whatever is broken, any two bounds on nested make calls above the target's rank give the same markers, log and exit status |
| `BuildAll.BuildAllBoundDoesNotMatter` | Makefile:51-67 | the same for a whole build-all run |
| `BuildAll.ExactlyOnce` | Makefile:51-67 | a plain marker in a valid state means exactly one build, after all dependencies |
| `BuildAll.Workspace.Rename` | Makefile:116-118 | the plain marker gives way to the branch's, and every marker still stands for a build |
| `BuildAll.BranchMarkerWithoutBranchBuild` | Makefile:51-132 | a whole build-all run on three projects, ending in success, after which the marker of a branch exists without a build of that branch and a project was built twice |
| `MakeCache.CachingIsTransparentIff` | Common.mk:264-268 | reads through the cache agree with plain recursive expansion for all variables exactly when reading a value again as an assignment changes no cached value |
| `MakeCache.ExpansionConcat` | Common.mk:264-268 | a text is expanded from left to right: the expansion of a concatenation is the concatenation of the expansions |
| `MakeCache.ExpansionOfPart` | Common.mk:264-268 | a literal stands for itself, a reference for the variable's value, a shell call for the answer to its expanded command |
| `MakeCache.ValueIsExpandedDefinition` | Common.mk:264-268 | a variable reads as the expansion of its definition, read again by eval if it is cached, and an undefined one as nothing |
| `MakeCache.Variables.Read` | Common.mk:264-268 | a cached read answers with the stored value, never changes a stored value, and with steady commands gives the variable's value |
| `MakeCache.Variables.Fill` | Common.mk:265 | the first read flags, evaluates and stores the original, keeping "evaluated at most once" |
| `MakeCache.Variables.ReadAll` | Common.mk:544-548 | over any sequence of reads each original is evaluated at most once, all reads of one cached variable agree even if commands change their answers, and with steady commands every read is the variable's value |
| `MakeLists.PairMapIsPointwise` | Common.mk:236-240 | pairmap applies the function to the words at each index up to the shorter list |
| `MakeLists.PosIsLast` | Common.mk:246-248 | pos is the one-based index of the last occurrence, and zero exactly for an absent word |
| `BinaryGroups.MakeVars.SetupBuildAloneVsTogether` | Common.mk:344-353 | the new values of all seven variables for one triple |
| `BinaryGroups.MakeVars.TrimapSetup` | Common.mk:242-244 | trimap runs the setup on every triple up to the shortest list |
| `BinaryGroups.SetupAll` | Common.mk:380 | the variables after the first trimap call |
| `BinaryGroups.GroupsAre` | Common.mk:344-353 | closed form: all six lists are order-preserving selections by main module, unseen last path part and preset |
| `BinaryGroups.EachBinaryInOneGroup` | Common.mk:336-353 | each binary with a full triple is in exactly one of TOGETHER and ALONE; the others are in neither unless preset |
| `BinaryGroups.TogetherListsAligned` | Common.mk:350-353 | the TOGETHER lists are aligned with each other and the triples, share the first go mod path, and have pairwise different last path parts |
| `BinaryGroups.SourcePatternIsOwn` | Common.mk:648 | the pattern looked up is the binary's own when alone, and holds it at the binary's index when together |
| `LicenseFilters.MakeVars.SetupUniqGoModLicenseFilters` | Common.mk:360-365 | the new values of the four groups of variables for one triple |
| `LicenseFilters.SetupAll` | Common.mk:381 | the variables after the second trimap call |
| `LicenseFilters.UniqAre` | Common.mk:360-363 | the unique paths are the first-seen ones per key, aligned with their first binaries |
| `LicenseFilters.FiltersAre` | Common.mk:365 | the filters are the order-preserving split of the source patterns by key |
| `LicenseFilters.KeyIs` | Common.mk:361 | the key of a path has underscores for its slashes |
| `LicenseFilters.FiltersInGeneral` | Common.mk:365 | for any settings a filter is the project's preset followed by the patterns of its binaries, or by the project's one filter for each of them |
| `LicenseFilters.PathIsListedIff` | Common.mk:361-363 | for any settings a path is listed with its binary exactly when nothing was preset for its key and it is the key's first binary, or the project's one filter is empty |
| `LicenseFilters.UniqPathsCompleteIff` | Common.mk:360-365 | no path is listed twice, and every path is listed exactly when none collide under slash-to-underscore |
| `LicenseFilters.FilterIsOwnPatternsIff` | Common.mk:365 | a path's filter is exactly the ordered patterns of its own binaries if and only if no other path shares its key |
| `LicenseFilters.GoModForIsLast` | Common.mk:364 | a go mod variable holds the path of the last binary sharing its name |
| `LicenseFilters.OverriddenName` | Common.mk:364 | a binary with an attribution name of its own has its path under that name |
| `LicenseFilters.LicenseRuleFindsOwnModule` | Common.mk:699-700 | from a binary to its license target and back, the license rule finds the go mod path the binary was declared with exactly when that is the main module's, or the name can be a directory and the last binary sharing its variable name has the same path |
| `LicenseFilters.PlainNamesFindOwnModule` | Common.mk:699-700 | it always does for pairwise different names without capitals and underscores |
| `LicenseFilters.SharedVariableFindsOtherModule` | Common.mk:699-700 | two names that differ in a hyphen and an underscore, and the license rule misses the first one's module |
| `BuildOutputs.RenameOutputs` | build/lib/simple_create_binaries.sh:75-86 | the loop, for any sources: the directory is that of the specified turns; every binary ends up under its own name if and only if no rename lands on an output still waiting for its own; for windows nothing is renamed |
| `BuildOutputs.BuildGroup` | Common.mk:648-649 | a group of one is built straight into its own name, a larger one goes through the loop; every binary has its name exactly for a group of one or under the loop's condition |
| `BuildOutputs.WindowsNamedIff` | build/lib/simple_create_binaries.sh:81-84 | outputs with .exe are never found by the loop, so the files make waits for are right exactly when go's own names are the wanted ones |
| `BuildOutputs.TogetherForWindowsIff` | build/lib/simple_create_binaries.sh:73-78 | the TOGETHER group built for windows, exactly when no source directory is itself named like an executable |
| `BuildOutputs.TogetherNamedOnWindowsIff` | build/lib/simple_create_binaries.sh:75-86 | for windows every file make waits for is there after the loop exactly when each binary of the TOGETHER group is named after its own directory, or after the module for the dot |
| `BuildOutputs.WindowsMisnamed` | build/lib/simple_create_binaries.sh:81-84 | two declared binaries with names of their own: none of the files make waits for on windows exists |
| `BuildOutputs.SwappedNames` | build/lib/simple_create_binaries.sh:80-86 | two binaries named after each other's directory go into the TOGETHER group, and the renames lose one of them |
| `BuildOutputs.TogetherIsWellBuilt` | build/lib/simple_create_binaries.sh:73-78 | the outputs of the TOGETHER group have pairwise different names and targets exactly when not both the dot and a directory named like the module are among the sources |
| `TargetNames.ChainsArePointwise` | Common.mk:254-262 | each chain of 27 nested substitutions is one pointwise character map |
| `TargetNames.LowerUndoesUpperIff` | Common.mk:254-262 | lower-casing undoes upper-casing exactly for names without upper case and underscore |
| `TargetNames.UpperInjectiveOnPlain` | Common.mk:320-323 | such names never share an upper-case variable name |
| `TargetNames.AttributionFindsLicenseIff` | Common.mk:712-714 | the license target computed from an attribution file equals the one computed from the binary exactly for such prefixes |
| `TargetNames.LicenseRuleReadsPrefixIff` | Common.mk:699 | the license rule reads every prefix back except the name of the current directory |
| `TargetNames.BinaryRuleReadsTargetIff` | Common.mk:646-647 | platform and binary name are both recovered from a binary path exactly when the platform has no hyphen, the name no slash, and a name ending in .exe is built for windows |
| `TargetNames.BinaryStemIs` | Common.mk:284-285 | a binary lies in the directory of its platform with hyphens for slashes, and has .exe exactly when the platform holds windows |
| `TargetNames.AttributionStemIs` | Common.mk:315-318 | the attribution file lies in its release branch's directory and is named after the upper-case prefix |
| `Semver.PrecedenceIsTotalOrder` | tools/version-tracker/pkg/github/github.go:225-233 | the precedence of section 11 of Semantic Versioning 2.0.0 is a strict total order |
| `Semver.PrecedenceIsSectionEleven` | tools/version-tracker/pkg/github/github.go:225-233 | it is the precedence of section 11: major, minor and patch in this order, a release above its pre-releases, the first differing identifier, numbers by value and below texts, texts by character, a proper extension higher |
| `Semver.SectionElevenRules` | tools/version-tracker/pkg/github/github.go:225-233 | these rules one by one over all versions |
| `Revision.GetCommitForTag` | tools/version-tracker/pkg/github/github.go:239-246 | the commit of the first tag with that name, or the empty string |
| `Revision.CommitForTagIsFirst` | tools/version-tracker/pkg/github/github.go:239-246 | that commit is the first matching tag's, and empty without one |
| `Revision.IsUpgradeRequired` | tools/version-tracker/pkg/github/github.go:203-236 | error, upgrade, same version or neither, with the two flags for each |
| `Revision.GetLatestRevision` | tools/version-tracker/pkg/github/github.go:125-200 | the loops compute the specified scan over releases, tags or commits |
| `Revision.LatestRevisionIs` | tools/version-tracker/pkg/github/github.go:142-199 | the answer without the scan: releases, or tags without releases, decide by the first name that is unreadable, later and higher, or of the current version; the last name is given without an upgrade when none decides |
| `Revision.UpgradeIsNewer` | tools/version-tracker/pkg/github/github.go:157-199 | with releases or tags an upgrade answer is one of them, strictly later in time and strictly higher in precedence; without them it is the first commit, which is later by its own date and higher exactly when that commit happens to be |
| `Revision.NoTagsAnswerIff` | tools/version-tracker/pkg/github/github.go:142-197 | without releases and tags there is an answer exactly when GitHub dates the empty commit name, the current revision is a version and there is a commit |
| `Revision.FixpointIff` | tools/version-tracker/pkg/github/github.go:142-197 | asked again with its answer as current revision: no error and no further upgrade exactly when the project has releases or tags; without them an error exactly when the commit hash does not read as a version, and the same upgrade otherwise |
| `Revision.UpgradeToHash` | tools/version-tracker/pkg/github/github.go:142-197 | a project with one commit and no tag is upgraded to the hash, and the next query fails |
| `Revision.NoneNewerInDateOrder` | tools/version-tracker/pkg/github/github.go:158-171 | in a list running from later to earlier commits no candidate beats the answer |
| `Revision.GetLatestImageTag` | tools/version-tracker/pkg/ecrpublic/ecrpublic.go:35-56 | an error for an unreadable version tag, else the first maximum of the v tags when one is above the current version |
| `Revision.FirstMaximum` | tools/version-tracker/pkg/ecrpublic/ecrpublic.go:35-50 | among tags of the highest version the first one is chosen |
| `Revision.EcrFixpoint` | tools/version-tracker/pkg/ecrpublic/ecrpublic.go:35-56 | a second query with the first answer as current version reports nothing newer |
| `Tracker.Decode` | tools/version-tracker/pkg/commands/upgrade/upgrade.go:490-494 | decoded memory represents the text, with a fresh versions array per repository |
| `Tracker.FindTarget` | tools/version-tracker/pkg/commands/upgrade/upgrade.go:496-507 | the copy is the last repository matching org and name, or has no versions |
| `Tracker.WriteThroughCopy` | tools/version-tracker/pkg/commands/upgrade/upgrade.go:203 | writing version 0 of the copy changes the represented list at that one place |
| `Tracker.UpdateTracker` | tools/version-tracker/pkg/commands/upgrade/upgrade.go:484-547 | load, write through the copy and encode: the text comes out with version 0 of the last match replaced and everything else as before |
| `Tracker.ReplaceTouchesOneVersion` | tools/version-tracker/pkg/commands/upgrade/upgrade.go:203 | every other project, repository, version and field is unchanged |
| `Bottlerocket.CurrentVersion` | tools/version-tracker/pkg/commands/upgrade/upgrade.go:657-669 | the first version that is not empty, looking at the first format present in each channel, for any order of the channels |
| `Bottlerocket.UpdateReleases` | tools/version-tracker/pkg/commands/upgrade/upgrade.go:695-710 | whatever the order of the channels: an error exactly when some existing slot cannot be checked, else every slot with a published image gets the latest version and nothing else changes |
| `Bottlerocket.UpdateContainers` | tools/version-tracker/pkg/commands/upgrade/upgrade.go:789-826 | an error exactly for a missing file, source or digest; else exactly the containers with another tag get tag and digest, and those files are listed as written |
| `Bottlerocket.UpdateVersionFiles` | tools/version-tracker/pkg/commands/upgrade/upgrade.go:642-693 | success exactly under the stated condition; files, listed files and written files of the whole update |
| `Bottlerocket.SuccessInPlainTerms` | tools/version-tracker/pkg/commands/upgrade/upgrade.go:642-693 | when an update succeeds, in terms of the three formats, the two containers and the answers |
| `Bottlerocket.FirstSlotIs` | tools/version-tracker/pkg/commands/upgrade/upgrade.go:659-665 | a channel's version is that of ami, else ova, else raw |
| `Bottlerocket.FirstVersionIs` | tools/version-tracker/pkg/commands/upgrade/upgrade.go:657-669 | the first channel visited whose version is not empty gives the current version |
| `Bottlerocket.SlotAfter` | tools/version-tracker/pkg/commands/upgrade/upgrade.go:696-709 | a slot gets the latest version exactly when its format's image is published for the channel, and no other key changes |
| `Bottlerocket.FilesAfter` | tools/version-tracker/pkg/commands/upgrade/upgrade.go:789-826 | the admin and control containers get the source's tag and that tag's digest where the tag was another one, and keep both otherwise |
| `Bottlerocket.ListedAreChanged` | tools/version-tracker/pkg/commands/upgrade/upgrade.go:676-690 | a container file is listed exactly when its contents change; the releases file is listed by every upgrade, and changes exactly when a published image had another version |
| `Bottlerocket.FirstVersionsAre` | tools/version-tracker/pkg/commands/upgrade/upgrade.go:657-669 | the versions an update may start from, over all orders of the channels, are exactly the channels' first versions that are not empty |
| `Bottlerocket.ChangesNothingIff` | tools/version-tracker/pkg/commands/upgrade/upgrade.go:642-693 | an update succeeds and changes nothing exactly when the version found asks for no upgrade, or for one to what all published slots and containers hold already |
| `Bottlerocket.AtRestIff` | tools/version-tracker/pkg/commands/upgrade/upgrade.go:642-693 | whatever the order of the channels an update changes nothing if and only if that holds for every version that may be found first |
| `Bottlerocket.SecondUpdate` | tools/version-tracker/pkg/commands/upgrade/upgrade.go:642-693 | a second update with the same answers and any order of the channels changes nothing exactly under that condition; the start and the result of the first update need not be looked at again |
| `Bottlerocket.SecondUpdateInOrder` | tools/version-tracker/pkg/commands/upgrade/upgrade.go:642-693 | in the order of the first update the second one always succeeds and changes nothing |
| `Bottlerocket.SecondUpdateFromOneVersion` | tools/version-tracker/pkg/commands/upgrade/upgrade.go:642-693 | in any order it does so when all channels had one version to begin with |
| `Bottlerocket.OtherOrderLowers` | tools/version-tracker/pkg/commands/upgrade/upgrade.go:657-710 | two updates with the same answers and different orders: the first takes a channel up to version 4, the second down to version 1.5 |
| `Bottlerocket.NoneFallsIff` | tools/version-tracker/pkg/commands/upgrade/upgrade.go:695-710 | one update lets no version fall exactly when no slot with a published image is above the version found |
| `Bottlerocket.NoOrderFallsIff` | tools/version-tracker/pkg/commands/upgrade/upgrade.go:657-710 | no order of the channels lets a version fall exactly when no such slot is above what any start would find |
| `Bottlerocket.HighestFirstIsSafe` | tools/version-tracker/pkg/commands/upgrade/upgrade.go:657-710 | an update that starts from a highest version lets none fall |
| `Upgrade.UpdateProjectVersionFile` | tools/version-tracker/pkg/commands/upgrade/upgrade.go:468-480 | an existing version file gets the value and a newline and is staged; a missing one stops the run |
| `Upgrade.UpdateVersions` | tools/version-tracker/pkg/commands/upgrade/upgrade.go:199-257 | success exactly when the files that have to change exist and the Go versions can be read; tag file, Go version file and tracker then change together, the Go version only for a higher minor version |
| `Upgrade.UpdateGenerated` | tools/version-tracker/pkg/commands/upgrade/upgrade.go:259-317 | success exactly when every command that is run succeeds; the files the commands really wrote are in the checkout and the files the run predicts are listed; the warning says that patches were left out |
| `Upgrade.UpgradeBottlerocket` | tools/version-tracker/pkg/commands/upgrade/upgrade.go:320-342 | the Bottlerocket step inside a run, and the branch named after what was upgraded |
| `Upgrade.AddsIff` | tools/version-tracker/pkg/commands/upgrade/upgrade.go:348-353 | git add goes through exactly when every listed generated file was written or was on main |
| `Upgrade.MergeIsAfterRun` | tools/version-tracker/pkg/commands/upgrade/upgrade.go:194-353 | the merged commit of all steps is main with the project's entry, its version files, the generated files that are both listed and written, and the updated Bottlerocket files, and nothing else |
| `Upgrade.StagedIsWrittenIff` | tools/version-tracker/pkg/commands/upgrade/upgrade.go:266-317 | the listed files are exactly the written ones if and only if the commands write exactly the predicted files |
| `Upgrade.WrittenNotStaged` | tools/version-tracker/pkg/commands/upgrade/upgrade.go:259-266 | a run that finishes although a script wrote a file that is not listed, which main never gets |
| `Upgrade.LeftBehind` | tools/version-tracker/pkg/commands/upgrade/upgrade.go:259-317 | what a command writes and the run does not list stays on main as it was |
| `Upgrade.UpgradeLists` | tools/version-tracker/pkg/commands/upgrade/upgrade.go:205-309 | an upgrade lists tag file, tracker and README, the Go version file exactly with a new Go version, checksums and attributions exactly if the project has them and no patch was left out; without an upgrade only Bottlerocket files are listed |
| `Upgrade.Run` | tools/version-tracker/pkg/commands/upgrade/upgrade.go:143-353 | for every main and every answer of the outside world: the run finishes exactly under the stated condition, and main is then exactly as specified; agreement of tracker and version files is kept, only the project's entry moves and not backwards, and lists, warning and branch follow what was done |
| `Upgrade.SuccessInPlainTerms` | tools/version-tracker/pkg/commands/upgrade/upgrade.go:143-353 | when a run succeeds, condition by condition: the files that must exist, the Go versions that must be readable, the commands that must succeed, the listed files that must be there |
| `Upgrade.UpgradeFollows` | tools/version-tracker/pkg/commands/upgrade/upgrade.go:203-257 | after an upgrade the entry's tag and the tag file are the revision; a higher Go minor version of the revision is in the entry and in the listed Go version file, and one that is not higher changes neither |
| `Upgrade.PlanInPlainTerms` | tools/version-tracker/pkg/commands/upgrade/upgrade.go:259-317 | which generated files are listed and which are written, for README, patches, checksums, attributions and the three Cilium digests |
| `Upgrade.RunStaysConsistent` | tools/version-tracker/pkg/commands/upgrade/upgrade.go:194-353 | a run keeps every tracked tag and Go version equal to what the project's own files say |
| `Upgrade.RunAdvances` | tools/version-tracker/pkg/commands/upgrade/upgrade.go:194-257 | a run moves no other entry, no Go minor version down, and no tag down where tags are compared |
| `Upgrade.SecondRun` | tools/version-tracker/pkg/commands/upgrade/upgrade.go:160-353 | after a merged run a second one with unchanged answers and any order of the Bottlerocket channels upgrades the project no further; it succeeds and leaves main as it is always, except for image-builder, where it does so exactly when nothing is left to do from the Bottlerocket version found first |
| `Upgrade.SecondRunSettled` | tools/version-tracker/pkg/commands/upgrade/upgrade.go:320-342 | for image-builder nothing is left to do in the order of the first run, and in any order when all channels had one version |
| `Upgrade.SecondRunWithoutTags` | tools/version-tracker/pkg/commands/upgrade/upgrade.go:160-203 | for a project with neither releases nor tags a second run fails or upgrades again |
| `Upgrade.RunTwice` | tools/version-tracker/pkg/commands/upgrade/upgrade.go:143-353 | the same as two runs of the program, the second one on the main the first one left and with an order of its own |
| `Upgrade.History` | tools/version-tracker/pkg/commands/upgrade/upgrade.go:143-353 | over any sequence of runs exactly the jobs that can succeed are applied, in order; tracker and version files agree, Go minor versions never fall, and the tag of an entry never falls if the applied jobs for that entry compare tags |
| `Upgrade.TagsNeverFall` | tools/version-tracker/pkg/commands/upgrade/upgrade.go:160-257 | the tag part for each entry: failed jobs and jobs for other projects play no part |
| `Upgrade.TagNotLowerIff` | tools/version-tracker/pkg/commands/upgrade/upgrade.go:160-203 | one run leaves a tag that is not lower exactly when it upgrades nothing, the project has releases or tags, or its first commit reads as a higher version |
| `Upgrade.TagBecomesHash` | tools/version-tracker/pkg/commands/upgrade/upgrade.go:160-203 | a run that replaces the tag of a project without releases and tags by a commit hash |
| `Upgrade.VersionsStayConsistent` | tools/version-tracker/pkg/commands/upgrade/upgrade.go:203-257 | the version step keeps agreement for the project and for every other project |
| `SnowBoot.Snow.ConfigureNodeIP` | projects/aws/bottlerocket-bootstrap/pkg/providers/snow/system/kubernetes.go:32-55 | the disk after the step for every failure of its effects |
| `SnowBoot.Snow.ConfigureDNI` | projects/aws/bottlerocket-bootstrap/pkg/providers/snow/system/network.go:52-89 | the guarded write, which a late failure leaves incomplete |
| `SnowBoot.Snow.CreatePartition` | projects/aws/bottlerocket-bootstrap/pkg/providers/snow/system/volume.go:25-40 | format then marker, for every failure |
| `SnowBoot.Snow.MountContainerdVolume` | projects/aws/bottlerocket-bootstrap/pkg/providers/snow/system/volume.go:13-49 | partition, directory and mount, for every failure |
| `SnowBoot.Snow.RebootInstanceIfNeeded` | projects/aws/bottlerocket-bootstrap/pkg/providers/snow/system/reboot.go:18-34 | marker then reboot request, for every failure |
| `SnowBoot.Snow.Bootstrap` | projects/aws/bottlerocket-bootstrap/pkg/providers/snow/system/bootstrap.go:38-66 | one boot, ending at the first failing step; no second reboot is requested whatever the checks report, and with truthful checks a mounted device stays marked and unformatted and the markers stay in order |
| `SnowBoot.Snow.Live` | projects/aws/bottlerocket-bootstrap/pkg/providers/snow/system/bootstrap.go:38-66 | the same over any sequence of boots of one node |
| `SnowBoot.BootLogInPlainTerms` | projects/aws/bottlerocket-bootstrap/pkg/providers/snow/system/bootstrap.go:38-66 | what a boot does, effect by effect: node IP, format, mount and reboot request each happen exactly when their guard is open and every effect before was done |
| `SnowBoot.BootMarkersInPlainTerms` | projects/aws/bottlerocket-bootstrap/pkg/providers/snow/system/bootstrap.go:38-66 | which markers a boot leaves, by the same conditions |
| `SnowBoot.BootFormatsMountedIff` | projects/aws/bottlerocket-bootstrap/pkg/providers/snow/system/volume.go:25-40 | a boot formats a device that was mounted before exactly when it gets to the volume, sees no partition marker and its format takes effect |
| `SnowBoot.NoFormatAfterMountIff` | projects/aws/bottlerocket-bootstrap/pkg/providers/snow/system/volume.go:13-49 | over any boots and any checks: never a format after a mount if and only if no boot after a mount is of that kind |
| `SnowBoot.BootKeepsVolumeInvIff` | projects/aws/bottlerocket-bootstrap/pkg/files/system.go:21-24 | the stronger guarantee that a mounted device is also marked: a boot breaks it exactly when a wrong check lets it mount an unmarked device |
| `SnowBoot.VolumeSafeIff` | projects/aws/bottlerocket-bootstrap/pkg/providers/snow/system/volume.go:25-49 | over any boots and any checks the stronger guarantee holds after every boot if and only if no boot mounts an unmarked device |
| `SnowBoot.EveryLifeIsSafe` | projects/aws/bottlerocket-bootstrap/pkg/providers/snow/system/volume.go:13-49 | over any boots with crashes or failures anywhere and truthful checks: no format after a mount, at most one reboot, markers in order |
| `SnowBoot.EveryLifeRebootsAtMostOnce` | projects/aws/bottlerocket-bootstrap/pkg/providers/snow/system/reboot.go:18-34 | at most one reboot is ever requested, whatever the checks report |
| `SnowBoot.WrongCheckFormatsMountedDevice` | projects/aws/bottlerocket-bootstrap/pkg/files/system.go:21-24 | two boots after which a mounted device was formatted, because of one failed stat call |
| `SnowBoot.NodeIPOnlyAfterEarlierBoots` | projects/aws/bottlerocket-bootstrap/pkg/providers/snow/system/kubernetes.go:32-47 | the node IP is set only in a boot that began with network, partition and reboot markers on disk |
| `SnowBoot.TwoCleanBootsSettle` | projects/aws/bottlerocket-bootstrap/pkg/providers/snow/system/bootstrap.go:38-66 | from any disk two failure-free boots set all markers, and one does exactly when the reboot or node IP marker was there |
| `SnowBoot.SettledForever` | projects/aws/bottlerocket-bootstrap/pkg/providers/snow/system/bootstrap.go:38-66 | from then on no boot, failing or not, adds a marker, formats, reboots or sets the node IP |
| `SnowBoot.FreshNodeTwoCleanBoots` | projects/aws/bottlerocket-bootstrap/pkg/providers/snow/system/bootstrap.go:38-66 | the exact effects of the first two failure-free boots |
| `SnowBoot.TornNetworkFileIsNeverRepaired` | projects/aws/bottlerocket-bootstrap/pkg/providers/snow/system/network.go:53-55 | once a network file exists no later boot completes it |
| `SnowBoot.TornFileAfterCrash` | projects/aws/bottlerocket-bootstrap/pkg/providers/snow/system/network.go:52-89 | a crash in the first write, then two clean boots: all markers set, the node IP set, and the network file torn |
| `SnowBoot.NetworkFileCompleteIff` | projects/aws/bottlerocket-bootstrap/pkg/providers/snow/system/network.go:52-89 | a boot leaves a torn network file exactly when one was there or its own write failed late |
| `SnowBoot.NetworkMapping` | projects/aws/bottlerocket-bootstrap/pkg/providers/snow/system/network.go:97-128 | every interface is paired with its address exactly when the network file agrees with the interfaces; a disagreement gives an empty mapping without an error |
| `SnowBoot.MismatchIsSilent` | projects/aws/bottlerocket-bootstrap/pkg/providers/snow/system/network.go:97-128 | two interfaces and a network file that counts one: no error and no mapping |
| `SnowBoot.MixIsSilent` | projects/aws/bottlerocket-bootstrap/pkg/providers/snow/system/network.go:97-128 | two interfaces and one static address: no error and no mapping |
| `KillAfterFiles.InvHolds` | projects/aws/bottlerocket-bootstrap/pkg/utils/waiters.go:130-179 | the invariant of poller, main goroutine, timer and channel holds in every reachable state |
| `KillAfterFiles.ReturnsAreJustified` | projects/aws/bottlerocket-bootstrap/pkg/utils/waiters.go:159-178 | success only after one complete poll with no file reported missing, exactly one kill before either return, at most one ok handed over and none on timeout |
| `KillAfterFiles.FilesExistAtKillIff` | projects/aws/bottlerocket-bootstrap/pkg/utils/waiters.go:146-162 | on every run, from the ok on: all files exist if and only if those exist that the last poll did not vouch for, because stat failed for another reason or the file was removed after the poll began |
| `KillAfterFiles.FilesExistWithoutRemovalsIff` | projects/aws/bottlerocket-bootstrap/pkg/utils/waiters.go:146-162 | without removals: if and only if the files exist for which the last poll's stat failed for another reason; earlier polls do not matter |
| `KillAfterFiles.SuccessAfterRemoval` | projects/aws/bottlerocket-bootstrap/pkg/utils/waiters.go:147-155 | a run without any such stat error that returns success after the file was removed |
| `KillAfterFiles.SuccessAfterStatError` | projects/aws/bottlerocket-bootstrap/pkg/utils/waiters.go:147-155 | a run without any removal that returns success although the file never existed |
| `KillAfterFiles.LateSenderBlocksForever` | projects/aws/bottlerocket-bootstrap/pkg/utils/waiters.go:160-175 | a poller already sending when the timeout is taken stays blocked in every continuation |
| `KillAfterFiles.CanAlwaysReturn` | projects/aws/bottlerocket-bootstrap/pkg/utils/waiters.go:159-178 | from every reachable state timer and main goroutine alone can bring about the return, with failure unless the ok had arrived |
| `KillAfterFiles.SuccessIsReachable` | projects/aws/bottlerocket-bootstrap/pkg/utils/waiters.go:130-178 | with all files there success is reached without the timer |
| `UserData.NamesDistinct` | projects/aws/bottlerocket-bootstrap/pkg/utils/userdata.go:113 | different chunk numbers give different secret names |
| `UserData.SecretNameIs` | projects/aws/bottlerocket-bootstrap/pkg/utils/userdata.go:113 | a secret's name is the prefix, a hyphen and the chunk's decimal number |
| `UserData.SecretsManager.LoadChunks` | projects/aws/bottlerocket-bootstrap/pkg/utils/userdata.go:110-120 | for any count and failure point: the buffer is the concatenation of the chunks before the failure, deletion was requested for exactly those in order, all other secrets are untouched |
| `UserData.AnySplitIsReassembled` | projects/aws/bottlerocket-bootstrap/pkg/utils/userdata.go:112-120 | the gathered chunks of any way of splitting the data are its concatenation |
| `UserData.StoreAndLoad` | projects/aws/bottlerocket-bootstrap/pkg/utils/userdata.go:110-120 | data split in any way, stored and loaded without a failing fetch comes back exactly, whichever deletions take effect |
| `UserData.RetryIff` | projects/aws/bottlerocket-bootstrap/pkg/utils/userdata.go:114-119 | a second faultless load succeeds exactly when every chunk was stored and no earlier deletion took effect |
| `UserData.RetryAfterDeletion` | projects/aws/bottlerocket-bootstrap/pkg/utils/userdata.go:114-119 | two chunks, a failing second fetch after the first deletion: the retry fails without a fault of its own |
| `AmiFiles.SameFilesProvided` | projects/aws/image-builder/builder/files.go:38-57 | true exactly when the lists are equal as multisets |
| `AmiFiles.MergeUserFiles` | projects/aws/image-builder/cmd/build.go:283-305 | the merged list and the default table afterwards, with decoding into the shared storage |
| `AmiFiles.MergeIsIntendedIff` | projects/aws/image-builder/cmd/build.go:298-305 | the merge holds all user files and all defaults exactly when the user's leading entries are a rearrangement of the defaults they overwrite |
| `AmiFiles.PrefixDefaultSources` | projects/aws/image-builder/builder/builder.go:97-105 | with storage of its own an entry is prefixed once per equal default; on the shared table the loop sees its own rewrites |
| `AmiFiles.SharedPrefixOnceIff` | projects/aws/image-builder/builder/builder.go:97-105 | on the shared table every entry is prefixed exactly once if and only if the table has no repeated entry |
| `AmiFiles.DefaultsGetPath` | projects/aws/image-builder/builder/builder.go:97-105 | without a user list every default of a table without repetition gets the project path and a slash before its source, once |
| `AmiFiles.UserFilesTakenForDefaults` | projects/aws/image-builder/builder/builder.go:97-105 | a user list as long as the default table replaces it, so that the merge is not the intended one unless it lists the defaults, and the user's sources are prefixed as defaults |
| `AmiFiles.MergeAndPrefix` | projects/aws/image-builder/cmd/build.go:282-305 | merging and prefixing on arrays: the final list, when it still is the table's storage, and when the user's own sources are left alone |
| `AmiFiles.OwnSourcesKeptIff` | projects/aws/image-builder/builder/builder.go:97-105 | no user file that is not a default is prefixed if and only if all user entries that land in the table's storage are defaults |
| `AmiFiles.OwnSourcePrefixed` | projects/aws/image-builder/builder/builder.go:97-105 | one user file and two defaults: the user's source is prefixed and listed twice, and a default is lost |
| `KubeVip.ReplaceIsCutAndJoin` | projects/aws/bottlerocket-bootstrap/pkg/kubeadm/utils.go:327-328 | a replacement is cutting at the old text and joining with the new one |
| `KubeVip.CutThenJoin` | projects/aws/bottlerocket-bootstrap/pkg/kubeadm/utils.go:327-328 | joining the pieces with the old text gives the original, so nothing between occurrences changes |
| `KubeVip.CutPiecesAreClean` | projects/aws/bottlerocket-bootstrap/pkg/kubeadm/utils.go:327-328 | no piece holds the old text, so no occurrence is left out |
| `KubeVip.ReplaceLeavesNone` | projects/aws/bottlerocket-bootstrap/pkg/kubeadm/utils.go:327-328 | a replacement leaves no occurrence of its own text and creates none of an absent one, also across block borders |
| `KubeVip.PatchRemovesOldPaths` | projects/aws/bottlerocket-bootstrap/pkg/kubeadm/utils.go:327-328 | after one patch neither old path occurs anywhere |
| `KubeVip.PatchFixpoint` | projects/aws/bottlerocket-bootstrap/pkg/kubeadm/utils.go:319-330 | the patch changes a manifest exactly when an old path occurs in it |
| `KubeVip.PatchIdempotent` | projects/aws/bottlerocket-bootstrap/pkg/kubeadm/utils.go:319-330 | patching twice is patching once, for every manifest |
| `KubeVip.PatchIsOnePass` | projects/aws/bottlerocket-bootstrap/pkg/kubeadm/utils.go:327-328 | the two chained replacements are one simultaneous pass |
| `KubeVip.PatchWritesSuperAdmin` | projects/aws/bottlerocket-bootstrap/pkg/kubeadm/utils.go:327-328 | at its first old path a manifest gets the super-admin path of the same directory, everything before is copied, and the rest is patched in the same way |
| `KubeVip.FirstOldPath` | projects/aws/bottlerocket-bootstrap/pkg/kubeadm/utils.go:327-328 | every manifest with an old path has such a first one |

## Left out

- BuildAll.Workspace.MakeTarget: nested make calls are bounded by a depth; on acyclic graphs no bound above the ranks matters (BoundDoesNotMatter), a cyclic graph makes the real target recurse without end.
- MakeCache.Variables.Read: what eval does to a value it reads again (dollar signs, comment signs, leading blanks) is one arbitrary function of the text; a variable that needs itself is excluded, make stops on it.
- BinaryGroups.SetupAll: words with a percent sign, which filter would take as a pattern, are not modelled.
- BuildOutputs.TogetherIsWellBuilt: a pattern ending in a slash, where notdir and basename differ, is not modelled.
- BuildOutputs.WindowsNamedIff: source directories whose own name ends in .exe are excluded.
- TargetNames.AttributionFindsLicenseIff: for the default license directory; a project that overrides it is not covered.
- LicenseFilters.LicenseRuleFindsOwnModule: for projects without attribution name overrides; GoModForIsLast covers the variables with overrides.
- Revision.GetLatestRevision: failures of the list calls and paging are not modelled; commit dates and version parsing are arbitrary functions that may fail.
- Tracker.UpdateTracker: YAML and the license comment; tag and Go version are written in one assignment.
- Upgrade.Run: environment variables, the list of skipped projects, cloning, pushing, the pull request, and the EKS Distro branch; commands may write any files except the version files, the tracker and the Bottlerocket files, and delete none; read and write errors of existing files are not modelled.
- Upgrade.RunTwice: stated for a version parser that rejects the empty text.
- Upgrade.UpdateGenerated: the result of the attribution glob is an arbitrary list of names.
- Bottlerocket.UpdateVersionFiles: the image manifests behind "is published", YAML and TOML; the tag is given, not cut out of the image reference.
- SnowBoot.Snow.ConfigureDNI: the calls that gather network data count as one effect; the template text is not modelled.
- KillAfterFiles.ReturnsAreJustified: file sizes (only printed by the source) and elapsed time; the timer may fire at any moment.
- UserData.SecretsManager.LoadChunks: decompression, base64 and YAML decoding of the reassembled bytes.
- AmiFiles.MergeUserFiles: decoding is taken from the documented behaviour of encoding/json for slices; entries are complete, so fields that an incomplete entry would keep from an overwritten default are not modelled.
- AmiFiles.PrefixDefaultSources: joining paths is concatenation with a slash, which is what it does for clean relative sources such as the defaults.
- KubeVip.Patch: reading and writing the manifest file.
- The lock of the bootstrap container, static pod handling, kubeadm and etcdadm phases: check-then-create or sequences of commands that add easy members only.
- Input validation and build command selection of the image builder: a finite case table.
- EKS Distro release files: independent field updates.
- Display, logging, argument parsing and static data.
