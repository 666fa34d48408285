# Verified models of the release tooling and the exact fixtures of libitofin

This project models, in Dafny, the parts of `scripts/` whose correctness is not visible from one function at a time, and proves what they promise.

- **Go release publication** (`GoChecksums`, `GoArchive`, `GoArchiveLaws`, `GoWindows`, `GoStore`, `GoHistory`, `GoOptional`, `GoPublish`, `GoReruns`; `scripts/publish_go_release.py`).
  `Store` is the GitHub release with its assets, tags and annotated tag objects.
  Every command consults a fault oracle: it works, fails before its effect, fails after its effect, or, for uploads, reports success and loses the bytes.
  A run that is killed is a run in which every later command fails before its effect.
  The store records every state it goes through, and each effect is shown to be a `Step`: a relation that does not mention how the script works.
  The lemmas of `GoHistory` then speak of every sequence of steps, and `GoReruns` draws the conclusions for any number of runs of `Publish` itself, from any release without a Go tag.
  `Publish` and `PublishOptional` are also characterised exactly for runs in which no command fails, and `PublishRepeatedly` runs `Publish` any number of times.
- **Crate publication** (`CrateArchive`, `CrateRelease`, `CrateRegistry`; `scripts/publish_release_crate.py`).
  The archive reader is proved to accept exactly the archives of an order-free description.
  One probe is proved against what the endpoint, the index and the download say; a run against the registry's answers; and any number of killed runs against the assumption that the endpoint does not forget an acceptance.
  A registry that goes through the phases absent, accepted, indexed and downloadable as time passes, and runs that start later than the registry's lag after the end of an earlier one, are then shown to meet that assumption; without the spacing, the exact condition for a second upload is given.
- **PyPI preparation** (`PypiNames`, `PypiMetadata`, `PypiRelease`, `PypiRuns`; `scripts/prepare_release_pypi.py`).
  File names are parsed back to the parts they were made of; `Prepare` deletes exactly the published files, and only after every check; `RunAll` runs it again and again on fresh copies of the artifacts against a registry that keeps what is uploaded, and nothing is offered twice.
- **Sobol tables** (`DecimalText`, `PrintedText`, `SobolTables`, `SobolFiles`; `scripts/gen_sobol_tables.py` and the table reader in the Rust crate).
  Greedy packing, exact file sizes, the printed text read back, and the lookup of an entry through offsets and parts.
- **Average directional index** (`Wilder`, `DirectionalIndex`, `DirectionalIndexLaws`; `scripts/chart_adx_fixture.py`, and the period of `sdk/go/chart_adx.go` and `crates/libitofin/src/math/chart/adx.rs`), over `real`, for any series.
- **Benchmark beta** (`BenchmarkBeta`; `scripts/fixtures/generate_benchmark_beta.py`), over `real`, for any rows.
- **C parameter splitter** (`ParameterSplitter`; `scripts/gen_dotnet_bindings.py`).

`Text`, `Results` and `Archives` hold what several of these share.

## What turned out to need a condition

- A Go run survives a kill anywhere, but not a required archive whose upload is reported to work and is lost: its checksum is then attached alone, the guard at line 205 refuses every later run, and the tag is never created.
  `GoPublish.PublishPlatform` says exactly when that happens, `GoHistory.OrphanStays` what follows, and `GoPublish.RerunFinishes` how the release shows it.
- The optional stage cleans up after any error, so one failing command can remove a Windows pair that was published and right.
  `GoOptional.PublishOptional` says exactly when the pair survives: when none of the six commands fails, or when the cleanup after the first that does cannot list the assets or its first deletion has no effect.
- A crate is uploaded again when a later run is told that the version does not exist (`CrateRelease.WhenUploadedAgain`, `CrateRelease.ForgettingUploadsTwice`), that is, when it starts before the registry knows an accepted upload (`CrateRegistry.UploadsAgainWhenTooEarly`).
- Splitting parameters undoes the comma join unless the last parameter is blank or the list is the single word `void` (`ParameterSplitter.SplitInvertsJoin`).
- An empty table entry can be read back unless all entries after it are empty too (`SobolFiles.TableSurvives`); the script has no such entries.
- The byte budget does not bound a larger entry, which gets a part of its own; its file is within the limit for as long as the entry alone is, and `SobolFiles.DataFilesAreSmall` gives the exact condition, `SobolFiles.LargeEntries` an entry on either side.
- At period one a mean forgets everything but the last value, so that full strength says nothing about earlier bars: `DirectionalIndexLaws.FullStrength` is about longer periods, `DirectionalIndexLaws.FullStrengthAtOne` about this one.

## Model

| member | source | states |
|---|---|---|
| GoArchive.LinuxNames | scripts/publish_go_release.py:16-17 | the names of the Linux archives of a release |
| GoArchive.DarwinNames | scripts/publish_go_release.py:16-17 | the names of the macOS archives of a release |
| GoArchive.WindowsName | scripts/publish_go_release.py:16-17 | the name of the Windows archive of a release |
| GoArchive.NamesDiffer | scripts/publish_go_release.py:199-204 | archive and checksum names of all platforms are different |
| GoChecksums.ChecksumMeans | scripts/publish_go_release.py:68-71 | a checksum file is accepted exactly when it is the digest and the name with white space between them and perhaps around them, so for one digest and one name only |
| GoChecksums.WrittenChecksumSays | scripts/publish_go_release.py:68-71 | the checksum file that a repair writes passes the check that later runs make, whatever the digest and version |
| GoArchive.MappingSays | scripts/publish_go_release.py:93-99 | a key has a value exactly when some line says so |
| GoArchive.ReadMapping | scripts/publish_go_release.py:93-99 | the loop stops at the first bad or repeated line and otherwise gives the whole mapping |
| GoArchive.CollectFiles | scripts/publish_go_release.py:81-91 | refuses exactly the archives with an unexpected entry |
| GoArchive.VerifyWindowsContents | scripts/publish_go_release.py:74-105 | accepts exactly the archives with the required files once each and their recorded digests |
| GoArchiveLaws.PartitionIsFirst | scripts/publish_go_release.py:95-96 | a line is parted at its first mark, and only if it has one |
| GoArchiveLaws.MappingReads | scripts/publish_go_release.py:56-60 | lines are readable exactly when each has the mark and no two have the same key |
| GoArchiveLaws.KeyedReads | scripts/publish_go_release.py:56-60 | the manifest can be read exactly when each line has an equals sign and no key is given two values |
| GoArchiveLaws.IdentityLines | scripts/publish_go_release.py:47-65 | an archive has the identity exactly when one member and no other is called VERSION below the root, it is a regular file, it can be read, and it has the three lines |
| GoWindows.CollectedIsEntry | scripts/publish_go_release.py:87-90 | each collected file is an entry below the root with the same content |
| GoWindows.EntriesAreRight | scripts/publish_go_release.py:84-91 | the entries are accepted exactly when directories are known ones and every other entry is one of the expected regular files, each there once |
| GoWindows.SumsAreRight | scripts/publish_go_release.py:92-105 | the checksums are accepted exactly when each line gives a digest to one of the files, no two to the same, and each file gets that of its content |
| GoWindows.WindowsMeans | scripts/publish_go_release.py:74-105 | the whole check, entry by entry and line by line |
| GoWindows.WindowsFiles | scripts/publish_go_release.py:76-105 | each required file is in the archive and SHA256SUMS has a line with its digest |
| GoWindows.WindowsHolds | scripts/publish_go_release.py:76-80 | which files a sound Windows archive holds |
| GoWindows.KnownDirectories | scripts/publish_go_release.py:83-85 | which directories may be entries of their own |
| GoStore.ResolveFollows | scripts/publish_go_release.py:37-44 | a tag resolves exactly when fewer than eight annotated tags lead to the commit |
| GoStore.Store.RemoteCommit | scripts/publish_go_release.py:28-44 | the loop finds that commit, or nothing for a missing tag; without faults it fails exactly when there is none |
| GoHistory.RunsCompose | scripts/publish_go_release.py:172-234 | a further run, killed anywhere, continues the history of the earlier ones |
| GoHistory.NothingIsOverwritten | scripts/publish_go_release.py:207-223 | over any runs, a published required archive or checksum keeps its bytes |
| GoHistory.TagMeansComplete | scripts/publish_go_release.py:225-233 | over any runs that start without the Go tag: whenever it is there it is at the commit of the release and all four pairs are attached and right |
| GoHistory.TagIsFinal | scripts/publish_go_release.py:183-234 | from then on no run moves the tag or changes a required asset |
| GoHistory.TheRestStays | scripts/publish_go_release.py:172-234 | no run changes another tag or an unrelated asset |
| GoHistory.ResumableUnlessOrphaned | scripts/publish_go_release.py:205-206 | over any runs, the release stays one that a run can finish exactly when no step attached a checksum without its archive, and exactly when there is none |
| GoHistory.OrphanStays | scripts/publish_go_release.py:205-206 | a checksum without its archive stays for good and keeps the tag from being created |
| GoOptional.CompletePublished | scripts/publish_go_release.py:117-130 | a published archive keeps its bytes, and so does a published checksum file; one that is missing is added; without faults, succeeds exactly when what is there is right |
| GoOptional.PublishLocal | scripts/publish_go_release.py:131-142 | without faults, succeeds exactly when the local pair is right and fits a published checksum, which keeps its bytes |
| GoOptional.PublishPair | scripts/publish_go_release.py:117-144 | says truly whether there is anything to publish, and keeps the bytes of what is published |
| GoOptional.Reread | scripts/publish_go_release.py:145-156 | success means that the pair is published and right, and gives the digest of the published bytes |
| GoOptional.TryOptional | scripts/publish_go_release.py:114-156 | the outcome is true of the assets; nothing but the Windows pair ever changes, and what is published of it keeps its bytes; a right published pair takes six commands, and the first that does not work ends the attempt |
| GoOptional.Cleanup | scripts/publish_go_release.py:159-166 | success means that neither Windows asset is left; a published archive is spared exactly when the listing fails or its deletion has no effect |
| GoOptional.PublishOptional | scripts/publish_go_release.py:108-169 | every outcome is true of the assets under all faults, no other asset or tag changes in any state on the way, and the outcome is decided when no command fails; a right published pair survives exactly when none of the six commands fails or the cleanup after the first that does is spared |
| GoOptional.UntouchedIsStep | scripts/publish_go_release.py:232-234 | whatever the optional stage does keeps the promises of the required part |
| GoPublish.Attach | scripts/publish_go_release.py:218-222 | an upload under any fault is one step of the history, with its exact effect and answer |
| GoPublish.AttachPair | scripts/publish_go_release.py:217-222 | a new pair is right once both are there; its checksum is left alone exactly when the archive is lost and the checksum arrives |
| GoPublish.PublishPlatform | scripts/publish_go_release.py:200-223 | every state on the way is a step; a pair that is there afterwards is right and the returned digest is that of the published bytes; without faults it succeeds exactly when the local pair and what is published are right; a checksum comes to be without its archive exactly when neither was there, the local pair is right, the upload of the archive is lost and that of the checksum arrives |
| GoPublish.PublishRequired | scripts/publish_go_release.py:195-223 | the same for all four platforms: the record holds the digests of the published archives |
| GoPublish.Preflight | scripts/publish_go_release.py:174-194 | the checks before the first upload, exactly |
| GoPublish.PublishTag | scripts/publish_go_release.py:224-231 | the tag is created only with all pairs attached, and success means that it resolves to the commit |
| GoPublish.PublishChecked | scripts/publish_go_release.py:195-231 | without faults, succeeds exactly when the local archives are right and what is published is resumable |
| GoPublish.PublishMandatory | scripts/publish_go_release.py:172-231 | the run up to the Go tag: nothing changes when the core tag is elsewhere; without faults it succeeds exactly when `Ready` holds |
| GoPublish.Publish | scripts/publish_go_release.py:172-235 | under all faults every state is a step of the release; nothing changes when the core tag is elsewhere; success means the tag, all pairs, the digests of the published bytes and a true outcome of the optional stage; without faults it succeeds exactly when `Ready` holds for a public release, and the optional outcome is decided |
| GoPublish.RerunFinishes | scripts/publish_go_release.py:183-231 | after any runs from an empty release, cut anywhere, a run with newly built archives has all it needs exactly when no step attached a checksum without its archive, which is exactly when the release shows no such checksum |
| GoReruns.PublishAgain | scripts/publish_go_release.py:172-235 | one more run on such a release: from whose start on no command fails, it succeeds exactly when no checksum is without its archive |
| GoReruns.PublishRepeatedly | scripts/publish_go_release.py:172-235 | any number of runs on an empty release under any faults take steps only, and a run from whose start on no command fails succeeds exactly then, in particular when no upload was lost before |
| GoReruns.PublishOne | scripts/publish_go_release.py:172-235 | one run on any release: a checkout at another commit fails and leaves the history as it was; success means that the Go tag is there |
| GoReruns.PublishFromAnywhere | scripts/publish_go_release.py:172-235 | any number of runs on any release without a Go tag, under any faults and from checkouts at any commits: in every state a Go tag is at the commit of the core tag with all four pairs attached and right, and from the first such state on the tags and required assets stay as they are |
| CrateArchive.FilesOfHas | scripts/publish_release_crate.py:60-67 | the files are the members that are not directories |
| CrateArchive.FilesOfGets | scripts/publish_release_crate.py:62-67 | each file is found under its name with its content |
| CrateArchive.FilesOfSize | scripts/publish_release_crate.py:62-67 | one entry for each member that is not a directory |
| CrateArchive.SumPermuted | scripts/publish_release_crate.py:64-66 | sizes and counts do not depend on the order of the members |
| CrateArchive.OrderDoesNotMatter | scripts/publish_release_crate.py:56-67 | acceptance and files do not depend on the order of the members |
| CrateArchive.StepAcceptable | scripts/publish_release_crate.py:57-66 | the checks on one member against what was read keep exactly the acceptable archives |
| CrateArchive.ReadMembers | scripts/publish_release_crate.py:51-67 | the loop succeeds exactly on archives of safe, regular, distinct members within both limits |
| CrateArchive.ArchiveFiles | scripts/publish_release_crate.py:51-73 | success exactly on such archives whose recorded source is the clean commit and path of the release |
| CrateArchive.ArchiveOrderDoesNotMatter | scripts/publish_release_crate.py:51-73 | the whole result is invariant under permutation of the members |
| CrateArchive.SafeNames | scripts/publish_release_crate.py:57-59 | the path test accepts exactly the names below the prefix with no empty, dot or dot-dot piece |
| CrateRelease.IndexedMatches | scripts/publish_release_crate.py:98-101 | the picked rows pass exactly when the index has one row of the version, and it is of the package, not yanked, with the checksum |
| CrateRelease.MatchingNone | scripts/publish_release_crate.py:98-100 | nothing is picked exactly when no row has the version |
| CrateRelease.Existing | scripts/publish_release_crate.py:86-110 | a probe is confirmed exactly when the endpoint knows the version with a proper checksum, one row of the index has it with that checksum, and the download has the digest, the source and the files; absent exactly on a 404; pending exactly when the index has no row, or the right one and there is no download |
| CrateRelease.Session.Probe | scripts/publish_release_crate.py:86-110 | one probe answers to what the registry shows it |
| CrateRelease.PollCost | scripts/publish_release_crate.py:113-122 | polling from any attempt on is within the remaining probes and delays and never uploads |
| CrateRelease.PollSees | scripts/publish_release_crate.py:113-122 | polling succeeds exactly when a poll confirms before one fails |
| CrateRelease.Session.Reconcile | scripts/publish_release_crate.py:113-122 | the polling loop does exactly the events of its specification |
| CrateRelease.Session.PublishOnce | scripts/publish_release_crate.py:125-140 | a run that reads the registry by its probes does exactly the events of its specification and ends as it says; it succeeds only if everything agreed at its last probe |
| CrateRelease.RunCost | scripts/publish_release_crate.py:113-140 | at most 7 probes, 60 seconds of sleep and one upload, and an upload exactly when the first probe found no version |
| CrateRelease.RunSucceeds | scripts/publish_release_crate.py:125-140 | a run succeeds exactly when the first probe confirms, or does not fail and some poll confirms before one fails |
| CrateRelease.OutcomeMeans | scripts/publish_release_crate.py:125-140 | each outcome from what the run did: whether it uploaded, with which exit code, and what its last probe answered |
| CrateRelease.GivingUpTakesAMinute | scripts/publish_release_crate.py:113-140 | a run that gives up has made all seven probes and has slept for sixty seconds |
| CrateRelease.SuccessIsConfirmed | scripts/publish_release_crate.py:134-139 | the last event of a successful run is a confirming probe |
| CrateRelease.SuccessIsAgreement | scripts/publish_release_crate.py:86-139 | a run succeeds only if endpoint, index, digest, source and files all agreed in what the registry showed to its last probe |
| CrateRelease.UploadFollowsAbsence | scripts/publish_release_crate.py:134-137 | in any killed run an upload comes right after a first probe that found no version, so never after not-visible |
| CrateRelease.AtMostOnce | scripts/publish_release_crate.py:125-140 | over any killed runs, no upload after an accepted one if the endpoint never forgets, and at most one in a run |
| CrateRelease.WhenUploadedAgain | scripts/publish_release_crate.py:125-137 | the exact condition for a second upload |
| CrateRelease.ForgettingUploadsTwice | scripts/publish_release_crate.py:125-137 | two runs that both get an upload accepted by a registry that forgets |
| CrateRegistry.KilledAfterUpload | scripts/publish_release_crate.py:125-137 | for any release, a world with a run that is killed after its upload is accepted and a later one meets every assumption on the registry |
| CrateRegistry.PhaseIsAnswered | scripts/publish_release_crate.py:86-110 | what a probe answers in each phase of the registry |
| CrateRegistry.AdvancingSucceeds | scripts/publish_release_crate.py:113-140 | against a registry whose phase only advances, a run succeeds exactly when the version is downloadable by the last poll |
| CrateRegistry.AdvancingNeverForgets | scripts/publish_release_crate.py:125-137 | a registry whose phase only advances in time, and that knows an accepted upload after a lag, never forgets an acceptance over any killed runs that start later than that |
| CrateRegistry.AcceptedArrives | scripts/publish_release_crate.py:125-137 | what a run had accepted is known at every time later than its end and the lag |
| CrateRegistry.StartsByPhase | scripts/publish_release_crate.py:125-126 | the first thing a run does is a probe that is answered by the phase at its start |
| CrateRegistry.AcceptedInRun | scripts/publish_release_crate.py:134-140 | a killed run has at most one accepted upload, right after its first probe |
| CrateRegistry.AcceptedOnce | scripts/publish_release_crate.py:125-140 | over any killed runs, at most one upload is accepted in all exactly when none is accepted after another run's was |
| CrateRegistry.UploadsAgainWhenTooEarly | scripts/publish_release_crate.py:125-137 | whatever the spacing of the runs, an upload comes after an accepted one exactly when its run starts while the endpoint does not know that one and gets past its first probe |
| CrateRegistry.AcceptedOnceUnlessTooEarly | scripts/publish_release_crate.py:125-140 | at most one upload is accepted in all exactly when no run that starts so early has one accepted |
| CrateRegistry.PublishedOnce | scripts/publish_release_crate.py:125-140 | when runs start later than the lag after the end of an earlier one, at most one upload is ever accepted and none is tried after it |
| CrateRegistry.PresentWhenAccepted | scripts/publish_release_crate.py:125-140 | long enough after the last run the registry has the version exactly when one upload was accepted |
| PypiNames.TagPlatformMeans | scripts/prepare_release_pypi.py:28-34 | the platform of a tag, by its text: manylinux with a year or two numbers before x86_64 or aarch64, macosx with two numbers before x86_64 or arm64 |
| PypiNames.UsualTags | scripts/prepare_release_pypi.py:28-29 | the usual tag of each platform says it, for any two numbers |
| PypiNames.OneTag | scripts/prepare_release_pypi.py:27-27 | a wheel with one platform tag says what the tag says |
| PypiNames.PlatformIdentity | scripts/prepare_release_pypi.py:25-38 | a platform exactly when the text of every tag says it |
| PypiNames.OnePlatform | scripts/prepare_release_pypi.py:36-38 | no tags stand for two platforms |
| PypiNames.ParseOfName | scripts/prepare_release_pypi.py:44-47 | a wheel name is parsed back into its parts |
| PypiNames.NameOfParse | scripts/prepare_release_pypi.py:44-46 | whatever is parsed is the name of those parts |
| PypiNames.WheelNameIsText | scripts/prepare_release_pypi.py:44-44 | the joined parts of a wheel are its name |
| PypiNames.FilenameIdentity | scripts/prepare_release_pypi.py:41-47 | the result is the platform exactly when the name is that of the sdist or of a valid wheel of the version for it |
| PypiNames.IdentifiesMeans | scripts/prepare_release_pypi.py:41-47 | a name stands for a platform exactly when it is that of the sdist, or the text of a wheel of the version whose tags all say the platform |
| PypiNames.OneIdentity | scripts/prepare_release_pypi.py:41-47 | no name identifies two platforms |
| PypiRelease.ByNameHas | scripts/prepare_release_pypi.py:120-131 | listed files with distinct names are all found by name, and nothing else |
| PypiRelease.CheckListed | scripts/prepare_release_pypi.py:121-130 | one listed file is accepted exactly when well formed |
| PypiRelease.PublishedFiles | scripts/prepare_release_pypi.py:108-134 | a response is accepted exactly when it is about this release, with distinct well-formed files |
| PypiMetadata.OneInfo | scripts/prepare_release_pypi.py:59-73 | the only member that is looked at is the one that picking out gives |
| PypiMetadata.CheckMetadata | scripts/prepare_release_pypi.py:50-75 | accepts exactly the archives with one metadata file, where it belongs and of the right size, that names this release and no other |
| PypiMetadata.SdistMetadata | scripts/prepare_release_pypi.py:59-67 | an sdist passes exactly when it has one PKG-INFO in its root, a regular file within the limit that names project and version once each |
| PypiMetadata.WheelMetadata | scripts/prepare_release_pypi.py:69-75 | a wheel passes exactly when one member ends in METADATA of a dist-info, it is that of the project and version, within the limit, and names both once each |
| PypiRelease.ArtifactIdentity | scripts/prepare_release_pypi.py:56-76 | a platform exactly when the regular file has its name and metadata |
| PypiRelease.CheckArtifacts | scripts/prepare_release_pypi.py:151-156 | accepts exactly five distributions, one for each required platform |
| PypiRelease.CompleteMeans | scripts/prepare_release_pypi.py:151-156 | five files are complete exactly when every platform has one that stands for it |
| PypiRelease.FiveDistributions | scripts/prepare_release_pypi.py:151-156 | the sdist and four wheels, by the text of their names and with good metadata, are complete |
| PypiRelease.CheckPublished | scripts/prepare_release_pypi.py:157-173 | accepts exactly when every published file is a local one with the same digest, not yanked, and collects all of them |
| PypiRelease.AgreesMeans | scripts/prepare_release_pypi.py:157-173 | published files are accepted exactly when each listed one is a local file with its digest, not yanked, and downloads, if verified, are trusted and have it too |
| PypiRelease.StableMeans | scripts/prepare_release_pypi.py:174-175 | nothing changed exactly when every file is still there, regular, with the same digest |
| PypiRelease.CheckStable | scripts/prepare_release_pypi.py:174-175 | accepts exactly when no file changed meanwhile |
| PypiRelease.Workspace.Prepare | scripts/prepare_release_pypi.py:147-179 | succeeds exactly when every check passes, deletes exactly the published files, deletes nothing otherwise, and is false exactly when all are published |
| PypiRuns.ResponseLists | scripts/prepare_release_pypi.py:108-132 | the answer of a registry lists its files, each with its digest |
| PypiRuns.RunPasses | scripts/prepare_release_pypi.py:147-179 | a run over unchanged artifacts passes every check, whatever part of them the registry has |
| PypiRuns.RunOnce | scripts/prepare_release_pypi.py:147-179 | a run in a fresh workspace keeps exactly the artifacts that the registry does not have, answers whether there are any, and what is then uploaded is not refused |
| PypiRuns.RunAll | scripts/prepare_release_pypi.py:147-179 | the same for any number of runs whose uploads stop anywhere; what is published stays a part of the artifacts, byte for byte |
| PypiRuns.NothingUploadedTwice | scripts/prepare_release_pypi.py:162-179 | no run keeps a file that was uploaded after an earlier one |
| PypiRuns.PublishedIsUploaded | scripts/prepare_release_pypi.py:162-179 | what is published in the end is what was there and what was uploaded |
| PypiRuns.DoneWhenAllUploaded | scripts/prepare_release_pypi.py:179-179 | a run says that nothing is left exactly when all that was missing has been uploaded |
| DecimalText.FormatValues | scripts/gen_sobol_tables.py:82-87 | the loop prints lines of sixteen |
| DecimalText.EstimateAppend | scripts/gen_sobol_tables.py:106-106 | the byte estimate is additive |
| DecimalText.EstimatePerValue | scripts/gen_sobol_tables.py:106-106 | every value costs at least three bytes |
| DecimalText.FormattedSize | scripts/gen_sobol_tables.py:82-87 | the exact size of the printed text: estimate, suffixes and four bytes a line less one |
| DecimalText.FindDigits | scripts/gen_sobol_tables.py:59-59 | a run of digits that no digit follows is one token with its value |
| DecimalText.FindNegated | scripts/gen_sobol_tables.py:59-59 | and with a sign before it the negated value |
| DecimalText.FindSkips | scripts/gen_sobol_tables.py:59-59 | any other character is passed over |
| DecimalText.FindPrinted | scripts/gen_sobol_tables.py:59-59 | a printed integer that no digit follows is read as one token |
| DecimalText.PrintThenFind | scripts/gen_sobol_tables.py:55-87 | reading the printed text gives back every integer sequence |
| PrintedText.NumberIsPlain | scripts/gen_sobol_tables.py:86-86 | a number is printed as its digits without a leading zero, after a sign if negative |
| PrintedText.PrintedWords | scripts/gen_sobol_tables.py:82-87 | between the commas there are the numbers in order with their suffixes, and nothing after the last |
| PrintedText.PrintedLines | scripts/gen_sobol_tables.py:83-87 | there is a line for every sixteen values: four blanks, and those values with a comma after each |
| SobolTables.EntryBytes | scripts/gen_sobol_tables.py:106-106 | the estimate of one entry |
| SobolTables.SplitEntries | scripts/gen_sobol_tables.py:103-113 | the parts are a greedy packing of the entries in order; no entries give one empty part |
| SobolTables.GreedyStaysAhead | scripts/gen_sobol_tables.py:103-113 | a packing of the same entries, and perhaps some more before them, has at least as many parts |
| SobolTables.GreedyIsOptimal | scripts/gen_sobol_tables.py:103-113 | no packing into contiguous parts within the budget has fewer parts |
| SobolTables.GreedyIsUnique | scripts/gen_sobol_tables.py:103-113 | the greedy packing is determined |
| SobolFiles.DataFileSize | scripts/gen_sobol_tables.py:93-99 | the exact size of a data file |
| SobolFiles.BudgetIsSound | scripts/gen_sobol_tables.py:93-132 | a part within the budget never hits the size limit |
| SobolFiles.PartIsSmall | scripts/gen_sobol_tables.py:97-132 | a part of the packing is within the limit exactly when each of its entries alone would be |
| SobolFiles.DataFilesAreSmall | scripts/gen_sobol_tables.py:97-132 | all data files are within the limit exactly when each nonempty entry alone would be; an entry within the budget is |
| SobolFiles.LargeEntries | scripts/gen_sobol_tables.py:97-113 | an entry over the budget that is still within the limit, and one that is not |
| SobolFiles.TooBigStops | scripts/gen_sobol_tables.py:97-99 | the first file over the limit is written and ends the run |
| SobolFiles.OffsetsFileSize | scripts/gen_sobol_tables.py:93-99 | the exact size of an offsets file |
| SobolFiles.AllFilesAreSmall | scripts/gen_sobol_tables.py:97-137 | all files of a table are within the limit exactly when each nonempty entry alone would be and the offsets are |
| SobolFiles.Output.EmitInitializerTable | scripts/gen_sobol_tables.py:116-137 | writes the files of the greedy packing and the offsets in order, up to the first too big, and succeeds exactly when the entries and the offsets are small enough |
| SobolFiles.MakeOffsets | scripts/gen_sobol_tables.py:117-120 | the running total gives the number of values before each entry |
| SobolFiles.InitializerTable.Entry | crates/libitofin/src/math/randomnumbers/sobol/mod.rs:43-53 | the loop over the parts is the recursive lookup |
| SobolFiles.LookupFindsEntry | crates/libitofin/src/math/randomnumbers/sobol/mod.rs:43-53 | for every split into parts, entry k is found at its offset, or nothing is left from k on |
| SobolFiles.BoundaryIsOffset | scripts/gen_sobol_tables.py:117-132 | every part boundary is an offset, so no entry straddles parts |
| SobolFiles.TableSurvives | scripts/gen_sobol_tables.py:116-143 | parts and offsets, printed and read back, give each entry back through the reader |
| Wilder.MeanAdds | crates/libitofin/src/math/chart/adx.rs:21-43 | smoothing is additive |
| Wilder.MeanScales | crates/libitofin/src/math/chart/adx.rs:21-43 | smoothing commutes with scaling |
| Wilder.MeanNonnegative | crates/libitofin/src/math/chart/adx.rs:21-43 | nonnegative values have a nonnegative mean, past period one zero exactly when all are zero |
| Wilder.MeanBounded | crates/libitofin/src/math/chart/adx.rs:21-43 | smoothing keeps every bound |
| Wilder.MeanOfConstant | crates/libitofin/src/math/chart/adx.rs:21-43 | a constant series is its own mean |
| Wilder.MeanIsWeighted | scripts/chart_adx_fixture.py:53-60 | the mean is the sum of the values with explicit geometric weights; the value of bar zero has none |
| Wilder.WeightsSumToOne | scripts/chart_adx_fixture.py:53-60 | the weights sum to one |
| Wilder.SeedMean | crates/libitofin/src/math/chart/adx.rs:27-31 | the running mean is the plain mean of the seed |
| Wilder.Next | crates/libitofin/src/math/chart/adx.rs:34-38 | the step with period one written out is the recurrence |
| Wilder.RunningMeans | crates/libitofin/src/math/chart/adx.rs:21-43 | the one-pass loop computes the smoothed series, with zeros before it |
| DirectionalIndex.MeansByHalves | scripts/chart_adx_fixture.py:53-60 | the general recurrence at period two is the script's halving |
| DirectionalIndex.AdxByHalves | scripts/chart_adx_fixture.py:65-70 | the general index at period two is the script's halving |
| DirectionalIndex.Fixture | scripts/chart_adx_fixture.py:38-74 | the loop computes for every series the rows defined by the general rule at period two |
| DirectionalIndexLaws.RawMeaning | scripts/chart_adx_fixture.py:43-51 | the range of a bar is its own, stretched to the previous close; a move counts if it is positive and larger than the opposite one; the first bar makes none |
| DirectionalIndexLaws.IndicatorMeaning | scripts/chart_adx_fixture.py:61-64 | each direction is the percentage of its smoothed moves in the smoothed range, DX the percentage of their difference in their sum, and nothing of nothing is zero |
| DirectionalIndexLaws.AdxMeaning | sdk/go/chart_adx.go:19-24 | ADX smooths DX from its first valid index on |
| DirectionalIndexLaws.MovementsWithinRange | scripts/chart_adx_fixture.py:43-51 | the movements of a bar are nonnegative, not both positive, and together at most its range |
| DirectionalIndexLaws.SmoothedMovementsWithinRange | scripts/chart_adx_fixture.py:53-61 | the same of the smoothed means |
| DirectionalIndexLaws.IndicatorBounds | sdk/go/chart_adx.go:19-24 | the two directions are nonnegative and add up to at most 100, and DX and ADX are between 0 and 100, at every valid index |
| DirectionalIndexLaws.MirrorSwaps | scripts/chart_adx_fixture.py:43-70 | mirrored prices swap the directions and keep DX and ADX |
| DirectionalIndexLaws.RescaleKeeps | scripts/chart_adx_fixture.py:43-70 | a positive factor and a shift of all prices change nothing |
| DirectionalIndexLaws.FullStrength | scripts/chart_adx_fixture.py:62-64 | DX is 100 exactly when all movement so far went one way and some did |
| DirectionalIndexLaws.FullStrengthAtOne | sdk/go/chart_adx.go:19-22 | at period one DX is 100 exactly when the last bar moved one way |
| DirectionalIndexLaws.RisingMarket | scripts/chart_adx_fixture.py:48-70 | rising highs with lows that do not fall give DX and ADX of 100 at every period |
| BenchmarkBeta.InnerLinear | scripts/fixtures/generate_benchmark_beta.py:24-28 | weighted sums of products are linear in each column |
| BenchmarkBeta.CauchySchwarz | scripts/fixtures/generate_benchmark_beta.py:27-28 | the Cauchy-Schwarz inequality for any two columns and nonnegative weights |
| BenchmarkBeta.MomentIsCentered | scripts/fixtures/generate_benchmark_beta.py:24-28 | the product-moment form is the weighted average of products of centred values |
| BenchmarkBeta.MomentPositive | scripts/fixtures/generate_benchmark_beta.py:28-28 | a variance is nonnegative, and zero exactly when all rows that have weight agree |
| BenchmarkBeta.MomentsCauchySchwarz | scripts/fixtures/generate_benchmark_beta.py:27-28 | the squared covariance is at most the product of the variances |
| BenchmarkBeta.WeightedMeans | scripts/fixtures/generate_benchmark_beta.py:22-23 | the total is positive, for weights that are not negative, exactly when some row has weight |
| BenchmarkBeta.CovarianceMeans | scripts/fixtures/generate_benchmark_beta.py:23-28 | covariance and variance are N/(N-1) times the weighted average of the products of the distances from the weighted means, in sums of their own |
| BenchmarkBeta.BetaDefined | scripts/fixtures/generate_benchmark_beta.py:22-29 | a division by zero happens exactly when the benchmark does not vary over the rows that have weight |
| BenchmarkBeta.BetaIsMomentRatio | scripts/fixtures/generate_benchmark_beta.py:26-29 | the count correction cancels |
| BenchmarkBeta.BetaIsLeastSquares | scripts/fixtures/generate_benchmark_beta.py:22-29 | beta with its intercept is the one line of least weighted squared error, a sum over the rows of its own |
| BenchmarkBeta.BetaOfLine | scripts/fixtures/generate_benchmark_beta.py:22-29 | rows on a line have its slope as beta |
| BenchmarkBeta.BetaIgnoresWeightless | scripts/fixtures/generate_benchmark_beta.py:22-29 | values in rows of weight zero never matter |
| BenchmarkBeta.BetaOfSplitRow | scripts/fixtures/generate_benchmark_beta.py:22-29 | a row counts by its weight: as two rows that share it, it leaves beta as it is |
| ParameterSplitter.SplitParams | scripts/gen_dotnet_bindings.py:77-96 | the scanning loop computes the stripped pieces between commas at depth zero |
| ParameterSplitter.PiecesOfJoin | scripts/gen_dotnet_bindings.py:84-93 | splitting undoes the comma join of every parameter list |
| ParameterSplitter.JoinOfPieces | scripts/gen_dotnet_bindings.py:84-93 | the pieces of any text join back to it and are a parameter list |
| ParameterSplitter.SplitOfJoin | scripts/gen_dotnet_bindings.py:77-96 | the result on every comma join, whatever white space surrounds the parameters |
| ParameterSplitter.SplitInvertsJoin | scripts/gen_dotnet_bindings.py:77-96 | the join is undone exactly when the last parameter is not blank and the list is not the word void alone |
| ParameterSplitter.ListMeans | scripts/gen_dotnet_bindings.py:83-91 | a parameter list by counting parentheses: commas only where more are open than closed or fewer, and all parameters but the last balanced |
| ParameterSplitter.ListsComeBack | scripts/gen_dotnet_bindings.py:77-96 | what the splitter makes of the comma join of any such list, and when it gives the list back |
| Text.StripMeans | scripts/gen_dotnet_bindings.py:78-95 | stripping takes white space from both ends and leaves none there |
| Text.StripSlashesMeans | scripts/publish_release_crate.py:58-58 | only slashes go from the end of a name, and none is left there |

## Left out

- SHA-256, tar, zip, JSON, TOML and e-mail metadata decoding, HTTP with its retries, and the `gh`, `git` and `cargo` commands are functions or answers that the model takes as given; `check_release_version` and the module check of the Go checkout are one flag.
- Editing the release notes after the optional stage (`scripts/publish_go_release.py:236-256`), printing and the `GITHUB_OUTPUT` writes.
- Two Go runs at the same time, or another writer of the release; the store changes only through the commands of the runs.
- Failures of one delete or tag creation that is reported to work but does nothing; lost uploads are modelled.
- Go commands that fail for lack of a local disk, and the temporary directory; downloads are values.
- GoPublish.AttachPair, GoPublish.Attach, GoPublish.PublishMandatory, GoOptional.PublishPair, GoOptional.CompletePublished, GoOptional.PublishLocal and GoOptional.Reread are sections of the script's two long functions as methods of their own.
- GoReruns.PublishRepeatedly, GoReruns.PublishFromAnywhere and PypiRuns.RunAll are the reruns and uploads around the scripts, which are workflow steps and not loops of the scripts.
- PypiNames.FilenameIdentity and PypiNames.PlatformIdentity take the digits and word characters of the patterns as given, apart from which of them a hyphen, an underscore and a dot are not; Unicode tables are not modelled.
- PypiMetadata.CheckMetadata: the members of an archive and the fields of a metadata file are given; tar, zip and e-mail syntax is not modelled.
- CrateRelease.Session.PublishOnce: the packaging in `prepare` is not modelled, and what the upload meets is given by its exit code and whether it is accepted.
- CrateRegistry.PublishedOnce: runs take place one after the other; two machines at once are not modelled.
- SobolFiles.Output.EmitInitializerTable: file names, module and static declarations, and `rustfmt` are not modelled; values are unbounded integers, not `u32`.
- SobolFiles.TableSurvives: comment stripping and the declaration patterns of `parse_int_arrays` are not part of the round trip; the tokens are.
- DirectionalIndex.Fixture: the CSV text is not modelled; a row is a record, with ADX zero before it is valid.
- Wilder.RunningMeans: rounding and the finiteness checks of the Rust code are not modelled, values are `real`.
- BenchmarkBeta.BetaDefined: columns of different lengths, which the script would cut to the shortest for its sums, are not modelled; rows are records.
- The rest of `gen_dotnet_bindings.py` and `gen_sobol_tables.py`, `sdk/go` apart from the documented period rule, the pricing library, examples and notebooks would only add easy members or depend on code outside the scripts.
