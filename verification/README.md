# Verified models of the ABAP add-on pipeline, version preparation, build values and ATC steps

This project models steps of the jenkins-library that hold logic of their own over unbounded data, and
proves what they keep, whatever the systems around them answer.

**The add-on package life cycle.** Five steps pass a list of repositories along: *Reserve* asks the registry
for a delivery package per repository and polls until every reservation is decided; *Assemble* builds the
planned packages and fetches their archives; *Register* uploads the archives and registers the packages;
*Release* releases the locked ones; *Confirm* confirms the assemblies. Each step is a method over an array or
a sequence of records that returns the calls it sends (modules `Packages`, `Reserve`, `Assemble`, `Register`,
`Release`, `Confirm`). `Pipeline` proves safety over every run and delivery in completed runs; `Runs` runs the
five steps, tells why a run ends where it does, and that it completes if and only if the outside lets every step
succeed. The outside is an adversary: a function from tick and repository to an answer, with no assumption on what
it answers.

**Version calculation and tagging.** `Versioning` and `SemVer` model the four version templates, invert them
by parsing from the right, and place the generated versions in the precedence order of Semantic Versioning
2.0.0. `Tagging` models worktree and repository as objects and tells the state of origin, tags and pushes at
every exit of the push. `PrepareVersion` models the step around them and the propagation of a version to
additional descriptors.

**Build values.** `BuildValues` proves the in-place merge of three value sources against a lookup, and the
merge over several builds; `DescriptorValues` models which repositories are built and which of their fields
are put in under which name.

**ATC.** `AtcBatch` prints the batch request, `AtcReader` takes any multipart text of that form apart again
(after RFC 2046 section 5.1.1, with lines that end in a line feed alone, as the printer writes them, where the RFC
asks for carriage return and line feed). `AtcPush` builds the request from a file, proves when it tells exactly the
patches of that file, and models the decision to create, patch or skip. `AtcResult` models whether the findings of a
run fail the step and how the report lists them.

**Add-on update.** `UpdateAddOn` models the Landscape Portal step: start an update, poll it, cancel it if it
ended in an error.

`Decimal` and `Text` hold the digit strings and the splitting of texts that the others build on.

## How to read the model

- Answers of other systems are parameters. Where an answer depends on time it is a function of the tick; the
  number of ticks that pass before a timeout is taken is a parameter too.
- A repository's `key` stands for its identity: the fields of `addon.yml` that no step ever writes. Lemmas
  that count calls assume that keys are distinct; the safety lemmas that find a repository for a call do not.
- The calls of a step are returned as a sequence, in the order in which they are sent.
- The git library is assumed to behave as follows: a commit takes what is staged, with `All` the tracked changes
  too; an existing tag is not moved; a remote can be created only if it is absent and deleted only if it is there.
  Beyond this any of its operations may fail. `Worktree` and `Repository` in `Tagging` say no more than that.
- Go's map iteration order is modelled as arbitrary: the loops over maps pick any remaining key.

## What turned out differently than one may expect

- `InBuildScope` is never set back. A repository that comes in as released, but still marked from an earlier
  run, is confirmed although this run did not assemble it: `Runs.StaleScopeConfirms` runs the pipeline into this.
  That nothing released is touched holds with the exact proviso that the mark was not set at the beginning
  (`Pipeline.ReleasedUntouched`, `Pipeline.ReleasedConfirmed`).
- Release stops at the first tick at which every call is answered; a package may still be locked then
  (`Release.AnsweredIsNotReleased`). All are released exactly if each got the answer "released" at some tick
  (`Release.AllReleasedAtEnd`). With nothing to release the step fails exactly if time is up before the first tick
  (`Release.NothingToRelease`).
- A repository without commit ID can never follow a predecessor that has one
  (`Reserve.EmptyCommitNeverDiffers`).
- Unix timestamps before 1970 print a sign, and behind a dash each such version is also that of another base and
  time; of the schemes only pep440 tells all unix times apart (`Versioning.UnixTimesTold`). Generated versions are valid under Semantic Versioning if and only if the year
  has at least four digits or the unix format is used (`SemVer.GeneratedIsSemver`); but a unix time before 1970 is
  read as a text and ranks above all later numbers (`SemVer.Before1970RanksAbove`).
- The switch to ssh treats `http://` remotes like `https://` ones, but exactly https URLs whose authority is a bare
  host become the ssh address of their host and path (`Tagging.OnlyHttpsBecomesSsh`). With `user:password@host` or
  `host:port` something of the shape of an ssh address comes out, in which everything behind the first colon has
  become part of the path (`Tagging.ShapedLikeSsh`).
- The batch printer does not escape quotes. A request is also that of another file if and only if the text between
  the two names of a patched priority occurs in it a second time (`AtcPush.RequestAmbiguous`); a plain quote does not
  make it ambiguous, but a reader that takes a quote for the end of a name reads the request back exactly if no
  patched name holds one (`AtcPush.RequestReads`). A file that holds nothing but priorities leaves a dangling comma
  in the base body (`AtcPush.BaseBodyWellFormed` gives the exact condition).
- The branch of `runBuilds` that counts an append error is dead: appending without the flag never fails, so
  the reported number of errors is the number of failed builds (`BuildValues.RunBuilds`).
- The responder of the add-on update would count a status that is not final as a success; from the run this
  case cannot be reached (`UpdateAddOn.Run.RunAbapLandscapePortalUpdateAddOnProduct`).

## Model

| member | source | states |
|---|---|---|
| Runs.RunPipeline | cmd/abapAddonAssemblyKitReserveNextPackages.go:27-80 | for every list and every answer of the systems: the run completes if and only if the outside lets all five steps succeed; it ends at the first step that fails, for the reason reported, with the calls sent until then and nothing handed on or sent afterwards; and each list is linked to the next |
| Runs.NothingAfterStop | cmd/abapEnvironmentAssembleConfirm.go:39-79 | after a step that fails no call of a later step is sent |
| Runs.PartialRelease | cmd/abapEnvironmentAssembleConfirm.go:81-113 | when confirmation stops for failed releases, every repository in build scope whose release went through is confirmed exactly once, and exactly the others are reported and not confirmed |
| Runs.ReportedIsUndelivered | cmd/abapEnvironmentAssembleConfirm.go:100-111 | nothing is reported but repositories in build scope whose release did not go through |
| Runs.EndMeans | cmd/abapEnvironmentAssembleConfirm.go:39-79 | whichever end a run takes excludes success of the pipeline, except completion, which is the same as success |
| Runs.RunLast | cmd/abapEnvironmentAssembleConfirm.go:39-79 | after four successful steps the run completes, and has then succeeded as a whole, or stops for the reason the confirmation reports, with the calls sent until then |
| Pipeline.CalledIsPlanned | cmd/abapEnvironmentAssemblePackages.go:115-151 | in every run, every build start, SAR upload, registration and release call goes to a repository that was Planned when Reserve ended |
| Pipeline.ConfirmedIsReleased | cmd/abapEnvironmentAssembleConfirm.go:81-113 | in every run, a confirmation is started only for a package that is Released after Release and was Planned after Reserve or carried a stale build-scope mark |
| Pipeline.ReleasedUntouched | cmd/abapAddonAssemblyKitReserveNextPackages.go:160-219 | a package Released when Reserve ends gets no build start, upload, registration or release call, and no confirmation unless marked from the beginning |
| Runs.StaleScopeConfirms | cmd/abapEnvironmentAssemblePackages.go:127-128 | a run of the pipeline, in an outside where all steps succeed, that reserves a marked repository, finds it released, neither builds nor releases it, completes, and confirms it |
| Pipeline.ReleasedConfirmed | cmd/abapEnvironmentAssemblePackages.go:127-128 | in a completed run a package released all along is confirmed if and only if it was marked as in build scope at the beginning |
| Pipeline.NothingTwice | cmd/abapAddonAssemblyKitRegisterPackages.go:69-123 | no build is started or confirmed, no archive uploaded and no package registered twice in a run |
| Pipeline.PlannedDelivered | cmd/abapEnvironmentAssembleConfirm.go:39-79 | in a completed run every planned package is started, uploaded, registered and confirmed exactly once and ends up Released |
| Pipeline.ReleasedStays | cmd/abapAddonAssemblyKitReleasePackages.go:63-73 | in a completed run a package released from the start arrives unchanged in the final list |
| Pipeline.CallsInOrder | cmd/abapEnvironmentAssemblePackages.go:47-82 | over the whole run the calls come stage by stage: no upload before the last build start, no registration before the last upload, and so on |
| Pipeline.CountInSegment | cmd/abapAddonAssemblyKitReleasePackages.go:104-131 | a call can only be sent by the step its kind belongs to: its multiplicity in the run is that in one segment |
| Pipeline.FinalPlace | cmd/abapAddonAssemblyKitReleasePackages.go:63-73 | every repository has its place in the reordered list, with the status its own release calls gave it |
| Pipeline.ConfirmedComesFrom | cmd/abapEnvironmentAssembleConfirm.go:81-113 | a confirmed entry of the reordered list is traced back to the registered repository it came from |
| Runs.OnlyRefusalsStop | cmd/abapAddonAssemblyKitRegisterPackages.go:69-123 | after a successful Assemble, Register's missing-path error cannot occur and Register succeeds if and only if no file, upload or registration is refused |
| Reserve.RunReserve | cmd/abapAddonAssemblyKitReserveNextPackages.go:27-80 | each result of the step if and only if reservation, polling and check come out accordingly; on success every repository is Planned or Released, violates no rule, and repositories keep order and number |
| Reserve.ReservePackages | cmd/abapAddonAssemblyKitReserveNextPackages.go:203-219 | packages are reserved in order up to the first one that cannot be; the calls sent are exactly those |
| Reserve.PollReserveNextPackages | cmd/abapAddonAssemblyKitReserveNextPackages.go:160-201 | how polling ends, after how many ticks, and all calls sent; on success every package is what its own answers made of it |
| Reserve.PollTick | cmd/abapAddonAssemblyKitReserveNextPackages.go:169-198 | one sweep over the array in place: every package not yet released is asked once, the first invalid status breaks the tick off |
| Reserve.PollVerdict | cmd/abapAddonAssemblyKitReserveNextPackages.go:160-201 | polling succeeds if and only if some tick before the timeout finds all reservations decided and no answer up to then was Locked or unknown; earlier ticks are forgotten otherwise |
| Reserve.PollEndUnique | cmd/abapAddonAssemblyKitReserveNextPackages.go:160-201 | the answers determine how and when polling ends |
| Reserve.EndDetermined | cmd/abapAddonAssemblyKitReserveNextPackages.go:27-80 | a step that fails for some reason does not end well after any number of ticks |
| Reserve.SuccessDecides | cmd/abapAddonAssemblyKitReserveNextPackages.go:160-201 | after success the status of every package is Planned or Released |
| Reserve.SuccessMeans | cmd/abapAddonAssemblyKitReserveNextPackages.go:169-198 | a tick ends polling well if and only if every package was released before or is answered "planned" or "released" by this very tick |
| Reserve.RunningKeepsPolling | cmd/abapAddonAssemblyKitReserveNextPackages.go:177-187 | an unreleased package without answer, or with the answer that its creation is still running, keeps polling from ending well |
| Reserve.InvalidBreaksPolling | cmd/abapAddonAssemblyKitReserveNextPackages.go:182-194 | an unreleased package answered "locked" or something unknown breaks polling off |
| Reserve.BreakingMeans | cmd/abapAddonAssemblyKitReserveNextPackages.go:182-194 | the report of a break names the package and the status it was answered |
| Reserve.ReleasedIsAnswered | cmd/abapAddonAssemblyKitReserveNextPackages.go:169-198 | a package is released if and only if it was from the start or some answer said so |
| Reserve.LastAnswerCounts | pkg/abap/aakaas/package.go:107-124 | status and namespace are those of the last answer, "//" meaning no namespace |
| Reserve.ReservedMeans | cmd/abapAddonAssemblyKitReserveNextPackages.go:82-158 | what a repository has got on success, in terms of the registry's answer to its reservation: name, type and predecessor as answered, a namespace if it is to be built, and the commit rule over the answered commits |
| Reserve.ReservationFails | pkg/abap/aakaas/package.go:77-105 | reservation fails if and only if some repository has no name or no version or is refused |
| Reserve.FailureMeans | cmd/abapAddonAssemblyKitReserveNextPackages.go:82-158 | a reported check failure is that of a package that breaks just this rule |
| Reserve.ReleasedAbsorbs | cmd/abapAddonAssemblyKitReserveNextPackages.go:173-176 | once Released a package never changes again |
| Reserve.TickAsksOnce | cmd/abapAddonAssemblyKitReserveNextPackages.go:173-198 | a tick asks exactly once for a package, and not at all once it is released |
| Reserve.PackageFieldsKept | pkg/abap/aakaas/package.go:107-124 | polling changes nothing of a package but status and namespace |
| Reserve.CheckAndCopyFieldsToRepositories | cmd/abapAddonAssemblyKitReserveNextPackages.go:82-96 | all repositories come back in order with the package's fields; the failure is that of the last package in violation, none if and only if there is none |
| Reserve.LastFailure | cmd/abapAddonAssemblyKitReserveNextPackages.go:82-96 | the threaded error is empty if and only if no package violates its rule |
| Reserve.CheckCommitIDMeaning | cmd/abapAddonAssemblyKitReserveNextPackages.go:98-107 | the commit check fails exactly for a released package whose commit differs from the given one and for a new package that repeats its predecessor's; otherwise the earlier error stays |
| Reserve.CommonLengthIsPrefix | cmd/abapAddonAssemblyKitReserveNextPackages.go:109-158 | comparing commit IDs cut to the shorter length asks whether one is a prefix of the other |
| Reserve.EmptyCommitNeverDiffers | cmd/abapAddonAssemblyKitReserveNextPackages.go:136-158 | an empty commit ID violates the must-differ rule for every predecessor that has a commit |
| Assemble.RunAssemblePackages | cmd/abapEnvironmentAssemblePackages.go:84-113 | each error if and only if the builds, archives and logs of the planned repositories are so; on success each repository is handed on with scope, archive path and cause |
| Assemble.RunAssemble | cmd/abapEnvironmentAssemblePackages.go:47-82 | repositories are written back in order also when the step fails, and as an empty list exactly without a connection; success if and only if every planned build ends well and delivers |
| Assemble.ExecuteBuilds | cmd/abapEnvironmentAssemblePackages.go:115-151 | one entry per repository in order, each independent of the others: a failed start or wait stops nothing |
| Assemble.ExecutedBroken | cmd/abapEnvironmentAssemblePackages.go:115-171 | the run and result states left behind tell exactly whether some poll before the timeout found the build finished without errors |
| Assemble.WaitToBeFinished | cmd/abapEnvironmentAssemblePackages.go:153-171 | waiting ends at the first poll that fails or is final, or at the timeout, and a build waited for is finished |
| Assemble.WaitEnd | cmd/abapEnvironmentAssemblePackages.go:153-171 | the end of waiting is the first poll at which it ends: no earlier one does |
| Assemble.CheckIfFailedAndPrintLogs | cmd/abapEnvironmentAssemblePackages.go:285-313 | all builds are looked at unless a log cannot be read; the check fails if and only if a build is Failed or Erroneous; causes are written in place |
| Assemble.DownloadResultToFile | cmd/abapEnvironmentAssemblePackages.go:250-283 | archives are fetched in place for planned repositories up to the first that cannot be; nothing else changes |
| Assemble.DownloadPath | cmd/abapEnvironmentAssemblePackages.go:260-276 | a downloaded result never has an empty path |
| Assemble.ReadyToRegister | cmd/abapAddonAssemblyKitRegisterPackages.go:69-75 | after success a planned repository is in build scope, has a non-empty archive path and a package name |
| Assemble.SuccessMeans | cmd/abapEnvironmentAssemblePackages.go:84-313 | what the step needs of a planned repository, over the framework's answers: all five parameters, a build that starts and is found finished without errors by the first final answer in time, readable logs, and both results by name |
| Assemble.HandedOnMeans | cmd/abapEnvironmentAssemblePackages.go:84-113 | what a repository has got on success: scope, the path of its SAR result, and the cause if there is one |
| Assemble.ErrorTextMeans | cmd/abapEnvironmentAssemblePackages.go:115-151 | why a build could not be started is the error text of its repository, and the build is marked as failed |
| Assemble.WaitingMeans | cmd/abapEnvironmentAssemblePackages.go:153-171 | a build not finished in time, or whose state cannot be asked for, is marked as failed with the reason; a finished one carries the answered states |
| Assemble.BaseMeans | cmd/abapEnvironmentAssemblePackages.go:258-270 | the file name of a result is the last element of its path, trailing slashes aside |
| Assemble.SucceedMeans | cmd/abapEnvironmentAssemblePackages.go:84-113 | what the loops see in the build records is equivalent to what the framework did to the planned repositories |
| Register.UploadSarFiles | cmd/abapAddonAssemblyKitRegisterPackages.go:69-96 | archives of planned packages are sent in order up to the first failing one, whose reason is reported |
| Register.RegisterPackages | cmd/abapAddonAssemblyKitRegisterPackages.go:105-123 | planned packages are registered in place in order; at the first refusal the rest of the list is unchanged and nothing more is sent |
| Register.RunRegister | cmd/abapAddonAssemblyKitRegisterPackages.go:35-67 | success if and only if every upload and registration goes through; no registration before all uploads |
| Register.UploadMeans | cmd/abapAddonAssemblyKitRegisterPackages.go:69-96 | the outcome of an upload, case by case over path, file and upload |
| Register.RegisteredMeans | cmd/abapAddonAssemblyKitRegisterPackages.go:105-123 | on success a planned repository has the status the registry answered, and nothing else has changed |
| Release.RunRelease | cmd/abapAddonAssemblyKitReleasePackages.go:27-61 | fails on a missing package name, or if time is up and no locked package became released; otherwise hands on the partitioned list |
| Release.ReleaseAndPoll | cmd/abapAddonAssemblyKitReleasePackages.go:104-131 | sweeps the array in place up to the first tick at which every call is answered or up to the timeout; each package ends as its own answers made it |
| Release.Reordering | cmd/abapAddonAssemblyKitReleasePackages.go:63-102 | the output is a permutation of the input up to the status of formerly locked entries, and a stable partition |
| Release.ReleasedAbsorbs | cmd/abapAddonAssemblyKitReleasePackages.go:112-122 | a package seen Released keeps its state and gets no further release call |
| Release.AttemptsCounted | cmd/abapAddonAssemblyKitReleasePackages.go:104-131 | a package gets exactly as many release calls as there are ticks at which it was not released |
| Release.ReleaseCallsKind | cmd/abapAddonAssemblyKitReleasePackages.go:104-131 | only formerly locked packages are ever sent a release call |
| Release.NoOtherReleased | cmd/abapAddonAssemblyKitReleasePackages.go:104-131 | a package outside the list is sent no release call |
| Release.SortByStatus | cmd/abapAddonAssemblyKitReleasePackages.go:84-102 | two lists: the locked repositories and the others, each in order |
| Release.SortingBack | cmd/abapAddonAssemblyKitReleasePackages.go:63-73 | locked entries first with their new status written in place, then the others unchanged |
| Release.CheckInput | cmd/abapAddonAssemblyKitReleasePackages.go:75-82 | passes if and only if every repository has a package name |
| Release.AnsweredIsNotReleased | cmd/abapAddonAssemblyKitReleasePackages.go:116-127 | polling may end without timeout while a package is still locked |
| Release.ReleasedIsAnswered | cmd/abapAddonAssemblyKitReleasePackages.go:112-127 | a package is released after any number of ticks if and only if it was from the start or some answer said so |
| Release.AllReleasedAtEnd | cmd/abapAddonAssemblyKitReleasePackages.go:104-131 | all formerly locked packages are released if and only if each got the answer "released" at some tick, and some if and only if one did |
| Release.StopsUnique | cmd/abapAddonAssemblyKitReleasePackages.go:104-131 | the answers determine whether and after how many ticks polling ends or times out |
| Release.SettledMeans | cmd/abapAddonAssemblyKitReleasePackages.go:112-127 | a tick ends the loop if and only if every package was released before or gets some answer |
| Release.FinalMeans | cmd/abapAddonAssemblyKitReleasePackages.go:63-73 | only locked repositories change, and only in their status, which is that of the last answer |
| Release.NothingToRelease | cmd/abapAddonAssemblyKitReleasePackages.go:38-61 | without any locked package the loop times out, and with it the step fails, if and only if time is up before the first tick; otherwise it takes one tick |
| Confirm.RunConfirm | cmd/abapEnvironmentAssembleConfirm.go:39-79 | confirmed if and only if everything in scope is released, starts, and its builds end well in time; each failure is told by what the repositories and builds are |
| Confirm.StartingConfirm | cmd/abapEnvironmentAssembleConfirm.go:81-113 | starts confirmations in order up to the first that fails; otherwise reports exactly the assembled packages that are not released |
| Confirm.Polling | cmd/abapEnvironmentAssembleConfirm.go:115-138 | ends at the first tick that fails or finds all builds finished, or at the timeout; builds are refreshed in place |
| Confirm.PollingUnique | cmd/abapEnvironmentAssembleConfirm.go:115-138 | polling has one end only: if it can end well after some tick, it does |
| Confirm.UnreleasedMeans | cmd/abapEnvironmentAssembleConfirm.go:81-113 | the list of failed releases is empty if and only if no assembled package is unreleased |
| Confirm.AllConfirmableMeans | cmd/abapEnvironmentAssembleConfirm.go:81-113 | nothing stands in the way of starting if and only if everything in scope is released, has both names, and is accepted |
| Confirm.ConfirmationsMean | cmd/abapEnvironmentAssembleConfirm.go:115-138 | confirmations end well after r ticks if and only if all calls are answered, every build is found finished without errors by the last, some build was going on before, and all logs can be read |
| Packages.SelectedContains | cmd/abapAddonAssemblyKitRegisterPackages.go:69-123 | a call is in the log of a loop if and only if it went to a repository the loop asks for |
| Packages.SelectedOnce | cmd/abapAddonAssemblyKitRegisterPackages.go:69-123 | with distinct keys a loop sends each call at most once |
| Versioning.CloudVersionReads | cmd/artifactPrepareVersion.go:290-349 | for each scheme and any base version, separators included, parsing from the right recovers base version, timestamp and commit part |
| Versioning.CloudVersionInjective | cmd/artifactPrepareVersion.go:290-349 | for each scheme and fixed options versions are equal if and only if base version, time and commit part are: all unix times without a dash before the timestamp, those from 1970 on with one |
| Versioning.UnixTimesTold | cmd/artifactPrepareVersion.go:290-349 | of the schemes only pep440 tells base version, time and commit part over all unix times |
| Versioning.VersionText | cmd/artifactPrepareVersion.go:290-349 | the text of a version in each of the four schemes, with and without commit; a short commit has seven digits |
| Versioning.DockerVersionIsTag | cmd/artifactPrepareVersion.go:294-298 | a docker version is a valid image tag if and only if its base could start one, stays in the alphabet, and it is not too long |
| Versioning.Pep440VersionReads | cmd/artifactPrepareVersion.go:302-304 | a pep440 version of a base N(.N)* reads as a release with the timestamp as last number and the commit as local version label |
| Versioning.MavenVersionReads | cmd/artifactPrepareVersion.go:299-301 | a maven version of a base without dash splits at its first dash into the base and a qualifier of timestamp and commit |
| Versioning.ReadExecute | cmd/artifactPrepareVersion.go:311-349 | reading inverts executing a template |
| Versioning.ExecuteRead | cmd/artifactPrepareVersion.go:311-349 | whatever can be read is what executing the template on the read parts gives: the converse round trip |
| Versioning.TimestampInjective | cmd/artifactPrepareVersion.go:315-321 | timestamps are equal if and only if the civil fields are, or the unix time in the unix format |
| Versioning.StampOrder | cmd/artifactPrepareVersion.go:315-321 | as numbers, timestamps are ordered like the calendar |
| Versioning.StampIsNumber | cmd/artifactPrepareVersion.go:315-321 | the printed timestamp is a digit string with the value of its civil fields in base 100 |
| Versioning.NegativeTimeCollides | cmd/artifactPrepareVersion.go:290-349 | with a dash before the timestamp, every version with a negative unix time is also the version of another base and a positive time |
| SemVer.GeneratedIsSemver | cmd/artifactPrepareVersion.go:290-349 | a generated version is valid under Semantic Versioning 2.0.0 if and only if the unix format is used or the year is at least 1000; it then reads as the base version with the timestamp as only pre-release identifier, a number or, before 1970, a text, and the commit as build metadata |
| SemVer.Before1970RanksAbove | cmd/artifactPrepareVersion.go:290-349 | with unix timestamps a version from before 1970 ranks above every later one of the same base from 1970 on |
| SemVer.PrecedenceIsTime | cmd/artifactPrepareVersion.go:290-349 | from 1970 on in the unix format, and in the years from 1000 on in the default one, precedence of generated versions is the lexicographic order on major, minor, patch and time: a later time gives a strictly higher version, the commit never matters |
| SemVer.StampCanonical | cmd/artifactPrepareVersion.go:315-321 | the timestamp has no leading zero if and only if the unix format is used or the year is at least 1000 |
| SemVer.GeneratedReads | cmd/artifactPrepareVersion.go:290-309 | what a version grammar reader makes of the semver2 template, valid or not |
| Decimal.ValueOfDigits | cmd/artifactPrepareVersion.go:315-321 | reading back a printed number gives the number |
| Decimal.DigitsOfValue | cmd/artifactPrepareVersion.go:315-321 | printing the value of a canonical digit string gives the string |
| Decimal.ValueOfPad | cmd/artifactPrepareVersion.go:315-321 | padding with zeros does not change the value |
| Tagging.PushChanges | cmd/artifactPrepareVersion.go:361-465 | the exit is that of the first operation that fails, and determines remotes, tags, pushes and commits; on success origin is as before, the tag points at the new commit, and its ref spec is the only one pushed |
| Tagging.RefSpecSelects | cmd/artifactPrepareVersion.go:381-386 | for a tag without star and colon the pushed ref spec selects this tag and no other local reference, and leaves it under its name; pushing ensures this of what it has pushed |
| Tagging.PushedMeans | cmd/artifactPrepareVersion.go:361-465 | all goes well if and only if the swap is come to and nothing that applies fails afterwards, in terms of remotes, credentials and faults |
| Tagging.ExitIsFirstFailing | cmd/artifactPrepareVersion.go:361-465 | an exit is taken if and only if its operation fails and none that comes before does |
| Tagging.OriginAtExit | cmd/artifactPrepareVersion.go:361-465 | over the faults: origin is absent at the end exactly if creating it anew is the first to fail, switched to its single converted address exactly if the switch went through and authentication, push or removal fails, and as before otherwise; other remotes are never touched |
| Tagging.PushTag | cmd/artifactPrepareVersion.go:381-462 | from looking up origin to restoring it: the exit of the first failing operation, and the remotes and pushes it leaves |
| Tagging.PreparePush | cmd/artifactPrepareVersion.go:388-424 | origin is switched exactly for http remotes without credentials, authentication is needed exactly then or for other remotes, and the first failure among these decides |
| Tagging.PushTwice | cmd/artifactPrepareVersion.go:361-375 | once the tag was created, a further run for the same version stops at the tag or before: nothing is pushed twice and no tag is moved |
| Tagging.AddAndCommit | cmd/artifactPrepareVersion.go:467-502 | what is committed, for every iteration order of the status map; a path that cannot be staged is passed over |
| Tagging.StageChanges | cmd/artifactPrepareVersion.go:479-490 | exactly the changed, not excluded paths that git can stage are staged, whatever the order |
| Tagging.CommitIsChangesMinusExcludes | cmd/artifactPrepareVersion.go:467-502 | with nothing staged at entry and no staging failure the commit is the changed paths minus the excluded ones, or all tracked changes without excludes |
| Tagging.ShouldExclude | cmd/artifactPrepareVersion.go:504-517 | a path is excluded if and only if an entry equals or matches it; invalid patterns exclude nothing |
| Tagging.HttpsBecomesSsh | cmd/artifactPrepareVersion.go:527-530 | an https URL keeps its authority in front of the path, and becomes the scp-like ssh address of its own host and path if and only if the authority is nothing but the host: no user, no password, no port |
| Tagging.OnlyHttpsBecomesSsh | cmd/artifactPrepareVersion.go:390-396 | among the addresses the switch is made for, the ssh address of the URL's own host and path comes out of exactly the https ones with a path and a bare host |
| Tagging.ShapedLikeSsh | cmd/artifactPrepareVersion.go:390-396 | the shape of an scp-like address comes out of exactly the https ones that start with a name followed by a colon or the path; with a password or port the shape is there, but not the host and path meant |
| PrepareVersion.RunArtifactPrepareVersion | cmd/artifactPrepareVersion.go:113-260 | each result comes out for the first thing that fails and tells what is left in the descriptors; the repository is touched exactly by a tagging run that has written all descriptors, and is left as pushing leaves it even if the step fails later; success if and only if nothing that applies fails |
| PrepareVersion.ResultDetermined | cmd/artifactPrepareVersion.go:113-260 | configuration and answers determine the result and every version written |
| PrepareVersion.WriteVersions | cmd/artifactPrepareVersion.go:190-236 | all descriptors are written if and only if all of them can be; otherwise exactly those before the first failure |
| PrepareVersion.PropagateVersion | cmd/artifactPrepareVersion.go:559-607 | goes through if and only if lists fit and every descriptor of every tool can be written; otherwise the first failure decides the error, and the writes are exactly those before it, none on a list mismatch |
| PrepareVersion.FailsUnique | cmd/artifactPrepareVersion.go:559-607 | propagation fails in one way only |
| PrepareVersion.PropagationConsistent | cmd/artifactPrepareVersion.go:545-607 | every version written to the tools that go through parses back, in its own scheme, to the base, time and commit of the main version; outside cloud mode it is the base version |
| PrepareVersion.HalfConsistent | cmd/artifactPrepareVersion.go:545-607 | the same for all that was written before a propagation fails |
| PrepareVersion.StepConsistent | cmd/artifactPrepareVersion.go:113-260 | whatever the result of the step, every version written and the main version print the same parts, each by the template of its own scheme: base version, time, and the commit if template or configuration show it; if no versions are computed all are the base version |
| PrepareVersion.EffectiveMeans | cmd/artifactPrepareVersion.go:138-140 | a former template decides by the texts that occur in it whether versions are computed, tags wanted and commits shown |
| PrepareVersion.PushesMeans | cmd/artifactPrepareVersion.go:155-236 | the repository is touched only if tags are wanted and neither pull request nor optimized pipeline forbids them; the tag is prefix and main version |
| PrepareVersion.StepSucceedsMeans | cmd/artifactPrepareVersion.go:113-260 | the conditions of success, one by one over configuration and answers |
| PrepareVersion.WriteHasTarget | cmd/artifactPrepareVersion.go:559-592 | every write goes to a file matched by its tool's pattern, or to the default descriptor without patterns or matches |
| PrepareVersion.ErrorMeans | cmd/artifactPrepareVersion.go:586-605 | which fault of a descriptor gives which error |
| PrepareVersion.OneWritePerMatch | cmd/artifactPrepareVersion.go:559-607 | a successful run makes exactly the sum over tools of max(1, matches) writes |
| BuildValues.GenerateValuesWithAddonDescriptor | cmd/abapEnvironmentBuild.go:341-358 | succeeds if and only if the sources can be merged, and then yields one entry per ID: from config, else repository, else pipeline; each error if its source is at fault |
| BuildValues.ValuesEvaluator.Initialize | cmd/abapEnvironmentBuild.go:379-398 | accepts a list if and only if no ID or value is empty and no ID occurs twice; the map then holds exactly the list |
| BuildValues.ValuesEvaluator.AppendValuesIfNotPresent | cmd/abapEnvironmentBuild.go:412-428 | keeps what is present, adds the first entry per new ID, never a reserved one; with the flag, fails if and only if an ID is present or repeated; without it, never |
| BuildValues.ValuesEvaluator.AppendStringValuesIfNotPresent | cmd/abapEnvironmentBuild.go:400-410 | the same for a text, which fails on malformed JSON and leaves the map alone |
| BuildValues.ValuesEvaluator.GenerateValueSlice | cmd/abapEnvironmentBuild.go:430-439 | each entry of the map exactly once, in any order |
| BuildValues.FirstIs | cmd/abapEnvironmentBuild.go:412-428 | the lookup in a list finds the earliest unreserved entry, if and only if there is one |
| BuildValues.LookUpMeans | cmd/abapEnvironmentBuild.go:341-439 | PHASE and BUILD_FRAMEWORK_MODE come from the config only, every other ID from config, repository or pipeline in this order |
| BuildValues.MergeableMeans | cmd/abapEnvironmentBuild.go:341-439 | when the sources can be merged, over their entries |
| BuildValues.RemoveAddonDescriptorValues | cmd/abapEnvironmentBuild.go:326-339 | keeps, in order, exactly the values whose ID the repository did not put in |
| BuildValues.KeptDrops | cmd/abapEnvironmentBuild.go:326-339 | a value is kept if and only if it was there and its ID is not dropped |
| BuildValues.RunBuilds | cmd/abapEnvironmentBuild.go:139-182 | inputs of every build started; stop-on-first-error starts nothing after the first failure; otherwise all builds run, the error count is the number of failed builds, and it is an error if and only if one failed; each final value is the earliest |
| BuildValues.FinalComesFrom | cmd/abapEnvironmentBuild.go:156-175 | each final value is the first for its ID of the earliest build that has one not put in by its own repository, and is none of the two reserved ones |
| BuildValues.FailuresCount | cmd/abapEnvironmentBuild.go:160-180 | the reported number of failures is that of the failed builds |
| BuildValues.NothingLeaks | cmd/abapEnvironmentBuild.go:156-175 | if all repositories put in the same IDs, the final values contain none of them |
| DescriptorValues.EvaluateAddonDescriptor | cmd/abapEnvironmentBuild.go:457-488 | which repositories yield a value list, in order, and when the whole evaluation is an error |
| DescriptorValues.RunAbapEnvironmentBuild | cmd/abapEnvironmentBuild.go:107-137 | the whole step: values are handed on if and only if the descriptor can be evaluated, the inputs of every build can be merged and no build fails; each is then the one of the earliest build, and none is a field of the descriptor; otherwise the reason is the one for which the builds stop |
| DescriptorValues.FieldsDoNotLeak | cmd/abapEnvironmentBuild.go:526-552 | for any number of repositories and any build answers, no renamed field is among the final values |
| DescriptorValues.SelectedIds | cmd/abapEnvironmentBuild.go:516-554 | the IDs a repository puts in are exactly the new names, whichever repository it is |
| DescriptorValues.GenerateValues | cmd/abapEnvironmentBuild.go:516-554 | succeeds if and only if all uses are filled, pairwise distinct and name existing fields; the output is in field order with the given names |
| DescriptorValues.LengthCheck | cmd/abapEnvironmentBuild.go:546-549 | comparing lengths of output and request detects exactly repeated or unknown names |
| DescriptorValues.SelectFieldsCount | cmd/abapEnvironmentBuild.go:536-545 | the output has one value per field that is used |
| DescriptorValues.UsedNamesCount | cmd/abapEnvironmentBuild.go:526-535 | there are as many names as entries if and only if no name is repeated |
| DescriptorValues.RenameIs | cmd/abapEnvironmentBuild.go:526-535 | the last entry for a field decides its new name |
| DescriptorValues.ChosenAt | cmd/abapEnvironmentBuild.go:536-545 | the values are in field order, each with the text of its field and the new name of a use of it |
| DescriptorValues.ListedAt | cmd/abapEnvironmentBuild.go:466-486 | the lists are in the order of the repositories, each the selection of a used repository |
| DescriptorValues.ListedComplete | cmd/abapEnvironmentBuild.go:466-486 | no used repository with values is left out |
| DescriptorValues.ConditionsMean | cmd/abapEnvironmentBuild.go:490-514 | when a repository is used and when its check fails, over the conditions |
| DescriptorValues.FieldsFitMeans | cmd/abapEnvironmentBuild.go:516-554 | when the used fields fit a repository, over the entries |
| DescriptorValues.CheckCondition | cmd/abapEnvironmentBuild.go:490-514 | used if and only if all conditions are valid and met; an error if and only if an invalid one is reached, that is, all before it are met |
| DescriptorValues.JudgeCondition | cmd/abapEnvironmentBuild.go:562-573 | one condition: invalid operators and empty parts are errors, all else is decided by the field's text |
| AtcPush.RequestReads | cmd/abapEnvironmentPushATCSystemConfig.go:225-282 | for texts without newlines, a boundary-splitting reader that takes a quote for the end of a name recovers from the request one configuration patch followed by the priority patches with their content IDs if and only if no patched name holds a quote |
| AtcPush.RequestTells | cmd/abapEnvironmentPushATCSystemConfig.go:225-282 | reading the request tells what the file says: configuration, base body, and for every line that can be printed its position, its names and its number |
| AtcPush.ContentIDs | cmd/abapEnvironmentPushATCSystemConfig.go:245-272 | content IDs are exactly 1 to n+1 if and only if every priority can be printed |
| AtcPush.PriorityPartsFromLines | cmd/abapEnvironmentPushATCSystemConfig.go:256-272 | patches come in file order, and each belongs to the line its content ID points to |
| AtcPush.PriorityPartsComplete | cmd/abapEnvironmentPushATCSystemConfig.go:256-272 | every priority that can be printed has its patch |
| AtcPush.RequestInjective | cmd/abapEnvironmentPushATCSystemConfig.go:225-282 | files without quotes in names and with the same request agree in configuration and base body and, line by line, in test, message ID and number of all priorities that can be printed |
| AtcPush.BuildATCSystemConfigBatchRequest | cmd/abapEnvironmentPushATCSystemConfig.go:225-282 | the loop with its counter prints exactly the request, from which configuration, base body and priorities with their numbers are read; it fails if and only if one of the two readings of the file does |
| AtcPush.BuildParsedATCSystemConfigBaseJsonBody | cmd/abapEnvironmentPushATCSystemConfig.go:284-308 | the base body, in which exactly the priorities are missing |
| AtcPush.BaseBodyObject | cmd/abapEnvironmentPushATCSystemConfig.go:284-308 | with anything left, cutting the brace and injecting the ID prints the object with the ID as first member |
| AtcPush.BaseBodyWellFormed | cmd/abapEnvironmentPushATCSystemConfig.go:284-308 | the base body is the text of an object if and only if the file holds something else than priorities |
| AtcPush.BaseBodyText | cmd/abapEnvironmentPushATCSystemConfig.go:284-308 | the text of the base body: the injected ID in front of the kept members |
| AtcPush.KeptConcat | cmd/abapEnvironmentPushATCSystemConfig.go:293-296 | members are kept in their order, each on its own account |
| AtcPush.RequestAmbiguous | cmd/abapEnvironmentPushATCSystemConfig.go:225-282 | another file with other patches gives the same request if and only if the text between the names of a patched priority occurs in it a second time |
| AtcPush.PriorityIdAmbiguous | cmd/abapEnvironmentPushATCSystemConfig.go:318-324 | an entity has a second pair of names if and only if the text between them occurs in it a second time, overlaps included |
| AtcPush.PushATCSystemConfig | cmd/abapEnvironmentPushATCSystemConfig.go:75-116 | created if missing, patched if and only if patching is allowed and the file is newer or undated, skipped otherwise, whatever the time zones; nothing is sent on an error before |
| AtcPush.HandlePushConfiguration | cmd/abapEnvironmentPushATCSystemConfig.go:172-191 | one request at most: none if it cannot be built |
| AtcReader.ReadPrinted | cmd/abapEnvironmentPushATCSystemConfig.go:310-371 | reading inverts printing for any parts that keep to the format and hold no quotes in names |
| AtcReader.SameText | cmd/abapEnvironmentPushATCSystemConfig.go:310-371 | two requests have the same text if and only if their parts agree one by one in content ID, printed entity and body |
| AtcReader.NoBoundaryInPart | cmd/abapEnvironmentPushATCSystemConfig.go:326-371 | no line of a part begins like a boundary line, as RFC 2046 section 5.1.1 requires |
| AtcReader.NoOuterBoundary | cmd/abapEnvironmentPushATCSystemConfig.go:326-354 | no line of the change set is a boundary line of the request around it |
| AtcReader.ReadEntityText | cmd/abapEnvironmentPushATCSystemConfig.go:310-324 | the addressed entity is read back from its keys, for any configuration ID, if and only if its names hold no quote |
| AtcReader.ReadPartLines | cmd/abapEnvironmentPushATCSystemConfig.go:326-371 | headers, request line and body of one part are read back |
| AtcBatch.BatchTextLines | cmd/abapEnvironmentPushATCSystemConfig.go:310-371 | what the printers append piece by piece is, line by line, head, parts between boundaries, and closing boundaries |
| AtcBatch.PartLayout | cmd/abapEnvironmentPushATCSystemConfig.go:310-371 | the lines of a part, word by word |
| AtcBatch.FrameLayout | cmd/abapEnvironmentPushATCSystemConfig.go:337-354 | the lines around the parts, word by word |
| AtcBatch.SplitTerminated | cmd/abapEnvironmentPushATCSystemConfig.go:326-371 | splitting a text at its line breaks gives its lines back |
| AtcResult.EvaluateResults | cmd/abapEnvironmentRunATCCheck.go:239-246 | the step fails if and only if some finding of some file calls for it |
| AtcResult.FailingIsRank | cmd/abapEnvironmentRunATCCheck.go:264-302 | the case analysis is a comparison of severities in which unknown severities and levels never fail |
| AtcResult.StepFailsMeans | cmd/abapEnvironmentRunATCCheck.go:239-302 | which severities fail the step at which level |
| AtcResult.TableInWords | cmd/abapEnvironmentRunATCCheck.go:440-467 | errors precede warnings, warnings infos, and these all others |
| AtcResult.GenerateHTMLDocument | cmd/abapEnvironmentRunATCCheck.go:440-467 | the four accumulated blocks are the table of all findings by severity |
| AtcResult.TableStable | cmd/abapEnvironmentRunATCCheck.go:440-467 | within a severity the report keeps the order of the findings |
| AtcResult.TableSorted | cmd/abapEnvironmentRunATCCheck.go:440-467 | more severe findings come first |
| AtcResult.TableComplete | cmd/abapEnvironmentRunATCCheck.go:440-467 | every finding is listed as often as it occurs |
| AtcResult.FirstRowDecides | cmd/abapEnvironmentRunATCCheck.go:239-302 | the step fails if and only if the first line of the report calls for it |
| UpdateAddOn.Run.RunAbapLandscapePortalUpdateAddOnProduct | cmd/abapLandscapePortalUpdateAddOnProduct.go:96-132 | succeeds if and only if the first final status polled is Complete with no earlier error; cancels if and only if it is Error and a token is granted, at most once and last; only the run's own update is polled, once per tick up to the end, and cancelled; a run that ends before polling has sent exactly the lookup and the update it came to |
| UpdateAddOn.Run.WaitToBeFinished | cmd/abapLandscapePortalUpdateAddOnProduct.go:454-474 | succeeds if and only if some tick before the timeout brings a final status and all before it were answered; polls up to and including the first final or unreadable answer, and never again; the status left is that one |
| UpdateAddOn.Run.RespondToUpdateAddOnFinalStatus | cmd/abapLandscapePortalUpdateAddOnProduct.go:415-437 | an error if and only if the status is Error or Aborted, whatever comes of the cancellation |
| UpdateAddOn.Run.CancelUpdateAddOn | cmd/abapLandscapePortalUpdateAddOnProduct.go:374-412 | without a token nothing is sent; anything but status 204 is an error |
| UpdateAddOn.Run.PollStatusOfUpdateAddOn | cmd/abapLandscapePortalUpdateAddOnProduct.go:285-309 | a failing poll leaves the status as it was |
| UpdateAddOn.Run.UpdateAddOn | cmd/abapLandscapePortalUpdateAddOnProduct.go:312-371 | at most one update is requested, for the product of the descriptor and the system found |
| UpdateAddOn.Run.GetSystemBySystemNumber | cmd/abapLandscapePortalUpdateAddOnProduct.go:206-253 | the system ID is written only from a readable answer |
| UpdateAddOn.FirstFinalUnique | cmd/abapLandscapePortalUpdateAddOnProduct.go:454-474 | at most one tick brings the first final status |
| UpdateAddOn.EndsMeans | cmd/abapLandscapePortalUpdateAddOnProduct.go:22-30 | a run ends in status C, E or X if and only if this is the first final answer, in time, with code 200, and all before it are answered |
| UpdateAddOn.PollingMeans | cmd/abapLandscapePortalUpdateAddOnProduct.go:96-125 | what polling needs: tokens, descriptor, IDs that make URLs, and answers with code 200 |

## Left out

- HTTP, OAuth, certificates, CSRF tokens, cookies, file access, logging, error categories, telemetry: replaced by parameters that are a value or an error.
- Real time and the random choice between a tick and an elapsed timeout: the number of ticks before the timeout is taken is a parameter.
- `text/template` and `encoding/json`: the four templates are functions; JSON is a lossless codec except for the object printed into the base body of the batch request.
- Matching of file patterns is an arbitrary function; local time zones and daylight saving are not modelled, so the default timestamp orders by civil fields.
- The hand-over of repositories between the steps through the pipeline environment is taken as lossless.
- The values with which assembly and confirmation builds are started, `ErrorText` of the product, and the links and reports the steps publish.
- IPv6 literals as hosts in remote URLs: the host ends at the first colon.
- The number of minutes in the error text of a timeout.
- Cleaning of `..` in download paths: a path is the directory, a slash and the last element of the file name.
- A build without package record, which the check step of Assemble would dereference, does not occur in the lists modelled.
- The parts of a single build in abapEnvironmentBuild (start, poll, evaluate, download, publish) are one answer: its values and whether it failed.
- Commit message, coordinates and head commit in the environment of artifactPrepareVersion; opening and checking out the worktree is one answer.
- ATC files that are no JSON object or already carry `conf_id`; priorities under a differently cased key, which the decoder accepts but the deletion does not remove; the transport of the request and the evaluation of its response.
- The markup of the ATC report: a table row stands for its finding. Request body and polling of the ATC run are thin wrappers.
- Requests for access tokens in the add-on update are answers only and do not appear in the log of requests.
- API management, system setup, clone, checkout and pull steps, uploads to cloud storage: thin wrappers that would add only easy members.
