/** abapEnvironmentAssembleConfirm: confirm the assembly of every package that was assembled in this run
    and is released by now, then wait for the confirmation builds. */
module Confirm {
  import opened Packages
  import opened Assemble

  // ---------------------------------------------------------------- startingConfirm

  predicate CanConfirm(repo: Repository) {
    repo.name != "" && repo.packageName != ""
  }

  const Confirmable: Repository -> bool := (r: Repository) => r.inBuildScope && r.status == Released && CanConfirm(r)

  /** Starting the confirmation of this repository fails, which stops the step at once. */
  predicate StartFails(repo: Repository, fw: Framework) {
    repo.inBuildScope && repo.status == Released && (!CanConfirm(repo) || fw.start(repo.key).StartRejected?)
  }

  /** Assembled in this run, but not released: its release must have failed. */
  predicate NotReleased(repo: Repository) {
    repo.inBuildScope && repo.status != Released
  }

  /** The packages among the first n whose release must have failed. */
  function Unreleased(repos: seq<Repository>, n: nat): seq<Repository>
    requires n <= |repos|
  {
    if n == 0 then []
    else if NotReleased(repos[n - 1]) then Unreleased(repos, n - 1) + [repos[n - 1]]
    else Unreleased(repos, n - 1)
  }

  /** The confirmation builds started for the first n repositories. */
  function ConfirmBuilds(repos: seq<Repository>, n: nat, fw: Framework): seq<BuildWithRepository>
    requires n <= |repos|
  {
    if n == 0 then []
    else if Confirmable(repos[n - 1]) && fw.start(repos[n - 1].key).Started?
    then ConfirmBuilds(repos, n - 1, fw)
         + [BuildWithRepository(StartedBuild(fw.start(repos[n - 1].key)), repos[n - 1])]
    else ConfirmBuilds(repos, n - 1, fw)
  }

  datatype ConfirmError =
    | Confirmed
    | ConfirmConnectFailed
    | ConfirmStartFailed
    | ReleasesFailed(packages: seq<Repository>)
    | PollingFailed
    | PollingTimedOut
    | ConfirmBuildsFailed(check: BuildCheck)

  /** `n` repositories have been looked at; all of them unless a start fails. */
  method StartingConfirm(repos: seq<Repository>, fw: Framework)
    returns (builds: seq<BuildWithRepository>, error: ConfirmError, calls: seq<Call>, n: nat)
    ensures n <= |repos| && calls == Selected(ConfirmBuild, repos, n, Confirmable)
    ensures error == ConfirmStartFailed ==> 0 < n && StartFails(repos[n - 1], fw)
    ensures error == ConfirmStartFailed ==> forall i :: 0 <= i < n - 1 ==> !StartFails(repos[i], fw)
    ensures error != ConfirmStartFailed ==>
      n == |repos| && (forall i :: 0 <= i < n ==> !StartFails(repos[i], fw)) && builds == ConfirmBuilds(repos, n, fw)
    ensures error != ConfirmStartFailed ==>
      error == if Unreleased(repos, n) == [] then Confirmed else ReleasesFailed(Unreleased(repos, n))
  {
    builds, error, calls, n := [], Confirmed, [], 0;
    var failed := [];
    while n < |repos|
      invariant n <= |repos| && error == Confirmed
      invariant forall i :: 0 <= i < n ==> !StartFails(repos[i], fw)
      invariant calls == Selected(ConfirmBuild, repos, n, Confirmable)
      invariant builds == ConfirmBuilds(repos, n, fw)
      invariant failed == Unreleased(repos, n)
    {
      var repo := repos[n];
      n := n + 1;
      if repo.inBuildScope && repo.status == Released {
        if !CanConfirm(repo) {
          error := ConfirmStartFailed;
          return;
        }
        calls := calls + [Call(ConfirmBuild, repo.key)];
        if fw.start(repo.key).StartRejected? {
          error := ConfirmStartFailed;
          return;
        }
        builds := builds + [BuildWithRepository(StartedBuild(fw.start(repo.key)), repo)];
      } else if repo.inBuildScope {
        failed := failed + [repo];
      }
    }
    if failed != [] {
      error := ReleasesFailed(failed);
    }
  }

  // ---------------------------------------------------------------- polling

  /** The build after t polls, none of which failed. */
  function PolledFor(b: BuildWithRepository, fw: Framework, t: nat): BuildWithRepository {
    b.(build := PolledBuild(b.build, fw, b.repo.key, t))
  }

  ghost predicate AllPolledFor(now: seq<BuildWithRepository>, start: seq<BuildWithRepository>, fw: Framework, t: nat) {
    |now| == |start| && forall i :: 0 <= i < |start| ==> now[i] == PolledFor(start[i], fw, t)
  }

  ghost predicate NoneFails(start: seq<BuildWithRepository>, n: nat, fw: Framework, t: nat)
    requires n <= |start|
  {
    forall i :: 0 <= i < n ==> fw.get(start[i].repo.key, t).Got?
  }

  ghost predicate AllFinished(start: seq<BuildWithRepository>, n: nat, fw: Framework, t: nat)
    requires n <= |start|
  {
    forall i :: 0 <= i < n ==> IsFinished(PolledFor(start[i], fw, t).build)
  }

  ghost predicate Swept(now: seq<BuildWithRepository>, start: seq<BuildWithRepository>, fw: Framework, t: nat, i: nat) {
    |now| == |start| && i <= |start|
    && (forall j :: 0 <= j < i ==> now[j] == PolledFor(start[j], fw, t + 1))
    && (forall j :: i <= j < |start| ==> now[j] == PolledFor(start[j], fw, t))
  }

  /** One tick: ask for every build, finished or not; stop at the first failing call. */
  method PollTick(builds: array<BuildWithRepository>, fw: Framework, t: nat, ghost start: seq<BuildWithRepository>)
    returns (ok: bool, finished: bool)
    requires AllPolledFor(builds[..], start, fw, t)
    modifies builds
    ensures builds.Length == |start|
    ensures ok <==> NoneFails(start, |start|, fw, t)
    ensures ok ==> AllPolledFor(builds[..], start, fw, t + 1)
    ensures ok ==> (finished <==> AllFinished(start, |start|, fw, t + 1))
  {
    ok, finished := true, true;
    var i := 0;
    while i < builds.Length && ok
      invariant 0 <= i <= builds.Length == |start|
      invariant ok ==> Swept(builds[..], start, fw, t, i) && NoneFails(start, i, fw, t)
      invariant ok ==> (finished <==> AllFinished(start, i, fw, t + 1))
      invariant !ok ==> 0 < i && fw.get(start[i - 1].repo.key, t).GetFailed?
    {
      assert builds[i] == builds[..][i] == PolledFor(start[i], fw, t);
      var reply := fw.get(builds[i].repo.key, t);
      if reply.GetFailed? {
        ok := false;
      } else {
        builds[i] := builds[i].(build := AfterGet(builds[i].build, reply));
        if !IsFinished(builds[i].build) {
          finished := false;
        }
      }
      i := i + 1;
    }
  }

  /** At tick t no call fails, and some build is not finished afterwards. */
  ghost predicate RunningAfter(start: seq<BuildWithRepository>, fw: Framework, t: nat) {
    NoneFails(start, |start|, fw, t) && !AllFinished(start, |start|, fw, t + 1)
  }

  ghost predicate StillRunning(start: seq<BuildWithRepository>, fw: Framework, r: nat) {
    forall t :: 0 <= t < r ==> RunningAfter(start, fw, t)
  }

  /** How polling ends after `rounds` ticks were begun. */
  ghost predicate PollingEnd(start: seq<BuildWithRepository>, fw: Framework, ticks: nat, error: ConfirmError, rounds: nat) {
    rounds <= ticks
    && match error
       case Confirmed =>
         0 < rounds && StillRunning(start, fw, rounds - 1)
         && NoneFails(start, |start|, fw, rounds - 1) && AllFinished(start, |start|, fw, rounds)
       case PollingFailed =>
         0 < rounds && StillRunning(start, fw, rounds - 1) && !NoneFails(start, |start|, fw, rounds - 1)
       case PollingTimedOut => rounds == ticks && StillRunning(start, fw, rounds)
       case _ => false
  }

  lemma RunningStep(start: seq<BuildWithRepository>, fw: Framework, r: nat)
    requires StillRunning(start, fw, r)
    ensures RunningAfter(start, fw, r) ==> StillRunning(start, fw, r + 1)
  {
    hide RunningAfter;
  }

  method Polling(builds: array<BuildWithRepository>, fw: Framework, ticks: nat) returns (error: ConfirmError, rounds: nat)
    modifies builds
    ensures PollingEnd(old(builds[..]), fw, ticks, error, rounds)
    ensures error == Confirmed ==> AllPolledFor(builds[..], old(builds[..]), fw, rounds)
  {
    hide PolledFor, NoneFails, AllFinished, StillRunning;
    ghost var start := builds[..];
    PolledStart(start, fw);
    rounds := 0;
    while rounds < ticks
      invariant rounds <= ticks
      invariant AllPolledFor(builds[..], start, fw, rounds)
      invariant StillRunning(start, fw, rounds)
    {
      var ok, finished := PollTick(builds, fw, rounds, start);
      RunningStep(start, fw, rounds);
      rounds := rounds + 1;
      if !ok {
        return PollingFailed, rounds;
      }
      if finished {
        return Confirmed, rounds;
      }
    }
    error := PollingTimedOut;
  }

  lemma PolledStart(start: seq<BuildWithRepository>, fw: Framework)
    ensures AllPolledFor(start, start, fw, 0) && StillRunning(start, fw, 0)
  {
  }

  // ---------------------------------------------------------------- the step

  /** Nothing stands in the way of confirming: whatever was assembled is released and its confirmation starts. */
  ghost predicate AllConfirmable(repos: seq<Repository>, fw: Framework) {
    forall i :: 0 <= i < |repos| && repos[i].inBuildScope ==>
      Confirmable(repos[i]) && fw.start(repos[i].key).Started?
  }

  /** The confirmation builds end well: some tick before the timeout finds them all finished, no call
      fails up to then, none ends with errors and all logs can be read. */
  ghost predicate ConfirmationsEndWell(builds: seq<BuildWithRepository>, fw: Framework, ticks: nat, rounds: nat) {
    PollingEnd(builds, fw, ticks, Confirmed, rounds)
    && forall i :: 0 <= i < |builds| ==>
         !Broken(PolledFor(builds[i], fw, rounds)) && LogsReadable(PolledFor(builds[i], fw, rounds), fw)
  }

  /** After these ticks some log cannot be read. */
  ghost predicate UnreadableAfter(builds: seq<BuildWithRepository>, fw: Framework, rounds: nat) {
    exists i :: 0 <= i < |builds| && !LogsReadable(PolledFor(builds[i], fw, rounds), fw)
  }

  lemma UnreadablePolled(now: seq<BuildWithRepository>, start: seq<BuildWithRepository>, fw: Framework, rounds: nat)
    requires AllPolledFor(now, start, fw, rounds)
    ensures SomeUnreadable(now, fw) <==> UnreadableAfter(start, fw, rounds)
  {
    hide LogsReadable, PolledFor;
  }

  /** Every way the step can end is told by what the repositories and the framework are. */
  method RunConfirm(repos: seq<Repository>, connects: bool, fw: Framework, ticks: nat)
    returns (error: ConfirmError, calls: seq<Call>, n: nat, rounds: nat)
    ensures n <= |repos| && calls == Selected(ConfirmBuild, repos, n, Confirmable)
    ensures error == ConfirmConnectFailed <==> !connects
    ensures error == Confirmed <==> connects && CanConfirmAll(repos, fw, ticks)
    ensures match error
            case ConfirmConnectFailed => n == 0
            case ConfirmStartFailed =>
              0 < n && StartFails(repos[n - 1], fw) && forall i :: 0 <= i < n - 1 ==> !StartFails(repos[i], fw)
            case ReleasesFailed(packages) =>
              n == |repos| && packages == Unreleased(repos, n) != [] && forall i :: 0 <= i < n ==> !StartFails(repos[i], fw)
            case _ => n == |repos| && AllConfirmable(repos, fw)
    ensures error == Confirmed || error == PollingFailed || error == PollingTimedOut ==>
      PollingEnd(ConfirmBuilds(repos, |repos|, fw), fw, ticks, error, rounds)
    ensures error == Confirmed ==> ConfirmationsEndWell(ConfirmBuilds(repos, |repos|, fw), fw, ticks, rounds)
    ensures error.ConfirmBuildsFailed? ==>
      PollingEnd(ConfirmBuilds(repos, |repos|, fw), fw, ticks, Confirmed, rounds)
      && !ConfirmationsEndWell(ConfirmBuilds(repos, |repos|, fw), fw, ticks, rounds)
      && error.check == if UnreadableAfter(ConfirmBuilds(repos, |repos|, fw), fw, rounds) then LogsFailed else SomeBuildFailed
  {
    hide Unreleased, ConfirmBuilds, PollingEnd, Broken, LogsReadable, PolledFor, Selected, StartFails, AllConfirmable,
         SomeUnreadable, UnreadableAfter;
    n, rounds := 0, 0;
    if !connects {
      NoCalls(repos);
      return ConfirmConnectFailed, [], n, rounds;
    }
    var list;
    list, error, calls, n := StartingConfirm(repos, fw);
    if error != Confirmed {
      StartBlocks(repos, fw, n);
      return;
    }
    NoneUnreleased(repos, n, fw);
    var builds := new BuildWithRepository[|list|](i requires 0 <= i < |list| => list[i]);
    assert builds[..] == list;
    error, rounds := Polling(builds, fw, ticks);
    PollingKinds(list, fw, ticks, error, rounds);
    if error != Confirmed {
      NotConfirmed(repos, fw, ticks, error, rounds);
      return;
    }
    ghost var polled := builds[..];
    UnreadablePolled(polled, list, fw, rounds);
    var check, m := CheckIfFailedAndPrintLogs(builds, fw);
    CheckMeans(builds[..], polled, fw, check, m);
    if check != BuildsOk {
      error := ConfirmBuildsFailed(check);
    }
    NotConfirmed(repos, fw, ticks, error, rounds);
  }

  /** Polling ends in one way only: if it can end well after r ticks, it does. */
  lemma PollingUnique(start: seq<BuildWithRepository>, fw: Framework, ticks: nat, error: ConfirmError, rounds: nat, r: nat)
    requires PollingEnd(start, fw, ticks, error, rounds) && PollingEnd(start, fw, ticks, Confirmed, r)
    ensures error == Confirmed && rounds == r
  {
    hide NoneFails, AllFinished, StillRunning;
    if rounds < r {
      RunningAt(start, fw, r - 1, rounds - 1);
    } else if r < rounds || error == PollingTimedOut {
      RunningAt(start, fw, if error == PollingTimedOut then rounds else rounds - 1, r - 1);
    }
  }

  /** Exactly when the step succeeds. */
  ghost predicate CanConfirmAll(repos: seq<Repository>, fw: Framework, ticks: nat) {
    AllConfirmable(repos, fw) && exists r: nat :: ConfirmationsEndWell(ConfirmBuilds(repos, |repos|, fw), fw, ticks, r)
  }

  lemma NotConfirmed(repos: seq<Repository>, fw: Framework, ticks: nat, error: ConfirmError, rounds: nat)
    requires PollingEnd(ConfirmBuilds(repos, |repos|, fw), fw, ticks,
                        if error.ConfirmBuildsFailed? then Confirmed else error, rounds)
    requires error == Confirmed || error.ConfirmBuildsFailed? ==>
      (error == Confirmed <==> ConfirmationsEndWell(ConfirmBuilds(repos, |repos|, fw), fw, ticks, rounds))
    ensures error == Confirmed <==>
      exists r: nat :: ConfirmationsEndWell(ConfirmBuilds(repos, |repos|, fw), fw, ticks, r)
  {
    hide PollingEnd, ConfirmBuilds, Broken, LogsReadable, PolledFor;
    var list := ConfirmBuilds(repos, |repos|, fw);
    forall r: nat | ConfirmationsEndWell(list, fw, ticks, r) ensures error == Confirmed {
      PollingUnique(list, fw, ticks, if error.ConfirmBuildsFailed? then Confirmed else error, rounds, r);
    }
  }

  lemma StartBlocks(repos: seq<Repository>, fw: Framework, n: nat)
    requires n <= |repos| && ((0 < n && StartFails(repos[n - 1], fw)) || Unreleased(repos, n) != [])
    ensures !AllConfirmable(repos, fw)
  {
    UnreleasedMeans(repos, n);
    if 0 < n && StartFails(repos[n - 1], fw) {
      assert repos[n - 1].inBuildScope;
    } else {
      var i :| 0 <= i < n && NotReleased(repos[i]);
      assert repos[i].inBuildScope && !Confirmable(repos[i]);
    }
  }

  lemma RunningAt(start: seq<BuildWithRepository>, fw: Framework, r: nat, t: nat)
    requires StillRunning(start, fw, r) && t < r
    ensures NoneFails(start, |start|, fw, t) && !AllFinished(start, |start|, fw, t + 1)
  {
    assert RunningAfter(start, fw, t);
  }

  lemma NoCalls(repos: seq<Repository>)
    ensures Selected(ConfirmBuild, repos, 0, Confirmable) == []
  {
  }

  lemma PollingKinds(start: seq<BuildWithRepository>, fw: Framework, ticks: nat, error: ConfirmError, rounds: nat)
    requires PollingEnd(start, fw, ticks, error, rounds)
    ensures error == Confirmed || error == PollingFailed || error == PollingTimedOut
  {
  }

  lemma {:induction false} UnreleasedMeans(repos: seq<Repository>, n: nat)
    requires n <= |repos|
    ensures Unreleased(repos, n) == [] <==> forall i :: 0 <= i < n ==> !NotReleased(repos[i])
  {
    if n > 0 { UnreleasedMeans(repos, n - 1); }
  }

  lemma NoneUnreleased(repos: seq<Repository>, n: nat, fw: Framework)
    requires n == |repos| && Unreleased(repos, n) == []
    requires forall i :: 0 <= i < n ==> !StartFails(repos[i], fw)
    ensures AllConfirmable(repos, fw)
  {
    UnreleasedMeans(repos, n);
    forall i | 0 <= i < n && repos[i].inBuildScope
      ensures Confirmable(repos[i]) && fw.start(repos[i].key).Started?
    {
      assert !StartFails(repos[i], fw) && !NotReleased(repos[i]);
    }
  }

  /** No start before the n-th fails. */
  ghost predicate AllStart(repos: seq<Repository>, fw: Framework, n: nat)
    requires n <= |repos|
  {
    forall i :: 0 <= i < n ==> !StartFails(repos[i], fw)
  }

  /** What the ends of the step mean. */
  ghost predicate Explains(error: ConfirmError, repos: seq<Repository>, connects: bool, fw: Framework, ticks: nat, rounds: nat) {
    match error
    case ConfirmConnectFailed => !connects
    case ConfirmStartFailed => connects && exists k :: FirstStartFails(repos, fw, k)
    case ReleasesFailed(packages) =>
      connects && AllStart(repos, fw, |repos|) && packages == Unreleased(repos, |repos|) != []
    case ConfirmBuildsFailed(check) =>
      connects && check == (if UnreadableAfter(ConfirmBuilds(repos, |repos|, fw), fw, rounds) then LogsFailed else SomeBuildFailed)
      && AllConfirmable(repos, fw)
      && PollingEnd(ConfirmBuilds(repos, |repos|, fw), fw, ticks, Confirmed, rounds)
      && !ConfirmationsEndWell(ConfirmBuilds(repos, |repos|, fw), fw, ticks, rounds)
    case Confirmed => connects && CanConfirmAll(repos, fw, ticks)
    case _ =>
      connects && AllConfirmable(repos, fw) && PollingEnd(ConfirmBuilds(repos, |repos|, fw), fw, ticks, error, rounds)
  }

  /** Repository k is the first whose confirmation fails to start. */
  ghost predicate FirstStartFails(repos: seq<Repository>, fw: Framework, k: nat) {
    k < |repos| && AllStart(repos, fw, k) && StartFails(repos[k], fw)
  }

  /** The calls that belong to an end. */
  ghost predicate Sends(error: ConfirmError, repos: seq<Repository>, fw: Framework, calls: seq<Call>) {
    match error
    case ConfirmConnectFailed => calls == []
    case ConfirmStartFailed =>
      exists k: nat :: FirstStartFails(repos, fw, k) && calls == Selected(ConfirmBuild, repos, k + 1, Confirmable)
    case _ => calls == Selected(ConfirmBuild, repos, |repos|, Confirmable)
  }

  lemma ConfirmableStarts(repos: seq<Repository>, fw: Framework, k: nat)
    requires AllConfirmable(repos, fw) && k < |repos|
    ensures !StartFails(repos[k], fw) && !NotReleased(repos[k])
  {
  }

  lemma AllConfirmableReleased(repos: seq<Repository>, fw: Framework)
    requires AllConfirmable(repos, fw)
    ensures Unreleased(repos, |repos|) == []
  {
    UnreleasedMeans(repos, |repos|);
    forall k | 0 <= k < |repos| ensures !NotReleased(repos[k]) {
      ConfirmableStarts(repos, fw, k);
    }
  }

  /** A reported failure excludes success. */
  lemma FailureExplained(error: ConfirmError, repos: seq<Repository>, connects: bool, fw: Framework, ticks: nat, rounds: nat)
    requires error != Confirmed && Explains(error, repos, connects, fw, ticks, rounds)
    ensures !connects || !CanConfirmAll(repos, fw, ticks)
  {
    hide ConfirmBuilds, PollingEnd, Broken, LogsReadable, PolledFor, StartFails, Unreleased, Confirmable, AllConfirmable;
    var list := ConfirmBuilds(repos, |repos|, fw);
    if connects && CanConfirmAll(repos, fw, ticks) {
      var r: nat :| ConfirmationsEndWell(list, fw, ticks, r);
      match error
      case ConfirmConnectFailed =>
      case ConfirmStartFailed =>
        var k :| FirstStartFails(repos, fw, k);
        ConfirmableStarts(repos, fw, k);
      case ReleasesFailed(_) => AllConfirmableReleased(repos, fw);
      case _ =>
        PollingUnique(list, fw, ticks, if error.ConfirmBuildsFailed? then Confirmed else error, rounds, r);
    }
  }

  /** The packages reported as unreleased are exactly those in scope that are not released. */
  lemma {:induction false} UnreleasedHolds(repos: seq<Repository>, n: nat, repo: Repository)
    requires n <= |repos|
    ensures repo in Unreleased(repos, n) <==> NotReleased(repo) && exists i :: 0 <= i < n && repos[i] == repo
  {
    if n > 0 { UnreleasedHolds(repos, n - 1, repo); }
  }

  /** A repository in scope whose confirmation does not fail to start is confirmed if and only if it is released. */
  lemma InScopeConfirmed(repo: Repository, fw: Framework)
    requires repo.inBuildScope && !StartFails(repo, fw)
    ensures Confirmable(repo) <==> repo.status == Released
    ensures NotReleased(repo) <==> repo.status != Released
  {
  }

  // ---------------------------------------------------------------- in the framework's terms

  /** Nothing stands in the way of starting exactly if everything in build scope is released, named and accepted. */
  lemma AllConfirmableMeans(repos: seq<Repository>, fw: Framework)
    ensures AllConfirmable(repos, fw) <==>
      forall i :: 0 <= i < |repos| && repos[i].inBuildScope ==>
        repos[i].status == Released && repos[i].name != "" && repos[i].packageName != "" && fw.start(repos[i].key).Started?
  {
  }

  /** The first start that fails: a released package in build scope without name, or refused. */
  lemma StartFailsMeans(repo: Repository, fw: Framework)
    ensures StartFails(repo, fw) <==>
      repo.inBuildScope && repo.status == Released
      && (repo.name == "" || repo.packageName == "" || fw.start(repo.key).StartRejected?)
    ensures NotReleased(repo) <==> repo.inBuildScope && repo.status != Released
    ensures Confirmable(repo) <==> repo.inBuildScope && repo.status == Released && repo.name != "" && repo.packageName != ""
  {
  }

  /** The builds are those of the confirmed repositories, as they were started. */
  lemma {:induction false} ConfirmBuildsHold(repos: seq<Repository>, n: nat, fw: Framework, b: BuildWithRepository)
    requires n <= |repos|
    ensures b in ConfirmBuilds(repos, n, fw) <==>
      exists i :: 0 <= i < n && Confirmable(repos[i]) && b.repo == repos[i]
                  && fw.start(repos[i].key) == Started(b.build.buildID, b.build.runState, b.build.resultState)
  {
    hide Confirmable;
    if n > 0 {
      ConfirmBuildsHold(repos, n - 1, fw, b);
    }
  }

  /** The answers of tick t leave some build still going on. */
  ghost predicate GoesOn(builds: seq<BuildWithRepository>, fw: Framework, t: nat) {
    exists i :: 0 <= i < |builds|
                && fw.get(builds[i].repo.key, t).Got?
                && fw.get(builds[i].repo.key, t).runState != Finished && fw.get(builds[i].repo.key, t).runState != Failed
  }

  lemma GoesOnMeans(builds: seq<BuildWithRepository>, fw: Framework, t: nat)
    requires NoneFails(builds, |builds|, fw, t)
    ensures GoesOn(builds, fw, t) <==> !AllFinished(builds, |builds|, fw, t + 1)
  {
    forall i | 0 <= i < |builds|
      ensures IsFinished(PolledFor(builds[i], fw, t + 1).build)
         <==> !(fw.get(builds[i].repo.key, t).runState != Finished && fw.get(builds[i].repo.key, t).runState != Failed)
    {
      BuildIdKept(builds[i].build, fw, builds[i].repo.key, t + 1);
    }
    hide PolledFor, IsFinished;
  }

  /** Every build is found finished without errors at tick t, and its logs can be read. */
  ghost predicate AllWell(builds: seq<BuildWithRepository>, fw: Framework, t: nat) {
    forall i :: 0 <= i < |builds| ==> WellAt(builds[i], fw, t)
  }

  predicate WellAt(b: BuildWithRepository, fw: Framework, t: nat) {
    fw.get(b.repo.key, t).Got? && fw.get(b.repo.key, t).runState == Finished && fw.get(b.repo.key, t).resultState != Erroneous
    && (b.build.buildID == "" || (!fw.printLogsFails(b.repo.key) && fw.cause(b.repo.key).Cause?))
  }

  lemma WellMeans(b: BuildWithRepository, fw: Framework, t: nat)
    requires fw.get(b.repo.key, t).Got?
    ensures IsFinished(PolledFor(b, fw, t + 1).build) && !Broken(PolledFor(b, fw, t + 1)) && LogsReadable(PolledFor(b, fw, t + 1), fw)
       <==> WellAt(b, fw, t)
  {
    BuildIdKept(b.build, fw, b.repo.key, t + 1);
  }

  /** Confirmations end well after r ticks exactly if every call is answered, the last answer for every build is
      "finished" without errors, before that some build was always still going on, and all logs can be read. */
  lemma ConfirmationsMean(builds: seq<BuildWithRepository>, fw: Framework, ticks: nat, r: nat)
    ensures ConfirmationsEndWell(builds, fw, ticks, r) <==>
      && 0 < r <= ticks
      && (forall t :: 0 <= t < r ==> NoneFails(builds, |builds|, fw, t))
      && (forall t :: 0 <= t < r - 1 ==> GoesOn(builds, fw, t))
      && AllWell(builds, fw, r - 1)
  {
    hide PolledFor, NoneFails, AllFinished, GoesOn, WellAt, Broken, LogsReadable, IsFinished;
    forall t: nat | NoneFails(builds, |builds|, fw, t)
      ensures GoesOn(builds, fw, t) <==> !AllFinished(builds, |builds|, fw, t + 1)
    {
      GoesOnMeans(builds, fw, t);
    }
    if 0 < r {
      assert StillRunning(builds, fw, r - 1) <==>
        forall t :: 0 <= t < r - 1 ==> NoneFails(builds, |builds|, fw, t) && GoesOn(builds, fw, t) by {
        assert forall t :: 0 <= t < r - 1 ==> (RunningAfter(builds, fw, t) <==> NoneFails(builds, |builds|, fw, t) && GoesOn(builds, fw, t));
      }
      LastTickWell(builds, fw, r);
    }
  }

  lemma LastTickWell(builds: seq<BuildWithRepository>, fw: Framework, r: nat)
    requires 0 < r
    ensures NoneFails(builds, |builds|, fw, r - 1) && AllFinished(builds, |builds|, fw, r)
            && (forall i :: 0 <= i < |builds| ==>
                  !Broken(PolledFor(builds[i], fw, r)) && LogsReadable(PolledFor(builds[i], fw, r), fw))
       <==> AllWell(builds, fw, r - 1)
  {
    forall i | 0 <= i < |builds| && fw.get(builds[i].repo.key, r - 1).Got?
      ensures IsFinished(PolledFor(builds[i], fw, r).build) && !Broken(PolledFor(builds[i], fw, r))
              && LogsReadable(PolledFor(builds[i], fw, r), fw)
         <==> WellAt(builds[i], fw, r - 1)
    {
      WellMeans(builds[i], fw, r - 1);
    }
    hide PolledFor, Broken, LogsReadable, IsFinished;
  }
}
