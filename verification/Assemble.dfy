/** abapEnvironmentAssemblePackages: run one build per planned package, look at the results, fetch the
    SAR archives and hand all repositories on. */
module Assemble {
  import opened Packages

  // ---------------------------------------------------------------- builds

  datatype RunState = NotStarted | Initializing | Accepted | Running | Finished | Failed | UnknownRun(text: string)
  datatype ResultState = NoResult | Successful | Warning | Erroneous | Aborted | UnknownResult(code: string)

  datatype Build = Build(buildID: string, runState: RunState, resultState: ResultState)

  datatype BuildWithRepository = BuildWithRepository(build: Build, repo: Repository)

  const NO_BUILD := Build("", NotStarted, NoResult)

  predicate IsFinished(b: Build) {
    b.runState == Finished || b.runState == Failed
  }

  datatype StartReply = StartRejected(text: string) | Started(buildID: string, runState: RunState, resultState: ResultState)
  datatype GetReply = GetFailed(text: string) | Got(runState: RunState, resultState: ResultState)
  datatype CauseReply = CauseFailed | Cause(text: string)
  datatype ResultReply = ResultMissing | Found(name: string, additionalInfo: string)

  /** Everything the build framework may answer, by repository key; `ticks` is the number of polls the
      clock allows a build before its timeout. */
  datatype Framework = Framework(
    start: nat -> StartReply,
    ticks: nat -> nat,
    get: (nat, nat) -> GetReply,
    printLogsFails: nat -> bool,
    cause: nat -> CauseReply,
    result: (nat, string) -> ResultReply,
    downloadFails: (nat, string) -> bool)

  // ---------------------------------------------------------------- waitToBeFinished

  /** What a "get" leaves of the build's states. */
  function AfterGet(b: Build, reply: GetReply): Build {
    if reply.GetFailed? then b else b.(runState := reply.runState, resultState := reply.resultState)
  }

  /** At this poll waiting ends: the call fails, or the build has reached a final run state. */
  predicate WaitEndsAt(fw: Framework, key: nat, t: nat) {
    var reply := fw.get(key, t);
    reply.GetFailed? || reply.runState == Finished || reply.runState == Failed
  }

  /** The first poll from t on at which waiting ends, or the timeout. */
  function WaitEnd(fw: Framework, key: nat, t: nat): (e: nat)
    requires t <= fw.ticks(key)
    ensures t <= e <= fw.ticks(key)
    ensures forall u :: t <= u < e ==> !WaitEndsAt(fw, key, u)
    ensures e < fw.ticks(key) ==> WaitEndsAt(fw, key, e)
    decreases fw.ticks(key) - t
  {
    if t == fw.ticks(key) || WaitEndsAt(fw, key, t) then t else WaitEnd(fw, key, t + 1)
  }

  /** The build after the polls 0 .. t-1, none of which failed. */
  function PolledBuild(b: Build, fw: Framework, key: nat, t: nat): Build {
    if t == 0 then b else AfterGet(b, fw.get(key, t - 1))
  }

  datatype WaitOutcome = WaitDone | WaitFailed(text: string)

  const TIMEOUT_TEXT := "Timed out: (max Runtime reached)"

  function Waited(fw: Framework, key: nat): WaitOutcome {
    var e := WaitEnd(fw, key, 0);
    if e == fw.ticks(key) then WaitFailed(TIMEOUT_TEXT)
    else if fw.get(key, e).GetFailed? then WaitFailed(fw.get(key, e).text)
    else WaitDone
  }

  /** The build when waiting is over. */
  function WaitedBuild(b: Build, fw: Framework, key: nat): Build {
    var e := WaitEnd(fw, key, 0);
    if e == fw.ticks(key) || fw.get(key, e).GetFailed? then PolledBuild(b, fw, key, e)
    else PolledBuild(b, fw, key, e + 1)
  }

  method WaitToBeFinished(b: Build, fw: Framework, key: nat) returns (c: Build, outcome: WaitOutcome)
    ensures outcome == Waited(fw, key)
    ensures c == WaitedBuild(b, fw, key)
    ensures outcome == WaitDone ==> IsFinished(c)
  {
    c := b;
    var t := 0;
    while t < fw.ticks(key)
      invariant t <= fw.ticks(key)
      invariant WaitEnd(fw, key, 0) == WaitEnd(fw, key, t)
      invariant c == PolledBuild(b, fw, key, t)
      invariant c.buildID == b.buildID
    {
      var reply := fw.get(key, t);
      if reply.GetFailed? {
        return c, WaitFailed(reply.text);
      }
      c := AfterGet(c, reply);
      if IsFinished(c) {
        assert c == PolledBuild(b, fw, key, t + 1);
        return c, WaitDone;
      }
      t := t + 1;
    }
    outcome := WaitFailed(TIMEOUT_TEXT);
  }

  // ---------------------------------------------------------------- executeBuilds

  predicate CanStart(repo: Repository) {
    repo.name != "" && repo.version != "" && repo.spLevel != "" && repo.packageType != "" && repo.packageName != ""
  }

  const Startable: Repository -> bool := (r: Repository) => r.status == Planned && CanStart(r)

  const MISSING_TEXT := "Parameters missing. Please provide software component name, version, sp-level, packagetype and packagename"

  function StartedBuild(reply: StartReply): Build
    requires reply.Started?
  {
    Build(reply.buildID, reply.runState, reply.resultState)
  }

  /** The build of a planned repository and, if it could not be started or awaited, the reason. */
  function BuildOf(repo: Repository, fw: Framework): (Build, WaitOutcome) {
    if !CanStart(repo) then (NO_BUILD, WaitFailed(MISSING_TEXT))
    else match fw.start(repo.key)
      case StartRejected(text) => (NO_BUILD, WaitFailed(text))
      case Started(_, _, _) =>
        (WaitedBuild(StartedBuild(fw.start(repo.key)), fw, repo.key), Waited(fw, repo.key))
  }

  /** What executeBuilds makes of one repository, whatever happens to the others. */
  function Executed(repo: Repository, fw: Framework): BuildWithRepository {
    if repo.status != Planned then BuildWithRepository(NO_BUILD, repo)
    else
      var scoped := repo.(inBuildScope := true);
      match BuildOf(repo, fw)
      case (b, WaitDone) => BuildWithRepository(b, scoped)
      case (b, WaitFailed(text)) => BuildWithRepository(b.(runState := Failed), scoped.(errorText := text))
  }

  method ExecuteBuild(repo: Repository, fw: Framework) returns (r: BuildWithRepository, asked: bool)
    ensures r == Executed(repo, fw)
    ensures asked <==> Startable(repo)
  {
    r, asked := BuildWithRepository(NO_BUILD, repo), false;
    if repo.status == Planned {
      r := r.(repo := repo.(inBuildScope := true));
      if !CanStart(repo) {
        r := BuildWithRepository(r.build.(runState := Failed), r.repo.(errorText := MISSING_TEXT));
        return;
      }
      asked := true;
      match fw.start(repo.key)
      case StartRejected(text) =>
        r := BuildWithRepository(r.build.(runState := Failed), r.repo.(errorText := text));
      case Started(id, run, res) =>
        var b, outcome := WaitToBeFinished(Build(id, run, res), fw, repo.key);
        r := r.(build := b);
        if outcome.WaitFailed? {
          r := BuildWithRepository(b.(runState := Failed), r.repo.(errorText := outcome.text));
        }
    }
  }

  /** A failed start or wait never stops the builds that follow. */
  method ExecuteBuilds(repos: seq<Repository>, fw: Framework) returns (builds: seq<BuildWithRepository>, calls: seq<Call>)
    ensures |builds| == |repos|
    ensures forall i :: 0 <= i < |repos| ==> builds[i] == Executed(repos[i], fw)
    ensures calls == Selected(StartBuild, repos, |repos|, Startable)
  {
    hide Executed;
    builds, calls := [], [];
    for i := 0 to |repos|
      invariant |builds| == i
      invariant forall j :: 0 <= j < i ==> builds[j] == Executed(repos[j], fw)
      invariant calls == Selected(StartBuild, repos, i, Startable)
    {
      var r, asked := ExecuteBuild(repos[i], fw);
      builds := builds + [r];
      if asked {
        calls := calls + [Call(StartBuild, repos[i].key)];
      }
    }
  }

  // ---------------------------------------------------------------- checkIfFailedAndPrintLogs

  datatype BuildCheck = BuildsOk | SomeBuildFailed | LogsFailed

  predicate LogsReadable(b: BuildWithRepository, fw: Framework) {
    b.build.buildID == "" || (!fw.printLogsFails(b.repo.key) && fw.cause(b.repo.key).Cause?)
  }

  predicate Broken(b: BuildWithRepository) {
    b.build.runState == Failed || b.build.resultState == Erroneous
  }

  function WithCause(b: BuildWithRepository, fw: Framework): BuildWithRepository
    requires LogsReadable(b, fw)
  {
    if b.build.buildID == "" || fw.cause(b.repo.key).text == "" then b
    else b.(repo := b.repo.(errorText := fw.cause(b.repo.key).text))
  }

  /** The first `n` builds have been looked at and carry their failure cause, the others are as they were. */
  ghost predicate Looked(now: seq<BuildWithRepository>, start: seq<BuildWithRepository>, fw: Framework, n: nat) {
    n <= |now| == |start|
    && (forall i :: 0 <= i < n ==> LogsReadable(start[i], fw) && now[i] == WithCause(start[i], fw))
    && (forall i :: n <= i < |start| ==> now[i] == start[i])
  }

  ghost predicate SomeBroken(builds: seq<BuildWithRepository>, n: nat)
    requires n <= |builds|
  {
    exists i :: 0 <= i < n && Broken(builds[i])
  }

  /** All builds are looked at unless reading a log fails; a broken build fails the check at the end. */
  method CheckIfFailedAndPrintLogs(builds: array<BuildWithRepository>, fw: Framework) returns (check: BuildCheck, n: nat)
    modifies builds
    ensures Looked(builds[..], old(builds[..]), fw, n)
    ensures check == LogsFailed ==> n < builds.Length && !LogsReadable(old(builds[..])[n], fw)
    ensures check != LogsFailed ==> n == builds.Length
    ensures check != LogsFailed ==> (check == SomeBuildFailed <==> SomeBroken(old(builds[..]), n))
  {
    ghost var start := builds[..];
    var failed := false;
    check, n := BuildsOk, 0;
    while n < builds.Length
      invariant 0 <= n <= builds.Length == |start|
      invariant Looked(builds[..], start, fw, n)
      invariant failed <==> SomeBroken(start, n)
      invariant check == BuildsOk
    {
      var b := builds[n];
      assert b == start[n];
      if Broken(b) {
        failed := true;
      }
      if !LogsReadable(b, fw) {
        check := LogsFailed;
        return;
      }
      builds[n] := WithCause(b, fw);
      n := n + 1;
    }
    check := if failed then SomeBuildFailed else BuildsOk;
  }

  // ---------------------------------------------------------------- downloadResultToFile

  const SAR_XML := "SAR_XML"
  const DELIVERY_LOGS := "DELIVERY_LOGS.ZIP"

  function TrimSlashes(p: string): string {
    if p != "" && p[|p| - 1] == '/' then TrimSlashes(p[..|p| - 1]) else p
  }

  function AfterLastSlash(p: string): string {
    if p == "" || p[|p| - 1] == '/' then "" else AfterLastSlash(p[..|p| - 1]) + [p[|p| - 1]]
  }

  /** The last element of a slash-separated path. */
  function Base(p: string): string {
    if p == "" then "." else if TrimSlashes(p) == "" then "/" else AfterLastSlash(TrimSlashes(p))
  }

  /** Where a result is stored: under its additional info, or under its name if that is too long. */
  function DownloadPath(envPath: string, reply: ResultReply): (path: string)
    requires reply.Found?
    ensures path != ""
  {
    var fileName := if |reply.additionalInfo| <= 255 then reply.additionalInfo else reply.name;
    envPath + "/" + Base(fileName)
  }

  predicate Fetchable(b: BuildWithRepository, fw: Framework, resultName: string) {
    fw.result(b.repo.key, resultName).Found? && !fw.downloadFails(b.repo.key, resultName)
  }

  function Fetched(b: BuildWithRepository, fw: Framework, resultName: string, envPath: string): BuildWithRepository
    requires b.repo.status == Planned ==> Fetchable(b, fw, resultName)
  {
    if b.repo.status == Planned && resultName == SAR_XML
    then b.(repo := b.repo.(sarXMLFilePath := DownloadPath(envPath, fw.result(b.repo.key, resultName))))
    else b
  }

  ghost predicate FetchedUpTo(now: seq<BuildWithRepository>, start: seq<BuildWithRepository>, fw: Framework,
                              resultName: string, envPath: string, n: nat)
  {
    n <= |now| == |start|
    && (forall i :: 0 <= i < n ==>
          (start[i].repo.status == Planned ==> Fetchable(start[i], fw, resultName))
          && now[i] == Fetched(start[i], fw, resultName, envPath))
    && (forall i :: n <= i < |start| ==> now[i] == start[i])
  }

  method DownloadResultToFile(builds: array<BuildWithRepository>, fw: Framework, resultName: string, envPath: string)
    returns (ok: bool, n: nat)
    modifies builds
    ensures FetchedUpTo(builds[..], old(builds[..]), fw, resultName, envPath, n)
    ensures ok ==> n == builds.Length
    ensures !ok ==> n < builds.Length && old(builds[..])[n].repo.status == Planned
                    && !Fetchable(old(builds[..])[n], fw, resultName)
  {
    hide DownloadPath;
    ghost var start := builds[..];
    n, ok := 0, true;
    while n < builds.Length
      invariant 0 <= n <= builds.Length == |start|
      invariant FetchedUpTo(builds[..], start, fw, resultName, envPath, n)
    {
      assert builds[n] == start[n];
      if builds[n].repo.status == Planned {
        if !Fetchable(builds[n], fw, resultName) {
          ok := false;
          return;
        }
        builds[n] := Fetched(builds[n], fw, resultName, envPath);
      }
      n := n + 1;
    }
  }

  // ---------------------------------------------------------------- the step

  /** The build of a repository ends well: it starts, some poll before the timeout finds it finished
      without errors, no earlier poll fails or finds a final state. */
  ghost predicate EndsWell(repo: Repository, fw: Framework) {
    CanStart(repo) && fw.start(repo.key).Started? && exists t :: EndsWellAt(repo, fw, t)
  }

  ghost predicate EndsWellAt(repo: Repository, fw: Framework, t: nat) {
    t < fw.ticks(repo.key)
    && (forall u :: 0 <= u < t ==> !WaitEndsAt(fw, repo.key, u))
    && fw.get(repo.key, t).Got? && fw.get(repo.key, t).runState == Finished
    && fw.get(repo.key, t).resultState != Erroneous
  }

  /** ... and its logs can be read. */
  ghost predicate BuiltWell(repo: Repository, fw: Framework) {
    EndsWell(repo, fw)
    && (fw.start(repo.key).buildID != "" ==> !fw.printLogsFails(repo.key) && fw.cause(repo.key).Cause?)
  }

  ghost predicate Delivers(repo: Repository, fw: Framework, resultName: string) {
    fw.result(repo.key, resultName).Found? && !fw.downloadFails(repo.key, resultName)
  }

  /** Everything about a planned repository's build that the step needs in order to succeed. */
  ghost predicate BuildSucceeds(repo: Repository, fw: Framework) {
    BuiltWell(repo, fw) && Delivers(repo, fw, SAR_XML) && Delivers(repo, fw, DELIVERY_LOGS)
  }

  ghost predicate AllPlannedBuiltWell(repos: seq<Repository>, fw: Framework) {
    forall i :: 0 <= i < |repos| && repos[i].status == Planned ==> BuiltWell(repos[i], fw)
  }

  ghost predicate AllPlannedDeliver(repos: seq<Repository>, fw: Framework, resultName: string) {
    forall i :: 0 <= i < |repos| && repos[i].status == Planned ==> Delivers(repos[i], fw, resultName)
  }

  /** A repository that was not built is handed on as it came; one that was built is in build scope and
      has changed in nothing but its scope, archive path and error text. */
  ghost predicate Continues(repo: Repository, out: Repository) {
    if repo.status == Planned then
      out == repo.(inBuildScope := true, sarXMLFilePath := out.sarXMLFilePath, errorText := out.errorText)
    else out == repo
  }

  lemma {:induction false} WaitEndIs(fw: Framework, key: nat, t: nat, e: nat)
    requires t <= e < fw.ticks(key) && WaitEndsAt(fw, key, e)
    requires forall u :: t <= u < e ==> !WaitEndsAt(fw, key, u)
    ensures WaitEnd(fw, key, t) == e
    decreases e - t
  {
    if t < e { WaitEndIs(fw, key, t + 1, e); }
  }

  /** The run and result states executeBuilds leaves behind tell exactly whether the build ended well. */
  lemma ExecutedBroken(repo: Repository, fw: Framework)
    requires repo.status == Planned
    ensures Broken(Executed(repo, fw)) <==> !EndsWell(repo, fw)
    ensures EndsWell(repo, fw) ==> Executed(repo, fw).build.buildID == fw.start(repo.key).buildID
  {
    if CanStart(repo) && fw.start(repo.key).Started? {
      var e := WaitEnd(fw, repo.key, 0);
      if !Broken(Executed(repo, fw)) {
        assert EndsWellAt(repo, fw, e);
      }
      if EndsWell(repo, fw) {
        var t :| EndsWellAt(repo, fw, t);
        WaitEndIs(fw, repo.key, 0, t);
      }
    }
  }

  lemma ExecutedContinues(repo: Repository, fw: Framework)
    ensures Continues(repo, Executed(repo, fw).repo)
    ensures Executed(repo, fw).repo.sarXMLFilePath == repo.sarXMLFilePath
    ensures repo.status != Planned ==> Executed(repo, fw).build == NO_BUILD
  {
  }

  datatype AssembleError = NoError | ConnectFailed | ChecksFailed(check: BuildCheck) | SarMissing | LogsMissing

  ghost predicate AllContinue(repos: seq<Repository>, builds: seq<BuildWithRepository>) {
    |builds| == |repos| && forall i :: 0 <= i < |repos| ==> Continues(repos[i], builds[i].repo)
  }

  ghost predicate AllSucceed(repos: seq<Repository>, fw: Framework) {
    AllPlannedBuiltWell(repos, fw) && AllPlannedDeliver(repos, fw, SAR_XML) && AllPlannedDeliver(repos, fw, DELIVERY_LOGS)
  }

  ghost predicate AllBuiltWell(builds: seq<BuildWithRepository>, fw: Framework) {
    forall i :: 0 <= i < |builds| ==> !Broken(builds[i]) && LogsReadable(builds[i], fw)
  }

  ghost predicate AllFetchable(builds: seq<BuildWithRepository>, fw: Framework, resultName: string) {
    forall i :: 0 <= i < |builds| && builds[i].repo.status == Planned ==> Fetchable(builds[i], fw, resultName)
  }

  ghost predicate AllExecuted(repos: seq<Repository>, builds: seq<BuildWithRepository>, fw: Framework) {
    |builds| == |repos| && forall i :: 0 <= i < |repos| ==> builds[i] == Executed(repos[i], fw)
  }

  lemma SucceedMeans(repos: seq<Repository>, builds: seq<BuildWithRepository>, fw: Framework)
    requires AllExecuted(repos, builds, fw)
    ensures AllContinue(repos, builds)
    ensures AllPlannedBuiltWell(repos, fw) <==> AllBuiltWell(builds, fw)
    ensures AllPlannedDeliver(repos, fw, SAR_XML) <==> AllFetchable(builds, fw, SAR_XML)
    ensures AllPlannedDeliver(repos, fw, DELIVERY_LOGS) <==> AllFetchable(builds, fw, DELIVERY_LOGS)
  {
    forall i | 0 <= i < |repos|
      ensures Continues(repos[i], builds[i].repo) && builds[i].repo.status == repos[i].status
      ensures builds[i].repo.key == repos[i].key
      ensures repos[i].status != Planned ==> !Broken(builds[i]) && LogsReadable(builds[i], fw)
      ensures repos[i].status == Planned ==>
        (BuiltWell(repos[i], fw) <==> !Broken(builds[i]) && LogsReadable(builds[i], fw))
    {
      ExecutedContinues(repos[i], fw);
      if repos[i].status == Planned {
        OneBuiltWell(repos[i], fw);
      }
    }
    hide BuiltWell, LogsReadable, Broken, Executed;
  }

  lemma OneBuiltWell(repo: Repository, fw: Framework)
    requires repo.status == Planned
    ensures var b := Executed(repo, fw); BuiltWell(repo, fw) <==> !Broken(b) && LogsReadable(b, fw)
  {
    ExecutedBroken(repo, fw);
    ExecutedContinues(repo, fw);
    hide Executed, EndsWell, Broken;
  }

  /** What the step hands on for one repository when it succeeds. */
  function HandedOn(repo: Repository, fw: Framework, envPath: string): Repository
    requires repo.status == Planned ==> fw.result(repo.key, SAR_XML).Found? && fw.start(repo.key).Started?
  {
    if repo.status != Planned then repo
    else
      var cause := fw.cause(repo.key);
      repo.(inBuildScope := true,
            sarXMLFilePath := DownloadPath(envPath, fw.result(repo.key, SAR_XML)),
            errorText := if fw.start(repo.key).buildID != "" && cause.Cause? && cause.text != ""
                         then cause.text else repo.errorText)
  }

  ghost predicate AllHandedOn(repos: seq<Repository>, builds: seq<BuildWithRepository>, fw: Framework, envPath: string)
    requires AllSucceed(repos, fw)
  {
    |builds| == |repos| && forall i :: 0 <= i < |repos| ==> builds[i].repo == HandedOn(repos[i], fw, envPath)
  }

  /** Looking at builds and fetching results keeps which repository is where and how its build went. */
  ghost predicate SamePlaces(now: seq<BuildWithRepository>, start: seq<BuildWithRepository>) {
    |now| == |start|
    && forall i :: 0 <= i < |start| ==>
         now[i].build == start[i].build
         && now[i].repo == start[i].repo.(sarXMLFilePath := now[i].repo.sarXMLFilePath, errorText := now[i].repo.errorText)
         && (start[i].repo.status != Planned && start[i].build == NO_BUILD ==> now[i] == start[i])
  }

  lemma LookedSame(now: seq<BuildWithRepository>, start: seq<BuildWithRepository>, fw: Framework, n: nat)
    requires Looked(now, start, fw, n)
    ensures SamePlaces(now, start)
  {
  }

  lemma FetchedSame(now: seq<BuildWithRepository>, start: seq<BuildWithRepository>, fw: Framework,
                    resultName: string, envPath: string, n: nat)
    requires FetchedUpTo(now, start, fw, resultName, envPath, n)
    ensures SamePlaces(now, start)
    ensures n == |start| ==> AllFetchable(start, fw, resultName)
  {
  }

  ghost predicate NoBuildUnplanned(builds: seq<BuildWithRepository>) {
    forall i :: 0 <= i < |builds| ==> builds[i].repo.status != Planned ==> builds[i].build == NO_BUILD
  }

  /** The invariant of the step: repositories keep their place and continue what they were. */
  lemma StaysContinued(repos: seq<Repository>, now: seq<BuildWithRepository>, start: seq<BuildWithRepository>, fw: Framework)
    requires AllContinue(repos, start) && NoBuildUnplanned(start) && SamePlaces(now, start)
    ensures AllContinue(repos, now) && NoBuildUnplanned(now)
    ensures AllFetchable(now, fw, SAR_XML) == AllFetchable(start, fw, SAR_XML)
    ensures AllFetchable(now, fw, DELIVERY_LOGS) == AllFetchable(start, fw, DELIVERY_LOGS)
  {
    forall i | 0 <= i < |repos|
      ensures Continues(repos[i], now[i].repo)
      ensures Fetchable(now[i], fw, SAR_XML) == Fetchable(start[i], fw, SAR_XML)
      ensures Fetchable(now[i], fw, DELIVERY_LOGS) == Fetchable(start[i], fw, DELIVERY_LOGS)
      ensures now[i].repo.status == start[i].repo.status
    {
    }
    hide Fetchable, Continues;
  }

  lemma HandedOnEach(repos: seq<Repository>, b0: seq<BuildWithRepository>, b1: seq<BuildWithRepository>,
                     b2: seq<BuildWithRepository>, b3: seq<BuildWithRepository>, fw: Framework, envPath: string)
    requires AllExecuted(repos, b0, fw) && Looked(b1, b0, fw, |b0|)
    requires FetchedUpTo(b2, b1, fw, SAR_XML, envPath, |b1|) && FetchedUpTo(b3, b2, fw, DELIVERY_LOGS, envPath, |b2|)
    requires AllSucceed(repos, fw)
    ensures AllHandedOn(repos, b3, fw, envPath)
  {
    forall i | 0 <= i < |repos| ensures b3[i].repo == HandedOn(repos[i], fw, envPath) {
      HandedOnOne(repos[i], b0[i], b1[i], b2[i], b3[i], fw, envPath);
    }
  }

  lemma HandedOnOne(repo: Repository, b0: BuildWithRepository, b1: BuildWithRepository,
                    b2: BuildWithRepository, b3: BuildWithRepository, fw: Framework, envPath: string)
    requires repo.status == Planned ==> BuildSucceeds(repo, fw)
    requires b0 == Executed(repo, fw) && LogsReadable(b0, fw) && b1 == WithCause(b0, fw)
    requires b1.repo.status == Planned ==> Fetchable(b1, fw, SAR_XML)
    requires b2 == Fetched(b1, fw, SAR_XML, envPath)
    requires b2.repo.status == Planned ==> Fetchable(b2, fw, DELIVERY_LOGS)
    requires b3 == Fetched(b2, fw, DELIVERY_LOGS, envPath)
    ensures b3.repo == HandedOn(repo, fw, envPath)
  {
    if repo.status == Planned {
      ExecutedBroken(repo, fw);
    }
    ExecutedContinues(repo, fw);
    EndsWellErrorText(repo, fw);
    hide Executed, EndsWell, DownloadPath;
  }

  lemma EndsWellErrorText(repo: Repository, fw: Framework)
    ensures repo.status == Planned && EndsWell(repo, fw) ==> Executed(repo, fw).repo.errorText == repo.errorText
  {
    if repo.status == Planned && EndsWell(repo, fw) {
      ExecutedBroken(repo, fw);
    }
  }

  /** `assembled` says the builds went through; without a connection the list of builds is empty. */
  method RunAssemblePackages(repos: seq<Repository>, connects: bool, fw: Framework, envPath: string)
    returns (builds: array<BuildWithRepository>, error: AssembleError, calls: seq<Call>)
    ensures fresh(builds)
    ensures error == ConnectFailed <==> !connects
    ensures !connects ==> builds.Length == 0 && calls == []
    ensures connects ==> AllContinue(repos, builds[..]) && calls == Selected(StartBuild, repos, |repos|, Startable)
    ensures error.ChecksFailed? <==> connects && !AllPlannedBuiltWell(repos, fw)
    ensures error.ChecksFailed? ==> error.check == if LogsUnreadable(repos, fw) then LogsFailed else SomeBuildFailed
    ensures error == SarMissing <==> connects && AllPlannedBuiltWell(repos, fw) && !AllPlannedDeliver(repos, fw, SAR_XML)
    ensures error == LogsMissing <==>
      connects && AllPlannedBuiltWell(repos, fw) && AllPlannedDeliver(repos, fw, SAR_XML)
      && !AllPlannedDeliver(repos, fw, DELIVERY_LOGS)
    ensures error == NoError <==> connects && AllSucceed(repos, fw)
    ensures error == NoError ==> AllHandedOn(repos, builds[..], fw, envPath)
  {
    hide Executed, Looked, FetchedUpTo, AllFetchable, AllBuiltWell, AllPlannedBuiltWell, AllPlannedDeliver, AllContinue,
         AllHandedOn, NoBuildUnplanned, SamePlaces, SomeUnreadable, LogsUnreadable;
    if !connects {
      builds := new BuildWithRepository[0];
      return builds, ConnectFailed, [];
    }
    var list;
    list, calls := ExecuteBuilds(repos, fw);
    builds := new BuildWithRepository[|list|](i requires 0 <= i < |list| => list[i]);
    assert builds[..] == list;
    ghost var b0 := builds[..];
    SucceedMeans(repos, b0, fw);
    UnreadableMeans(repos, b0, fw);
    Unplanned(repos, b0, fw);

    var check, n := CheckIfFailedAndPrintLogs(builds, fw);
    ghost var b1 := builds[..];
    LookedSame(b1, b0, fw, n);
    StaysContinued(repos, b1, b0, fw);
    CheckMeans(b1, b0, fw, check, n);
    if check != BuildsOk {
      return builds, ChecksFailed(check), calls;
    }

    var ok, m := DownloadResultToFile(builds, fw, SAR_XML, envPath);
    ghost var b2 := builds[..];
    FetchedSame(b2, b1, fw, SAR_XML, envPath, m);
    StaysContinued(repos, b2, b1, fw);
    if !ok {
      FetchFails(b1, fw, SAR_XML, m);
      return builds, SarMissing, calls;
    }

    ok, m := DownloadResultToFile(builds, fw, DELIVERY_LOGS, envPath);
    ghost var b3 := builds[..];
    FetchedSame(b3, b2, fw, DELIVERY_LOGS, envPath, m);
    StaysContinued(repos, b3, b2, fw);
    if !ok {
      FetchFails(b2, fw, DELIVERY_LOGS, m);
      return builds, LogsMissing, calls;
    }
    HandedOnEach(repos, b0, b1, b2, b3, fw, envPath);
    error := NoError;
  }

  lemma Unplanned(repos: seq<Repository>, builds: seq<BuildWithRepository>, fw: Framework)
    requires AllExecuted(repos, builds, fw)
    ensures NoBuildUnplanned(builds)
  {
    forall i | 0 <= i < |repos| ensures builds[i].repo.status != Planned ==> builds[i].build == NO_BUILD {
      ExecutedContinues(repos[i], fw);
      assert builds[i] == Executed(repos[i], fw);
    }
  }

  /** Some log cannot be read. */
  ghost predicate SomeUnreadable(builds: seq<BuildWithRepository>, fw: Framework) {
    exists i :: 0 <= i < |builds| && !LogsReadable(builds[i], fw)
  }

  /** Some build started for a planned repository leaves a log that cannot be read. */
  ghost predicate LogsUnreadable(repos: seq<Repository>, fw: Framework) {
    exists i :: 0 <= i < |repos| && !LogsReadable(Executed(repos[i], fw), fw)
  }

  lemma UnreadableMeans(repos: seq<Repository>, builds: seq<BuildWithRepository>, fw: Framework)
    requires AllExecuted(repos, builds, fw)
    ensures SomeUnreadable(builds, fw) <==> LogsUnreadable(repos, fw)
  {
    hide Executed, LogsReadable;
  }

  lemma CheckMeans(now: seq<BuildWithRepository>, start: seq<BuildWithRepository>, fw: Framework, check: BuildCheck, n: nat)
    requires Looked(now, start, fw, n)
    requires check == LogsFailed ==> n < |start| && !LogsReadable(start[n], fw)
    requires check != LogsFailed ==> n == |start| && (check == SomeBuildFailed <==> SomeBroken(start, n))
    ensures check == BuildsOk <==> AllBuiltWell(start, fw)
    ensures check == LogsFailed <==> SomeUnreadable(start, fw)
  {
  }

  lemma FetchFails(builds: seq<BuildWithRepository>, fw: Framework, resultName: string, n: nat)
    requires n < |builds| && builds[n].repo.status == Planned && !Fetchable(builds[n], fw, resultName)
    ensures !AllFetchable(builds, fw, resultName)
  {
  }

  /** The step writes the repositories of all builds back, also when it fails; without a connection it
      writes back none. */
  method RunAssemble(repos: seq<Repository>, connects: bool, fw: Framework, envPath: string)
    returns (reposBack: seq<Repository>, error: AssembleError, calls: seq<Call>)
    ensures !connects ==> error == ConnectFailed && reposBack == [] && calls == []
    ensures connects ==> |reposBack| == |repos| && forall i :: 0 <= i < |repos| ==> Continues(repos[i], reposBack[i])
    ensures connects ==> calls == Selected(StartBuild, repos, |repos|, Startable)
    ensures error.ChecksFailed? <==> connects && !AllPlannedBuiltWell(repos, fw)
    ensures error.ChecksFailed? ==> error.check == if LogsUnreadable(repos, fw) then LogsFailed else SomeBuildFailed
    ensures error == SarMissing <==> connects && AllPlannedBuiltWell(repos, fw) && !AllPlannedDeliver(repos, fw, SAR_XML)
    ensures error == LogsMissing <==>
      connects && AllPlannedBuiltWell(repos, fw) && AllPlannedDeliver(repos, fw, SAR_XML)
      && !AllPlannedDeliver(repos, fw, DELIVERY_LOGS)
    ensures error == NoError <==> connects && AllSucceed(repos, fw)
    ensures error == NoError ==> forall i :: 0 <= i < |repos| ==> reposBack[i] == HandedOn(repos[i], fw, envPath)
  {
    hide AllPlannedBuiltWell, AllPlannedDeliver, Continues, LogsUnreadable;
    var builds;
    builds, error, calls := RunAssemblePackages(repos, connects, fw, envPath);
    reposBack := [];
    for i := 0 to builds.Length
      invariant |reposBack| == i
      invariant forall j :: 0 <= j < i ==> reposBack[j] == builds[j].repo
    {
      reposBack := reposBack + [builds[i].repo];
    }
  }

  /** Once the step has succeeded, a package that is still planned is in build scope, has an archive to
      upload and a name to register. */
  lemma ReadyToRegister(repo: Repository, fw: Framework, envPath: string)
    requires repo.status == Planned && BuildSucceeds(repo, fw)
    ensures var out := HandedOn(repo, fw, envPath);
            out.status == Planned && out.inBuildScope && out.sarXMLFilePath != "" && out.packageName != ""
  {
  }

  /** What a successful step hands on. */
  ghost function AssembledList(repos: seq<Repository>, fw: Framework, envPath: string): (out: seq<Repository>)
    requires AllSucceed(repos, fw)
    ensures |out| == |repos| && forall i :: 0 <= i < |repos| ==> out[i] == HandedOn(repos[i], fw, envPath)
  {
    seq(|repos|, i requires 0 <= i < |repos| => HandedOn(repos[i], fw, envPath))
  }

  /** What an error means. */
  ghost predicate Explains(error: AssembleError, repos: seq<Repository>, connects: bool, fw: Framework) {
    match error
    case ConnectFailed => !connects
    case ChecksFailed(check) =>
      connects && !AllPlannedBuiltWell(repos, fw) && check == if LogsUnreadable(repos, fw) then LogsFailed else SomeBuildFailed
    case SarMissing => connects && AllPlannedBuiltWell(repos, fw) && !AllPlannedDeliver(repos, fw, SAR_XML)
    case LogsMissing =>
      connects && AllPlannedBuiltWell(repos, fw) && AllPlannedDeliver(repos, fw, SAR_XML)
      && !AllPlannedDeliver(repos, fw, DELIVERY_LOGS)
    case NoError => connects && AllSucceed(repos, fw)
  }

  // ---------------------------------------------------------------- success and failure in the framework's terms

  /** Poll t is the first that is answered with a final run state, and it says "finished" without errors; all polls
      before it are answered, too. */
  ghost predicate FinishesAt(fw: Framework, key: nat, t: nat) {
    t < fw.ticks(key)
    && fw.get(key, t).Got? && fw.get(key, t).runState == Finished && fw.get(key, t).resultState != Erroneous
    && forall u :: 0 <= u < t ==>
         fw.get(key, u).Got? && fw.get(key, u).runState != Finished && fw.get(key, u).runState != Failed
  }

  /** Everything about a planned repository that the step needs: its parameters, a started build that finishes in time
      and without errors, readable logs, and both results. */
  lemma SuccessMeans(repo: Repository, fw: Framework)
    ensures BuildSucceeds(repo, fw) <==>
      && repo.name != "" && repo.version != "" && repo.spLevel != "" && repo.packageType != "" && repo.packageName != ""
      && fw.start(repo.key).Started? && (exists t :: FinishesAt(fw, repo.key, t))
      && (fw.start(repo.key).buildID == "" || (!fw.printLogsFails(repo.key) && fw.cause(repo.key).Cause?))
      && fw.result(repo.key, "SAR_XML").Found? && !fw.downloadFails(repo.key, "SAR_XML")
      && fw.result(repo.key, "DELIVERY_LOGS.ZIP").Found? && !fw.downloadFails(repo.key, "DELIVERY_LOGS.ZIP")
  {
    forall t: nat ensures FinishesAt(fw, repo.key, t) <==> EndsWellAt(repo, fw, t) {
      FinishesMeans(repo, fw, t);
    }
    hide FinishesAt, EndsWellAt;
  }

  lemma FinishesMeans(repo: Repository, fw: Framework, t: nat)
    ensures FinishesAt(fw, repo.key, t) <==> EndsWellAt(repo, fw, t)
  {
    assert forall u: nat ::
      WaitEndsAt(fw, repo.key, u)
      <==> !(fw.get(repo.key, u).Got? && fw.get(repo.key, u).runState != Finished && fw.get(repo.key, u).runState != Failed);
  }

  lemma AllSucceedMeans(repos: seq<Repository>, fw: Framework)
    ensures AllSucceed(repos, fw) <==> forall i :: 0 <= i < |repos| && repos[i].status == Planned ==> BuildSucceeds(repos[i], fw)
  {
    hide BuiltWell, Delivers;
  }

  /** What a repository has got when the step succeeds. */
  lemma HandedOnMeans(repo: Repository, fw: Framework, envPath: string)
    requires repo.status == Planned ==> BuildSucceeds(repo, fw)
    ensures HandedOn(repo, fw, envPath)
         == if repo.status != Planned then repo
            else
              var sar, cause := fw.result(repo.key, "SAR_XML"), fw.cause(repo.key);
              repo.(inBuildScope := true,
                    sarXMLFilePath := envPath + "/" + Base(if |sar.additionalInfo| <= 255 then sar.additionalInfo else sar.name),
                    errorText := if fw.start(repo.key).buildID != "" && cause.text != "" then cause.text else repo.errorText)
  {
    hide EndsWell, Base;
  }

  /** The last element of a path, trailing slashes aside. */
  lemma BaseMeans(dir: string, name: string)
    requires name != "" && '/' !in name
    ensures Base(name) == name && Base(dir + "/" + name) == name && Base(dir + "/" + name + "/") == name
    ensures Base("") == "." && Base("/") == "/"
  {
    NameBehind("", name);
    NameBehind(dir + "/", name);
    var path := dir + "/" + name;
    assert "" + name == name && (dir + "/") + name == path;
    assert path[|path| - 1] == name[|name| - 1] && name[|name| - 1] in name;
    assert (path + "/")[..|path|] == path && (path + "/")[|path|] == '/';
    assert TrimSlashes(path + "/") == TrimSlashes(path) == path;
    assert TrimSlashes(name) == name;
    assert "/"[..0] == "" && TrimSlashes("/") == TrimSlashes("");
  }

  lemma {:induction false} NameBehind(dir: string, name: string)
    requires '/' !in name && (dir == "" || dir[|dir| - 1] == '/')
    ensures AfterLastSlash(dir + name) == name
  {
    var path := dir + name;
    if name == "" {
      assert path == dir;
    } else {
      var n := |name| - 1;
      assert '/' !in name[..n];
      NameBehind(dir, name[..n]);
      assert path[..|path| - 1] == dir + name[..n] && path[|path| - 1] == name[n] && name[n] in name;
    }
  }

  /** Why a build that did not go well has not: the error text of its repository. */
  lemma ErrorTextMeans(repo: Repository, fw: Framework)
    requires repo.status == Planned
    ensures var r := Executed(repo, fw);
            && r.repo == repo.(inBuildScope := true, errorText := r.repo.errorText)
            && (if repo.name == "" || repo.version == "" || repo.spLevel == "" || repo.packageType == "" || repo.packageName == ""
                then r.build == Build("", Failed, NoResult)
                     && r.repo.errorText == "Parameters missing. Please provide software component name, version, sp-level, packagetype and packagename"
                else match fw.start(repo.key)
                  case StartRejected(text) => r.build == Build("", Failed, NoResult) && r.repo.errorText == text
                  case Started(id, _, _) => r.build.buildID == id)
  {
    if CanStart(repo) && fw.start(repo.key).Started? {
      var e := WaitEnd(fw, repo.key, 0);
      BuildIdKept(StartedBuild(fw.start(repo.key)), fw, repo.key, e);
      BuildIdKept(StartedBuild(fw.start(repo.key)), fw, repo.key, e + 1);
    }
  }

  lemma BuildIdKept(b: Build, fw: Framework, key: nat, t: nat)
    ensures PolledBuild(b, fw, key, t).buildID == b.buildID
    ensures t > 0 && fw.get(key, t - 1).Got? ==>
      PolledBuild(b, fw, key, t) == Build(b.buildID, fw.get(key, t - 1).runState, fw.get(key, t - 1).resultState)
  {
  }

  /** A build that is started but not finished in time, or whose state cannot be asked for, is marked as failed, with
      the reason; one that is finished carries the states it was answered with. */
  lemma WaitingMeans(repo: Repository, fw: Framework, t: nat)
    requires repo.status == Planned && CanStart(repo) && fw.start(repo.key).Started? && t <= fw.ticks(repo.key)
    requires forall u :: 0 <= u < t ==>
      fw.get(repo.key, u).Got? && fw.get(repo.key, u).runState != Finished && fw.get(repo.key, u).runState != Failed
    ensures var r := Executed(repo, fw);
            if t == fw.ticks(repo.key) then r.build.runState == Failed && r.repo.errorText == "Timed out: (max Runtime reached)"
            else match fw.get(repo.key, t)
              case GetFailed(text) => r.build.runState == Failed && r.repo.errorText == text
              case Got(Finished, res) =>
                r.build == Build(fw.start(repo.key).buildID, Finished, res) && r.repo.errorText == repo.errorText
              case Got(Failed, res) =>
                r.build == Build(fw.start(repo.key).buildID, Failed, res) && r.repo.errorText == repo.errorText
              case _ => true
  {
    var e := WaitEnd(fw, repo.key, 0);
    assert forall u :: 0 <= u < t ==> !WaitEndsAt(fw, repo.key, u);
    assert e >= t;
    if t < fw.ticks(repo.key) && WaitEndsAt(fw, repo.key, t) {
      WaitEndIs(fw, repo.key, 0, t);
      BuildIdKept(StartedBuild(fw.start(repo.key)), fw, repo.key, t + 1);
    }
  }
}
