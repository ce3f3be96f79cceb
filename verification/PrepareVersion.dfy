/** artifactPrepareVersion: compute the new version, write it to the main descriptor and to additional
    ones, and, in cloud mode, commit, tag and push. */
module PrepareVersion {
  import opened Text
  import opened Versioning
  import Tagging

  // ---------------------------------------------------------------- propagateVersion

  datatype GlobReply = GlobFailed | Matches(files: seq<string>)
  datatype ArtifactReply = NoArtifact | Artifact(scheme: Scheme)

  /** The file system and the build descriptors, by tool and descriptor path. */
  datatype Descriptors = Descriptors(
    glob: string -> GlobReply,
    artifact: (string, string) -> ArtifactReply,
    setFails: (string, string) -> bool)

  datatype Targets = Targets(tools: seq<string>, patterns: seq<string>)

  /** The version to hand out: computed from these, or, outside cloud mode, the base version itself. */
  datatype Source = Source(cloud: bool, version: string, commitID: string, options: Options, time: Time)

  predicate IsSource(src: Source) {
    IsCommitID(src.commitID)
  }

  datatype Write = Write(tool: string, descriptor: string, version: string)

  datatype PropagateError =
    | Propagated
    | LengthMismatch
    | GlobError
    | NoTargetArtifact
    | SchemeUnsupported
    | SetVersionFailed

  predicate Mismatch(t: Targets) {
    t.patterns != [] && |t.tools| != |t.patterns|
  }

  /** The descriptors of the i-th tool: what its pattern matches, or the tool's default. */
  function DescriptorsOf(t: Targets, d: Descriptors, i: nat): GlobReply
    requires !Mismatch(t) && i < |t.tools|
  {
    if t.patterns == [] then Matches([""])
    else match d.glob(t.patterns[i])
      case GlobFailed => GlobFailed
      case Matches(files) => Matches(if files == [] then [""] else files)
  }

  /** The version a descriptor gets, in the scheme of its own tool. */
  function VersionFor(d: Descriptors, src: Source, tool: string, descriptor: string): Result<string>
    requires IsSource(src)
  {
    match d.artifact(tool, descriptor)
    case NoArtifact => Unsupported("")
    case Artifact(scheme) =>
      if src.cloud then CalculateCloudVersion(scheme, src.version, src.commitID, src.options, src.time)
      else Ok(src.version)
  }

  predicate CanWrite(d: Descriptors, src: Source, tool: string, descriptor: string)
    requires IsSource(src)
  {
    d.artifact(tool, descriptor).Artifact? && VersionFor(d, src, tool, descriptor).Ok? && !d.setFails(tool, descriptor)
  }

  function WriteFor(d: Descriptors, src: Source, tool: string, descriptor: string): Write
    requires IsSource(src)
  {
    Write(tool, descriptor, match VersionFor(d, src, tool, descriptor) case Ok(v) => v case Unsupported(_) => "")
  }

  /** The writes for the first k descriptors of one tool. */
  function WritesOf(d: Descriptors, src: Source, tool: string, files: seq<string>, k: nat): seq<Write>
    requires IsSource(src) && k <= |files|
  {
    if k == 0 then [] else WritesOf(d, src, tool, files, k - 1) + [WriteFor(d, src, tool, files[k - 1])]
  }

  ghost predicate AllWritable(d: Descriptors, src: Source, tool: string, files: seq<string>, k: nat)
    requires IsSource(src) && k <= |files|
  {
    forall j :: 0 <= j < k ==> CanWrite(d, src, tool, files[j])
  }

  ghost predicate ToolGoesThrough(t: Targets, d: Descriptors, src: Source, i: nat)
    requires IsSource(src) && !Mismatch(t) && i < |t.tools|
  {
    var reply := DescriptorsOf(t, d, i);
    reply.Matches? && AllWritable(d, src, t.tools[i], reply.files, |reply.files|)
  }

  /** All writes for the first n tools. */
  ghost function AllWrites(t: Targets, d: Descriptors, src: Source, n: nat): seq<Write>
    requires IsSource(src) && !Mismatch(t) && n <= |t.tools|
  {
    if n == 0 then []
    else match DescriptorsOf(t, d, n - 1)
      case GlobFailed => AllWrites(t, d, src, n - 1)
      case Matches(files) => AllWrites(t, d, src, n - 1) + WritesOf(d, src, t.tools[n - 1], files, |files|)
  }

  /** Why a descriptor cannot be written, or Propagated if it can. */
  function ErrorFor(d: Descriptors, src: Source, tool: string, descriptor: string): (e: PropagateError)
    requires IsSource(src)
    ensures e == Propagated <==> CanWrite(d, src, tool, descriptor)
  {
    if d.artifact(tool, descriptor).NoArtifact? then NoTargetArtifact
    else if VersionFor(d, src, tool, descriptor).Unsupported? then SchemeUnsupported
    else if d.setFails(tool, descriptor) then SetVersionFailed
    else Propagated
  }

  /** Stops at the first descriptor, the k-th, that cannot be written. */
  method PropagateToTool(d: Descriptors, src: Source, tool: string, files: seq<string>)
    returns (error: PropagateError, writes: seq<Write>, k: nat)
    requires IsSource(src)
    ensures error != LengthMismatch && error != GlobError
    ensures k <= |files| && AllWritable(d, src, tool, files, k) && writes == WritesOf(d, src, tool, files, k)
    ensures error == Propagated ==> k == |files|
    ensures error != Propagated ==> k < |files| && error == ErrorFor(d, src, tool, files[k])
  {
    hide WriteFor, VersionFor;
    error, writes, k := Propagated, [], 0;
    while k < |files|
      invariant k <= |files| && error == Propagated
      invariant AllWritable(d, src, tool, files, k)
      invariant writes == WritesOf(d, src, tool, files, k)
    {
      if d.artifact(tool, files[k]).NoArtifact? {
        error := NoTargetArtifact;
        return;
      }
      if VersionFor(d, src, tool, files[k]).Unsupported? {
        error := SchemeUnsupported;
        return;
      }
      if d.setFails(tool, files[k]) {
        error := SetVersionFailed;
        return;
      }
      writes := writes + [WriteFor(d, src, tool, files[k])];
      k := k + 1;
    }
  }

  ghost predicate AllGoThrough(t: Targets, d: Descriptors, src: Source, n: nat)
    requires IsSource(src) && !Mismatch(t) && n <= |t.tools|
  {
    forall i :: 0 <= i < n ==> ToolGoesThrough(t, d, src, i)
  }

  /** How propagation fails at tool n and, unless its pattern is at fault, at its k-th descriptor: the first
      that cannot be written decides, and what was written before stays written. */
  ghost predicate PropagationFails(t: Targets, d: Descriptors, src: Source, error: PropagateError, writes: seq<Write>, n: nat, k: nat)
    requires IsSource(src)
  {
    if error == LengthMismatch then Mismatch(t) && writes == []
    else
      !Mismatch(t) && n < |t.tools| && AllGoThrough(t, d, src, n)
      && match DescriptorsOf(t, d, n)
         case GlobFailed => error == GlobError && writes == AllWrites(t, d, src, n)
         case Matches(files) =>
           k < |files| && AllWritable(d, src, t.tools[n], files, k)
           && error == ErrorFor(d, src, t.tools[n], files[k]) != Propagated
           && writes == AllWrites(t, d, src, n) + WritesOf(d, src, t.tools[n], files, k)
  }

  /** Success writes to every descriptor of every tool, in order; a length mismatch writes nothing. */
  method PropagateVersion(t: Targets, d: Descriptors, src: Source)
    returns (error: PropagateError, writes: seq<Write>, n: nat, k: nat)
    requires IsSource(src)
    ensures error == Propagated <==> !Mismatch(t) && AllGoThrough(t, d, src, |t.tools|)
    ensures error == Propagated ==> writes == AllWrites(t, d, src, |t.tools|)
    ensures error != Propagated ==> PropagationFails(t, d, src, error, writes, n, k)
  {
    hide CanWrite, WritesOf, DescriptorsOf, ErrorFor;
    error, writes, n, k := Propagated, [], 0, 0;
    if Mismatch(t) {
      error := LengthMismatch;
      return;
    }
    while n < |t.tools|
      invariant n <= |t.tools| && error == Propagated
      invariant AllGoThrough(t, d, src, n)
      invariant writes == AllWrites(t, d, src, n)
    {
      var reply := DescriptorsOf(t, d, n);
      if reply.GlobFailed? {
        assert !ToolGoesThrough(t, d, src, n);
        error := GlobError;
        return;
      }
      var sent;
      error, sent, k := PropagateToTool(d, src, t.tools[n], reply.files);
      writes := writes + sent;
      if error != Propagated {
        assert !ToolGoesThrough(t, d, src, n);
        return;
      }
      assert ToolGoesThrough(t, d, src, n);
      n := n + 1;
    }
  }

  // ---------------------------------------------------------------- consistency of what was written

  /** The number of writes: for each tool the number of matches, but at least one. */
  ghost function SumOfMatches(t: Targets, d: Descriptors, n: nat): nat
    requires !Mismatch(t) && n <= |t.tools|
  {
    if n == 0 then 0
    else
      var matches := if t.patterns != [] && d.glob(t.patterns[n - 1]).Matches? then |d.glob(t.patterns[n - 1]).files| else 0;
      SumOfMatches(t, d, n - 1) + if matches > 1 then matches else 1
  }

  lemma {:induction false} WritesCount(d: Descriptors, src: Source, tool: string, files: seq<string>, k: nat)
    requires IsSource(src) && k <= |files|
    ensures |WritesOf(d, src, tool, files, k)| == k
  {
    if k > 0 { WritesCount(d, src, tool, files, k - 1); }
  }

  lemma {:induction false} OneWritePerMatch(t: Targets, d: Descriptors, src: Source, n: nat)
    requires IsSource(src) && !Mismatch(t) && n <= |t.tools| && AllGoThrough(t, d, src, n)
    ensures |AllWrites(t, d, src, n)| == SumOfMatches(t, d, n)
  {
    if n > 0 {
      OneWritePerMatch(t, d, src, n - 1);
      assert ToolGoesThrough(t, d, src, n - 1);
      var files := DescriptorsOf(t, d, n - 1).files;
      WritesCount(d, src, t.tools[n - 1], files, |files|);
      hide CanWrite, WritesOf;
    }
  }

  /** A write carries the same base version, time and commit as the main version, each in its own scheme;
      outside cloud mode it carries the base version unchanged. */
  ghost predicate Consistent(w: Write, d: Descriptors, src: Source)
    requires IsSource(src)
  {
    d.artifact(w.tool, w.descriptor).Artifact?
    && if src.cloud then
         var template := VersioningTemplate(d.artifact(w.tool, w.descriptor).scheme);
         template.Ok?
         && Read(template.value, src.options.includeCommitID, w.version)
            == Some(NewParts(src.version, src.commitID, src.options, src.time))
       else w.version == src.version
  }

  lemma OneConsistent(d: Descriptors, src: Source, tool: string, descriptor: string)
    requires IsSource(src) && IsCivil(src.time.civil) && (src.options.unixTimestamp ==> src.time.unix >= 0)
    requires CanWrite(d, src, tool, descriptor)
    ensures Consistent(WriteFor(d, src, tool, descriptor), d, src)
  {
    if src.cloud {
      CloudVersionReads(d.artifact(tool, descriptor).scheme, src.version, src.commitID, src.options, src.time);
    }
  }

  lemma {:induction false} ToolConsistent(d: Descriptors, src: Source, tool: string, files: seq<string>, k: nat, w: Write)
    requires IsSource(src) && IsCivil(src.time.civil) && (src.options.unixTimestamp ==> src.time.unix >= 0)
    requires k <= |files| && AllWritable(d, src, tool, files, k)
    requires w in WritesOf(d, src, tool, files, k)
    ensures Consistent(w, d, src)
  {
    hide Consistent, CanWrite, VersionFor, WriteFor;
    if w in WritesOf(d, src, tool, files, k - 1) {
      ToolConsistent(d, src, tool, files, k - 1, w);
    } else {
      OneConsistent(d, src, tool, files[k - 1]);
    }
  }

  /** Every version written in a successful propagation is consistent with the main one. */
  lemma {:induction false} PropagationConsistent(t: Targets, d: Descriptors, src: Source, n: nat, w: Write)
    requires IsSource(src) && IsCivil(src.time.civil) && (src.options.unixTimestamp ==> src.time.unix >= 0)
    requires !Mismatch(t) && n <= |t.tools| && AllGoThrough(t, d, src, n) && w in AllWrites(t, d, src, n)
    ensures Consistent(w, d, src)
  {
    hide Consistent, CanWrite, VersionFor, WritesOf, DescriptorsOf;
    assert ToolGoesThrough(t, d, src, n - 1);
    var files := DescriptorsOf(t, d, n - 1).files;
    if w in AllWrites(t, d, src, n - 1) {
      PropagationConsistent(t, d, src, n - 1, w);
    } else {
      ToolConsistent(d, src, t.tools[n - 1], files, |files|, w);
    }
  }

  /** The same for a propagation that fails: what was written before is consistent. */
  lemma HalfConsistent(t: Targets, d: Descriptors, src: Source, error: PropagateError, writes: seq<Write>, n: nat, k: nat, w: Write)
    requires IsSource(src) && IsCivil(src.time.civil) && (src.options.unixTimestamp ==> src.time.unix >= 0)
    requires PropagationFails(t, d, src, error, writes, n, k) && w in writes
    ensures Consistent(w, d, src)
  {
    hide Consistent, CanWrite, VersionFor, WritesOf, AllWrites, DescriptorsOf, AllGoThrough, AllWritable, ErrorFor;
    if w in AllWrites(t, d, src, n) {
      PropagationConsistent(t, d, src, n, w);
    } else {
      ToolConsistent(d, src, t.tools[n], DescriptorsOf(t, d, n).files, k, w);
    }
  }

  // ---------------------------------------------------------------- the step

  datatype VersioningType = Cloud | CloudNoTag | OtherType(name: string)

  predicate Contains(s: string, pat: string)
    decreases |s|
  {
    pat <= s || (s != "" && Contains(s[1..], pat))
  }

  /** A former groovy template decides: cloud versioning if it prints a timestamp, library otherwise. */
  function TemplateCompatibility(template: string): (VersioningType, bool) {
    (if Contains(template, "${timestamp}") then Cloud else OtherType("library"), Contains(template, "${commitId"))
  }

  datatype RunConfig = RunConfig(
    versioningType: VersioningType,
    versioningTemplate: string,
    isOptimizedAndScheduled: bool,
    options: Options,
    targets: Targets,
    tagging: Tagging.Config,
    fetchCoordinates: bool)

  /** Type and options in force: a template overrides what is configured. */
  function EffectiveType(c: RunConfig): VersioningType {
    if c.versioningTemplate != "" then TemplateCompatibility(c.versioningTemplate).0 else c.versioningType
  }

  function EffectiveOptions(c: RunConfig): Options {
    if c.versioningTemplate != "" then c.options.(includeCommitID := TemplateCompatibility(c.versioningTemplate).1)
    else c.options
  }

  predicate IsCloud(t: VersioningType) {
    t == Cloud || t == CloudNoTag
  }

  /** Pull requests and optimized pipelines never create tags. */
  predicate Tags(c: RunConfig, isPullRequest: bool) {
    EffectiveType(c) == Cloud && !isPullRequest && !c.isOptimizedAndScheduled
  }

  /** The main descriptor and everything else the step asks. */
  datatype World = World(
    scheme: Scheme,
    version: Option<string>,
    head: Option<string>,
    isPullRequest: bool,
    checkoutFails: bool,
    setVersionFails: bool,
    certificatesFail: bool,
    coordinatesFail: bool,
    time: Time,
    descriptors: Descriptors,
    glob: Tagging.Glob,
    faults: Tagging.Faults)

  /** What the step leaves in the common pipeline environment. */
  datatype Environment = Environment(artifactVersion: string, originalArtifactVersion: string, commitID: string)

  datatype StepResult =
    | Done(env: Environment)
    | NoVersion
    | NoHead
    | NoTemplate
    | CheckoutFailed
    | NotWritten
    | NotPropagated(reason: PropagateError)
    | NoCertificates
    | NotPushed(exit: Tagging.Exit)
    | NoCoordinates

  function SourceOf(c: RunConfig, w: World): Source
    requires w.version.Some? && w.head.Some?
  {
    Source(IsCloud(EffectiveType(c)), w.version.value, w.head.value, EffectiveOptions(c), w.time)
  }

  /** The version of the artifact when the step succeeds. */
  function NewVersion(c: RunConfig, w: World): Result<string>
    requires w.version.Some? && w.head.Some? && IsCommitID(w.head.value)
  {
    if IsCloud(EffectiveType(c))
    then CalculateCloudVersion(w.scheme, w.version.value, w.head.value, EffectiveOptions(c), w.time)
    else Ok(w.version.value)
  }

  /** Main descriptor and additional descriptors can be written. */
  ghost predicate CanWriteAll(c: RunConfig, w: World, newVersion: string)
    requires w.version.Some? && w.head.Some? && IsCommitID(w.head.value)
  {
    (IsCloud(EffectiveType(c)) && newVersion != w.version.value ==> !w.setVersionFails)
    && (c.targets.tools != [] ==>
          !Mismatch(c.targets) && AllGoThrough(c.targets, w.descriptors, SourceOf(c, w), |c.targets.tools|))
  }

  /** Version, commit and template are there, and the worktree is checked out. */
  ghost predicate Prepared(c: RunConfig, w: World)
    requires w.head.Some? ==> IsCommitID(w.head.value)
  {
    w.version.Some? && w.version.value != "" && w.head.Some? && NewVersion(c, w).Ok?
    && (IsCloud(EffectiveType(c)) ==> !w.checkoutFails)
  }

  /** ... and all descriptors are written. */
  ghost predicate Written(c: RunConfig, w: World)
    requires w.head.Some? ==> IsCommitID(w.head.value)
  {
    Prepared(c, w) && CanWriteAll(c, w, NewVersion(c, w).value)
  }

  predicate MainFails(c: RunConfig, w: World)
    requires w.version.Some? && w.head.Some? && IsCommitID(w.head.value)
  {
    IsCloud(EffectiveType(c)) && NewVersion(c, w) != Ok(w.version.value) && w.setVersionFails
  }

  /** The tag of the new version. */
  function TagOf(c: RunConfig, w: World): string
    requires w.version.Some? && w.head.Some? && IsCommitID(w.head.value) && NewVersion(c, w).Ok?
  {
    c.tagging.tagPrefix + NewVersion(c, w).value
  }

  /** How committing, tagging and pushing ends. */
  function PushEnd(c: RunConfig, w: World, remotes: map<string, Tagging.RemoteConfig>, tags: map<string, string>): Tagging.Exit
    requires w.version.Some? && w.head.Some? && IsCommitID(w.head.value) && NewVersion(c, w).Ok?
  {
    Tagging.ExitOf(remotes, TagOf(c, w) in tags, c.tagging, w.faults)
  }

  /** The repository is touched only from here on. */
  ghost predicate Pushes(c: RunConfig, w: World)
    requires w.head.Some? ==> IsCommitID(w.head.value)
  {
    Written(c, w) && Tags(c, w.isPullRequest) && !w.certificatesFail
  }

  /** Everything up to the environment goes well. */
  ghost predicate Published(c: RunConfig, w: World, remotes: map<string, Tagging.RemoteConfig>, tags: map<string, string>)
    requires w.head.Some? ==> IsCommitID(w.head.value)
  {
    Written(c, w)
    && (Tags(c, w.isPullRequest) ==> !w.certificatesFail && PushEnd(c, w, remotes, tags) == Tagging.Pushed)
  }

  /** Everything the step needs in order to succeed. */
  ghost predicate StepSucceeds(c: RunConfig, w: World, remotes: map<string, Tagging.RemoteConfig>, tags: map<string, string>)
    requires w.head.Some? ==> IsCommitID(w.head.value)
  {
    Published(c, w, remotes, tags) && !(w.coordinatesFail && c.fetchCoordinates)
  }

  /** The writes when propagation goes through. */
  ghost predicate AllWritten(c: RunConfig, w: World, mainVersion: string, writes: seq<Write>)
    requires w.head.Some? ==> IsCommitID(w.head.value)
  {
    Written(c, w) && mainVersion == NewVersion(c, w).value
    && if c.targets.tools == [] then writes == []
       else writes == AllWrites(c.targets, w.descriptors, SourceOf(c, w), |c.targets.tools|)
  }

  /** Propagation fails after the main descriptor was written. */
  ghost predicate HalfWritten(c: RunConfig, w: World, reason: PropagateError, mainVersion: string, writes: seq<Write>)
    requires w.head.Some? ==> IsCommitID(w.head.value)
  {
    Prepared(c, w) && !MainFails(c, w) && mainVersion == NewVersion(c, w).value && c.targets.tools != []
    && exists n, k :: PropagationFails(c.targets, w.descriptors, SourceOf(c, w), reason, writes, n, k)
  }

  /** Each result comes out for one reason, the first thing that fails, and leaves this behind in the descriptors. */
  ghost predicate Explains(result: StepResult, c: RunConfig, w: World, remotes: map<string, Tagging.RemoteConfig>,
                           tags: map<string, string>, mainVersion: string, writes: seq<Write>)
    requires w.head.Some? ==> IsCommitID(w.head.value)
  {
    match result
    case NoVersion => (w.version.None? || w.version.value == "") && mainVersion == "" && writes == []
    case NoHead => w.version.Some? && w.version.value != "" && w.head.None? && mainVersion == w.version.value && writes == []
    case NoTemplate =>
      w.version.Some? && w.version.value != "" && w.head.Some? && NewVersion(c, w).Unsupported?
      && mainVersion == w.version.value && writes == []
    case CheckoutFailed =>
      w.version.Some? && w.version.value != "" && w.head.Some? && NewVersion(c, w).Ok?
      && IsCloud(EffectiveType(c)) && w.checkoutFails && mainVersion == w.version.value && writes == []
    case NotWritten => Prepared(c, w) && MainFails(c, w) && mainVersion == w.version.value && writes == []
    case NotPropagated(reason) => HalfWritten(c, w, reason, mainVersion, writes)
    case NoCertificates => AllWritten(c, w, mainVersion, writes) && Tags(c, w.isPullRequest) && w.certificatesFail
    case NotPushed(exit) =>
      AllWritten(c, w, mainVersion, writes) && Pushes(c, w) && exit == PushEnd(c, w, remotes, tags) != Tagging.Pushed
    case NoCoordinates =>
      AllWritten(c, w, mainVersion, writes) && Published(c, w, remotes, tags) && w.coordinatesFail && c.fetchCoordinates
    case Done(env) =>
      AllWritten(c, w, mainVersion, writes) && StepSucceeds(c, w, remotes, tags)
      && env == Environment(mainVersion, w.version.value,
                            if Tags(c, w.isPullRequest) && w.faults.commit.commit.Committed? then w.faults.commit.commit.hash
                            else w.head.value)
  }

  /** Writing the new version to the main descriptor, only if it is a new one, and to the additional ones. */
  method WriteVersions(c: RunConfig, w: World)
    returns (problem: Option<StepResult>, mainVersion: string, writes: seq<Write>)
    requires (w.head.Some? ==> IsCommitID(w.head.value)) && Prepared(c, w)
    ensures problem == None <==> Written(c, w)
    ensures problem == None ==> AllWritten(c, w, mainVersion, writes)
    ensures problem.Some? ==>
      (problem.value.NotWritten? || problem.value.NotPropagated?) && Explains(problem.value, c, w, map[], map[], mainVersion, writes)
  {
    hide AllGoThrough, AllWrites, CalculateCloudVersion, PropagationFails;
    problem, mainVersion, writes := None, w.version.value, [];
    var newVersion := NewVersion(c, w).value;
    if IsCloud(EffectiveType(c)) && newVersion != w.version.value {
      if w.setVersionFails {
        problem := Some(NotWritten);
        return;
      }
      mainVersion := newVersion;
    }
    if c.targets.tools != [] {
      var error, n, k;
      error, writes, n, k := PropagateVersion(c.targets, w.descriptors, SourceOf(c, w));
      if error != Propagated {
        assert PropagationFails(c.targets, w.descriptors, SourceOf(c, w), error, writes, n, k);
        problem := Some(NotPropagated(error));
      }
    }
  }

  /** Every result is explained by the first thing that fails. The repository is touched only by a tagging run
      that has written all descriptors, and then as pushing leaves it, also if the step fails afterwards. */
  method RunArtifactPrepareVersion(c: RunConfig, w: World, repo: Tagging.Repository, worktree: Tagging.Worktree)
    returns (result: StepResult, mainVersion: string, writes: seq<Write>)
    requires w.head.Some? ==> IsCommitID(w.head.value)
    modifies repo, worktree
    ensures Explains(result, c, w, old(repo.remotes), old(repo.tags), mainVersion, writes)
    ensures result.Done? <==> StepSucceeds(c, w, old(repo.remotes), old(repo.tags))
    ensures !Pushes(c, w) ==>
      repo.tags == old(repo.tags) && repo.remotes == old(repo.remotes) && repo.pushed == old(repo.pushed)
      && worktree.commits == old(worktree.commits)
    ensures Pushes(c, w) ==>
      var exit := PushEnd(c, w, old(repo.remotes), old(repo.tags));
      && repo.remotes == Tagging.RemotesAt(exit, old(repo.remotes), c.tagging)
      && (Tagging.TagCreated(exit) ==> w.faults.commit.commit.Committed?)
      && repo.tags == (if Tagging.TagCreated(exit) then old(repo.tags)[TagOf(c, w) := w.faults.commit.commit.hash] else old(repo.tags))
      && repo.pushed == (if Tagging.PushAccepted(exit) then old(repo.pushed) + [[Tagging.RefSpec(TagOf(c, w))]] else old(repo.pushed))
      && worktree.commits == (if exit == Tagging.NotCommitted then old(worktree.commits)
           else old(worktree.commits)
                + [Tagging.CommittedPaths(old(worktree.status), c.tagging.excludeFiles, w.glob, w.faults.commit)])
  {
    hide CalculateCloudVersion, CanWriteAll, HalfWritten, AllWritten, Tagging.CommittedPaths, Tagging.RefSpec,
         Tagging.PushExit, Contains, Tagging.RemotesAt;
    mainVersion, writes := "", [];
    if w.version.None? || w.version.value == "" {
      return NoVersion, mainVersion, writes;
    }
    mainVersion := w.version.value;
    if w.head.None? {
      return NoHead, mainVersion, writes;
    }
    var computed := NewVersion(c, w);
    if computed.Unsupported? {
      return NoTemplate, mainVersion, writes;
    }
    if IsCloud(EffectiveType(c)) && w.checkoutFails {
      return CheckoutFailed, mainVersion, writes;
    }
    var problem;
    problem, mainVersion, writes := WriteVersions(c, w);
    if problem.Some? {
      return problem.value, mainVersion, writes;
    }
    MainIsNew(c, w, mainVersion, writes);
    var commitID := w.head.value;
    if Tags(c, w.isPullRequest) {
      if w.certificatesFail {
        return NoCertificates, mainVersion, writes;
      }
      var exit := Tagging.PushChanges(repo, worktree, c.tagging, computed.value, w.glob, w.faults);
      if exit != Tagging.Pushed {
        return NotPushed(exit), mainVersion, writes;
      }
      commitID := w.faults.commit.commit.hash;
    }
    if w.coordinatesFail && c.fetchCoordinates {
      return NoCoordinates, mainVersion, writes;
    }
    result := Done(Environment(computed.value, w.version.value, commitID));
  }

  lemma MainIsNew(c: RunConfig, w: World, mainVersion: string, writes: seq<Write>)
    requires (w.head.Some? ==> IsCommitID(w.head.value)) && AllWritten(c, w, mainVersion, writes)
    ensures Written(c, w) && mainVersion == NewVersion(c, w).value
  {
  }

  /** The text stands somewhere in s. */
  ghost predicate Occurs(pat: string, s: string) {
    exists i: nat :: OccursAt(s, pat, i)
  }

  lemma {:induction false} ContainsMeans(s: string, pat: string)
    requires pat != ""
    ensures Contains(s, pat) <==> Occurs(pat, s)
  {
    if pat <= s {
      assert OccursAt(s, pat, 0);
    } else if s != "" {
      ContainsMeans(s[1..], pat);
      if Occurs(pat, s) {
        var i: nat :| OccursAt(s, pat, i);
        assert s[1..][i - 1..i - 1 + |pat|] == s[i..i + |pat|];
        assert OccursAt(s[1..], pat, i - 1);
      }
      if Occurs(pat, s[1..]) {
        var i: nat :| OccursAt(s[1..], pat, i);
        assert s[i + 1..i + 1 + |pat|] == s[1..][i..i + |pat|];
        assert OccursAt(s, pat, i + 1);
      }
    }
  }

  /** New versions are computed: by a template that prints the timestamp or, without a template, as configured. */
  ghost predicate ComputesVersions(c: RunConfig) {
    if c.versioningTemplate != "" then Occurs("${timestamp}", c.versioningTemplate)
    else c.versioningType == Cloud || c.versioningType == CloudNoTag
  }

  /** The commit in the versions: by a template that prints it or, without a template, as configured. */
  ghost predicate ShowsCommit(c: RunConfig) {
    if c.versioningTemplate != "" then Occurs("${commitId", c.versioningTemplate) else c.options.includeCommitID
  }

  lemma EffectiveMeans(c: RunConfig)
    ensures IsCloud(EffectiveType(c)) <==> ComputesVersions(c)
    ensures EffectiveType(c) == Cloud <==>
      if c.versioningTemplate != "" then Occurs("${timestamp}", c.versioningTemplate) else c.versioningType == Cloud
    ensures EffectiveOptions(c).includeCommitID <==> ShowsCommit(c)
    ensures EffectiveOptions(c).shortCommitID == c.options.shortCommitID && EffectiveOptions(c).unixTimestamp == c.options.unixTimestamp
  {
    ContainsMeans(c.versioningTemplate, "${timestamp}");
    ContainsMeans(c.versioningTemplate, "${commitId");
    hide Contains, Occurs;
  }

  /** The parts of all versions of a run: base version, time, and the commit if it is to be shown. */
  ghost predicate PartsOfRun(p: Parts, c: RunConfig, w: World)
    requires w.version.Some? && w.head.Some? && IsCommitID(w.head.value)
  {
    p.version == w.version.value && p.timestamp == Timestamp(w.time, c.options.unixTimestamp)
    && p.commitID == if !ShowsCommit(c) then "" else if c.options.shortCommitID then w.head.value[..7] else w.head.value
  }

  /** Main version and written version print the same parts, each by the template of its own scheme. */
  ghost predicate SameParts(p: Parts, mainScheme: Scheme, mainVersion: string, scheme: Scheme, version: string) {
    VersioningTemplate(mainScheme).Ok? && VersioningTemplate(scheme).Ok?
    && mainVersion == Execute(VersioningTemplate(mainScheme).value, p)
    && version == Execute(VersioningTemplate(scheme).value, p)
  }

  /** Whatever the result of the step, every version it has written agrees with the main one: both print the parts
      of the run, or both are the base version if no versions are computed. */
  lemma StepConsistent(result: StepResult, c: RunConfig, w: World, remotes: map<string, Tagging.RemoteConfig>,
                       tags: map<string, string>, mainVersion: string, writes: seq<Write>, x: Write)
    requires w.head.Some? ==> IsCommitID(w.head.value)
    requires Explains(result, c, w, remotes, tags, mainVersion, writes) && x in writes
    ensures w.version.Some? && w.head.Some? && w.descriptors.artifact(x.tool, x.descriptor).Artifact?
    ensures !ComputesVersions(c) ==> x.version == mainVersion == w.version.value
    ensures ComputesVersions(c) ==>
      exists p :: PartsOfRun(p, c, w)
                  && SameParts(p, w.scheme, mainVersion, w.descriptors.artifact(x.tool, x.descriptor).scheme, x.version)
  {
    hide AllWrites, AllGoThrough, PropagationFails, PushEnd, NewVersion, MainFails, CanWrite;
    var src := SourceOf(c, w);
    if result.NotPropagated? {
      var n, k :| PropagationFails(c.targets, w.descriptors, src, result.reason, writes, n, k);
      HalfWrite(c.targets, w.descriptors, src, result.reason, writes, n, k, x);
    } else {
      AllWrite(c.targets, w.descriptors, src, |c.targets.tools|, x);
    }
    OneAgrees(c, w, mainVersion, x);
  }

  /** A version that can be written and was computed for the run agrees with the main version of the run. */
  lemma OneAgrees(c: RunConfig, w: World, mainVersion: string, x: Write)
    requires w.version.Some? && w.head.Some? && IsCommitID(w.head.value)
    requires NewVersion(c, w) == Ok(mainVersion)
    requires CanWrite(w.descriptors, SourceOf(c, w), x.tool, x.descriptor)
    requires x == WriteFor(w.descriptors, SourceOf(c, w), x.tool, x.descriptor)
    ensures !ComputesVersions(c) ==> x.version == mainVersion == w.version.value
    ensures ComputesVersions(c) ==>
      exists p :: PartsOfRun(p, c, w)
                  && SameParts(p, w.scheme, mainVersion, w.descriptors.artifact(x.tool, x.descriptor).scheme, x.version)
  {
    EffectiveMeans(c);
    hide EffectiveType, ComputesVersions, ShowsCommit, Timestamp, Execute, VersioningTemplate, AllHex;
    if ComputesVersions(c) {
      var p := NewParts(w.version.value, w.head.value, EffectiveOptions(c), w.time);
      hide EffectiveOptions;
      assert PartsOfRun(p, c, w);
      assert SameParts(p, w.scheme, mainVersion, w.descriptors.artifact(x.tool, x.descriptor).scheme, x.version);
    }
  }

  lemma {:induction false} ToolWrite(d: Descriptors, src: Source, tool: string, files: seq<string>, k: nat, x: Write)
    requires IsSource(src) && k <= |files| && AllWritable(d, src, tool, files, k) && x in WritesOf(d, src, tool, files, k)
    ensures CanWrite(d, src, x.tool, x.descriptor) && x == WriteFor(d, src, x.tool, x.descriptor)
  {
    hide CanWrite, VersionFor;
    if x in WritesOf(d, src, tool, files, k - 1) {
      ToolWrite(d, src, tool, files, k - 1, x);
    } else {
      assert CanWrite(d, src, tool, files[k - 1]);
    }
  }

  lemma {:induction false} AllWrite(t: Targets, d: Descriptors, src: Source, n: nat, x: Write)
    requires IsSource(src) && !Mismatch(t) && n <= |t.tools| && AllGoThrough(t, d, src, n) && x in AllWrites(t, d, src, n)
    ensures CanWrite(d, src, x.tool, x.descriptor) && x == WriteFor(d, src, x.tool, x.descriptor)
  {
    hide CanWrite, WriteFor, WritesOf, DescriptorsOf;
    assert ToolGoesThrough(t, d, src, n - 1);
    var files := DescriptorsOf(t, d, n - 1).files;
    if x in AllWrites(t, d, src, n - 1) {
      AllWrite(t, d, src, n - 1, x);
    } else {
      ToolWrite(d, src, t.tools[n - 1], files, |files|, x);
    }
  }

  lemma HalfWrite(t: Targets, d: Descriptors, src: Source, error: PropagateError, writes: seq<Write>, n: nat, k: nat, x: Write)
    requires IsSource(src) && PropagationFails(t, d, src, error, writes, n, k) && x in writes
    ensures CanWrite(d, src, x.tool, x.descriptor) && x == WriteFor(d, src, x.tool, x.descriptor)
  {
    hide CanWrite, WriteFor, WritesOf, AllWrites, DescriptorsOf, AllGoThrough, AllWritable, ErrorFor;
    if x in AllWrites(t, d, src, n) {
      AllWrite(t, d, src, n, x);
    } else {
      ToolWrite(d, src, t.tools[n], DescriptorsOf(t, d, n).files, k, x);
    }
  }

  /** Every write goes to a target: to a file its tool's pattern matches, or to the tool's default descriptor
      without patterns or matches. */
  lemma {:induction false} WriteHasTarget(t: Targets, d: Descriptors, src: Source, n: nat, x: Write)
    requires IsSource(src) && !Mismatch(t) && n <= |t.tools| && x in AllWrites(t, d, src, n)
    ensures exists i :: 0 <= i < n && IsTarget(t, d, i, x)
  {
    hide WriteFor;
    if x in AllWrites(t, d, src, n - 1) {
      WriteHasTarget(t, d, src, n - 1, x);
    } else {
      WriteInFiles(d, src, t.tools[n - 1], DescriptorsOf(t, d, n - 1).files, |DescriptorsOf(t, d, n - 1).files|, x);
      assert IsTarget(t, d, n - 1, x);
    }
  }

  ghost predicate IsTarget(t: Targets, d: Descriptors, i: nat, x: Write)
    requires i < |t.tools| && !Mismatch(t)
  {
    x.tool == t.tools[i]
    && if t.patterns == [] then x.descriptor == ""
       else d.glob(t.patterns[i]).Matches?
            && (x.descriptor in d.glob(t.patterns[i]).files || (d.glob(t.patterns[i]).files == [] && x.descriptor == ""))
  }

  lemma {:induction false} WriteInFiles(d: Descriptors, src: Source, tool: string, files: seq<string>, k: nat, x: Write)
    requires IsSource(src) && k <= |files| && x in WritesOf(d, src, tool, files, k)
    ensures x.tool == tool && x.descriptor in files
  {
    if x in WritesOf(d, src, tool, files, k - 1) {
      WriteInFiles(d, src, tool, files, k - 1, x);
    }
  }

  /** The repository is touched exactly if all is written, tags are wanted, no pull request and no optimized
      pipeline forbids them, and the certificates are there; the tag is the prefix and the main version. */
  lemma PushesMeans(c: RunConfig, w: World, mainVersion: string, writes: seq<Write>)
    requires (w.head.Some? ==> IsCommitID(w.head.value)) && AllWritten(c, w, mainVersion, writes)
    ensures Pushes(c, w) <==>
      (if c.versioningTemplate != "" then Occurs("${timestamp}", c.versioningTemplate) else c.versioningType == Cloud)
      && !w.isPullRequest && !c.isOptimizedAndScheduled && !w.certificatesFail
    ensures TagOf(c, w) == c.tagging.tagPrefix + mainVersion
  {
    EffectiveMeans(c);
    hide EffectiveType, Occurs, AllWrites, Prepared, CanWriteAll, NewVersion;
  }

  /** Why a descriptor cannot be written: no artifact, no template for its scheme, or the write fails. */
  lemma ErrorMeans(d: Descriptors, src: Source, tool: string, descriptor: string)
    requires IsSource(src)
    ensures ErrorFor(d, src, tool, descriptor) == NoTargetArtifact <==> d.artifact(tool, descriptor) == NoArtifact
    ensures ErrorFor(d, src, tool, descriptor) == SchemeUnsupported <==>
      src.cloud && exists name :: d.artifact(tool, descriptor) == Artifact(UnknownScheme(name))
    ensures ErrorFor(d, src, tool, descriptor) == SetVersionFailed <==>
      d.artifact(tool, descriptor).Artifact? && (src.cloud ==> !d.artifact(tool, descriptor).scheme.UnknownScheme?)
      && d.setFails(tool, descriptor)
  {
    hide CalculateNewVersion;
    var reply := d.artifact(tool, descriptor);
    if reply.Artifact? && reply.scheme.UnknownScheme? {
      assert reply == Artifact(UnknownScheme(reply.scheme.name));
    }
  }

  /** The step succeeds exactly if there are a version and a commit, a known scheme and a checkout where versions are
      computed, a new version can be written, all targets can be, a tag that is wanted can be pushed, and the
      coordinates can be read or are not asked for. */
  lemma StepSucceedsMeans(c: RunConfig, w: World, remotes: map<string, Tagging.RemoteConfig>, tags: map<string, string>)
    requires w.head.Some? ==> IsCommitID(w.head.value)
    ensures StepSucceeds(c, w, remotes, tags) <==>
      && w.version.Some? && w.version.value != "" && w.head.Some?
      && (ComputesVersions(c) ==> !w.scheme.UnknownScheme? && !w.checkoutFails
                                  && (NewVersion(c, w) == Ok(w.version.value) || !w.setVersionFails))
      && (c.targets.tools != [] ==>
            (c.targets.patterns == [] || |c.targets.tools| == |c.targets.patterns|)
            && AllGoThrough(c.targets, w.descriptors, SourceOf(c, w), |c.targets.tools|))
      && ((if c.versioningTemplate != "" then Occurs("${timestamp}", c.versioningTemplate) else c.versioningType == Cloud)
          && !w.isPullRequest && !c.isOptimizedAndScheduled ==>
            !w.certificatesFail && Tagging.ExitOf(remotes, TagOf(c, w) in tags, c.tagging, w.faults) == Tagging.Pushed)
      && (c.fetchCoordinates ==> !w.coordinatesFail)
  {
    EffectiveMeans(c);
    hide EffectiveType, EffectiveOptions, Occurs, ComputesVersions, ShowsCommit, AllGoThrough, CalculateNewVersion, Tagging.ExitOf;
  }

  lemma FailsAt(t: Targets, d: Descriptors, src: Source, error: PropagateError, writes: seq<Write>, n: nat, k: nat)
    requires IsSource(src) && PropagationFails(t, d, src, error, writes, n, k) && !Mismatch(t)
    ensures n < |t.tools| && !ToolGoesThrough(t, d, src, n) && !AllGoThrough(t, d, src, |t.tools|)
  {
    hide CanWrite, DescriptorsOf, AllWrites, WritesOf, ErrorFor;
    assert !ToolGoesThrough(t, d, src, n);
  }

  /** Propagation fails in one way only. */
  lemma FailsUnique(t: Targets, d: Descriptors, src: Source, e: PropagateError, writes: seq<Write>, n: nat, k: nat,
                    f: PropagateError, others: seq<Write>, m: nat, l: nat)
    requires IsSource(src)
    requires PropagationFails(t, d, src, e, writes, n, k) && PropagationFails(t, d, src, f, others, m, l)
    ensures e == f && writes == others
  {
    hide CanWrite, DescriptorsOf, AllWrites, WritesOf, ErrorFor, ToolGoesThrough;
    if !Mismatch(t) {
      FailsAt(t, d, src, e, writes, n, k);
      FailsAt(t, d, src, f, others, m, l);
      hide PropagationFails;
      SameTool(t, d, src, e, writes, n, k, f, others, m, l);
      SameDescriptor(t, d, src, e, writes, n, k, f, others, l);
    }
  }

  lemma SameTool(t: Targets, d: Descriptors, src: Source, e: PropagateError, writes: seq<Write>, n: nat, k: nat,
                 f: PropagateError, others: seq<Write>, m: nat, l: nat)
    requires IsSource(src) && !Mismatch(t) && n < |t.tools| && m < |t.tools|
    requires PropagationFails(t, d, src, e, writes, n, k) && PropagationFails(t, d, src, f, others, m, l)
    requires !ToolGoesThrough(t, d, src, n) && !ToolGoesThrough(t, d, src, m)
    ensures n == m
  {
    hide CanWrite, DescriptorsOf, AllWrites, WritesOf, ErrorFor, ToolGoesThrough;
    assert AllGoThrough(t, d, src, n) && AllGoThrough(t, d, src, m);
  }

  lemma SameDescriptor(t: Targets, d: Descriptors, src: Source, e: PropagateError, writes: seq<Write>, n: nat, k: nat,
                       f: PropagateError, others: seq<Write>, l: nat)
    requires IsSource(src) && !Mismatch(t)
    requires PropagationFails(t, d, src, e, writes, n, k) && PropagationFails(t, d, src, f, others, n, l)
    ensures e == f && writes == others
  {
    hide CanWrite, DescriptorsOf, AllWrites, WritesOf, ErrorFor, AllGoThrough;
  }

  /** Half written is not written. */
  lemma HalfIsNotAll(c: RunConfig, w: World, reason: PropagateError, mainVersion: string, writes: seq<Write>)
    requires (w.head.Some? ==> IsCommitID(w.head.value)) && HalfWritten(c, w, reason, mainVersion, writes)
    ensures !Written(c, w)
  {
    hide AllGoThrough, PropagationFails;
    var src := SourceOf(c, w);
    var n, k :| PropagationFails(c.targets, w.descriptors, src, reason, writes, n, k);
    if !Mismatch(c.targets) {
      FailsAt(c.targets, w.descriptors, src, reason, writes, n, k);
    }
  }

  lemma HalfDetermined(c: RunConfig, w: World, e: PropagateError, v: string, writes: seq<Write>, f: PropagateError, u: string, others: seq<Write>)
    requires w.head.Some? ==> IsCommitID(w.head.value)
    requires HalfWritten(c, w, e, v, writes) && HalfWritten(c, w, f, u, others)
    ensures e == f && v == u && writes == others
  {
    hide PropagationFails;
    var src := SourceOf(c, w);
    var n, k :| PropagationFails(c.targets, w.descriptors, src, e, writes, n, k);
    var m, l :| PropagationFails(c.targets, w.descriptors, src, f, others, m, l);
    FailsUnique(c.targets, w.descriptors, src, e, writes, n, k, f, others, m, l);
  }

  /** Configuration and answers determine the result and what is left in the descriptors. */
  lemma ResultDetermined(a: StepResult, b: StepResult, c: RunConfig, w: World, remotes: map<string, Tagging.RemoteConfig>,
                         tags: map<string, string>, v: string, writes: seq<Write>, u: string, others: seq<Write>)
    requires w.head.Some? ==> IsCommitID(w.head.value)
    requires Explains(a, c, w, remotes, tags, v, writes) && Explains(b, c, w, remotes, tags, u, others)
    ensures a == b && v == u && writes == others
  {
    hide HalfWritten, AllWrites, AllGoThrough, PushEnd, NewVersion;
    forall e, x, y | HalfWritten(c, w, e, x, y) ensures !Written(c, w) && Prepared(c, w) && !MainFails(c, w) {
      HalfIsNotAll(c, w, e, x, y);
      HalfHolds(c, w, e, x, y);
    }
    if a.NotPropagated? && b.NotPropagated? {
      HalfDetermined(c, w, a.reason, v, writes, b.reason, u, others);
    }
  }

  lemma HalfHolds(c: RunConfig, w: World, reason: PropagateError, mainVersion: string, writes: seq<Write>)
    requires (w.head.Some? ==> IsCommitID(w.head.value)) && HalfWritten(c, w, reason, mainVersion, writes)
    ensures Prepared(c, w) && !MainFails(c, w)
  {
  }
}
