/** abapAddonAssemblyKitRegisterPackages: upload the SAR archive of every planned package, then register
    every planned package and take over the status the registry answers. */
module Register {
  import opened Packages

  datatype FileReply = ReadFailed | Content(length: nat)
  datatype RegisterReply = RegisterRejected | Registered(status: Status)

  /** The file system and the registry; `register` and `uploadFails` are indexed by repository key. */
  datatype Registry = Registry(
    read: string -> FileReply,
    uploadFails: nat -> bool,
    register: nat -> RegisterReply)

  // ---------------------------------------------------------------- uploadSarFiles

  datatype UploadError = Uploaded | PathMissing | FileUnreadable | FileEmpty | UploadFailed

  function UploadOf(repo: Repository, reg: Registry): UploadError {
    if repo.status != Planned then Uploaded
    else if repo.sarXMLFilePath == "" then PathMissing
    else match reg.read(repo.sarXMLFilePath)
      case ReadFailed => FileUnreadable
      case Content(length) =>
        if length == 0 then FileEmpty else if reg.uploadFails(repo.key) then UploadFailed else Uploaded
  }

  predicate HasArchive(repo: Repository, reg: Registry) {
    repo.status == Planned && repo.sarXMLFilePath != ""
    && reg.read(repo.sarXMLFilePath).Content? && reg.read(repo.sarXMLFilePath).length > 0
  }

  /** The packages for which an archive is sent. */
  function Uploadable(reg: Registry): Repository -> bool {
    (r: Repository) => HasArchive(r, reg)
  }

  method UploadSarFile(repo: Repository, reg: Registry) returns (error: UploadError, sent: bool)
    ensures error == UploadOf(repo, reg)
    ensures sent <==> HasArchive(repo, reg)
  {
    error, sent := Uploaded, false;
    if repo.status == Planned {
      if repo.sarXMLFilePath == "" {
        return PathMissing, false;
      }
      var file := reg.read(repo.sarXMLFilePath);
      if file.ReadFailed? {
        return FileUnreadable, false;
      }
      if file.length == 0 {
        return FileEmpty, false;
      }
      sent := true;
      if reg.uploadFails(repo.key) {
        error := UploadFailed;
      }
    }
  }

  /** Stops after the first repository whose upload fails; `n` repositories have been looked at. */
  method UploadSarFiles(repos: seq<Repository>, reg: Registry) returns (error: UploadError, calls: seq<Call>, n: nat)
    ensures n <= |repos| && calls == Selected(UploadSar, repos, n, Uploadable(reg))
    ensures error == Uploaded ==> n == |repos| && (n > 0 ==> UploadOf(repos[n - 1], reg) == Uploaded)
    ensures error != Uploaded ==> 0 < n && error == UploadOf(repos[n - 1], reg)
    ensures forall i :: 0 <= i < n - 1 ==> UploadOf(repos[i], reg) == Uploaded
  {
    hide UploadOf, HasArchive;
    error, calls, n := Uploaded, [], 0;
    while n < |repos| && error == Uploaded
      invariant n <= |repos| && calls == Selected(UploadSar, repos, n, Uploadable(reg))
      invariant error != Uploaded ==> 0 < n && error == UploadOf(repos[n - 1], reg)
      invariant forall i :: 0 <= i < (if error == Uploaded then n else n - 1) ==> UploadOf(repos[i], reg) == Uploaded
    {
      var sent;
      error, sent := UploadSarFile(repos[n], reg);
      if sent {
        calls := calls + [Call(UploadSar, repos[n].key)];
      }
      n := n + 1;
    }
  }

  // ---------------------------------------------------------------- registerPackages

  predicate Registers(repo: Repository, reg: Registry) {
    repo.status == Planned ==> repo.packageName != "" && reg.register(repo.key).Registered?
  }

  const Registrable: Repository -> bool := (r: Repository) => r.status == Planned && r.packageName != ""

  function AfterRegister(repo: Repository, reg: Registry): Repository
    requires Registers(repo, reg)
  {
    if repo.status == Planned then repo.(status := reg.register(repo.key).status) else repo
  }

  /** Registers in place; stops at the first package the registry refuses (position `n`). */
  method RegisterPackages(repos: array<Repository>, reg: Registry) returns (ok: bool, calls: seq<Call>, n: nat)
    modifies repos
    ensures n <= repos.Length
    ensures forall i :: 0 <= i < n ==> Registers(old(repos[i]), reg) && repos[i] == AfterRegister(old(repos[i]), reg)
    ensures forall i :: n <= i < repos.Length ==> repos[i] == old(repos[i])
    ensures ok ==> n == repos.Length
    ensures !ok ==> n < repos.Length && !Registers(old(repos[n]), reg)
    ensures calls == Selected(RegisterPackage, old(repos[..]), if ok then n else n + 1, Registrable)
  {
    ghost var start := repos[..];
    ok, calls, n := true, [], 0;
    while n < repos.Length
      invariant n <= repos.Length && ok
      invariant forall i :: 0 <= i < n ==> Registers(start[i], reg) && repos[i] == AfterRegister(start[i], reg)
      invariant forall i :: n <= i < repos.Length ==> repos[i] == start[i]
      invariant calls == Selected(RegisterPackage, start, n, Registrable)
    {
      var pack := InitPackage(repos[n]);
      if repos[n].status == Planned {
        if pack.packageName == "" {
          ok := false;
          return;
        }
        calls := calls + [Call(RegisterPackage, repos[n].key)];
        var reply := reg.register(repos[n].key);
        if reply.RegisterRejected? {
          ok := false;
          return;
        }
        pack := pack.(status := reply.status);
        repos[n] := ChangeStatus(pack, repos[n]);
      }
      n := n + 1;
    }
  }

  // ---------------------------------------------------------------- the step

  datatype RegisterResult =
    | RegisterDone(repos: seq<Repository>)
    | UploadStopped(reason: UploadError)
    | RegisterStopped

  ghost predicate AllRegister(repos: seq<Repository>, reg: Registry) {
    forall i :: 0 <= i < |repos| ==> UploadOf(repos[i], reg) == Uploaded && Registers(repos[i], reg)
  }

  /** The calls of a run: a prefix of the uploads and, only if all uploads went through, a prefix of the
      registrations. */
  ghost predicate RegisterCalls(repos: seq<Repository>, reg: Registry, calls: seq<Call>, n: nat, m: nat) {
    n <= |repos| && m <= |repos| && (m > 0 ==> n == |repos|)
    && calls == Selected(UploadSar, repos, n, Uploadable(reg)) + Selected(RegisterPackage, repos, m, Registrable)
  }

  ghost function RegisteredList(repos: seq<Repository>, reg: Registry): (out: seq<Repository>)
    requires AllRegister(repos, reg)
    ensures |out| == |repos| && forall i :: 0 <= i < |repos| ==> out[i] == AfterRegister(repos[i], reg)
  {
    seq(|repos|, i requires 0 <= i < |repos| => AfterRegister(repos[i], reg))
  }

  /** The first n archives are uploaded. */
  ghost predicate AllUploaded(repos: seq<Repository>, reg: Registry, n: nat)
    requires n <= |repos|
  {
    forall i :: 0 <= i < n ==> UploadOf(repos[i], reg) == Uploaded
  }

  /** The first n packages are registered. */
  ghost predicate AllRegistered(repos: seq<Repository>, reg: Registry, n: nat)
    requires n <= |repos|
  {
    forall i :: 0 <= i < n ==> Registers(repos[i], reg)
  }

  /** What the ends of the step mean: the first upload or, after all of them, registration that fails; and the
      calls sent until then. */
  ghost predicate Explains(result: RegisterResult, repos: seq<Repository>, reg: Registry, calls: seq<Call>) {
    match result
    case UploadStopped(reason) =>
      exists k :: 0 <= k < |repos| && AllUploaded(repos, reg, k) && reason == UploadOf(repos[k], reg) != Uploaded
                  && RegisterCalls(repos, reg, calls, k + 1, 0)
    case RegisterStopped =>
      AllUploaded(repos, reg, |repos|)
      && exists k :: 0 <= k < |repos| && AllRegistered(repos, reg, k) && !Registers(repos[k], reg)
                     && RegisterCalls(repos, reg, calls, |repos|, k + 1)
    case RegisterDone(out) =>
      AllRegister(repos, reg) && out == RegisteredList(repos, reg) && RegisterCalls(repos, reg, calls, |repos|, |repos|)
  }

  method RunRegister(repos: seq<Repository>, reg: Registry)
    returns (result: RegisterResult, calls: seq<Call>, n: nat, m: nat)
    ensures result.RegisterDone? <==> AllRegister(repos, reg)
    ensures result.RegisterDone? ==>
      n == m == |repos| == |result.repos|
      && forall i :: 0 <= i < |repos| ==> result.repos[i] == AfterRegister(repos[i], reg)
    ensures n <= |repos| && RegisterCalls(repos, reg, calls, n, m)
    ensures result.UploadStopped? ==> m == 0 < n && result.reason == UploadOf(repos[n - 1], reg) != Uploaded
    ensures result.RegisterStopped? ==> n == |repos| && 0 < m && !Registers(repos[m - 1], reg)
    ensures forall i :: 0 <= i < n - 1 ==> UploadOf(repos[i], reg) == Uploaded
    ensures forall i :: 0 <= i < m - 1 ==> Registers(repos[i], reg)
    ensures Explains(result, repos, reg, calls)
  {
    hide UploadOf, Selected, HasArchive;
    var error;
    error, calls, n := UploadSarFiles(repos, reg);
    m := 0;
    if error != Uploaded {
      assert Selected(RegisterPackage, repos, 0, Registrable) == [] by { SelectedNone(RegisterPackage, repos, Registrable); }
      return UploadStopped(error), calls, n, m;
    }
    var work := new Repository[|repos|](i requires 0 <= i < |repos| => repos[i]);
    assert work[..] == repos;
    var ok, sent, at := RegisterPackages(work, reg);
    calls := calls + sent;
    m := if ok then at else at + 1;
    result := if ok then RegisterDone(work[..]) else RegisterStopped;
  }

  lemma SelectedNone(kind: Kind, repos: seq<Repository>, asked: Repository -> bool)
    ensures Selected(kind, repos, 0, asked) == []
  {
  }

  // ---------------------------------------------------------------- in the registry's terms

  /** What becomes of an upload, case by case. */
  lemma UploadMeans(repo: Repository, reg: Registry)
    ensures UploadOf(repo, reg) == Uploaded <==>
      repo.status == Planned ==>
        repo.sarXMLFilePath != "" && (exists n :: n > 0 && reg.read(repo.sarXMLFilePath) == Content(n)) && !reg.uploadFails(repo.key)
    ensures UploadOf(repo, reg) == PathMissing <==> repo.status == Planned && repo.sarXMLFilePath == ""
    ensures UploadOf(repo, reg) == FileUnreadable <==>
      repo.status == Planned && repo.sarXMLFilePath != "" && reg.read(repo.sarXMLFilePath) == ReadFailed
    ensures UploadOf(repo, reg) == FileEmpty <==>
      repo.status == Planned && repo.sarXMLFilePath != "" && reg.read(repo.sarXMLFilePath) == Content(0)
    ensures Uploadable(reg)(repo) <==>
      repo.status == Planned && repo.sarXMLFilePath != "" && exists n :: n > 0 && reg.read(repo.sarXMLFilePath) == Content(n)
  {
    var file := reg.read(repo.sarXMLFilePath);
    assert file.Content? ==> file == Content(file.length);
  }

  /** What a repository has got when the step succeeds: the status the registry answers, if it was planned. */
  lemma RegisteredMeans(repos: seq<Repository>, reg: Registry, i: nat)
    requires AllRegister(repos, reg) && i < |repos|
    ensures if repos[i].status == Planned
            then repos[i].packageName != "" && exists status :: reg.register(repos[i].key) == Registered(status)
                                                 && RegisteredList(repos, reg)[i] == repos[i].(status := status)
            else RegisteredList(repos, reg)[i] == repos[i]
  {
    assert Registers(repos[i], reg);
    var reply := reg.register(repos[i].key);
    assert reply.Registered? ==> reply == Registered(reply.status);
    hide UploadOf;
  }

  /** The step fails at registration exactly for a planned package without name or one that is refused. */
  lemma RefusalMeans(repo: Repository, reg: Registry)
    ensures !Registers(repo, reg) <==>
      repo.status == Planned && (repo.packageName == "" || reg.register(repo.key) == RegisterRejected)
    ensures Registrable(repo) <==> repo.status == Planned && repo.packageName != ""
  {
  }
}
