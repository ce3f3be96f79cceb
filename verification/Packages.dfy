/** The records the add-on steps hand to each other, and the log of the calls they send. */
module Packages {

  /** Delivery package status: "C", "P", "L", "R", or whatever else the registry answers. */
  datatype Status = CreationTriggered | Planned | Locked | Released | OtherStatus(text: string)

  /** One entry of the add-on descriptor. `key` stands for its identity: the fields from
      addon.yml that no step ever writes. */
  datatype Repository = Repository(
    key: nat,
    name: string,
    useClassicCTS: bool,
    commitID: string,
    versionYAML: string,
    version: string,
    spLevel: string,
    packageName: string,
    packageType: string,
    predecessorCommitID: string,
    status: Status,
    nspace: string,
    sarXMLFilePath: string,
    inBuildScope: bool,
    errorText: string)

  datatype Package = Package(
    componentName: string,
    versionYAML: string,
    packageName: string,
    packageType: string,
    predecessorCommitID: string,
    commitID: string,
    status: Status,
    nspace: string)

  datatype PackageWithRepository = PackageWithRepository(package: Package, repo: Repository)

  function InitPackage(repo: Repository): Package {
    Package(repo.name, repo.versionYAML, repo.packageName, "", "", "", repo.status, "")
  }

  function CopyFieldsToRepo(p: Package, repo: Repository): Repository {
    repo.(packageName := p.packageName,
          packageType := p.packageType,
          predecessorCommitID := p.predecessorCommitID,
          status := p.status,
          nspace := p.nspace)
  }

  function ChangeStatus(p: Package, repo: Repository): Repository {
    repo.(status := p.status)
  }

  /** The registry writes "//" for a package without namespace. */
  function SetNamespace(nspace: string): string {
    if nspace == "//" then "" else nspace
  }

  // ---------------------------------------------------------------- calls

  datatype Kind =
    | ReserveNext | GetPackage
    | StartBuild
    | UploadSar
    | RegisterPackage
    | ReleasePackage
    | ConfirmBuild

  /** One call sent to the package registry or the build framework. Every operation returns the
      calls it sends, oldest first. */
  datatype Call = Call(kind: Kind, key: nat)

  /** How often a call was sent. */
  function Count(calls: seq<Call>, c: Call): nat {
    multiset(calls)[c]
  }

  lemma CountConcat(a: seq<Call>, b: seq<Call>, c: Call)
    ensures Count(a + b, c) == Count(a, c) + Count(b, c)
  {
  }

  lemma CountOne(c: Call, d: Call)
    ensures Count([c], d) == if c == d then 1 else 0
  {
  }

  lemma CountZero(calls: seq<Call>, c: Call)
    ensures Count(calls, c) == 0 <==> c !in calls
  {
    assert c in calls <==> c in multiset(calls);
  }

  // ---------------------------------------------------------------- lists of repositories

  ghost predicate DistinctKeys(repos: seq<Repository>) {
    forall i, j :: 0 <= i < j < |repos| ==> repos[i].key != repos[j].key
  }

  /** The calls of one kind, in list order, for those among the first `n` entries that `asked` selects. */
  function Selected(kind: Kind, repos: seq<Repository>, n: nat, asked: Repository -> bool): seq<Call>
    requires n <= |repos|
  {
    if n == 0 then []
    else if asked(repos[n - 1]) then Selected(kind, repos, n - 1, asked) + [Call(kind, repos[n - 1].key)]
    else Selected(kind, repos, n - 1, asked)
  }

  /** A call is sent for a key exactly when some selected entry carries that key. */
  lemma {:induction false} SelectedContains(kind: Kind, repos: seq<Repository>, n: nat, asked: Repository -> bool, c: Call)
    requires n <= |repos|
    ensures c in Selected(kind, repos, n, asked)
       <==> c.kind == kind && exists i :: 0 <= i < n && repos[i].key == c.key && asked(repos[i])
  {
    if n > 0 {
      SelectedContains(kind, repos, n - 1, asked, c);
    }
  }

  lemma SelectedKind(kind: Kind, repos: seq<Repository>, n: nat, asked: Repository -> bool)
    requires n <= |repos|
    ensures forall c :: c in Selected(kind, repos, n, asked) ==> c.kind == kind
  {
    forall c | c in Selected(kind, repos, n, asked) ensures c.kind == kind {
      SelectedContains(kind, repos, n, asked, c);
    }
  }

  /** With distinct keys nothing is called twice. */
  lemma {:induction false} SelectedOnce(kind: Kind, repos: seq<Repository>, n: nat, asked: Repository -> bool, c: Call)
    requires n <= |repos| && DistinctKeys(repos)
    ensures Count(Selected(kind, repos, n, asked), c) <= 1
  {
    if n > 0 {
      var before := Selected(kind, repos, n - 1, asked);
      var last := Call(kind, repos[n - 1].key);
      SelectedOnce(kind, repos, n - 1, asked, c);
      CountConcat(before, [last], c);
      CountOne(last, c);
      SelectedContains(kind, repos, n - 1, asked, last);
      CountZero(before, last);
    }
  }

  ghost predicate DistinctPackageKeys(pck: seq<PackageWithRepository>) {
    forall i, j :: 0 <= i < j < |pck| ==> pck[i].repo.key != pck[j].repo.key
  }
}
