/** The five steps in a row, each on the list of repositories the previous one hands on through the
    common pipeline environment: what holds of every run, and of those in which all steps succeed. */
module Pipeline {
  import opened Packages
  import Reserve
  import Assemble
  import Register
  import Release
  import Confirm

  /** Everything outside: the answers of registry, build framework and file system, and the clocks. */
  datatype World = World(
    reserve: nat -> Reserve.ReserveReply,
    poll: Reserve.PollServer,
    pollTicks: nat,
    assembleConnects: bool,
    assembly: Assemble.Framework,
    envPath: string,
    registry: Register.Registry,
    release: Release.ReleaseServer,
    releaseTicks: nat,
    confirmConnects: bool,
    confirmation: Assemble.Framework,
    confirmTicks: nat)

  /** A run: the list each step hands on (empty if it fails or is not reached) and the calls it sends. */
  datatype Run = Run(
    reserved: seq<Repository>,
    assembled: seq<Repository>,
    registered: seq<Repository>,
    released: seq<Repository>,
    reserveCalls: seq<Call>,
    startCalls: seq<Call>,
    registerCalls: seq<Call>,
    releaseCalls: seq<Call>,
    confirmCalls: seq<Call>)
  {
    function Calls(): seq<Call> {
      reserveCalls + startCalls + registerCalls + releaseCalls + confirmCalls
    }
  }

  // ---------------------------------------------------------------- what links one step to the next

  ghost predicate ReservedFrom(repo: Repository, out: Repository) {
    out.key == repo.key && out.inBuildScope == repo.inBuildScope
    && (out.status == Planned || out.status == Released)
  }

  /** Registering changes nothing but the status of planned packages. */
  ghost predicate RegisteredFrom(repo: Repository, out: Repository) {
    out == repo.(status := out.status) && (repo.status != Planned ==> out == repo)
  }

  ghost predicate ReserveLink(repos: seq<Repository>, out: seq<Repository>) {
    out == [] || (|out| == |repos| && forall i :: 0 <= i < |repos| ==> ReservedFrom(repos[i], out[i]))
  }

  ghost predicate AssembleLink(repos: seq<Repository>, out: seq<Repository>) {
    out == [] || (|out| == |repos| && forall i :: 0 <= i < |repos| ==> Assemble.Continues(repos[i], out[i]))
  }

  ghost predicate RegisterLink(repos: seq<Repository>, out: seq<Repository>) {
    out == [] || (|out| == |repos| && forall i :: 0 <= i < |repos| ==> RegisteredFrom(repos[i], out[i]))
  }

  ghost predicate ReleaseLink(repos: seq<Repository>, out: seq<Repository>, w: World, rounds: nat) {
    out == [] || Release.HandsOn(repos, w.release, rounds, out)
  }

  ghost predicate ReserveSends(calls: seq<Call>) {
    Reserve.OnlyReserveKinds(calls)
  }

  ghost predicate StartSends(repos: seq<Repository>, calls: seq<Call>) {
    calls == [] || calls == Selected(StartBuild, repos, |repos|, Assemble.Startable)
  }

  ghost predicate RegisterSends(repos: seq<Repository>, calls: seq<Call>, w: World) {
    exists n, m :: Register.RegisterCalls(repos, w.registry, calls, n, m)
  }

  ghost predicate ReleaseSends(repos: seq<Repository>, calls: seq<Call>, w: World, rounds: nat) {
    calls == [] || calls == Release.ReleaseCalls(Release.LockedPackages(repos), w.release, rounds)
  }

  ghost predicate ConfirmSends(repos: seq<Repository>, calls: seq<Call>) {
    exists n: nat :: n <= |repos| && calls == Selected(ConfirmBuild, repos, n, Confirm.Confirmable)
  }

  ghost predicate Linked(repos: seq<Repository>, w: World, run: Run, rounds: nat) {
    ReserveLink(repos, run.reserved) && ReserveSends(run.reserveCalls)
    && StartSends(run.reserved, run.startCalls) && AssembleLink(run.reserved, run.assembled)
    && RegisterSends(run.assembled, run.registerCalls, w) && RegisterLink(run.assembled, run.registered)
    && ReleaseSends(run.registered, run.releaseCalls, w, rounds) && ReleaseLink(run.registered, run.released, w, rounds)
    && ConfirmSends(run.released, run.confirmCalls)
  }

  // ---------------------------------------------------------------- following one repository

  /** Up to Register every list keeps the repositories in place. */
  lemma KeysKept(repos: seq<Repository>, w: World, run: Run, rounds: nat)
    requires Linked(repos, w, run, rounds)
    ensures |run.reserved| <= |repos| && |run.assembled| <= |run.reserved| && |run.registered| <= |run.assembled|
    ensures forall i :: 0 <= i < |run.reserved| ==> run.reserved[i].key == repos[i].key
    ensures forall i :: 0 <= i < |run.assembled| ==> run.assembled[i].key == repos[i].key
    ensures forall i :: 0 <= i < |run.registered| ==> run.registered[i].key == repos[i].key
  {
    hide RegisterSends, ReleaseSends, ConfirmSends, StartSends, ReserveSends, ReleaseLink;
  }

  /** Which repository a confirmed one is: the entry of the released list comes from this position. */
  lemma ConfirmedComesFrom(repos: seq<Repository>, w: World, run: Run, rounds: nat, key: nat)
    returns (i: nat, j: nat)
    requires Linked(repos, w, run, rounds) && Call(ConfirmBuild, key) in run.confirmCalls
    ensures i < |run.registered| && run.registered[i].key == key
    ensures j < |run.released| && run.released[j] == Release.Final(run.registered[i], w.release, rounds)
    ensures Confirm.Confirmable(run.released[j]) && run.registered[i].inBuildScope
  {
    hide ReserveLink, AssembleLink, RegisterLink, RegisterSends, ReleaseSends, StartSends, ReserveSends;
    hide Release.HandsOn, Release.ReleasedFor;
    var n: nat :| n <= |run.released| && run.confirmCalls == Selected(ConfirmBuild, run.released, n, Confirm.Confirmable);
    SelectedContains(ConfirmBuild, run.released, n, Confirm.Confirmable, Call(ConfirmBuild, key));
    j :| 0 <= j < n && run.released[j].key == key && Confirm.Confirmable(run.released[j]);
    var perm, _ := Release.Reordering(run.registered, w.release, rounds, run.released);
    i := perm[j];
  }

  // ---------------------------------------------------------------- the log, segment by segment

  /** The stage at which a kind of call is sent. */
  function Stage(kind: Kind): nat {
    match kind
    case ReserveNext => 0
    case GetPackage => 0
    case StartBuild => 1
    case UploadSar => 2
    case RegisterPackage => 3
    case ReleasePackage => 4
    case ConfirmBuild => 5
  }

  ghost predicate Within(calls: seq<Call>, lo: nat, hi: nat) {
    forall c :: c in calls ==> lo <= Stage(c.kind) <= hi
  }

  ghost predicate InOrder(calls: seq<Call>) {
    forall p, q :: 0 <= p < q < |calls| ==> Stage(calls[p].kind) <= Stage(calls[q].kind)
  }

  lemma InOrderConcat(a: seq<Call>, b: seq<Call>, lo: nat, mid: nat, hi: nat)
    requires InOrder(a) && InOrder(b) && Within(a, lo, mid) && Within(b, mid, hi) && lo <= mid <= hi
    ensures InOrder(a + b) && Within(a + b, lo, hi)
  {
    var ab := a + b;
    forall p, q | 0 <= p < q < |ab| ensures Stage(ab[p].kind) <= Stage(ab[q].kind) {
      if p < |a| <= q {
        assert ab[p] == a[p] && a[p] in a && ab[q] == b[q - |a|] && b[q - |a|] in b;
      } else if q < |a| {
        assert ab[p] == a[p] && ab[q] == a[q];
      } else {
        assert ab[p] == b[p - |a|] && ab[q] == b[q - |a|];
      }
    }
  }

  lemma OneStage(calls: seq<Call>, stage: nat)
    requires Within(calls, stage, stage)
    ensures InOrder(calls)
  {
    forall p, q | 0 <= p < q < |calls| ensures Stage(calls[p].kind) <= Stage(calls[q].kind) {
      assert calls[p] in calls && calls[q] in calls;
    }
  }

  lemma RegisterInOrder(repos: seq<Repository>, w: World, calls: seq<Call>)
    requires RegisterSends(repos, calls, w)
    ensures InOrder(calls) && Within(calls, 2, 3)
  {
    var n, m :| Register.RegisterCalls(repos, w.registry, calls, n, m);
    var up := Selected(UploadSar, repos, n, Register.Uploadable(w.registry));
    var reg := Selected(RegisterPackage, repos, m, Register.Registrable);
    SelectedKind(UploadSar, repos, n, Register.Uploadable(w.registry));
    SelectedKind(RegisterPackage, repos, m, Register.Registrable);
    hide Selected;
    OneStage(up, 2);
    OneStage(reg, 3);
    assert Within(reg, 2, 3);
    InOrderConcat(up, reg, 2, 2, 3);
  }

  lemma StartStage(repos: seq<Repository>, calls: seq<Call>)
    requires StartSends(repos, calls)
    ensures InOrder(calls) && Within(calls, 1, 1)
  {
    SelectedKind(StartBuild, repos, |repos|, Assemble.Startable);
    OneStage(calls, 1);
  }

  lemma ReleaseStage(repos: seq<Repository>, w: World, rounds: nat, calls: seq<Call>)
    requires ReleaseSends(repos, calls, w, rounds)
    ensures InOrder(calls) && Within(calls, 4, 4)
  {
    forall c | c in calls ensures Stage(c.kind) == 4 {
      Release.ReleaseCallsKind(Release.LockedPackages(repos), w.release, rounds, c);
    }
    OneStage(calls, 4);
  }

  lemma ConfirmStage(repos: seq<Repository>, calls: seq<Call>)
    requires ConfirmSends(repos, calls)
    ensures InOrder(calls) && Within(calls, 5, 5)
  {
    var n: nat :| n <= |repos| && calls == Selected(ConfirmBuild, repos, n, Confirm.Confirmable);
    SelectedKind(ConfirmBuild, repos, n, Confirm.Confirmable);
    OneStage(calls, 5);
  }

  lemma Stages(repos: seq<Repository>, w: World, run: Run, rounds: nat)
    requires Linked(repos, w, run, rounds)
    ensures Within(run.reserveCalls, 0, 0) && InOrder(run.reserveCalls)
    ensures Within(run.startCalls, 1, 1) && InOrder(run.startCalls)
    ensures Within(run.registerCalls, 2, 3) && InOrder(run.registerCalls)
    ensures Within(run.releaseCalls, 4, 4) && InOrder(run.releaseCalls)
    ensures Within(run.confirmCalls, 5, 5) && InOrder(run.confirmCalls)
  {
    OneStage(run.reserveCalls, 0);
    StartStage(run.reserved, run.startCalls);
    RegisterInOrder(run.assembled, w, run.registerCalls);
    ReleaseStage(run.registered, w, rounds, run.releaseCalls);
    ConfirmStage(run.released, run.confirmCalls);
  }

  /** All builds start before the first upload, all uploads come before the first registration, and so on. */
  lemma CallsInOrder(repos: seq<Repository>, w: World, run: Run, rounds: nat)
    requires Linked(repos, w, run, rounds)
    ensures InOrder(run.Calls())
  {
    Stages(repos, w, run, rounds);
    hide Linked, InOrder;
    InOrderConcat(run.reserveCalls, run.startCalls, 0, 1, 1);
    InOrderConcat(run.reserveCalls + run.startCalls, run.registerCalls, 0, 2, 3);
    InOrderConcat(run.reserveCalls + run.startCalls + run.registerCalls, run.releaseCalls, 0, 4, 4);
    InOrderConcat(run.reserveCalls + run.startCalls + run.registerCalls + run.releaseCalls, run.confirmCalls, 0, 5, 5);
  }

  /** The segment of the log that can hold a call of this kind. */
  function Segment(run: Run, kind: Kind): seq<Call> {
    match kind
    case ReserveNext => run.reserveCalls
    case GetPackage => run.reserveCalls
    case StartBuild => run.startCalls
    case UploadSar => run.registerCalls
    case RegisterPackage => run.registerCalls
    case ReleasePackage => run.releaseCalls
    case ConfirmBuild => run.confirmCalls
  }

  lemma CountInSegment(repos: seq<Repository>, w: World, run: Run, rounds: nat, c: Call)
    requires Linked(repos, w, run, rounds)
    ensures Count(run.Calls(), c) == Count(Segment(run, c.kind), c)
  {
    hide Linked, InOrder, Count, Within;
    Stages(repos, w, run, rounds);
    CountAll(run, c);
    var k := Stage(c.kind);
    if k != 0 { CountOutside(run.reserveCalls, 0, 0, c); }
    if k != 1 { CountOutside(run.startCalls, 1, 1, c); }
    if k != 2 && k != 3 { CountOutside(run.registerCalls, 2, 3, c); }
    if k != 4 { CountOutside(run.releaseCalls, 4, 4, c); }
    if k != 5 { CountOutside(run.confirmCalls, 5, 5, c); }
  }

  lemma CountOutside(calls: seq<Call>, lo: nat, hi: nat, c: Call)
    requires Within(calls, lo, hi) && !(lo <= Stage(c.kind) <= hi)
    ensures Count(calls, c) == 0
  {
    CountZero(calls, c);
  }

  lemma CountAll(run: Run, c: Call)
    ensures Count(run.Calls(), c)
         == Count(run.reserveCalls, c) + Count(run.startCalls, c) + Count(run.registerCalls, c)
            + Count(run.releaseCalls, c) + Count(run.confirmCalls, c)
  {
    hide Count;
    var two := run.reserveCalls + run.startCalls;
    var three := two + run.registerCalls;
    var four := three + run.releaseCalls;
    CountConcat(run.reserveCalls, run.startCalls, c);
    CountConcat(two, run.registerCalls, c);
    CountConcat(three, run.releaseCalls, c);
    CountConcat(four, run.confirmCalls, c);
  }

  // ---------------------------------------------------------------- safety over every run

  lemma StartedIsPlanned(repos: seq<Repository>, w: World, run: Run, rounds: nat, key: nat) returns (i: nat)
    requires Linked(repos, w, run, rounds) && Call(StartBuild, key) in run.startCalls
    ensures i < |run.reserved| <= |repos| && repos[i].key == key && run.reserved[i].status == Planned
  {
    KeysKept(repos, w, run, rounds);
    hide ReserveLink, AssembleLink, RegisterLink, ReleaseLink;
    SelectedContains(StartBuild, run.reserved, |run.reserved|, Assemble.Startable, Call(StartBuild, key));
    i :| 0 <= i < |run.reserved| && run.reserved[i].key == key && Assemble.Startable(run.reserved[i]);
  }

  lemma RegisteredIsPlanned(repos: seq<Repository>, w: World, run: Run, rounds: nat, kind: Kind, key: nat) returns (i: nat)
    requires Linked(repos, w, run, rounds) && Call(kind, key) in run.registerCalls
    ensures i < |run.reserved| <= |repos| && repos[i].key == key && run.reserved[i].status == Planned
  {
    KeysKept(repos, w, run, rounds);
    i := RegisteredWas(run.assembled, w, run.registerCalls, kind, key);
    assert Assemble.Continues(run.reserved[i], run.assembled[i]);
  }

  lemma RegisteredWas(repos: seq<Repository>, w: World, calls: seq<Call>, kind: Kind, key: nat) returns (i: nat)
    requires RegisterSends(repos, calls, w) && Call(kind, key) in calls
    ensures i < |repos| && repos[i].key == key && repos[i].status == Planned
  {
    var n, m :| Register.RegisterCalls(repos, w.registry, calls, n, m);
    var up := Selected(UploadSar, repos, n, Register.Uploadable(w.registry));
    var reg := Selected(RegisterPackage, repos, m, Register.Registrable);
    var c := Call(kind, key);
    SelectedContains(UploadSar, repos, n, Register.Uploadable(w.registry), c);
    SelectedContains(RegisterPackage, repos, m, Register.Registrable, c);
    hide Selected;
    if c in up {
      i :| 0 <= i < n && repos[i].key == key && Register.Uploadable(w.registry)(repos[i]);
    } else {
      i :| 0 <= i < m && repos[i].key == key && Register.Registrable(repos[i]);
    }
  }

  lemma ReleasedIsPlanned(repos: seq<Repository>, w: World, run: Run, rounds: nat, key: nat) returns (i: nat)
    requires Linked(repos, w, run, rounds) && Call(ReleasePackage, key) in run.releaseCalls
    ensures i < |run.reserved| <= |repos| && repos[i].key == key && run.reserved[i].status == Planned
  {
    KeysKept(repos, w, run, rounds);
    i := ReleasedWas(run.registered, w, rounds, Call(ReleasePackage, key));
    assert RegisteredFrom(run.assembled[i], run.registered[i]);
    assert Assemble.Continues(run.reserved[i], run.assembled[i]);
    assert ReservedFrom(repos[i], run.reserved[i]);
  }

  lemma ReleasedWas(repos: seq<Repository>, w: World, rounds: nat, c: Call) returns (i: nat)
    requires c in Release.ReleaseCalls(Release.LockedPackages(repos), w.release, rounds)
    ensures i < |repos| && repos[i].key == c.key && repos[i].status == Locked
  {
    var pck := Release.LockedPackages(repos);
    Release.ReleaseCallsKind(pck, w.release, rounds, c);
    var k :| 0 <= k < |pck| && pck[k].repo.key == c.key;
    Release.KeptAt(repos, |repos|, Release.IsLocked, k);
    i := Release.Kept(repos, |repos|, Release.IsLocked)[k];
  }

  /** Every build start, upload, registration and release call goes to a package that was planned when
      Reserve ended, whatever the outside answers and wherever the run ends. */
  lemma CalledIsPlanned(repos: seq<Repository>, w: World, run: Run, rounds: nat, kind: Kind, key: nat) returns (i: nat)
    requires Linked(repos, w, run, rounds) && Call(kind, key) in run.Calls() && 1 <= Stage(kind) <= 4
    ensures i < |run.reserved| <= |repos| && repos[i].key == key && run.reserved[i].status == Planned
  {
    var c := Call(kind, key);
    CountInSegment(repos, w, run, rounds, c);
    CountZero(run.Calls(), c);
    CountZero(Segment(run, kind), c);
    hide Linked;
    match kind
    case StartBuild => i := StartedIsPlanned(repos, w, run, rounds, key);
    case ReleasePackage => i := ReleasedIsPlanned(repos, w, run, rounds, key);
    case _ => i := RegisteredIsPlanned(repos, w, run, rounds, kind, key);
  }

  /** A confirmation is started only for a package that is released by then and that was either planned
      when Reserve ended or marked as in build scope from the very beginning. */
  lemma ConfirmedIsReleased(repos: seq<Repository>, w: World, run: Run, rounds: nat, key: nat) returns (i: nat, j: nat)
    requires Linked(repos, w, run, rounds) && Call(ConfirmBuild, key) in run.Calls()
    ensures i < |run.reserved| <= |repos| && repos[i].key == key
    ensures run.reserved[i].status == Planned || repos[i].inBuildScope
    ensures j < |run.released| && run.released[j].key == key && run.released[j].status == Released
  {
    var c := Call(ConfirmBuild, key);
    CountInSegment(repos, w, run, rounds, c);
    CountZero(run.Calls(), c);
    CountZero(run.confirmCalls, c);
    KeysKept(repos, w, run, rounds);
    i, j := ConfirmedComesFrom(repos, w, run, rounds, key);
    assert RegisteredFrom(run.assembled[i], run.registered[i]);
    assert Assemble.Continues(run.reserved[i], run.assembled[i]);
    assert ReservedFrom(repos[i], run.reserved[i]);
  }

  ghost predicate NoCall(run: Run, kind: Kind, key: nat) {
    Call(kind, key) !in run.Calls()
  }

  /** A package that is released when Reserve ends is neither built, uploaded, registered nor released
      again; it is confirmed at most if it was in build scope from the very beginning. */
  lemma ReleasedUntouched(repos: seq<Repository>, w: World, run: Run, rounds: nat, i: nat)
    requires Linked(repos, w, run, rounds) && DistinctKeys(repos)
    requires i < |run.reserved| <= |repos| && run.reserved[i].status == Released
    ensures forall kind :: 1 <= Stage(kind) <= 4 ==> NoCall(run, kind, repos[i].key)
    ensures !repos[i].inBuildScope ==> NoCall(run, ConfirmBuild, repos[i].key)
  {
    hide Linked;
    var key := repos[i].key;
    forall kind | 1 <= Stage(kind) <= 4 ensures NoCall(run, kind, key) {
      if Call(kind, key) in run.Calls() {
        var j := CalledIsPlanned(repos, w, run, rounds, kind, key);
      }
    }
    if Call(ConfirmBuild, key) in run.Calls() {
      var j, _ := ConfirmedIsReleased(repos, w, run, rounds, key);
    }
  }

  lemma KeysDistinct(repos: seq<Repository>, w: World, run: Run, rounds: nat)
    requires Linked(repos, w, run, rounds) && DistinctKeys(repos)
    ensures DistinctKeys(run.reserved) && DistinctKeys(run.assembled) && DistinctKeys(run.released)
  {
    KeysKept(repos, w, run, rounds);
    if run.released != [] {
      ReleasedDistinct(run.registered, w, rounds, run.released);
    }
  }

  lemma ReleasedDistinct(repos: seq<Repository>, w: World, rounds: nat, out: seq<Repository>)
    requires DistinctKeys(repos) && Release.HandsOn(repos, w.release, rounds, out)
    ensures DistinctKeys(out)
  {
    hide Release.HandsOn, Release.ReleasedFor;
    var perm, _ := Release.Reordering(repos, w.release, rounds, out);
    forall j, k | 0 <= j < k < |out| ensures out[j].key != out[k].key {
      assert out[j].key == repos[perm[j]].key && out[k].key == repos[perm[k]].key;
      assert perm[j] != perm[k];
    }
  }

  lemma RegisterOnce(repos: seq<Repository>, w: World, calls: seq<Call>, kind: Kind, key: nat)
    requires RegisterSends(repos, calls, w) && DistinctKeys(repos) && (kind == UploadSar || kind == RegisterPackage)
    ensures Count(calls, Call(kind, key)) <= 1
  {
    var n, m :| Register.RegisterCalls(repos, w.registry, calls, n, m);
    var c := Call(kind, key);
    var up := Selected(UploadSar, repos, n, Register.Uploadable(w.registry));
    var reg := Selected(RegisterPackage, repos, m, Register.Registrable);
    SelectedOnce(UploadSar, repos, n, Register.Uploadable(w.registry), c);
    SelectedOnce(RegisterPackage, repos, m, Register.Registrable, c);
    SelectedKind(UploadSar, repos, n, Register.Uploadable(w.registry));
    SelectedKind(RegisterPackage, repos, m, Register.Registrable);
    CountZero(up, c);
    CountZero(reg, c);
    hide Count, Selected;
    CountConcat(up, reg, c);
  }

  /** No build is started or confirmed twice, no archive uploaded and no package registered twice. */
  lemma NothingTwice(repos: seq<Repository>, w: World, run: Run, rounds: nat, kind: Kind, key: nat)
    requires Linked(repos, w, run, rounds) && DistinctKeys(repos)
    requires kind == StartBuild || kind == UploadSar || kind == RegisterPackage || kind == ConfirmBuild
    ensures Count(run.Calls(), Call(kind, key)) <= 1
  {
    var c := Call(kind, key);
    CountInSegment(repos, w, run, rounds, c);
    KeysDistinct(repos, w, run, rounds);
    CountZero(Segment(run, kind), c);
    hide Count, ReserveLink, AssembleLink, RegisterLink, ReleaseLink, DistinctKeys;
    match kind
    case StartBuild =>
      SelectedOnce(StartBuild, run.reserved, |run.reserved|, Assemble.Startable, c);
    case ConfirmBuild =>
      var n: nat :| n <= |run.released| && run.confirmCalls == Selected(ConfirmBuild, run.released, n, Confirm.Confirmable);
      SelectedOnce(ConfirmBuild, run.released, n, Confirm.Confirmable, c);
    case _ =>
      RegisterOnce(run.assembled, w, run.registerCalls, kind, key);
  }

  // ---------------------------------------------------------------- completed runs

  /** What the five steps establish when all of them succeed. */
  ghost predicate Succeeded(repos: seq<Repository>, w: World, run: Run, rounds: nat) {
    Linked(repos, w, run, rounds)
    && |run.reserved| == |run.assembled| == |run.registered| == |repos|
    && Assemble.AllSucceed(run.reserved, w.assembly)
    && (forall i :: 0 <= i < |repos| ==> run.assembled[i] == Assemble.HandedOn(run.reserved[i], w.assembly, w.envPath))
    && run.startCalls == Selected(StartBuild, run.reserved, |repos|, Assemble.Startable)
    && Register.AllRegister(run.assembled, w.registry)
    && Register.RegisterCalls(run.assembled, w.registry, run.registerCalls, |repos|, |repos|)
    && Release.HandsOn(run.registered, w.release, rounds, run.released)
    && Confirm.AllConfirmable(run.released, w.confirmation)
    && run.confirmCalls == Selected(ConfirmBuild, run.released, |run.released|, Confirm.Confirmable)
  }

  /** Where a repository is after the Release step. */
  lemma FinalPlace(repos: seq<Repository>, w: World, run: Run, rounds: nat, i: nat) returns (j: nat)
    requires Succeeded(repos, w, run, rounds) && i < |repos|
    ensures j < |run.released| && run.released[j] == Release.Final(run.registered[i], w.release, rounds)
    ensures run.released[j].key == repos[i].key
  {
    KeysKept(repos, w, run, rounds);
    var perm, _ := Release.Reordering(run.registered, w.release, rounds, run.released);
    assert i in perm;
    j :| 0 <= j < |perm| && perm[j] == i;
  }

  lemma PlannedStarted(repos: seq<Repository>, w: World, run: Run, rounds: nat, i: nat)
    requires Succeeded(repos, w, run, rounds) && i < |repos| && run.reserved[i].status == Planned
    ensures Call(StartBuild, repos[i].key) in run.startCalls
  {
    KeysKept(repos, w, run, rounds);
    SelectedContains(StartBuild, run.reserved, |repos|, Assemble.Startable, Call(StartBuild, repos[i].key));
    assert Assemble.BuiltWell(run.reserved[i], w.assembly);
    assert Assemble.Startable(run.reserved[i]);
  }

  lemma StaysPlanned(repos: seq<Repository>, w: World, run: Run, rounds: nat, i: nat)
    requires Succeeded(repos, w, run, rounds) && i < |repos| && run.reserved[i].status == Planned
    ensures run.assembled[i].status == Planned && run.assembled[i].key == repos[i].key
  {
    KeysKept(repos, w, run, rounds);
    hide Linked, Assemble.DownloadPath;
  }

  lemma RegisteredSent(repos: seq<Repository>, reg: Register.Registry, calls: seq<Call>, i: nat)
    requires Register.AllRegister(repos, reg) && Register.RegisterCalls(repos, reg, calls, |repos|, |repos|)
    requires i < |repos| && repos[i].status == Planned
    ensures Call(UploadSar, repos[i].key) in calls && Call(RegisterPackage, repos[i].key) in calls
  {
    var key := repos[i].key;
    SelectedContains(UploadSar, repos, |repos|, Register.Uploadable(reg), Call(UploadSar, key));
    SelectedContains(RegisterPackage, repos, |repos|, Register.Registrable, Call(RegisterPackage, key));
    assert Register.UploadOf(repos[i], reg) == Register.Uploaded && Register.Registers(repos[i], reg);
    hide Selected;
    assert Register.Uploadable(reg)(repos[i]) && Register.Registrable(repos[i]);
  }

  lemma PlannedRegistered(repos: seq<Repository>, w: World, run: Run, rounds: nat, i: nat)
    requires Succeeded(repos, w, run, rounds) && i < |repos| && run.reserved[i].status == Planned
    ensures Call(UploadSar, repos[i].key) in run.registerCalls && Call(RegisterPackage, repos[i].key) in run.registerCalls
  {
    StaysPlanned(repos, w, run, rounds, i);
    hide Linked, Register.AllRegister, Register.RegisterCalls;
    RegisteredSent(run.assembled, w.registry, run.registerCalls, i);
  }

  lemma PlannedConfirmed(repos: seq<Repository>, w: World, run: Run, rounds: nat, i: nat) returns (j: nat)
    requires Succeeded(repos, w, run, rounds) && i < |repos| && run.reserved[i].status == Planned
    ensures Call(ConfirmBuild, repos[i].key) in run.confirmCalls
    ensures j < |run.released| && run.released[j].key == repos[i].key && run.released[j].status == Released
  {
    j := FinalPlace(repos, w, run, rounds, i);
    assert run.assembled[i].inBuildScope && RegisteredFrom(run.assembled[i], run.registered[i]);
    assert run.released[j].inBuildScope;
    assert Confirm.Confirmable(run.released[j]);
    SelectedContains(ConfirmBuild, run.released, |run.released|, Confirm.Confirmable, Call(ConfirmBuild, repos[i].key));
  }

  /** In a completed run every planned package went through all stages exactly once and is released. */
  lemma PlannedDelivered(repos: seq<Repository>, w: World, run: Run, rounds: nat, i: nat) returns (j: nat)
    requires Succeeded(repos, w, run, rounds) && DistinctKeys(repos) && i < |repos| && run.reserved[i].status == Planned
    ensures Count(run.Calls(), Call(StartBuild, repos[i].key)) == 1
    ensures Count(run.Calls(), Call(UploadSar, repos[i].key)) == 1
    ensures Count(run.Calls(), Call(RegisterPackage, repos[i].key)) == 1
    ensures Count(run.Calls(), Call(ConfirmBuild, repos[i].key)) == 1
    ensures j < |run.released| && run.released[j].key == repos[i].key && run.released[j].status == Released
  {
    hide Linked, Count, DistinctKeys;
    PlannedStarted(repos, w, run, rounds, i);
    PlannedRegistered(repos, w, run, rounds, i);
    j := PlannedConfirmed(repos, w, run, rounds, i);
    ExactlyOnce(repos, w, run, rounds, StartBuild, repos[i].key);
    ExactlyOnce(repos, w, run, rounds, UploadSar, repos[i].key);
    ExactlyOnce(repos, w, run, rounds, RegisterPackage, repos[i].key);
    ExactlyOnce(repos, w, run, rounds, ConfirmBuild, repos[i].key);
  }

  lemma ExactlyOnce(repos: seq<Repository>, w: World, run: Run, rounds: nat, kind: Kind, key: nat)
    requires Linked(repos, w, run, rounds) && DistinctKeys(repos)
    requires kind == StartBuild || kind == UploadSar || kind == RegisterPackage || kind == ConfirmBuild
    requires Call(kind, key) in Segment(run, kind)
    ensures Count(run.Calls(), Call(kind, key)) == 1
  {
    NothingTwice(repos, w, run, rounds, kind, key);
    CountInSegment(repos, w, run, rounds, Call(kind, key));
    CountZero(Segment(run, kind), Call(kind, key));
  }

  /** In a completed run a package that was released all along still is, and was not touched. */
  lemma ReleasedStays(repos: seq<Repository>, w: World, run: Run, rounds: nat, i: nat) returns (j: nat)
    requires Succeeded(repos, w, run, rounds) && i < |repos| && run.reserved[i].status == Released
    ensures j < |run.released| && run.released[j] == run.reserved[i]
  {
    j := FinalPlace(repos, w, run, rounds, i);
    assert RegisteredFrom(run.assembled[i], run.registered[i]);
    assert Assemble.Continues(run.reserved[i], run.assembled[i]);
  }

  /** In a completed run a package that was released all along is confirmed if and only if it was marked
      as in build scope from the very beginning. */
  lemma ReleasedConfirmed(repos: seq<Repository>, w: World, run: Run, rounds: nat, i: nat)
    requires Succeeded(repos, w, run, rounds) && DistinctKeys(repos) && i < |repos| && run.reserved[i].status == Released
    ensures Call(ConfirmBuild, repos[i].key) in run.Calls() <==> repos[i].inBuildScope
  {
    var c := Call(ConfirmBuild, repos[i].key);
    KeysKept(repos, w, run, rounds);
    assert ReservedFrom(repos[i], run.reserved[i]);
    if repos[i].inBuildScope {
      var j := ReleasedStays(repos, w, run, rounds, i);
      assert Confirm.Confirmable(run.released[j]);
      SelectedContains(ConfirmBuild, run.released, |run.released|, Confirm.Confirmable, c);
      CountInSegment(repos, w, run, rounds, c);
      CountZero(run.confirmCalls, c);
      CountZero(run.Calls(), c);
    } else {
      ReleasedUntouched(repos, w, run, rounds, i);
    }
  }
}
