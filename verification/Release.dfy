/** abapAddonAssemblyKitReleasePackages: release every locked package, poll until all releases have been
    accepted or time is up, and go on if at least one package is released. */
module Release {
  import opened Packages

  datatype ReleaseReply = ReleaseRefused | Answered(status: Status)

  /** What the registry answers to a release call at a tick for a key, if it is called. */
  type ReleaseServer = (nat, nat) -> ReleaseReply

  // ---------------------------------------------------------------- one package on its own

  function ReleaseOnce(p: PackageWithRepository, reply: ReleaseReply): PackageWithRepository {
    if p.package.status == Released || reply.ReleaseRefused? then p
    else p.(package := p.package.(status := reply.status))
  }

  /** One package after t ticks: every package evolves independently of the others. */
  function ReleasedFor(p: PackageWithRepository, s: ReleaseServer, t: nat): (q: PackageWithRepository)
    ensures q.repo == p.repo
  {
    if t == 0 then p else ReleaseOnce(ReleasedFor(p, s, t - 1), s(t - 1, p.repo.key))
  }

  /** At tick t the package needs no further call: it is released, or its release call is answered,
      with whatever status. */
  predicate Settled(p: PackageWithRepository, s: ReleaseServer, t: nat) {
    ReleasedFor(p, s, t).package.status == Released || s(t, p.repo.key).Answered?
  }

  /** The number of release calls sent for a package in the first t ticks. */
  function Attempts(p: PackageWithRepository, s: ReleaseServer, t: nat): nat {
    if t == 0 then 0
    else Attempts(p, s, t - 1) + if ReleasedFor(p, s, t - 1).package.status == Released then 0 else 1
  }

  lemma {:induction false} ReleasedAbsorbs(p: PackageWithRepository, s: ReleaseServer, t: nat, u: nat)
    requires t <= u && ReleasedFor(p, s, t).package.status == Released
    ensures ReleasedFor(p, s, u) == ReleasedFor(p, s, t)
    ensures Attempts(p, s, u) == Attempts(p, s, t)
  {
    if t < u { ReleasedAbsorbs(p, s, t, u - 1); }
  }

  // ---------------------------------------------------------------- releaseAndPoll

  ghost predicate AllReleasedFor(pck: seq<PackageWithRepository>, start: seq<PackageWithRepository>, s: ReleaseServer, t: nat) {
    |pck| == |start| && forall i :: 0 <= i < |pck| ==> pck[i] == ReleasedFor(start[i], s, t)
  }

  ghost predicate AllSettled(start: seq<PackageWithRepository>, n: nat, s: ReleaseServer, t: nat)
    requires n <= |start|
  {
    forall i :: 0 <= i < n ==> Settled(start[i], s, t)
  }

  /** The calls of tick t to the first n packages. */
  function TickCalls(start: seq<PackageWithRepository>, n: nat, s: ReleaseServer, t: nat): seq<Call>
    requires n <= |start|
  {
    if n == 0 then []
    else if ReleasedFor(start[n - 1], s, t).package.status == Released then TickCalls(start, n - 1, s, t)
    else TickCalls(start, n - 1, s, t) + [Call(ReleasePackage, start[n - 1].repo.key)]
  }

  function ReleaseCalls(start: seq<PackageWithRepository>, s: ReleaseServer, t: nat): seq<Call> {
    if t == 0 then [] else ReleaseCalls(start, s, t - 1) + TickCalls(start, |start|, s, t - 1)
  }

  ghost predicate Swept(pck: seq<PackageWithRepository>, start: seq<PackageWithRepository>, s: ReleaseServer, t: nat, i: nat) {
    |pck| == |start| && i <= |start|
    && (forall j :: 0 <= j < i ==> pck[j] == ReleasedFor(start[j], s, t + 1))
    && (forall j :: i <= j < |start| ==> pck[j] == ReleasedFor(start[j], s, t))
  }

  lemma SweptStep(pck: seq<PackageWithRepository>, start: seq<PackageWithRepository>, s: ReleaseServer, t: nat, i: nat)
    requires Swept(pck, start, s, t, i) && i < |start|
    ensures pck[i] == ReleasedFor(start[i], s, t) && pck[i].repo == start[i].repo
    ensures Swept(pck[i := ReleaseOnce(pck[i], s(t, start[i].repo.key))], start, s, t, i + 1)
  {
  }

  /** A release call for one package, unless it is released already. */
  method ReleasePackageOnce(p: PackageWithRepository, reply: ReleaseReply)
    returns (q: PackageWithRepository, asked: bool, settled: bool)
    ensures q == ReleaseOnce(p, reply)
    ensures asked <==> p.package.status != Released
    ensures settled <==> p.package.status == Released || reply.Answered?
  {
    q, asked, settled := p, false, true;
    if p.package.status != Released {
      asked := true;
      if reply.ReleaseRefused? {
        settled := false;
      } else {
        q := p.(package := p.package.(status := reply.status));
      }
    }
  }

  /** One tick: a release call for every package not yet released. */
  method ReleaseTick(pck: array<PackageWithRepository>, s: ReleaseServer, t: nat, ghost start: seq<PackageWithRepository>)
    returns (finished: bool, calls: seq<Call>)
    requires AllReleasedFor(pck[..], start, s, t)
    modifies pck
    ensures AllReleasedFor(pck[..], start, s, t + 1)
    ensures finished <==> AllSettled(start, |start|, s, t)
    ensures calls == TickCalls(start, |start|, s, t)
  {
    hide ReleasedFor, ReleaseOnce;
    finished, calls := true, [];
    var i := 0;
    while i < pck.Length
      invariant 0 <= i <= pck.Length == |start|
      invariant Swept(pck[..], start, s, t, i)
      invariant finished <==> AllSettled(start, i, s, t)
      invariant calls == TickCalls(start, i, s, t)
    {
      SweptStep(pck[..], start, s, t, i);
      var q, asked, settled := ReleasePackageOnce(pck[i], s(t, pck[i].repo.key));
      if asked {
        calls := calls + [Call(ReleasePackage, pck[i].repo.key)];
      }
      pck[i] := q;
      finished := finished && settled;
      i := i + 1;
    }
  }

  /** The first r ticks left some release call unanswered. */
  ghost predicate Pending(start: seq<PackageWithRepository>, s: ReleaseServer, r: nat) {
    forall t :: 0 <= t < r ==> !AllSettled(start, |start|, s, t)
  }

  /** `rounds` ticks are gone through: up to and including the first settled one, or all before the timeout. */
  method ReleaseAndPoll(pck: array<PackageWithRepository>, s: ReleaseServer, ticks: nat)
    returns (timedOut: bool, calls: seq<Call>, rounds: nat)
    modifies pck
    ensures AllReleasedFor(pck[..], old(pck[..]), s, rounds) && calls == ReleaseCalls(old(pck[..]), s, rounds)
    ensures timedOut ==> rounds == ticks && Pending(old(pck[..]), s, ticks)
    ensures !timedOut ==> 0 < rounds <= ticks && Pending(old(pck[..]), s, rounds - 1)
                          && AllSettled(old(pck[..]), pck.Length, s, rounds - 1)
  {
    hide ReleasedFor, TickCalls, AllSettled;
    ghost var start := pck[..];
    ReleaseStart(start, s);
    timedOut, calls, rounds := true, [], 0;
    while rounds < ticks && timedOut
      invariant rounds <= ticks
      invariant AllReleasedFor(pck[..], start, s, rounds)
      invariant calls == ReleaseCalls(start, s, rounds)
      invariant timedOut ==> Pending(start, s, rounds)
      invariant !timedOut ==> 0 < rounds && Pending(start, s, rounds - 1) && AllSettled(start, |start|, s, rounds - 1)
    {
      var finished, sent := ReleaseTick(pck, s, rounds, start);
      calls, rounds, timedOut := calls + sent, rounds + 1, !finished;
    }
  }

  lemma ReleaseStart(start: seq<PackageWithRepository>, s: ReleaseServer)
    ensures AllReleasedFor(start, start, s, 0)
  {
  }

  /** A package gets exactly as many release calls as there are ticks at which it was not yet released. */
  lemma {:induction false} AttemptsCounted(start: seq<PackageWithRepository>, s: ReleaseServer, t: nat, i: nat)
    requires DistinctPackageKeys(start) && i < |start|
    ensures Count(ReleaseCalls(start, s, t), Call(ReleasePackage, start[i].repo.key)) == Attempts(start[i], s, t)
  {
    hide TickCalls, ReleasedFor, DistinctPackageKeys, Count;
    var c := Call(ReleasePackage, start[i].repo.key);
    if t > 0 {
      AttemptsCounted(start, s, t - 1, i);
      TickCallsOnce(start, |start|, s, t - 1, i);
      CountConcat(ReleaseCalls(start, s, t - 1), TickCalls(start, |start|, s, t - 1), c);
    } else {
      CountZero([], c);
    }
  }

  lemma {:induction false} TickCallsOnce(start: seq<PackageWithRepository>, n: nat, s: ReleaseServer, t: nat, i: nat)
    requires DistinctPackageKeys(start) && i < n <= |start|
    ensures Count(TickCalls(start, n, s, t), Call(ReleasePackage, start[i].repo.key))
         == if ReleasedFor(start[i], s, t).package.status == Released then 0 else 1
  {
    hide ReleasedFor, Count;
    var c, last := Call(ReleasePackage, start[i].repo.key), Call(ReleasePackage, start[n - 1].repo.key);
    CountConcat(TickCalls(start, n - 1, s, t), [last], c);
    CountOne(last, c);
    if i < n - 1 {
      TickCallsOnce(start, n - 1, s, t, i);
    } else {
      TickCallsNoOther(start, n - 1, s, t, c);
    }
  }

  lemma {:induction false} TickCallsNoOther(start: seq<PackageWithRepository>, n: nat, s: ReleaseServer, t: nat, c: Call)
    requires n <= |start| && forall j :: 0 <= j < n ==> Call(ReleasePackage, start[j].repo.key) != c
    ensures Count(TickCalls(start, n, s, t), c) == 0
  {
    if n > 0 { TickCallsNoOther(start, n - 1, s, t, c); }
  }

  /** Only packages of the list are ever called. */
  lemma {:induction false} NoOtherReleased(start: seq<PackageWithRepository>, s: ReleaseServer, t: nat, c: Call)
    requires forall j :: 0 <= j < |start| ==> Call(ReleasePackage, start[j].repo.key) != c
    ensures Count(ReleaseCalls(start, s, t), c) == 0
  {
    hide TickCalls, Count;
    if t > 0 {
      NoOtherReleased(start, s, t - 1, c);
      TickCallsNoOther(start, |start|, s, t - 1, c);
      CountConcat(ReleaseCalls(start, s, t - 1), TickCalls(start, |start|, s, t - 1), c);
    } else {
      CountZero([], c);
    }
  }

  /** A release call in the log goes to a package of the list that was not yet released at some tick. */
  lemma {:induction false} ReleaseCallsKind(start: seq<PackageWithRepository>, s: ReleaseServer, t: nat, c: Call)
    requires c in ReleaseCalls(start, s, t)
    ensures c.kind == ReleasePackage && exists i :: 0 <= i < |start| && start[i].repo.key == c.key
  {
    if forall j :: 0 <= j < |start| ==> Call(ReleasePackage, start[j].repo.key) != c {
      NoOtherReleased(start, s, t, c);
      CountZero(ReleaseCalls(start, s, t), c);
      assert false;
    }
  }

  // ---------------------------------------------------------------- sortByStatus, sortingBack

  method CheckInput(repos: seq<Repository>) returns (ok: bool)
    ensures ok <==> forall i :: 0 <= i < |repos| ==> repos[i].packageName != ""
  {
    ok := true;
    for i := 0 to |repos|
      invariant ok && forall j :: 0 <= j < i ==> repos[j].packageName != ""
    {
      if repos[i].packageName == "" {
        return false;
      }
    }
  }

  const IsLocked: Repository -> bool := (r: Repository) => r.status == Locked
  const IsNotLocked: Repository -> bool := (r: Repository) => r.status != Locked

  /** Those of the first n repositories that satisfy p, in order. */
  function Filtered(repos: seq<Repository>, n: nat, p: Repository -> bool): seq<Repository>
    requires n <= |repos|
  {
    if n == 0 then []
    else if p(repos[n - 1]) then Filtered(repos, n - 1, p) + [repos[n - 1]]
    else Filtered(repos, n - 1, p)
  }

  function Wrapped(repo: Repository): PackageWithRepository {
    PackageWithRepository(InitPackage(repo), repo)
  }

  function AllWrapped(repos: seq<Repository>): (pck: seq<PackageWithRepository>)
    ensures |pck| == |repos| && forall i :: 0 <= i < |repos| ==> pck[i] == Wrapped(repos[i])
  {
    seq(|repos|, i requires 0 <= i < |repos| => Wrapped(repos[i]))
  }

  lemma AllWrappedSnoc(repos: seq<Repository>, r: Repository)
    ensures AllWrapped(repos + [r]) == AllWrapped(repos) + [Wrapped(r)]
  {
  }

  method SortByStatus(repos: seq<Repository>)
    returns (locked: seq<PackageWithRepository>, notLocked: seq<PackageWithRepository>)
    ensures locked == AllWrapped(Filtered(repos, |repos|, IsLocked))
    ensures notLocked == AllWrapped(Filtered(repos, |repos|, IsNotLocked))
  {
    locked, notLocked := [], [];
    for i := 0 to |repos|
      invariant locked == AllWrapped(Filtered(repos, i, IsLocked))
      invariant notLocked == AllWrapped(Filtered(repos, i, IsNotLocked))
    {
      AllWrappedSnoc(Filtered(repos, i, IsLocked), repos[i]);
      AllWrappedSnoc(Filtered(repos, i, IsNotLocked), repos[i]);
      var pack := InitPackage(repos[i]);
      if pack.status == Locked {
        locked := locked + [PackageWithRepository(pack, repos[i])];
      } else {
        notLocked := notLocked + [PackageWithRepository(pack, repos[i])];
      }
    }
  }

  function Restatused(p: PackageWithRepository): PackageWithRepository {
    p.(repo := ChangeStatus(p.package, p.repo))
  }

  method SortingBack(locked: array<PackageWithRepository>, notLocked: seq<PackageWithRepository>)
    returns (repos: seq<Repository>)
    modifies locked
    ensures forall i :: 0 <= i < locked.Length ==> locked[i] == Restatused(old(locked[i]))
    ensures |repos| == locked.Length + |notLocked|
    ensures forall i :: 0 <= i < locked.Length ==> repos[i] == locked[i].repo
    ensures forall i :: 0 <= i < |notLocked| ==> repos[locked.Length + i] == notLocked[i].repo
  {
    repos := [];
    for i := 0 to locked.Length
      invariant |repos| == i && forall j :: 0 <= j < i ==> repos[j] == locked[j].repo
      invariant forall j :: 0 <= j < i ==> locked[j] == Restatused(old(locked[j]))
      invariant forall j :: i <= j < locked.Length ==> locked[j] == old(locked[j])
    {
      locked[i] := Restatused(locked[i]);
      repos := repos + [locked[i].repo];
    }
    for i := 0 to |notLocked|
      invariant |repos| == locked.Length + i
      invariant forall j :: 0 <= j < locked.Length ==> repos[j] == locked[j].repo
      invariant forall j :: 0 <= j < i ==> repos[locked.Length + j] == notLocked[j].repo
    {
      repos := repos + [notLocked[i].repo];
    }
  }

  /** The positions at which the filtered entries stood. */
  ghost function Kept(repos: seq<Repository>, n: nat, p: Repository -> bool): (idx: seq<nat>)
    requires n <= |repos|
    ensures |idx| == |Filtered(repos, n, p)|
  {
    if n == 0 then []
    else if p(repos[n - 1]) then Kept(repos, n - 1, p) + [n - 1]
    else Kept(repos, n - 1, p)
  }

  lemma {:induction false} KeptAt(repos: seq<Repository>, n: nat, p: Repository -> bool, k: nat)
    requires n <= |repos| && k < |Kept(repos, n, p)|
    ensures var i := Kept(repos, n, p)[k]; i < n && p(repos[i]) && Filtered(repos, n, p)[k] == repos[i]
  {
    if k < |Kept(repos, n - 1, p)| { KeptAt(repos, n - 1, p, k); }
  }

  lemma {:induction false} KeptIncreases(repos: seq<Repository>, n: nat, p: Repository -> bool, k: nat, l: nat)
    requires n <= |repos| && k < l < |Kept(repos, n, p)|
    ensures Kept(repos, n, p)[k] < Kept(repos, n, p)[l]
  {
    if l < |Kept(repos, n - 1, p)| {
      KeptIncreases(repos, n - 1, p, k, l);
    } else {
      KeptAt(repos, n - 1, p, k);
    }
  }

  lemma {:induction false} KeptComplete(repos: seq<Repository>, n: nat, p: Repository -> bool, i: nat)
    requires i < n <= |repos| && p(repos[i])
    ensures i in Kept(repos, n, p)
  {
    if i < n - 1 { KeptComplete(repos, n - 1, p, i); }
  }

  lemma {:induction false} FilteredNone(repos: seq<Repository>, n: nat, p: Repository -> bool)
    requires n <= |repos| && forall i :: 0 <= i < n ==> !p(repos[i])
    ensures Filtered(repos, n, p) == []
  {
    if n > 0 { FilteredNone(repos, n - 1, p); }
  }

  // ---------------------------------------------------------------- the step

  datatype ReleaseResult =
    | ReleaseDone(repos: seq<Repository>)
    | NameMissing
    | NothingReleased

  /** One repository after the step: the status of a formerly locked one is that of its package. */
  function Final(repo: Repository, s: ReleaseServer, t: nat): Repository {
    if repo.status == Locked then ChangeStatus(ReleasedFor(Wrapped(repo), s, t).package, repo) else repo
  }

  /** A formerly locked repository after t ticks. */
  function HandedBack(repo: Repository, s: ReleaseServer, t: nat): Repository {
    ChangeStatus(ReleasedFor(Wrapped(repo), s, t).package, repo)
  }

  /** The list handed on after t ticks: formerly locked repositories first, then the others. */
  ghost predicate HandsOn(repos: seq<Repository>, s: ReleaseServer, t: nat, out: seq<Repository>) {
    var locked := Filtered(repos, |repos|, IsLocked);
    var others := Filtered(repos, |repos|, IsNotLocked);
    |out| == |locked| + |others|
    && (forall i :: 0 <= i < |locked| ==> out[i] == HandedBack(locked[i], s, t))
    && (forall i :: 0 <= i < |others| ==> out[|locked| + i] == others[i])
  }

  /** The positions the output comes from: those of the locked repositories, then those of the others. */
  ghost function Origins(repos: seq<Repository>): seq<nat> {
    Kept(repos, |repos|, IsLocked) + Kept(repos, |repos|, IsNotLocked)
  }

  lemma OriginAt(repos: seq<Repository>, j: nat)
    requires j < |Origins(repos)|
    ensures var n, cut, i := |repos|, |Kept(repos, |repos|, IsLocked)|, Origins(repos)[j];
            && i < n && (repos[i].status == Locked <==> j < cut)
            && repos[i] == if j < cut then Filtered(repos, n, IsLocked)[j] else Filtered(repos, n, IsNotLocked)[j - cut]
  {
    hide Kept, Filtered;
    var cut := |Kept(repos, |repos|, IsLocked)|;
    if j < cut {
      KeptAt(repos, |repos|, IsLocked, j);
    } else {
      KeptAt(repos, |repos|, IsNotLocked, j - cut);
    }
  }

  lemma OriginsIncrease(repos: seq<Repository>, j: nat, k: nat)
    requires j < k < |Origins(repos)|
    ensures var cut := |Kept(repos, |repos|, IsLocked)|; k < cut || cut <= j ==> Origins(repos)[j] < Origins(repos)[k]
    ensures Origins(repos)[j] != Origins(repos)[k]
  {
    hide Kept, Filtered;
    var cut := |Kept(repos, |repos|, IsLocked)|;
    if k < cut {
      KeptIncreases(repos, |repos|, IsLocked, j, k);
    } else if cut <= j {
      KeptIncreases(repos, |repos|, IsNotLocked, j - cut, k - cut);
    } else {
      OriginAt(repos, j);
      OriginAt(repos, k);
    }
  }

  lemma OriginsComplete(repos: seq<Repository>, i: nat)
    requires i < |repos|
    ensures i in Origins(repos)
  {
    hide Kept, Filtered;
    if IsLocked(repos[i]) {
      KeptComplete(repos, |repos|, IsLocked, i);
    } else {
      KeptComplete(repos, |repos|, IsNotLocked, i);
    }
  }

  /** The output is a permutation of the input up to the status of the formerly locked entries, and a
      stable partition: entry j comes from position perm[j], in increasing order on either side. */
  lemma Reordering(repos: seq<Repository>, s: ReleaseServer, t: nat, out: seq<Repository>)
    returns (perm: seq<nat>, cut: nat)
    requires HandsOn(repos, s, t, out)
    ensures |perm| == |out| && cut <= |out|
    ensures forall j :: 0 <= j < |out| ==> perm[j] < |repos| && out[j] == Final(repos[perm[j]], s, t)
    ensures forall j :: 0 <= j < |out| ==> (repos[perm[j]].status == Locked <==> j < cut)
    ensures forall j, k :: 0 <= j < k < cut ==> perm[j] < perm[k]
    ensures forall j, k :: cut <= j < k < |out| ==> perm[j] < perm[k]
    ensures forall j, k :: 0 <= j < k < |out| ==> perm[j] != perm[k]
    ensures forall i :: 0 <= i < |repos| ==> i in perm
  {
    perm, cut := Origins(repos), |Kept(repos, |repos|, IsLocked)|;
    hide Kept, Filtered, ReleasedFor;
    forall j | 0 <= j < |out|
      ensures perm[j] < |repos| && out[j] == Final(repos[perm[j]], s, t) && (repos[perm[j]].status == Locked <==> j < cut)
    {
      OriginAt(repos, j);
    }
    hide Origins, Final, HandsOn;
    forall j, k | 0 <= j < k < |out|
      ensures k < cut || cut <= j ==> perm[j] < perm[k]
      ensures perm[j] != perm[k]
    {
      OriginsIncrease(repos, j, k);
    }
    forall i | 0 <= i < |repos| ensures i in perm {
      OriginsComplete(repos, i);
    }
  }

  function LockedPackages(repos: seq<Repository>): seq<PackageWithRepository> {
    AllWrapped(Filtered(repos, |repos|, IsLocked))
  }

  ghost predicate SomeReleased(start: seq<PackageWithRepository>, s: ReleaseServer, t: nat) {
    exists i :: 0 <= i < |start| && ReleasedFor(start[i], s, t).package.status == Released
  }

  /** How the loop over the locked packages ends. */
  ghost predicate Stops(start: seq<PackageWithRepository>, s: ReleaseServer, ticks: nat, timedOut: bool, rounds: nat) {
    if timedOut then rounds == ticks && Pending(start, s, ticks)
    else 0 < rounds <= ticks && Pending(start, s, rounds - 1) && AllSettled(start, |start|, s, rounds - 1)
  }

  lemma SomeReleasedIs(now: seq<PackageWithRepository>, start: seq<PackageWithRepository>, s: ReleaseServer, t: nat)
    requires AllReleasedFor(now, start, s, t)
    ensures SomeReleased(start, s, t) <==> exists i :: 0 <= i < |now| && now[i].package.status == Released
  {
    hide ReleasedFor;
  }

  lemma LockedBack(locked: seq<Repository>, s: ReleaseServer, t: nat, now: seq<PackageWithRepository>)
    requires AllReleasedFor(now, AllWrapped(locked), s, t)
    ensures |now| == |locked| && forall i :: 0 <= i < |now| ==> Restatused(now[i]).repo == HandedBack(locked[i], s, t)
  {
    hide ReleasedFor, InitPackage;
  }

  lemma OthersBack(others: seq<Repository>)
    ensures forall i :: 0 <= i < |others| ==> AllWrapped(others)[i].repo == others[i]
  {
    hide InitPackage;
  }

  /** The step fails on missing input or if time runs out before a single locked package is released. */
  method RunRelease(repos: seq<Repository>, s: ReleaseServer, ticks: nat)
    returns (result: ReleaseResult, calls: seq<Call>, rounds: nat, timedOut: bool)
    ensures result == NameMissing <==> exists i :: 0 <= i < |repos| && repos[i].packageName == ""
    ensures result == NameMissing ==> calls == []
    ensures result != NameMissing ==>
      Stops(LockedPackages(repos), s, ticks, timedOut, rounds) && calls == ReleaseCalls(LockedPackages(repos), s, rounds)
    ensures result == NothingReleased ==> timedOut && !SomeReleased(LockedPackages(repos), s, rounds)
    ensures result.ReleaseDone? ==> HandsOn(repos, s, rounds, result.repos)
    ensures result.ReleaseDone? ==> !timedOut || SomeReleased(LockedPackages(repos), s, rounds)
  {
    hide ReleasedFor, AllSettled, Pending, Filtered, SomeReleased, ReleaseCalls, AllReleasedFor, Restatused, AllWrapped, HandedBack;
    rounds, timedOut := 0, false;
    var ok := CheckInput(repos);
    if !ok {
      return NameMissing, [], rounds, timedOut;
    }
    var lockedList, notLocked := SortByStatus(repos);
    ghost var start := LockedPackages(repos);
    var locked := new PackageWithRepository[|lockedList|](i requires 0 <= i < |lockedList| => lockedList[i]);
    assert locked[..] == start;
    timedOut, calls, rounds := ReleaseAndPoll(locked, s, ticks);
    var released := CountReleased(locked);
    ghost var now := locked[..];
    SomeReleasedIs(now, start, s, rounds);
    assert released > 0 <==> SomeReleased(start, s, rounds) by {
      assert forall i :: 0 <= i < |now| ==> locked[i] == now[i];
    }
    if timedOut && released == 0 {
      result := NothingReleased;
    } else {
      var out := SortingBack(locked, notLocked);
      assert forall i :: 0 <= i < |now| ==> out[i] == Restatused(now[i]).repo;
      LockedBack(Filtered(repos, |repos|, IsLocked), s, rounds, now);
      OthersBack(Filtered(repos, |repos|, IsNotLocked));
      assert HandsOn(repos, s, rounds, out);
      result := ReleaseDone(out);
    }
  }

  method CountReleased(pck: array<PackageWithRepository>) returns (n: nat)
    ensures n > 0 <==> exists i :: 0 <= i < pck.Length && pck[i].package.status == Released
  {
    n := 0;
    for i := 0 to pck.Length
      invariant n > 0 <==> exists j :: 0 <= j < i && pck[j].package.status == Released
    {
      if pck[i].package.status == Released {
        n := n + 1;
      }
    }
  }

  /** Ending without a timeout does not mean every package is released: the loop stops at the first tick
      at which every call is answered, whatever status the answer carries. */
  lemma AnsweredIsNotReleased(repo: Repository)
    requires repo.status == Locked
    ensures var s: ReleaseServer := (t, k) => Answered(Locked);
            AllSettled([Wrapped(repo)], 1, s, 0)
            && ReleasedFor(Wrapped(repo), s, 1).package.status == Locked
  {
    var s: ReleaseServer := (t, k) => Answered(Locked);
    assert ReleasedFor(Wrapped(repo), s, 1) == ReleaseOnce(ReleasedFor(Wrapped(repo), s, 0), s(0, repo.key));
  }

  /** Some release call of the first r ticks is answered "released". */
  ghost predicate ToldReleased(key: nat, s: ReleaseServer, r: nat) {
    exists t :: 0 <= t < r && s(t, key) == Answered(Released)
  }

  /** A package is released after r ticks if and only if it was from the start or some answer said so. */
  lemma {:induction false} ReleasedIsAnswered(p: PackageWithRepository, s: ReleaseServer, r: nat)
    ensures ReleasedFor(p, s, r).package.status == Released
       <==> p.package.status == Released || ToldReleased(p.repo.key, s, r)
  {
    if r > 0 {
      ReleasedIsAnswered(p, s, r - 1);
      assert s(r - 1, p.repo.key) == Answered(Released) ==> ToldReleased(p.repo.key, s, r);
    }
  }

  /** The locked packages are those of the locked repositories: where a package comes from. */
  lemma LockedFrom(repos: seq<Repository>, s: ReleaseServer, r: nat, k: nat) returns (i: nat)
    requires k < |LockedPackages(repos)|
    ensures i < |repos| && repos[i].status == Locked
    ensures ReleasedFor(LockedPackages(repos)[k], s, r).package.status == Released <==> ToldReleased(repos[i].key, s, r)
  {
    hide ReleasedFor, Filtered, Kept, ToldReleased;
    KeptAt(repos, |repos|, IsLocked, k);
    ReleasedIsAnswered(LockedPackages(repos)[k], s, r);
    i := Kept(repos, |repos|, IsLocked)[k];
  }

  /** ... and where the package of a locked repository is. */
  lemma LockedTo(repos: seq<Repository>, s: ReleaseServer, r: nat, i: nat) returns (k: nat)
    requires i < |repos| && repos[i].status == Locked
    ensures k < |LockedPackages(repos)|
    ensures ReleasedFor(LockedPackages(repos)[k], s, r).package.status == Released <==> ToldReleased(repos[i].key, s, r)
  {
    hide ReleasedFor, Filtered, Kept, ToldReleased;
    KeptComplete(repos, |repos|, IsLocked, i);
    k :| 0 <= k < |Kept(repos, |repos|, IsLocked)| && Kept(repos, |repos|, IsLocked)[k] == i;
    KeptAt(repos, |repos|, IsLocked, k);
    ReleasedIsAnswered(LockedPackages(repos)[k], s, r);
  }

  ghost predicate AllReleased(start: seq<PackageWithRepository>, s: ReleaseServer, r: nat) {
    forall k :: 0 <= k < |start| ==> ReleasedFor(start[k], s, r).package.status == Released
  }

  /** After any number of ticks all formerly locked packages are released if and only if each got the
      answer "released" at some tick, and some are if and only if one did. */
  lemma AllReleasedAtEnd(repos: seq<Repository>, s: ReleaseServer, r: nat)
    ensures AllReleased(LockedPackages(repos), s, r)
       <==> forall i :: 0 <= i < |repos| && repos[i].status == Locked ==> ToldReleased(repos[i].key, s, r)
    ensures SomeReleased(LockedPackages(repos), s, r)
       <==> exists i :: 0 <= i < |repos| && repos[i].status == Locked && ToldReleased(repos[i].key, s, r)
  {
    hide ReleasedFor, ToldReleased, LockedPackages;
    var start := LockedPackages(repos);
    forall k | 0 <= k < |start|
      ensures exists i :: 0 <= i < |repos| && repos[i].status == Locked
                          && (ReleasedFor(start[k], s, r).package.status == Released <==> ToldReleased(repos[i].key, s, r))
    {
      var i := LockedFrom(repos, s, r, k);
    }
    forall i | 0 <= i < |repos| && repos[i].status == Locked
      ensures exists k :: 0 <= k < |start|
                          && (ReleasedFor(start[k], s, r).package.status == Released <==> ToldReleased(repos[i].key, s, r))
    {
      var k := LockedTo(repos, s, r, i);
    }
  }

  lemma PendingAt(start: seq<PackageWithRepository>, s: ReleaseServer, r: nat, t: nat)
    requires Pending(start, s, r) && t < r
    ensures !AllSettled(start, |start|, s, t)
  {
  }

  /** With nothing to release the step fails if and only if time is up before the first tick. */
  lemma NothingToRelease(repos: seq<Repository>, s: ReleaseServer, ticks: nat, timedOut: bool, rounds: nat)
    requires forall i :: 0 <= i < |repos| ==> repos[i].status != Locked
    requires Stops(LockedPackages(repos), s, ticks, timedOut, rounds)
    ensures timedOut <==> ticks == 0
    ensures !SomeReleased(LockedPackages(repos), s, rounds) && rounds == if ticks == 0 then 0 else 1
  {
    FilteredNone(repos, |repos|, IsLocked);
    var start := LockedPackages(repos);
    forall r: nat | r > 0 ensures !Pending(start, s, r) {
      assert AllSettled(start, |start|, s, 0);
    }
    hide Pending, AllSettled;
  }

  /** The loop ends in one way only. */
  lemma StopsUnique(start: seq<PackageWithRepository>, s: ReleaseServer, ticks: nat, a: bool, r: nat, b: bool, q: nat)
    requires Stops(start, s, ticks, a, r) && Stops(start, s, ticks, b, q)
    ensures a == b && r == q
  {
    hide AllSettled, Pending;
    if !a && (b || r < q) {
      PendingAt(start, s, if b then q else q - 1, r - 1);
    } else if !b && (a || q < r) {
      PendingAt(start, s, if a then r else r - 1, q - 1);
    }
  }

  /** What the step hands on after t ticks. */
  ghost function ReleasedList(repos: seq<Repository>, s: ReleaseServer, t: nat): (out: seq<Repository>)
    ensures HandsOn(repos, s, t, out)
  {
    var locked := Filtered(repos, |repos|, IsLocked);
    seq(|locked|, i requires 0 <= i < |locked| => HandedBack(locked[i], s, t)) + Filtered(repos, |repos|, IsNotLocked)
  }

  lemma HandsOnOne(repos: seq<Repository>, s: ReleaseServer, t: nat, out: seq<Repository>)
    requires HandsOn(repos, s, t, out)
    ensures out == ReleasedList(repos, s, t)
  {
    hide HandedBack, Filtered;
    var list, locked := ReleasedList(repos, s, t), Filtered(repos, |repos|, IsLocked);
    hide ReleasedList;
    forall i | 0 <= i < |out| ensures out[i] == list[i] {
      if i >= |locked| {
        assert Filtered(repos, |repos|, IsNotLocked)[i - |locked|] == out[|locked| + (i - |locked|)];
      }
    }
  }

  ghost predicate AllNamed(repos: seq<Repository>) {
    forall i :: 0 <= i < |repos| ==> repos[i].packageName != ""
  }

  /** The step ends well after r ticks: all calls are answered at the last one, or time is up and some package
      is released. */
  ghost predicate EndsWell(repos: seq<Repository>, s: ReleaseServer, ticks: nat, r: nat) {
    AllNamed(repos)
    && (Stops(LockedPackages(repos), s, ticks, false, r)
        || (Stops(LockedPackages(repos), s, ticks, true, r) && SomeReleased(LockedPackages(repos), s, r)))
  }

  /** What the ends of the step mean. */
  ghost predicate Explains(result: ReleaseResult, repos: seq<Repository>, s: ReleaseServer, ticks: nat, r: nat) {
    match result
    case NameMissing => !AllNamed(repos)
    case NothingReleased =>
      AllNamed(repos) && Pending(LockedPackages(repos), s, ticks) && !SomeReleased(LockedPackages(repos), s, ticks)
    case ReleaseDone(out) => EndsWell(repos, s, ticks, r) && out == ReleasedList(repos, s, r)
  }

  /** A step that fails for a reason does not end well after any number of ticks, and one that ends well does
      so after one number only. */
  lemma EndDetermined(result: ReleaseResult, repos: seq<Repository>, s: ReleaseServer, ticks: nat, r: nat, q: nat)
    requires Explains(result, repos, s, ticks, r) && EndsWell(repos, s, ticks, q)
    ensures result.ReleaseDone? && r == q
  {
    hide Pending, AllSettled, SomeReleased, AllNamed, LockedPackages, ReleasedList;
    var start := LockedPackages(repos);
    var late := !Stops(start, s, ticks, false, q);
    if result == NothingReleased {
      StopsUnique(start, s, ticks, true, ticks, late, q);
    } else if result.ReleaseDone? {
      StopsUnique(start, s, ticks, !Stops(start, s, ticks, false, r), r, late, q);
    }
  }

  // ---------------------------------------------------------------- the answers

  /** As long as a package is not released, its status is that of the last answer. */
  lemma {:induction false} LastAnswerCounts(p: PackageWithRepository, s: ReleaseServer, u: nat, t: nat)
    requires u < t && ReleasedFor(p, s, u).package.status != Released && s(u, p.repo.key).Answered?
    requires forall v :: u < v < t ==> s(v, p.repo.key) == ReleaseRefused
    ensures ReleasedFor(p, s, t).package == ReleasedFor(p, s, u).package.(status := s(u, p.repo.key).status)
  {
    if u < t - 1 { LastAnswerCounts(p, s, u, t - 1); }
  }

  lemma {:induction false} NoAnswerKeeps(p: PackageWithRepository, s: ReleaseServer, t: nat)
    requires forall v :: 0 <= v < t ==> s(v, p.repo.key) == ReleaseRefused
    ensures ReleasedFor(p, s, t) == p
  {
    if t > 0 { NoAnswerKeeps(p, s, t - 1); }
  }

  /** A tick ends the loop exactly if every package is released before it or answered by it. */
  lemma SettledMeans(start: seq<PackageWithRepository>, s: ReleaseServer, t: nat)
    ensures AllSettled(start, |start|, s, t) <==>
      forall i :: 0 <= i < |start| ==>
        ReleasedFor(start[i], s, t).package.status == Released || s(t, start[i].repo.key) != ReleaseRefused
  {
    hide ReleasedFor;
    assert forall i :: 0 <= i < |start| ==>
      (Settled(start[i], s, t) <==>
         ReleasedFor(start[i], s, t).package.status == Released || s(t, start[i].repo.key) != ReleaseRefused);
  }

  /** A repository after the step: only a locked one has changed, and only its status. */
  lemma FinalMeans(repo: Repository, s: ReleaseServer, t: nat)
    ensures repo.status != Locked ==> Final(repo, s, t) == repo
    ensures Final(repo, s, t) == repo.(status := Final(repo, s, t).status)
    ensures repo.status == Locked ==> (Final(repo, s, t).status == Released <==> ToldReleased(repo.key, s, t))
    ensures forall u :: 0 <= u < t && repo.status == Locked && !ToldReleased(repo.key, s, u) && s(u, repo.key).Answered?
              && (forall v :: u < v < t ==> s(v, repo.key) == ReleaseRefused)
              ==> Final(repo, s, t).status == s(u, repo.key).status
  {
    hide ReleasedFor, ToldReleased;
    ReleasedIsAnswered(Wrapped(repo), s, t);
    forall u | 0 <= u < t && repo.status == Locked && !ToldReleased(repo.key, s, u) && s(u, repo.key).Answered?
               && (forall v :: u < v < t ==> s(v, repo.key) == ReleaseRefused)
      ensures Final(repo, s, t).status == s(u, repo.key).status
    {
      ReleasedIsAnswered(Wrapped(repo), s, u);
      LastAnswerCounts(Wrapped(repo), s, u, t);
    }
  }
}
