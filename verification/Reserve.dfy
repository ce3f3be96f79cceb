/** abapAddonAssemblyKitReserveNextPackages: reserve a package per repository, wait until every
    reservation is decided, check commit IDs and namespaces, hand the result on. */
module Reserve {
  import opened Packages

  // ---------------------------------------------------------------- reservePackages

  /** The registry's answer to "determine the next package". */
  datatype ReserveReply =
    | ReserveRejected
    | Determined(packageName: string, packageType: string, predecessorCommitID: string,
                 commitID: string, status: Status, nspace: string)

  predicate CanReserve(repo: Repository) {
    repo.name != "" && repo.versionYAML != ""
  }

  predicate Reserves(repo: Repository, server: nat -> ReserveReply) {
    CanReserve(repo) && server(repo.key).Determined?
  }

  function ReservedPackage(repo: Repository, server: nat -> ReserveReply): PackageWithRepository
    requires Reserves(repo, server)
  {
    var r := server(repo.key);
    PackageWithRepository(
      InitPackage(repo).(packageName := r.packageName,
                         packageType := r.packageType,
                         predecessorCommitID := r.predecessorCommitID,
                         commitID := r.commitID,
                         status := r.status,
                         nspace := SetNamespace(r.nspace)),
      repo)
  }

  const Reservable: Repository -> bool := r => CanReserve(r)

  /** The list ends before the first repository whose reservation fails. */
  method ReservePackages(repos: seq<Repository>, server: nat -> ReserveReply)
    returns (pck: seq<PackageWithRepository>, ok: bool, calls: seq<Call>)
    ensures |pck| <= |repos|
    ensures forall i :: 0 <= i < |pck| ==> Reserves(repos[i], server) && pck[i] == ReservedPackage(repos[i], server)
    ensures ok ==> |pck| == |repos| && calls == Selected(ReserveNext, repos, |repos|, Reservable)
    ensures !ok ==> |pck| < |repos| && !Reserves(repos[|pck|], server)
    ensures !ok ==> calls == Selected(ReserveNext, repos, |pck| + 1, Reservable)
  {
    pck, ok, calls := [], true, [];
    var i := 0;
    while i < |repos| && ok
      invariant |pck| <= i <= |repos|
      invariant i == if ok then |pck| else |pck| + 1
      invariant forall j :: 0 <= j < |pck| ==> Reserves(repos[j], server) && pck[j] == ReservedPackage(repos[j], server)
      invariant !ok ==> !Reserves(repos[|pck|], server)
      invariant calls == Selected(ReserveNext, repos, i, Reservable)
    {
      ok := Reserves(repos[i], server);
      if CanReserve(repos[i]) {
        calls := calls + [Call(ReserveNext, repos[i].key)];
      }
      if ok {
        pck := pck + [ReservedPackage(repos[i], server)];
      }
      i := i + 1;
    }
  }

  // ---------------------------------------------------------------- pollReserveNextPackages

  /** The registry's answer to "get package and namespace". */
  datatype PollReply = PollFailed | Polled(status: Status, nspace: string)

  /** The adversary: what the registry answers at a tick for a key, if it is asked. */
  type PollServer = (nat, nat) -> PollReply

  datatype PollOutcome =
    | Done
    | TimedOut
    | LockedPackage(packageName: string)
    | UnknownStatus(packageName: string, status: Status)

  function PollOnce(p: PackageWithRepository, reply: PollReply): PackageWithRepository {
    if p.package.status == Released || reply.PollFailed? then p
    else p.(package := p.package.(status := reply.status, nspace := SetNamespace(reply.nspace)))
  }

  /** One package after t ticks, seen on its own: every package evolves independently. */
  function PolledFor(p: PackageWithRepository, s: PollServer, t: nat): (q: PackageWithRepository)
    ensures q.repo == p.repo
  {
    if t == 0 then p else PollOnce(PolledFor(p, s, t - 1), s(t - 1, p.repo.key))
  }

  ghost predicate AllPolledFor(pck: seq<PackageWithRepository>, start: seq<PackageWithRepository>, s: PollServer, t: nat) {
    |pck| == |start| && forall i :: 0 <= i < |pck| ==> pck[i] == PolledFor(start[i], s, t)
  }

  predicate Decided(status: Status) {
    status == Planned || status == Released
  }

  /** At tick t a successful answer carries a status that is neither decided nor "creation triggered". */
  predicate Aborts(p: PackageWithRepository, s: PollServer, t: nat) {
    var reply := s(t, p.repo.key);
    PolledFor(p, s, t).package.status != Released && reply.Polled?
    && !Decided(reply.status) && reply.status != CreationTriggered
  }

  /** At tick t the reservation is decided: already released, or answered Planned or Released just now. */
  predicate Ready(p: PackageWithRepository, s: PollServer, t: nat) {
    var reply := s(t, p.repo.key);
    PolledFor(p, s, t).package.status == Released || (reply.Polled? && Decided(reply.status))
  }

  /** No answer of tick t to the first n packages is invalid. */
  ghost predicate NoneAborts(start: seq<PackageWithRepository>, n: nat, s: PollServer, t: nat)
    requires n <= |start|
  {
    forall i :: 0 <= i < n ==> !Aborts(start[i], s, t)
  }

  ghost predicate AllReady(start: seq<PackageWithRepository>, n: nat, s: PollServer, t: nat)
    requires n <= |start|
  {
    forall i :: 0 <= i < n ==> Ready(start[i], s, t)
  }

  /** Tick t ends the polling well: every package is decided, no answer of this tick is invalid. */
  ghost predicate Success(start: seq<PackageWithRepository>, s: PollServer, t: nat) {
    AllReady(start, |start|, s, t) && NoneAborts(start, |start|, s, t)
  }

  /** Tick t neither ends the polling well nor breaks it off. */
  ghost predicate Inconclusive(start: seq<PackageWithRepository>, s: PollServer, t: nat) {
    !AllReady(start, |start|, s, t) && NoneAborts(start, |start|, s, t)
  }

  /** The calls of tick t to the first n packages: one for each package not yet released. */
  function TickCalls(start: seq<PackageWithRepository>, n: nat, s: PollServer, t: nat): seq<Call>
    requires n <= |start|
  {
    if n == 0 then []
    else if PolledFor(start[n - 1], s, t).package.status == Released then TickCalls(start, n - 1, s, t)
    else TickCalls(start, n - 1, s, t) + [Call(GetPackage, start[n - 1].repo.key)]
  }

  function PollCalls(start: seq<PackageWithRepository>, s: PollServer, t: nat): seq<Call> {
    if t == 0 then [] else PollCalls(start, s, t - 1) + TickCalls(start, |start|, s, t - 1)
  }

  lemma PollStart(start: seq<PackageWithRepository>, s: PollServer)
    ensures AllPolledFor(start, start, s, 0) && PollCalls(start, s, 0) == []
  {
  }

  lemma PollCallsStep(start: seq<PackageWithRepository>, s: PollServer, t: nat)
    ensures PollCalls(start, s, t + 1) == PollCalls(start, s, t) + TickCalls(start, |start|, s, t)
  {
  }

  function Rejection(p: PackageWithRepository): PollOutcome {
    if p.package.status == Locked then LockedPackage(p.package.packageName)
    else UnknownStatus(p.package.packageName, p.package.status)
  }

  /** Tick t was broken off by the n-th package, the first with an invalid status. */
  ghost predicate BrokenOff(start: seq<PackageWithRepository>, s: PollServer, t: nat, n: nat, error: PollOutcome) {
    0 < n <= |start| && Aborts(start[n - 1], s, t) && NoneAborts(start, n - 1, s, t)
    && error == Rejection(PolledFor(start[n - 1], s, t + 1))
  }

  datatype Verdict = Settled | Waiting | Invalid

  /** Ask for one package and judge the answer. */
  method PollPackage(p: PackageWithRepository, reply: PollReply)
    returns (q: PackageWithRepository, verdict: Verdict, asked: bool)
    ensures q == PollOnce(p, reply)
    ensures asked <==> p.package.status != Released
    ensures verdict == Settled <==> !asked || (reply.Polled? && Decided(reply.status))
    ensures verdict == Invalid <==> asked && reply.Polled? && !Decided(reply.status) && reply.status != CreationTriggered
  {
    q, verdict, asked := p, Settled, false;
    if p.package.status != Released {
      asked := true;
      q := PollOnce(p, reply);
      if reply.PollFailed? {
        verdict := Waiting;
      } else {
        match q.package.status
        case Locked => verdict := Invalid;
        case CreationTriggered => verdict := Waiting;
        case Planned =>
        case Released =>
        case OtherStatus(_) => verdict := Invalid;
      }
    }
  }

  /** The list in the middle of tick t: the first `i` packages have been asked for, the others not yet. */
  ghost predicate Swept(pck: seq<PackageWithRepository>, start: seq<PackageWithRepository>, s: PollServer, t: nat, i: nat) {
    |pck| == |start| && i <= |start|
    && (forall j :: 0 <= j < i ==> pck[j] == PolledFor(start[j], s, t + 1))
    && (forall j :: i <= j < |start| ==> pck[j] == PolledFor(start[j], s, t))
  }

  lemma SweptStep(pck: seq<PackageWithRepository>, start: seq<PackageWithRepository>, s: PollServer, t: nat, i: nat)
    requires Swept(pck, start, s, t, i) && i < |start|
    ensures pck[i] == PolledFor(start[i], s, t)
    ensures Swept(pck[i := PollOnce(pck[i], s(t, start[i].repo.key))], start, s, t, i + 1)
  {
  }

  /** One tick: ask for every package not yet released, stop after the first invalid status. `n` packages
      have been looked at. */
  method PollTick(pck: array<PackageWithRepository>, s: PollServer, t: nat, ghost start: seq<PackageWithRepository>)
    returns (finished: bool, error: PollOutcome, n: nat, calls: seq<Call>)
    requires AllPolledFor(pck[..], start, s, t)
    modifies pck
    ensures error == Done ==> AllPolledFor(pck[..], start, s, t + 1) && calls == TickCalls(start, |start|, s, t)
    ensures error == Done ==> if finished then Success(start, s, t) else Inconclusive(start, s, t)
    ensures error != Done ==> Swept(pck[..], start, s, t, n) && calls == TickCalls(start, n, s, t)
    ensures error != Done ==> error != TimedOut && BrokenOff(start, s, t, n, error)
  {
    finished, error, calls := true, Done, [];
    n := 0;
    while n < pck.Length && error == Done
      invariant n <= pck.Length == |start|
      invariant Swept(pck[..], start, s, t, n)
      invariant error == Done ==> NoneAborts(start, n, s, t)
      invariant error != Done ==> BrokenOff(start, s, t, n, error)
      invariant error == Done ==> (finished <==> AllReady(start, n, s, t))
      invariant calls == TickCalls(start, n, s, t)
    {
      SweptStep(pck[..], start, s, t, n);
      var q, verdict, asked := PollPackage(pck[n], s(t, pck[n].repo.key));
      if asked {
        calls := calls + [Call(GetPackage, q.repo.key)];
      }
      if verdict == Invalid {
        error := Rejection(q);
      }
      pck[n] := q;
      finished := finished && verdict == Settled;
      n := n + 1;
    }
  }

  lemma {:induction false} PackageFieldsKept(p: PackageWithRepository, s: PollServer, t: nat)
    ensures var q, p := PolledFor(p, s, t).package, p.package;
            q == p.(status := q.status, nspace := q.nspace)
  {
    if t > 0 { PackageFieldsKept(p, s, t - 1); }
  }

  /** The first r ticks were all inconclusive. */
  ghost predicate Undecided(start: seq<PackageWithRepository>, s: PollServer, r: nat) {
    r == 0 || (Undecided(start, s, r - 1) && Inconclusive(start, s, r - 1))
  }

  lemma {:induction false} UndecidedMeans(start: seq<PackageWithRepository>, s: PollServer, r: nat)
    ensures Undecided(start, s, r) <==> forall t :: 0 <= t < r ==> Inconclusive(start, s, t)
  {
    if r > 0 { UndecidedMeans(start, s, r - 1); }
  }

  /** How polling may end after `rounds` ticks were begun, with `n` packages looked at in the last one. */
  ghost predicate PollEnd(start: seq<PackageWithRepository>, s: PollServer, ticks: nat,
                          outcome: PollOutcome, rounds: nat, n: nat)
  {
    rounds <= ticks
    && match outcome
       case TimedOut => rounds == ticks && Undecided(start, s, rounds)
       case Done => 0 < rounds && Undecided(start, s, rounds - 1) && Success(start, s, rounds - 1)
       case _ => 0 < rounds && Undecided(start, s, rounds - 1) && BrokenOff(start, s, rounds - 1, n, outcome)
  }

  /** The calls sent until then. */
  ghost function PollSent(start: seq<PackageWithRepository>, s: PollServer, outcome: PollOutcome, rounds: nat, n: nat): seq<Call> {
    if outcome == Done || outcome == TimedOut || rounds == 0 || n > |start| then PollCalls(start, s, rounds)
    else PollCalls(start, s, rounds - 1) + TickCalls(start, n, s, rounds - 1)
  }

  method PollReserveNextPackages(pck: array<PackageWithRepository>, s: PollServer, ticks: nat)
    returns (outcome: PollOutcome, calls: seq<Call>, rounds: nat, n: nat)
    modifies pck
    ensures PollEnd(old(pck[..]), s, ticks, outcome, rounds, n)
    ensures calls == PollSent(old(pck[..]), s, outcome, rounds, n)
    ensures outcome == Done ==> AllPolledFor(pck[..], old(pck[..]), s, rounds)
  {
    hide PolledFor, TickCalls, AllPolledFor, Success, Inconclusive, BrokenOff, PollCalls;
    ghost var start := pck[..];
    PollStart(start, s);
    outcome, calls, rounds, n := TimedOut, [], 0, 0;
    while rounds < ticks
      invariant rounds <= ticks
      invariant AllPolledFor(pck[..], start, s, rounds)
      invariant calls == PollCalls(start, s, rounds)
      invariant Undecided(start, s, rounds)
    {
      var finished, error, sent;
      finished, error, n, sent := PollTick(pck, s, rounds, start);
      PollCallsStep(start, s, rounds);
      calls, rounds := calls + sent, rounds + 1;
      if error != Done || finished {
        outcome := error;
        return;
      }
    }
  }

  /** Polling succeeds exactly when some tick before the timeout finds every reservation decided and
      no answer up to then carried an invalid status; whatever earlier ticks brought is forgotten. */
  lemma PollVerdict(start: seq<PackageWithRepository>, s: PollServer, ticks: nat,
                    outcome: PollOutcome, rounds: nat, n: nat)
    requires PollEnd(start, s, ticks, outcome, rounds, n)
    ensures outcome == Done <==>
            exists t :: 0 <= t < ticks && Success(start, s, t)
              && forall u :: 0 <= u < t ==> NoneAborts(start, |start|, s, u)
    ensures outcome == TimedOut <==> forall t :: 0 <= t < ticks ==> Inconclusive(start, s, t)
  {
    hide PolledFor, TickCalls, PollCalls, Ready;
    if outcome == TimedOut {
      UndecidedMeans(start, s, rounds);
      forall t | 0 <= t < ticks ensures !Success(start, s, t) {
        assert Inconclusive(start, s, t);
      }
    } else {
      var last := rounds - 1;
      UndecidedMeans(start, s, last);
      assert !Inconclusive(start, s, last);
      if outcome == Done {
        forall u | 0 <= u < last ensures NoneAborts(start, |start|, s, u) {
          assert Inconclusive(start, s, u);
        }
        assert 0 <= last < ticks && Success(start, s, last);
      } else {
        assert Aborts(start[n - 1], s, last);
        assert !NoneAborts(start, |start|, s, last);
        forall t | 0 <= t < ticks && Success(start, s, t) ensures last < t {
          assert t < last ==> Inconclusive(start, s, t);
        }
      }
    }
  }

  lemma {:induction false} ReleasedAbsorbs(p: PackageWithRepository, s: PollServer, t: nat, u: nat)
    requires t <= u && PolledFor(p, s, t).package.status == Released
    ensures PolledFor(p, s, u) == PolledFor(p, s, t)
  {
    if t < u { ReleasedAbsorbs(p, s, t, u - 1); }
  }

  /** After a successful tick every package is Planned or Released. */
  lemma SuccessDecides(start: seq<PackageWithRepository>, s: PollServer, t: nat, i: nat)
    requires Success(start, s, t) && i < |start|
    ensures var status := PolledFor(start[i], s, t + 1).package.status; status == Planned || status == Released
  {
    assert Ready(start[i], s, t);
  }

  /** Polling ends well at a tick exactly if every package was released before, or is answered "planned" or
      "released" by this very tick. */
  lemma SuccessMeans(start: seq<PackageWithRepository>, s: PollServer, t: nat)
    ensures Success(start, s, t) <==>
      forall i :: 0 <= i < |start| ==>
        PolledFor(start[i], s, t).package.status == Released
        || (exists nspace :: s(t, start[i].repo.key) == Polled(Planned, nspace))
        || (exists nspace :: s(t, start[i].repo.key) == Polled(Released, nspace))
  {
    forall i | 0 <= i < |start|
      ensures Ready(start[i], s, t) && !Aborts(start[i], s, t) <==>
        PolledFor(start[i], s, t).package.status == Released
        || (exists nspace :: s(t, start[i].repo.key) == Polled(Planned, nspace))
        || (exists nspace :: s(t, start[i].repo.key) == Polled(Released, nspace))
    {
      var reply := s(t, start[i].repo.key);
      assert reply.Polled? ==> reply == Polled(reply.status, reply.nspace);
    }
    hide PolledFor, Ready, Aborts;
  }

  /** A package that is not released and gets no answer, or the answer that its creation is still running, keeps
      polling from ending well. */
  lemma RunningKeepsPolling(start: seq<PackageWithRepository>, s: PollServer, t: nat, i: nat)
    requires i < |start| && PolledFor(start[i], s, t).package.status != Released
    requires s(t, start[i].repo.key) == PollFailed || exists nspace :: s(t, start[i].repo.key) == Polled(CreationTriggered, nspace)
    ensures !Success(start, s, t)
    ensures Inconclusive(start, s, t) <==> forall j :: 0 <= j < |start| ==> !Aborts(start[j], s, t)
  {
    assert !Ready(start[i], s, t);
  }

  /** A package that is not released and answered "locked" or something unknown breaks polling off: the tick neither
      ends it well nor lets it go on. */
  lemma InvalidBreaksPolling(start: seq<PackageWithRepository>, s: PollServer, t: nat, i: nat)
    requires i < |start| && PolledFor(start[i], s, t).package.status != Released
    requires (exists nspace :: s(t, start[i].repo.key) == Polled(Locked, nspace))
             || (exists text, nspace :: s(t, start[i].repo.key) == Polled(OtherStatus(text), nspace))
    ensures !Success(start, s, t) && !Inconclusive(start, s, t)
  {
    assert Aborts(start[i], s, t);
  }

  /** A tick breaks polling off exactly at a package that is not released and is answered "locked" or something
      unknown; the report names the package and what was answered. */
  lemma BreakingMeans(start: seq<PackageWithRepository>, s: PollServer, t: nat, n: nat, error: PollOutcome)
    requires BrokenOff(start, s, t, n, error)
    ensures 0 < n <= |start| && PolledFor(start[n - 1], s, t).package.status != Released
    ensures var name := start[n - 1].package.packageName;
            || (error == LockedPackage(name) && exists nspace :: s(t, start[n - 1].repo.key) == Polled(Locked, nspace))
            || (exists text, nspace :: error == UnknownStatus(name, OtherStatus(text))
                                       && s(t, start[n - 1].repo.key) == Polled(OtherStatus(text), nspace))
  {
    var reply := s(t, start[n - 1].repo.key);
    assert reply == Polled(reply.status, reply.nspace);
    PackageFieldsKept(start[n - 1], s, t + 1);
    assert PolledFor(start[n - 1], s, t + 1).package.status == reply.status;
  }

  /** A package is released exactly if it was from the start or some answer said so. */
  lemma {:induction false} ReleasedIsAnswered(p: PackageWithRepository, s: PollServer, t: nat)
    ensures PolledFor(p, s, t).package.status == Released
       <==> p.package.status == Released || exists u :: 0 <= u < t && s(u, p.repo.key).Polled? && s(u, p.repo.key).status == Released
  {
    if t > 0 {
      ReleasedIsAnswered(p, s, t - 1);
      var reply := s(t - 1, p.repo.key);
      assert reply.Polled? && reply.status == Released ==>
        exists u :: 0 <= u < t && s(u, p.repo.key).Polled? && s(u, p.repo.key).status == Released;
    }
  }

  /** As long as a package is not released, its status and namespace are those of the last answer; "//" stands
      for no namespace. */
  lemma {:induction false} LastAnswerCounts(p: PackageWithRepository, s: PollServer, u: nat, t: nat)
    requires u < t && PolledFor(p, s, u).package.status != Released && s(u, p.repo.key).Polled?
    requires forall v :: u < v < t ==> s(v, p.repo.key) == PollFailed
    ensures var q, reply := PolledFor(p, s, t).package, s(u, p.repo.key);
            q.status == reply.status && q.nspace == if reply.nspace == "//" then "" else reply.nspace
  {
    if u < t - 1 { LastAnswerCounts(p, s, u, t - 1); }
  }

  lemma {:induction false} NoAnswerKeeps(p: PackageWithRepository, s: PollServer, t: nat)
    requires forall v :: 0 <= v < t ==> s(v, p.repo.key) == PollFailed
    ensures PolledFor(p, s, t) == p
  {
    if t > 0 { NoAnswerKeeps(p, s, t - 1); }
  }

  /** At each tick a package is asked for exactly once, and not at all once it is released. */
  lemma {:induction false} TickAsksOnce(start: seq<PackageWithRepository>, n: nat, s: PollServer, t: nat, i: nat)
    requires DistinctPackageKeys(start) && i < n <= |start|
    ensures Count(TickCalls(start, n, s, t), Call(GetPackage, start[i].repo.key))
         == if PolledFor(start[i], s, t).package.status == Released then 0 else 1
  {
    hide PolledFor, Count;
    var c, last := Call(GetPackage, start[i].repo.key), Call(GetPackage, start[n - 1].repo.key);
    CountConcat(TickCalls(start, n - 1, s, t), [last], c);
    CountOne(last, c);
    if i < n - 1 {
      TickAsksOnce(start, n - 1, s, t, i);
    } else {
      TickAsksNoOther(start, n - 1, s, t, c);
    }
  }

  lemma {:induction false} TickAsksNoOther(start: seq<PackageWithRepository>, n: nat, s: PollServer, t: nat, c: Call)
    requires n <= |start| && forall j :: 0 <= j < n ==> Call(GetPackage, start[j].repo.key) != c
    ensures Count(TickCalls(start, n, s, t), c) == 0
  {
    if n > 0 { TickAsksNoOther(start, n - 1, s, t, c); }
  }

  // ---------------------------------------------------------------- checkAndCopyFieldsToRepositories

  datatype CheckFailure = NoFailure | EmptyNamespace | CommitMismatch | SameAsPredecessor(packageName: string)

  function ShorterLength(a: string, b: string): nat {
    if |a| >= |b| then |b| else |a|
  }

  /** Cutting two commit IDs to their common length and comparing them asks whether one is a prefix
      of the other. */
  lemma CommonLengthIsPrefix(a: string, b: string)
    ensures a[..ShorterLength(a, b)] == b[..ShorterLength(a, b)] <==> a <= b || b <= a
  {
    var n := ShorterLength(a, b);
    assert a[..n] == b[..n] ==> if n == |a| then a == b[..n] else b == a[..n];
  }

  function CheckCommitIDSameAsGiven(p: PackageWithRepository, failure: CheckFailure): CheckFailure {
    var n := ShorterLength(p.package.commitID, p.repo.commitID);
    if p.repo.commitID[..n] != p.package.commitID[..n] then CommitMismatch else failure
  }

  function CheckCommitIDNotSameAsPrevious(p: PackageWithRepository, failure: CheckFailure): CheckFailure {
    var n := ShorterLength(p.package.predecessorCommitID, p.repo.commitID);
    if p.repo.commitID[..n] == p.package.predecessorCommitID[..n]
    then SameAsPredecessor(p.package.packageName) else failure
  }

  function CheckCommitID(p: PackageWithRepository, failure: CheckFailure): CheckFailure {
    if p.repo.useClassicCTS then failure
    else if p.package.status == Released then CheckCommitIDSameAsGiven(p, failure)
    else if p.package.predecessorCommitID != "" then CheckCommitIDNotSameAsPrevious(p, failure)
    else failure
  }

  ghost predicate SharesCommit(a: string, b: string) {
    a <= b || b <= a
  }

  /** The rules: a released package was built from the given commit; a package still to be built has a
      namespace and a commit that differs from its predecessor's. Classic CTS knows no commits. */
  ghost predicate Violates(p: PackageWithRepository) {
    (p.package.status != Released && p.package.nspace == "")
    || CommitViolates(p)
  }

  ghost predicate CommitViolates(p: PackageWithRepository) {
    !p.repo.useClassicCTS
    && if p.package.status == Released then !SharesCommit(p.package.commitID, p.repo.commitID)
       else p.package.predecessorCommitID != "" && SharesCommit(p.package.predecessorCommitID, p.repo.commitID)
  }

  lemma CheckCommitIDMeaning(p: PackageWithRepository, failure: CheckFailure)
    ensures CommitViolates(p) ==>
      CheckCommitID(p, failure) == if p.package.status == Released then CommitMismatch
                                   else SameAsPredecessor(p.package.packageName)
    ensures !CommitViolates(p) ==> CheckCommitID(p, failure) == failure
  {
    CommonLengthIsPrefix(p.package.commitID, p.repo.commitID);
    CommonLengthIsPrefix(p.package.predecessorCommitID, p.repo.commitID);
  }

  /** A repository given by tag only, without commit ID, can never follow a predecessor with a commit:
      the empty commit ID counts as a prefix of every other one. */
  lemma EmptyCommitNeverDiffers(p: PackageWithRepository)
    requires p.repo.commitID == "" && !p.repo.useClassicCTS && p.package.status != Released
    ensures CommitViolates(p) <==> p.package.predecessorCommitID != ""
  {
    assert "" <= p.package.predecessorCommitID;
  }

  /** The report for one package on its own: the commit check overwrites the namespace check. */
  ghost function FailureOf(p: PackageWithRepository): (f: CheckFailure)
    ensures f == NoFailure <==> !Violates(p)
  {
    if CommitViolates(p) then
      if p.package.status == Released then CommitMismatch else SameAsPredecessor(p.package.packageName)
    else if p.package.status != Released && p.package.nspace == "" then EmptyNamespace
    else NoFailure
  }

  /** The failure reported for a list is that of the last package in violation: it is never cleared. */
  ghost function LastFailure(pck: seq<PackageWithRepository>, n: nat): (f: CheckFailure)
    requires n <= |pck|
    ensures f == NoFailure <==> forall i :: 0 <= i < n ==> !Violates(pck[i])
  {
    if n == 0 then NoFailure
    else if FailureOf(pck[n - 1]) != NoFailure then FailureOf(pck[n - 1])
    else LastFailure(pck, n - 1)
  }

  method CheckPackage(p: PackageWithRepository, before: CheckFailure) returns (failure: CheckFailure)
    ensures failure == if FailureOf(p) != NoFailure then FailureOf(p) else before
  {
    failure := before;
    if p.package.status != Released && p.package.nspace == "" {
      failure := EmptyNamespace;
    }
    CheckCommitIDMeaning(p, failure);
    failure := CheckCommitID(p, failure);
  }

  function Copied(p: PackageWithRepository): PackageWithRepository {
    p.(repo := CopyFieldsToRepo(p.package, p.repo))
  }

  method CheckAndCopyFieldsToRepositories(pck: array<PackageWithRepository>)
    returns (repos: seq<Repository>, failure: CheckFailure)
    modifies pck
    ensures failure == LastFailure(old(pck[..]), pck.Length)
    ensures forall i :: 0 <= i < pck.Length ==> pck[i] == Copied(old(pck[i]))
    ensures |repos| == pck.Length && forall i :: 0 <= i < |repos| ==> repos[i] == pck[i].repo
  {
    hide Copied;
    ghost var start := pck[..];
    repos, failure := [], NoFailure;
    for i := 0 to pck.Length
      invariant failure == LastFailure(start, i)
      invariant forall j :: i <= j < pck.Length ==> pck[j] == start[j]
      invariant forall j :: 0 <= j < i ==> pck[j] == Copied(start[j])
      invariant |repos| == i && forall j :: 0 <= j < i ==> repos[j] == pck[j].repo
    {
      failure := CheckPackage(pck[i], failure);
      pck[i] := Copied(pck[i]);
      repos := repos + [pck[i].repo];
    }
  }

  // ---------------------------------------------------------------- the step

  datatype ReserveResult =
    | ReserveDone(repos: seq<Repository>)
    | ReserveNextFailed
    | PollingFailed(reason: PollOutcome)
    | CheckFailed(failure: CheckFailure)

  /** The package of one repository when polling stops after r rounds. */
  function Reservation(repo: Repository, server: nat -> ReserveReply, s: PollServer, r: nat): PackageWithRepository
    requires Reserves(repo, server)
  {
    PolledFor(ReservedPackage(repo, server), s, r)
  }

  ghost predicate AllReserve(repos: seq<Repository>, server: nat -> ReserveReply) {
    forall i :: 0 <= i < |repos| ==> Reserves(repos[i], server)
  }

  /** The packages of all repositories after r rounds. */
  ghost function Reservations(repos: seq<Repository>, server: nat -> ReserveReply, s: PollServer, r: nat)
    : (pck: seq<PackageWithRepository>)
    requires AllReserve(repos, server)
    ensures |pck| == |repos| && forall i :: 0 <= i < |repos| ==> pck[i] == Reservation(repos[i], server, s, r)
  {
    seq(|repos|, i requires 0 <= i < |repos| => Reservation(repos[i], server, s, r))
  }

  /** The step ends well after r rounds, and `out` is what it hands on. */
  ghost predicate ReservedAfter(repos: seq<Repository>, server: nat -> ReserveReply, s: PollServer, r: nat, out: seq<Repository>)
    requires AllReserve(repos, server)
  {
    |out| == |repos| && forall i :: 0 <= i < |repos| ==> HandsOn(repos[i], Reservation(repos[i], server, s, r), out[i])
  }

  ghost predicate HandsOn(repo: Repository, p: PackageWithRepository, out: Repository) {
    Decided(p.package.status) && !Violates(p) && out == CopyFieldsToRepo(p.package, repo)
  }

  /** The calls of a reservation that stops at the first repository that fails. */
  ghost predicate StopsAt(repos: seq<Repository>, server: nat -> ReserveReply, calls: seq<Call>) {
    exists k :: 0 <= k < |repos| && !Reserves(repos[k], server) && (forall j :: 0 <= j < k ==> Reserves(repos[j], server))
                && calls == Selected(ReserveNext, repos, k + 1, Reservable)
  }

  /** Reserve and poll: afterwards `pck` has been polled for `rounds` ticks. */
  method ReserveAndPoll(repos: seq<Repository>, server: nat -> ReserveReply, s: PollServer, ticks: nat)
    returns (pck: array<PackageWithRepository>, ok: bool, outcome: PollOutcome, calls: seq<Call>, rounds: nat, n: nat)
    ensures fresh(pck)
    ensures ok <==> AllReserve(repos, server)
    ensures !ok ==> OnlyReserveKinds(calls) && StopsAt(repos, server, calls)
    ensures ok ==> PollEnd(Reservations(repos, server, s, 0), s, ticks, outcome, rounds, n)
    ensures ok ==> calls == Selected(ReserveNext, repos, |repos|, Reservable)
                            + PollSent(Reservations(repos, server, s, 0), s, outcome, rounds, n)
    ensures ok && outcome == Done ==> pck[..] == Reservations(repos, server, s, rounds)
  {
    hide PollCalls, PolledFor, PollEnd, PollSent, ReservedPackage, Selected;
    var reserved;
    reserved, ok, calls := ReservePackages(repos, server);
    outcome, rounds, n := Done, 0, 0;
    pck := new PackageWithRepository[|reserved|](i requires 0 <= i < |reserved| => reserved[i]);
    if !ok {
      SelectedKind(ReserveNext, repos, |reserved| + 1, Reservable);
      assert !Reserves(repos[|reserved|], server);
    } else {
      assert pck[..] == reserved;
      StartOfPolling(repos, server, s, reserved);
      var sent;
      outcome, sent, rounds, n := PollReserveNextPackages(pck, s, ticks);
      calls := calls + sent;
      if outcome == Done {
        assert pck[..] == Reservations(repos, server, s, rounds);
      }
    }
  }

  lemma StartOfPolling(repos: seq<Repository>, server: nat -> ReserveReply, s: PollServer, reserved: seq<PackageWithRepository>)
    requires AllReserve(repos, server) && |reserved| == |repos|
    requires forall i :: 0 <= i < |repos| ==> reserved[i] == ReservedPackage(repos[i], server)
    ensures reserved == Reservations(repos, server, s, 0)
  {
  }

  ghost predicate OnlyReserveKinds(calls: seq<Call>) {
    forall c :: c in calls ==> c.kind == ReserveNext || c.kind == GetPackage
  }

  lemma {:induction false} TickCallsKind(start: seq<PackageWithRepository>, n: nat, s: PollServer, t: nat)
    requires n <= |start|
    ensures forall c :: c in TickCalls(start, n, s, t) ==> c.kind == GetPackage
  {
    if n > 0 { TickCallsKind(start, n - 1, s, t); }
  }

  lemma {:induction false} PollRoundsKind(start: seq<PackageWithRepository>, s: PollServer, r: nat)
    ensures forall c :: c in PollCalls(start, s, r) ==> c.kind == GetPackage
  {
    hide TickCalls, PolledFor;
    if r > 0 {
      PollRoundsKind(start, s, r - 1);
      TickCallsKind(start, |start|, s, r - 1);
    }
  }

  lemma PollCallsKind(start: seq<PackageWithRepository>, s: PollServer, outcome: PollOutcome, rounds: nat, n: nat)
    ensures OnlyReserveKinds(PollSent(start, s, outcome, rounds, n))
  {
    hide PollCalls, TickCalls, PolledFor;
    if outcome == Done || outcome == TimedOut || rounds == 0 || n > |start| {
      PollRoundsKind(start, s, rounds);
    } else {
      PollRoundsKind(start, s, rounds - 1);
      TickCallsKind(start, n, s, rounds - 1);
    }
  }

  method RunReserve(repos: seq<Repository>, server: nat -> ReserveReply, s: PollServer, ticks: nat)
    returns (result: ReserveResult, calls: seq<Call>, rounds: nat, n: nat)
    ensures result == ReserveNextFailed <==> !AllReserve(repos, server)
    ensures result == ReserveNextFailed ==> StopsAt(repos, server, calls)
    ensures result.PollingFailed? ==>
      AllReserve(repos, server) && result.reason != Done
      && PollEnd(Reservations(repos, server, s, 0), s, ticks, result.reason, rounds, n)
      && calls == Selected(ReserveNext, repos, |repos|, Reservable)
                  + PollSent(Reservations(repos, server, s, 0), s, result.reason, rounds, n)
    ensures result.CheckFailed? || result.ReserveDone? ==>
      AllReserve(repos, server) && PollEnd(Reservations(repos, server, s, 0), s, ticks, Done, rounds, n)
      && calls == Selected(ReserveNext, repos, |repos|, Reservable)
                  + PollSent(Reservations(repos, server, s, 0), s, Done, rounds, n)
    ensures result.CheckFailed? ==>
      result.failure == LastFailure(Reservations(repos, server, s, rounds), |repos|) != NoFailure
    ensures result.ReserveDone? ==> ReservedAfter(repos, server, s, rounds, result.repos)
    ensures result.ReserveDone? ==>
      |result.repos| == |repos|
      && forall i :: 0 <= i < |repos| ==> result.repos[i].status == Planned || result.repos[i].status == Released
    ensures OnlyReserveKinds(calls)
  {
    hide PollEnd, PollSent, Selected, PolledFor, Violates, Decided, OnlyReserveKinds, Success, StopsAt;
    var pck, ok, outcome;
    pck, ok, outcome, calls, rounds, n := ReserveAndPoll(repos, server, s, ticks);
    if !ok {
      return ReserveNextFailed, calls, rounds, n;
    }
    AllKinds(repos, Reservations(repos, server, s, 0), s, ticks, outcome, rounds, n);
    if outcome != Done {
      return PollingFailed(outcome), calls, rounds, n;
    }
    ghost var polled := pck[..];
    var out, failure := CheckAndCopyFieldsToRepositories(pck);
    if failure != NoFailure {
      return CheckFailed(failure), calls, rounds, n;
    }
    AllDecided(repos, server, s, ticks, rounds, n);
    forall i | 0 <= i < |repos| ensures HandsOn(repos[i], Reservation(repos[i], server, s, rounds), out[i]) {
      assert polled[i] == Reservation(repos[i], server, s, rounds);
      assert out[i] == Copied(polled[i]).repo;
    }
    DecidedStatus(repos, server, s, rounds, out);
    result := ReserveDone(out);
  }

  lemma AllKinds(repos: seq<Repository>, start: seq<PackageWithRepository>, s: PollServer, ticks: nat,
                 outcome: PollOutcome, rounds: nat, n: nat)
    requires PollEnd(start, s, ticks, outcome, rounds, n)
    ensures OnlyReserveKinds(Selected(ReserveNext, repos, |repos|, Reservable) + PollSent(start, s, outcome, rounds, n))
  {
    SelectedKind(ReserveNext, repos, |repos|, Reservable);
    PollCallsKind(start, s, outcome, rounds, n);
  }

  lemma DecidedStatus(repos: seq<Repository>, server: nat -> ReserveReply, s: PollServer, r: nat, out: seq<Repository>)
    requires AllReserve(repos, server) && ReservedAfter(repos, server, s, r, out)
    ensures forall i :: 0 <= i < |repos| ==> out[i].status == Planned || out[i].status == Released
  {
    hide Reservation, Violates;
    forall i | 0 <= i < |repos| ensures out[i].status == Planned || out[i].status == Released {
      assert HandsOn(repos[i], Reservation(repos[i], server, s, r), out[i]);
    }
  }

  lemma AllDecided(repos: seq<Repository>, server: nat -> ReserveReply, s: PollServer, ticks: nat, rounds: nat, n: nat)
    requires AllReserve(repos, server)
    requires PollEnd(Reservations(repos, server, s, 0), s, ticks, Done, rounds, n)
    ensures forall i :: 0 <= i < |repos| ==> Decided(Reservation(repos[i], server, s, rounds).package.status)
  {
    var start := Reservations(repos, server, s, 0);
    forall i | 0 <= i < |repos| ensures Decided(Reservation(repos[i], server, s, rounds).package.status) {
      assert start[i] == ReservedPackage(repos[i], server);
      SuccessDecides(start, s, rounds - 1, i);
    }
  }

  // ---------------------------------------------------------------- the outcome is determined

  lemma InconclusiveAt(start: seq<PackageWithRepository>, s: PollServer, r: nat, t: nat)
    requires Undecided(start, s, r) && t < r
    ensures Inconclusive(start, s, t)
  {
    UndecidedMeans(start, s, r);
  }

  /** The tick at which polling ends is not inconclusive. */
  lemma EndingTick(start: seq<PackageWithRepository>, s: PollServer, ticks: nat, outcome: PollOutcome, rounds: nat, n: nat)
    requires PollEnd(start, s, ticks, outcome, rounds, n) && outcome != TimedOut
    ensures 0 < rounds && Undecided(start, s, rounds - 1) && !Inconclusive(start, s, rounds - 1)
  {
    hide PolledFor, Aborts, Ready;
    if outcome != Done {
      assert Aborts(start[n - 1], s, rounds - 1);
    }
  }

  /** Polling ends in one way only. */
  lemma PollEndUnique(start: seq<PackageWithRepository>, s: PollServer, ticks: nat,
                      a: PollOutcome, r: nat, n: nat, b: PollOutcome, q: nat, m: nat)
    requires PollEnd(start, s, ticks, a, r, n) && PollEnd(start, s, ticks, b, q, m)
    ensures a == b && r == q
  {
    hide Inconclusive, Undecided, Success, BrokenOff;
    if a != TimedOut {
      EndingTick(start, s, ticks, a, r, n);
      if b == TimedOut || r < q {
        InconclusiveAt(start, s, if b == TimedOut then q else q - 1, r - 1);
      }
    }
    if b != TimedOut {
      EndingTick(start, s, ticks, b, q, m);
      if a == TimedOut || q < r {
        InconclusiveAt(start, s, if a == TimedOut then r else r - 1, q - 1);
      }
    }
    assert r == q;
    if a != TimedOut && b != TimedOut {
      SameTick(start, s, ticks, a, r, n, b, m);
    }
  }

  lemma SameTick(start: seq<PackageWithRepository>, s: PollServer, ticks: nat, a: PollOutcome, r: nat, n: nat, b: PollOutcome, m: nat)
    requires PollEnd(start, s, ticks, a, r, n) && PollEnd(start, s, ticks, b, r, m) && a != TimedOut && b != TimedOut
    ensures a == b
  {
    hide PolledFor, Aborts, AllReady, Undecided;
    if a != Done {
      assert Aborts(start[n - 1], s, r - 1);
    }
    if b != Done {
      assert Aborts(start[m - 1], s, r - 1);
    }
  }

  /** The step ends well after r rounds: polling does, and no package violates a rule. */
  ghost predicate EndsWell(repos: seq<Repository>, server: nat -> ReserveReply, s: PollServer, ticks: nat, r: nat) {
    AllReserve(repos, server)
    && PollEnd(Reservations(repos, server, s, 0), s, ticks, Done, r, 0)
    && forall i :: 0 <= i < |repos| ==> !Violates(Reservation(repos[i], server, s, r))
  }

  /** What is handed on then. */
  ghost function ReservedList(repos: seq<Repository>, server: nat -> ReserveReply, s: PollServer, r: nat): (out: seq<Repository>)
    requires AllReserve(repos, server)
    ensures |out| == |repos|
    ensures forall i :: 0 <= i < |repos| ==> out[i] == CopyFieldsToRepo(Reservation(repos[i], server, s, r).package, repos[i])
  {
    seq(|repos|, i requires 0 <= i < |repos| => CopyFieldsToRepo(Reservation(repos[i], server, s, r).package, repos[i]))
  }

  /** The calls that belong to an end. */
  ghost predicate Sends(result: ReserveResult, repos: seq<Repository>, server: nat -> ReserveReply, s: PollServer,
                        r: nat, n: nat, calls: seq<Call>)
  {
    if result == ReserveNextFailed then StopsAt(repos, server, calls)
    else
      AllReserve(repos, server)
      && calls == Selected(ReserveNext, repos, |repos|, Reservable)
                  + PollSent(Reservations(repos, server, s, 0), s, if result.PollingFailed? then result.reason else Done, r, n)
  }

  /** What a failing or successful end means. */
  ghost predicate Explains(result: ReserveResult, repos: seq<Repository>, server: nat -> ReserveReply, s: PollServer, ticks: nat,
                           r: nat, n: nat)
  {
    match result
    case ReserveNextFailed => !AllReserve(repos, server)
    case PollingFailed(reason) =>
      AllReserve(repos, server) && reason != Done && PollEnd(Reservations(repos, server, s, 0), s, ticks, reason, r, n)
    case CheckFailed(failure) =>
      AllReserve(repos, server) && PollEnd(Reservations(repos, server, s, 0), s, ticks, Done, r, n)
      && failure == LastFailure(Reservations(repos, server, s, r), |repos|) != NoFailure
    case ReserveDone(out) => EndsWell(repos, server, s, ticks, r) && out == ReservedList(repos, server, s, r)
  }

  lemma EndsWellReserves(repos: seq<Repository>, server: nat -> ReserveReply, s: PollServer, ticks: nat, r: nat)
    requires EndsWell(repos, server, s, ticks, r)
    ensures AllReserve(repos, server)
  {
  }

  lemma DoneEndsWell(repos: seq<Repository>, server: nat -> ReserveReply, s: PollServer, ticks: nat, r: nat, n: nat, out: seq<Repository>)
    requires AllReserve(repos, server) && PollEnd(Reservations(repos, server, s, 0), s, ticks, Done, r, n)
    requires ReservedAfter(repos, server, s, r, out)
    ensures EndsWell(repos, server, s, ticks, r) && out == ReservedList(repos, server, s, r)
  {
    hide Reservation, Violates, Decided, CopyFieldsToRepo, Undecided, Success;
    forall i | 0 <= i < |repos|
      ensures !Violates(Reservation(repos[i], server, s, r))
      ensures out[i] == CopyFieldsToRepo(Reservation(repos[i], server, s, r).package, repos[i])
    {
      assert HandsOn(repos[i], Reservation(repos[i], server, s, r), out[i]);
    }
  }

  /** A step that fails for a reason does not end well after any number of rounds, and one that ends well does
      so after one number only. */
  lemma EndDetermined(result: ReserveResult, repos: seq<Repository>, server: nat -> ReserveReply, s: PollServer, ticks: nat,
                      r: nat, n: nat, q: nat)
    requires Explains(result, repos, server, s, ticks, r, n) && EndsWell(repos, server, s, ticks, q)
    ensures result.ReserveDone? && r == q
  {
    hide PollEnd, Reservation, Violates, FailureOf;
    var start := Reservations(repos, server, s, 0);
    match result
    case PollingFailed(reason) => PollEndUnique(start, s, ticks, reason, r, n, Done, q, 0);
    case CheckFailed(_) => PollEndUnique(start, s, ticks, Done, r, n, Done, q, 0);
    case ReserveDone(_) => PollEndUnique(start, s, ticks, Done, r, 0, Done, q, 0);
    case ReserveNextFailed =>
  }

  // ---------------------------------------------------------------- what the step hands on and what it refuses

  /** The reservation fails exactly if some repository has no name or no version, or the registry refuses it. */
  lemma ReservationFails(repos: seq<Repository>, server: nat -> ReserveReply)
    ensures !AllReserve(repos, server) <==>
      exists i :: 0 <= i < |repos| && (repos[i].name == "" || repos[i].versionYAML == "" || server(repos[i].key) == ReserveRejected)
  {
    assert forall i :: 0 <= i < |repos| ==>
      (!Reserves(repos[i], server) <==> repos[i].name == "" || repos[i].versionYAML == "" || server(repos[i].key) == ReserveRejected);
  }

  /** One ID is the beginning of the other. */
  ghost predicate Overlap(a: string, b: string) {
    (|a| <= |b| && b[..|a|] == a) || (|b| <= |a| && a[..|b|] == b)
  }

  /** What a repository has got when the step succeeds, told by what the registry has answered to its reservation. */
  lemma ReservedMeans(repos: seq<Repository>, server: nat -> ReserveReply, s: PollServer, r: nat, out: seq<Repository>, i: nat)
    requires AllReserve(repos, server) && ReservedAfter(repos, server, s, r, out) && i < |repos|
    ensures var repo, reply := repos[i], server(repos[i].key);
            && reply.Determined?
            && out[i] == repo.(packageName := reply.packageName, packageType := reply.packageType,
                               predecessorCommitID := reply.predecessorCommitID, status := out[i].status, nspace := out[i].nspace)
            && (out[i].status == Planned || out[i].status == Released)
            && (out[i].status != Released ==> out[i].nspace != "")
            && (!repo.useClassicCTS ==>
                  if out[i].status == Released then Overlap(reply.commitID, repo.commitID)
                  else reply.predecessorCommitID == "" || !Overlap(reply.predecessorCommitID, repo.commitID))
  {
    var p := ReservedPackage(repos[i], server);
    PackageFieldsKept(p, s, r);
    assert HandsOn(repos[i], Reservation(repos[i], server, s, r), out[i]);
    hide PolledFor;
  }

  /** The failure reported by the check is that of a package: an unreleased one without namespace, a released one
      built from another commit, or an unreleased one with the commit of its predecessor. */
  lemma {:induction false} FailureMeans(pck: seq<PackageWithRepository>, n: nat)
    requires n <= |pck| && LastFailure(pck, n) != NoFailure
    ensures exists i :: 0 <= i < n && Reported(pck[i], LastFailure(pck, n))
  {
    if FailureOf(pck[n - 1]) == NoFailure {
      FailureMeans(pck, n - 1);
    } else {
      assert Reported(pck[n - 1], LastFailure(pck, n));
    }
  }

  ghost predicate Reported(p: PackageWithRepository, failure: CheckFailure) {
    match failure
    case NoFailure => false
    case EmptyNamespace => p.package.status != Released && p.package.nspace == ""
    case CommitMismatch =>
      p.package.status == Released && !p.repo.useClassicCTS && !Overlap(p.package.commitID, p.repo.commitID)
    case SameAsPredecessor(name) =>
      name == p.package.packageName && p.package.status != Released && !p.repo.useClassicCTS
      && p.package.predecessorCommitID != "" && Overlap(p.package.predecessorCommitID, p.repo.commitID)
  }
}
