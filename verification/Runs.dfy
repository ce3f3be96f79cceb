/** Running the five steps: a failing step ends the run. Which end a run takes is determined by the repositories
    and the outside alone. */
module Runs {
  import opened Packages
  import opened Pipeline
  import Reserve
  import Assemble
  import Register
  import Release
  import Confirm

  datatype End =
    | Completed
    | ReserveStopped(reserve: Reserve.ReserveResult)
    | AssembleStopped(assemble: Assemble.AssembleError)
    | RegisterStopped(register: Register.RegisterResult)
    | ReleaseStopped(release: Release.ReleaseResult)
    | ConfirmStopped(confirm: Confirm.ConfirmError)

  const NOTHING := Run([], [], [], [], [], [], [], [], [])

  // ---------------------------------------------------------------- when all steps succeed

  ghost predicate ConfirmSucceeds(released: seq<Repository>, w: World) {
    w.confirmConnects && Confirm.CanConfirmAll(released, w.confirmation, w.confirmTicks)
  }

  ghost predicate SucceedsFromRelease(registered: seq<Repository>, w: World) {
    exists r :: Release.EndsWell(registered, w.release, w.releaseTicks, r)
                && ConfirmSucceeds(Release.ReleasedList(registered, w.release, r), w)
  }

  ghost predicate SucceedsFromRegister(assembled: seq<Repository>, w: World) {
    Register.AllRegister(assembled, w.registry) && SucceedsFromRelease(Register.RegisteredList(assembled, w.registry), w)
  }

  ghost predicate SucceedsFromAssemble(reserved: seq<Repository>, w: World) {
    w.assembleConnects && Assemble.AllSucceed(reserved, w.assembly)
    && SucceedsFromRegister(Assemble.AssembledList(reserved, w.assembly, w.envPath), w)
  }

  /** The outside lets all five steps succeed. */
  ghost predicate PipelineSucceeds(repos: seq<Repository>, w: World) {
    Reserve.AllReserve(repos, w.reserve)
    && exists p :: Reserve.EndsWell(repos, w.reserve, w.poll, w.pollTicks, p)
                   && SucceedsFromAssemble(Reserve.ReservedList(repos, w.reserve, w.poll, p), w)
  }

  // ---------------------------------------------------------------- how far a run came

  /** Reserve has succeeded, after polling p times, and has sent these calls. */
  ghost predicate PastReserve(repos: seq<Repository>, w: World, run: Run, p: nat) {
    Reserve.EndsWell(repos, w.reserve, w.poll, w.pollTicks, p)
    && run.reserved == Reserve.ReservedList(repos, w.reserve, w.poll, p)
    && run.reserveCalls == Selected(ReserveNext, repos, |repos|, Reserve.Reservable)
                           + Reserve.PollCalls(Reserve.Reservations(repos, w.reserve, w.poll, 0), w.poll, p)
  }

  ghost predicate PastAssemble(run: Run, w: World) {
    w.assembleConnects && Assemble.AllSucceed(run.reserved, w.assembly)
    && run.assembled == Assemble.AssembledList(run.reserved, w.assembly, w.envPath)
    && run.startCalls == Selected(StartBuild, run.reserved, |run.reserved|, Assemble.Startable)
  }

  ghost predicate PastRegister(run: Run, w: World) {
    Register.AllRegister(run.assembled, w.registry)
    && run.registered == Register.RegisteredList(run.assembled, w.registry)
    && Register.RegisterCalls(run.assembled, w.registry, run.registerCalls, |run.assembled|, |run.assembled|)
  }

  ghost predicate PastRelease(run: Run, w: World, rounds: nat) {
    Release.EndsWell(run.registered, w.release, w.releaseTicks, rounds)
    && run.released == Release.ReleasedList(run.registered, w.release, rounds)
    && run.releaseCalls == Release.ReleaseCalls(Release.LockedPackages(run.registered), w.release, rounds)
  }

  // ---------------------------------------------------------------- why a run ends

  /** The file system, the upload or the registry let one of the packages down. */
  ghost predicate Refused(repos: seq<Repository>, w: World) {
    exists i :: 0 <= i < |repos| && RefusedOne(repos[i], w)
  }

  predicate RefusedOne(repo: Repository, w: World) {
    var file := w.registry.read(repo.sarXMLFilePath);
    repo.status == Planned
    && (file.ReadFailed? || file.length == 0 || w.registry.uploadFails(repo.key) || w.registry.register(repo.key).RegisterRejected?)
  }

  /** What a successful Assemble step hands on has all that Register asks for: no path and no name is missing,
      so only a refusal from outside stops Register. */
  lemma OnlyRefusalsStop(run: Run, w: World)
    requires PastAssemble(run, w)
    ensures forall i :: 0 <= i < |run.assembled| ==> Register.UploadOf(run.assembled[i], w.registry) != Register.PathMissing
    ensures Register.AllRegister(run.assembled, w.registry) <==> !Refused(run.assembled, w)
  {
    hide Assemble.HandedOn, Assemble.BuildSucceeds, Assemble.EndsWell, Assemble.BuiltWell;
    forall i | 0 <= i < |run.assembled|
      ensures Register.UploadOf(run.assembled[i], w.registry) != Register.PathMissing
      ensures RefusedOne(run.assembled[i], w)
         <==> !(Register.UploadOf(run.assembled[i], w.registry) == Register.Uploaded && Register.Registers(run.assembled[i], w.registry))
    {
      OneReady(run, w, i);
    }
  }

  lemma OneReady(run: Run, w: World, i: nat)
    requires PastAssemble(run, w) && i < |run.assembled|
    ensures run.assembled[i].status == Planned ==>
      run.assembled[i].sarXMLFilePath != "" && run.assembled[i].packageName != ""
  {
    var repo := run.reserved[i];
    if repo.status == Planned {
      assert Assemble.BuildSucceeds(repo, w.assembly);
      Assemble.ReadyToRegister(repo, w.assembly, w.envPath);
    }
  }

  /** The fields of a run that later steps fill in are empty: from Register on, from Release on, from Confirm on. */
  predicate NoRegister(run: Run) {
    run.registered == [] && run.registerCalls == [] && NoRelease(run)
  }

  predicate NoRelease(run: Run) {
    run.released == [] && run.releaseCalls == [] && run.confirmCalls == []
  }

  /** Why a run ends where it does: the steps before have succeeded, and the last one fails for the reason it
      reports, or none does. A step that fails hands on nothing, and no later one does or sends anything. */
  ghost predicate Explains(repos: seq<Repository>, w: World, run: Run, end: End, polls: nat, rounds: nat) {
    match end
    case ReserveStopped(result) =>
      run == NOTHING.(reserveCalls := run.reserveCalls) && !result.ReserveDone?
      && exists n :: Reserve.Explains(result, repos, w.reserve, w.poll, w.pollTicks, polls, n)
                     && Reserve.Sends(result, repos, w.reserve, w.poll, polls, n, run.reserveCalls)
    case AssembleStopped(error) =>
      PastReserve(repos, w, run, polls) && run.assembled == [] && NoRegister(run)
      && error != Assemble.NoError && Assemble.Explains(error, run.reserved, w.assembleConnects, w.assembly)
      && run.startCalls == (if w.assembleConnects then Selected(StartBuild, run.reserved, |run.reserved|, Assemble.Startable) else [])
    case RegisterStopped(result) =>
      PastReserve(repos, w, run, polls) && PastAssemble(run, w) && run.registered == [] && NoRelease(run)
      && !result.RegisterDone? && Register.Explains(result, run.assembled, w.registry, run.registerCalls)
      && Refused(run.assembled, w) && result != Register.UploadStopped(Register.PathMissing)
    case ReleaseStopped(result) =>
      PastReserve(repos, w, run, polls) && PastAssemble(run, w) && PastRegister(run, w)
      && run.released == [] && run.confirmCalls == []
      && !result.ReleaseDone? && Release.Explains(result, run.registered, w.release, w.releaseTicks, rounds)
      && run.releaseCalls == (if result == Release.NameMissing then []
           else Release.ReleaseCalls(Release.LockedPackages(run.registered), w.release, w.releaseTicks))
    case ConfirmStopped(error) =>
      PastReserve(repos, w, run, polls) && PastAssemble(run, w) && PastRegister(run, w) && PastRelease(run, w, rounds)
      && error != Confirm.Confirmed && Confirm.Sends(error, run.released, w.confirmation, run.confirmCalls)
      && exists r :: Confirm.Explains(error, run.released, w.confirmConnects, w.confirmation, w.confirmTicks, r)
    case Completed =>
      PastReserve(repos, w, run, polls) && PastAssemble(run, w) && PastRegister(run, w) && PastRelease(run, w, rounds)
      && ConfirmSucceeds(run.released, w) && Succeeded(repos, w, run, rounds)
  }

  /** The stage of the last calls a run may send before it ends. */
  function LastStage(end: End): nat {
    match end
    case ReserveStopped(_) => 0
    case AssembleStopped(_) => 1
    case RegisterStopped(_) => 3
    case ReleaseStopped(_) => 4
    case ConfirmStopped(_) => 5
    case Completed => 5
  }

  /** The logs of the steps after the last one are empty. */
  lemma LateLogsEmpty(repos: seq<Repository>, w: World, run: Run, end: End, polls: nat, rounds: nat)
    requires Explains(repos, w, run, end, polls, rounds)
    ensures LastStage(end) < 1 ==> run.startCalls == []
    ensures LastStage(end) < 3 ==> run.registerCalls == []
    ensures LastStage(end) < 4 ==> run.releaseCalls == []
    ensures LastStage(end) < 5 ==> run.confirmCalls == []
  {
    hide PastReserve, PastAssemble, PastRegister, PastRelease, Reserve.Explains, Reserve.Sends, Assemble.Explains,
         Register.Explains, Release.Explains, Confirm.Explains, Confirm.Sends, Selected, Release.ReleaseCalls, Refused,
         Succeeded, ConfirmSucceeds;
  }

  /** After a failed step nothing is sent. */
  lemma NothingAfterStop(repos: seq<Repository>, w: World, run: Run, end: End, polls: nat, rounds: nat, c: Call)
    requires Linked(repos, w, run, rounds) && Explains(repos, w, run, end, polls, rounds) && c in run.Calls()
    ensures Stage(c.kind) <= LastStage(end)
  {
    Stages(repos, w, run, rounds);
    LateLogsEmpty(repos, w, run, end, polls, rounds);
    hide Linked, Explains, InOrder;
  }

  lemma ReserveDecides(repos: seq<Repository>, w: World, run: Run, p: nat)
    requires PastReserve(repos, w, run, p)
    ensures PipelineSucceeds(repos, w) <==> SucceedsFromAssemble(run.reserved, w)
  {
    hide Reserve.EndsWell, SucceedsFromAssemble, Selected, Reserve.PollCalls, Reserve.AllReserve;
    Reserve.EndsWellReserves(repos, w.reserve, w.poll, w.pollTicks, p);
    forall q | Reserve.EndsWell(repos, w.reserve, w.poll, w.pollTicks, q) ensures q == p {
      Reserve.EndDetermined(Reserve.ReserveDone(run.reserved), repos, w.reserve, w.poll, w.pollTicks, p, 0, q);
    }
  }

  lemma ReserveFails(repos: seq<Repository>, w: World, result: Reserve.ReserveResult, p: nat, n: nat)
    requires !result.ReserveDone? && Reserve.Explains(result, repos, w.reserve, w.poll, w.pollTicks, p, n)
    ensures !PipelineSucceeds(repos, w)
  {
    hide Reserve.EndsWell, Reserve.Explains, SucceedsFromAssemble;
    forall q ensures !Reserve.EndsWell(repos, w.reserve, w.poll, w.pollTicks, q) {
      if Reserve.EndsWell(repos, w.reserve, w.poll, w.pollTicks, q) {
        Reserve.EndDetermined(result, repos, w.reserve, w.poll, w.pollTicks, p, n, q);
      }
    }
  }

  lemma AssembleDecides(run: Run, w: World)
    requires PastAssemble(run, w)
    ensures SucceedsFromAssemble(run.reserved, w) <==> SucceedsFromRegister(run.assembled, w)
  {
    hide SucceedsFromRegister, Assemble.AllSucceed, Selected;
  }

  lemma RegisterDecides(run: Run, w: World)
    requires PastRegister(run, w)
    ensures SucceedsFromRegister(run.assembled, w) <==> SucceedsFromRelease(run.registered, w)
  {
    hide SucceedsFromRelease, Register.AllRegister, Register.RegisterCalls;
  }

  lemma ReleaseDecides(run: Run, w: World, rounds: nat)
    requires PastRelease(run, w, rounds)
    ensures SucceedsFromRelease(run.registered, w) <==> ConfirmSucceeds(run.released, w)
  {
    hide Release.EndsWell, ConfirmSucceeds, Release.ReleaseCalls;
    forall q | Release.EndsWell(run.registered, w.release, w.releaseTicks, q) ensures q == rounds {
      Release.EndDetermined(Release.ReleaseDone(run.released), run.registered, w.release, w.releaseTicks, rounds, q);
    }
  }

  lemma ReleaseFails(registered: seq<Repository>, w: World, result: Release.ReleaseResult, r: nat)
    requires !result.ReleaseDone? && Release.Explains(result, registered, w.release, w.releaseTicks, r)
    ensures !SucceedsFromRelease(registered, w)
  {
    hide Release.EndsWell, Release.Explains, ConfirmSucceeds;
    forall q ensures !Release.EndsWell(registered, w.release, w.releaseTicks, q) {
      if Release.EndsWell(registered, w.release, w.releaseTicks, q) {
        Release.EndDetermined(result, registered, w.release, w.releaseTicks, r, q);
      }
    }
  }

  lemma AssembleFails(reserved: seq<Repository>, w: World, error: Assemble.AssembleError)
    requires error != Assemble.NoError && Assemble.Explains(error, reserved, w.assembleConnects, w.assembly)
    ensures !SucceedsFromAssemble(reserved, w)
  {
    hide Assemble.AllPlannedBuiltWell, Assemble.AllPlannedDeliver, SucceedsFromRegister;
  }

  lemma RegisterFails(assembled: seq<Repository>, w: World, result: Register.RegisterResult, calls: seq<Call>)
    requires !result.RegisterDone? && Register.Explains(result, assembled, w.registry, calls)
    ensures !SucceedsFromRegister(assembled, w)
  {
    hide Register.UploadOf, Register.Registers, Register.RegisterCalls, SucceedsFromRelease;
  }

  lemma ConfirmFails(released: seq<Repository>, w: World, error: Confirm.ConfirmError, r: nat)
    requires error != Confirm.Confirmed
    requires Confirm.Explains(error, released, w.confirmConnects, w.confirmation, w.confirmTicks, r)
    ensures !ConfirmSucceeds(released, w)
  {
    hide Confirm.Explains, Confirm.CanConfirmAll;
    Confirm.FailureExplained(error, released, w.confirmConnects, w.confirmation, w.confirmTicks, r);
  }

  /** A run completes exactly if the outside lets all steps succeed. */
  lemma EndMeans(repos: seq<Repository>, w: World, run: Run, end: End, polls: nat, rounds: nat)
    requires Explains(repos, w, run, end, polls, rounds)
    ensures end == Completed <==> PipelineSucceeds(repos, w)
  {
    hide PastReserve, PastAssemble, PastRegister, PastRelease, Succeeded, Refused, PipelineSucceeds, SucceedsFromAssemble,
         SucceedsFromRegister, SucceedsFromRelease, ConfirmSucceeds, Reserve.Explains, Assemble.Explains, Register.Explains,
         Release.Explains, Confirm.Explains, Reserve.Sends, Confirm.Sends, Selected, Release.ReleaseCalls;
    if end.ReserveStopped? {
      var n :| Reserve.Explains(end.reserve, repos, w.reserve, w.poll, w.pollTicks, polls, n);
      ReserveFails(repos, w, end.reserve, polls, n);
    } else {
      ReserveDecides(repos, w, run, polls);
      if end.AssembleStopped? {
        AssembleFails(run.reserved, w, end.assemble);
      } else {
        AssembleDecides(run, w);
        if end.RegisterStopped? {
          RegisterFails(run.assembled, w, end.register, run.registerCalls);
        } else {
          RegisterDecides(run, w);
          if end.ReleaseStopped? {
            ReleaseFails(run.registered, w, end.release, rounds);
          } else {
            ReleaseDecides(run, w, rounds);
            if end.ConfirmStopped? {
              var r :| Confirm.Explains(end.confirm, run.released, w.confirmConnects, w.confirmation, w.confirmTicks, r);
              ConfirmFails(run.released, w, end.confirm, r);
            }
          }
        }
      }
    }
  }

  // ---------------------------------------------------------------- the steps are linked

  lemma NoneLinked(w: World, list: seq<Repository>)
    ensures RegisterSends(list, [], w) && ConfirmSends([], [])
  {
    assert Register.RegisterCalls(list, w.registry, [], 0, 0);
    assert Selected(ConfirmBuild, [], 0, Confirm.Confirmable) == [];
  }

  lemma NoneConfirmed(list: seq<Repository>)
    ensures ConfirmSends(list, [])
  {
    assert Selected(ConfirmBuild, list, 0, Confirm.Confirmable) == [];
  }

  lemma ReservedLinks(repos: seq<Repository>, w: World, out: seq<Repository>, p: nat, n: nat)
    requires Reserve.AllReserve(repos, w.reserve)
    requires Reserve.PollEnd(Reserve.Reservations(repos, w.reserve, w.poll, 0), w.poll, w.pollTicks, Reserve.Done, p, n)
    requires Reserve.ReservedAfter(repos, w.reserve, w.poll, p, out)
    ensures ReserveLink(repos, out) && |out| == |repos|
    ensures Reserve.EndsWell(repos, w.reserve, w.poll, w.pollTicks, p)
    ensures out == Reserve.ReservedList(repos, w.reserve, w.poll, p)
  {
    Reserve.DoneEndsWell(repos, w.reserve, w.poll, w.pollTicks, p, n, out);
    hide Reserve.PolledFor, Reserve.Violates, Reserve.Decided, Reserve.Reserves, Reserve.EndsWell, Reserve.ReservedList, Reserve.PollEnd;
    forall i | 0 <= i < |repos| ensures ReservedFrom(repos[i], out[i]) {
      assert Reserve.HandsOn(repos[i], Reserve.Reservation(repos[i], w.reserve, w.poll, p), out[i]);
    }
  }

  lemma RegisteredLinks(repos: seq<Repository>, w: World)
    requires Register.AllRegister(repos, w.registry)
    ensures RegisterLink(repos, Register.RegisteredList(repos, w.registry))
  {
  }

  method RunFirst(repos: seq<Repository>, w: World) returns (run: Run, end: End, polls: nat)
    ensures Linked(repos, w, run, 0)
    ensures run == NOTHING.(reserved := run.reserved, reserveCalls := run.reserveCalls)
    ensures end.ReserveStopped? || end.Completed?
    ensures end.ReserveStopped? ==> Explains(repos, w, run, end, polls, 0)
    ensures end.Completed? ==> PastReserve(repos, w, run, polls)
  {
    hide Reserve.Reserves, Reserve.PollEnd, Reserve.ReservedAfter, Reserve.OnlyReserveKinds, Reserve.EndsWell, Selected,
         Reserve.PollCalls, Reserve.ReservedList, Release.HandsOn, Reserve.LastFailure, Reserve.Reservations, Reserve.StopsAt;
    NoneLinked(w, []);
    var reserve, calls, n;
    reserve, calls, polls, n := Reserve.RunReserve(repos, w.reserve, w.poll, w.pollTicks);
    run, end := NOTHING.(reserveCalls := calls), Completed;
    if !reserve.ReserveDone? {
      end := ReserveStopped(reserve);
      assert Reserve.Explains(reserve, repos, w.reserve, w.poll, w.pollTicks, polls, n)
          && Reserve.Sends(reserve, repos, w.reserve, w.poll, polls, n, calls);
      return;
    }
    run := run.(reserved := reserve.repos);
    ReservedLinks(repos, w, run.reserved, polls, n);
  }

  /** The first two steps. */
  method ReserveAndAssemble(repos: seq<Repository>, w: World) returns (run: Run, end: End, polls: nat)
    ensures Linked(repos, w, run, 0)
    ensures run == NOTHING.(reserved := run.reserved, assembled := run.assembled,
                            reserveCalls := run.reserveCalls, startCalls := run.startCalls)
    ensures end.ReserveStopped? || end.AssembleStopped? || end.Completed?
    ensures end != Completed ==> Explains(repos, w, run, end, polls, 0)
    ensures end == Completed ==> PastReserve(repos, w, run, polls) && PastAssemble(run, w)
  {
    hide PastReserve, ReserveLink, ReserveSends, Selected, Release.HandsOn, Assemble.AllPlannedBuiltWell,
         Assemble.AllPlannedDeliver, Assemble.Continues, Assemble.HandedOn;
    run, end, polls := RunFirst(repos, w);
    if end != Completed {
      return;
    }
    var assembled, error, starts := Assemble.RunAssemble(run.reserved, w.assembleConnects, w.assembly, w.envPath);
    SameReserve(repos, w, run, run.(startCalls := starts), polls);
    run := run.(startCalls := starts);
    if error != Assemble.NoError {
      end := AssembleStopped(error);
    } else {
      SameReserve(repos, w, run, run.(assembled := assembled), polls);
      run := run.(assembled := assembled);
      NoneLinked(w, assembled);
    }
  }

  /** Reserve is behind us, whatever happens afterwards. */
  lemma SameReserve(repos: seq<Repository>, w: World, run: Run, later: Run, polls: nat)
    requires later.reserved == run.reserved && later.reserveCalls == run.reserveCalls
    ensures PastReserve(repos, w, run, polls) ==> PastReserve(repos, w, later, polls)
  {
    hide Reserve.EndsWell, Reserve.PollCalls, Selected;
  }

  lemma SameAssemble(run: Run, later: Run, w: World)
    requires later.reserved == run.reserved && later.assembled == run.assembled && later.startCalls == run.startCalls
    ensures PastAssemble(run, w) ==> PastAssemble(later, w)
  {
    hide Assemble.AllSucceed, Selected;
  }

  /** The next two steps, after a successful Assemble. */
  method RegisterAndRelease(repos: seq<Repository>, w: World, before: Run, ghost polls: nat)
    returns (run: Run, end: End, rounds: nat)
    requires before == NOTHING.(reserved := before.reserved, assembled := before.assembled,
                                reserveCalls := before.reserveCalls, startCalls := before.startCalls)
    requires Linked(repos, w, before, 0) && PastReserve(repos, w, before, polls) && PastAssemble(before, w)
    ensures Linked(repos, w, run, rounds) && run.confirmCalls == []
    ensures run == before.(registered := run.registered, released := run.released,
                           registerCalls := run.registerCalls, releaseCalls := run.releaseCalls)
    ensures end.RegisterStopped? || end.ReleaseStopped? || end.Completed?
    ensures end != Completed ==> Explains(repos, w, run, end, polls, rounds)
    ensures end == Completed ==>
      PastReserve(repos, w, run, polls) && PastAssemble(run, w) && PastRegister(run, w) && PastRelease(run, w, rounds)
  {
    hide AssembleLink, ReserveLink, ReserveSends, StartSends, ConfirmSends, PastReserve, PastAssemble, RegisterLink;
    hide Register.AllRegister, Register.RegisterCalls, Register.RegisteredList, Register.Explains, Selected, Refused;
    hide Release.HandsOn, Release.SomeReleased, Release.Pending, Release.AllSettled, Release.ReleasedList, Release.LockedPackages;
    run, rounds, end := before, 0, Completed;
    var register, calls, n, m := Register.RunRegister(run.assembled, w.registry);
    OnlyRefusalsStop(before, w);
    RegisterEnd(before, w, register, calls);
    run := run.(registerCalls := calls);
    if !register.RegisterDone? {
      end := RegisterStopped(register);
      SameReserve(repos, w, before, run, polls);
      SameAssemble(before, run, w);
      return;
    }
    run := run.(registered := register.repos);
    RegisteredLinks(run.assembled, w);
    var release, timedOut;
    release, calls, rounds, timedOut := Release.RunRelease(run.registered, w.release, w.releaseTicks);
    run := run.(releaseCalls := calls);
    ReleaseEnd(run.registered, w, release, rounds, timedOut);
    if !release.ReleaseDone? {
      end := ReleaseStopped(release);
    } else {
      run := run.(released := release.repos);
      NoneConfirmed(run.released);
    }
    SameReserve(repos, w, before, run, polls);
    SameAssemble(before, run, w);
  }

  lemma RegisterEnd(run: Run, w: World, result: Register.RegisterResult, calls: seq<Call>)
    requires PastAssemble(run, w) && Register.Explains(result, run.assembled, w.registry, calls)
    ensures !result.RegisterDone? ==> Refused(run.assembled, w) && result != Register.UploadStopped(Register.PathMissing)
    ensures result.RegisterDone? ==>
      Register.AllRegister(run.assembled, w.registry) && result.repos == Register.RegisteredList(run.assembled, w.registry)
  {
    OnlyRefusalsStop(run, w);
    hide PastAssemble, Register.UploadOf, Register.Registers, Refused, Register.RegisteredList, Register.RegisterCalls;
  }

  lemma ReleaseEnd(repos: seq<Repository>, w: World, result: Release.ReleaseResult, rounds: nat, timedOut: bool)
    requires result == Release.NameMissing <==> exists i :: 0 <= i < |repos| && repos[i].packageName == ""
    requires result != Release.NameMissing ==>
      Release.Stops(Release.LockedPackages(repos), w.release, w.releaseTicks, timedOut, rounds)
    requires result == Release.NothingReleased ==>
      timedOut && !Release.SomeReleased(Release.LockedPackages(repos), w.release, rounds)
    requires result.ReleaseDone? ==> Release.HandsOn(repos, w.release, rounds, result.repos)
    requires result.ReleaseDone? ==> !timedOut || Release.SomeReleased(Release.LockedPackages(repos), w.release, rounds)
    ensures Release.Explains(result, repos, w.release, w.releaseTicks, rounds)
  {
    hide Release.SomeReleased, Release.Pending, Release.AllSettled, Release.LockedPackages, Release.ReleasedList, Release.HandsOn;
    if result.ReleaseDone? {
      Release.HandsOnOne(repos, w.release, rounds, result.repos);
    }
  }

  /** Another log of confirmations changes nothing of what is behind us. */
  lemma SamePast(repos: seq<Repository>, w: World, run: Run, calls: seq<Call>, polls: nat, rounds: nat)
    requires PastReserve(repos, w, run, polls) && PastAssemble(run, w) && PastRegister(run, w) && PastRelease(run, w, rounds)
    ensures var later := run.(confirmCalls := calls);
            PastReserve(repos, w, later, polls) && PastAssemble(later, w) && PastRegister(later, w) && PastRelease(later, w, rounds)
  {
    SameReserve(repos, w, run, run.(confirmCalls := calls), polls);
    SameAssemble(run, run.(confirmCalls := calls), w);
    hide PastReserve, PastAssemble, Register.AllRegister, Register.RegisterCalls, Release.EndsWell, Release.ReleaseCalls;
  }

  /** With all steps behind us, the run has succeeded. */
  lemma AllPast(repos: seq<Repository>, w: World, run: Run, polls: nat, rounds: nat)
    requires Linked(repos, w, run, rounds)
    requires PastReserve(repos, w, run, polls) && PastAssemble(run, w) && PastRegister(run, w) && PastRelease(run, w, rounds)
    requires Confirm.AllConfirmable(run.released, w.confirmation)
    requires run.confirmCalls == Selected(ConfirmBuild, run.released, |run.released|, Confirm.Confirmable)
    ensures Succeeded(repos, w, run, rounds)
  {
    hide Linked, Confirm.AllConfirmable, Selected, Reserve.EndsWell, Reserve.PollCalls, Assemble.AllSucceed, Assemble.HandedOn,
         Register.AllRegister, Register.RegisterCalls, Release.EndsWell, Release.HandsOn, Release.ReleaseCalls;
  }

  lemma ConfirmLinks(repos: seq<Repository>, w: World, run: Run, calls: seq<Call>, n: nat, rounds: nat)
    requires Linked(repos, w, run, rounds) && n <= |run.released|
    requires calls == Selected(ConfirmBuild, run.released, n, Confirm.Confirmable)
    ensures Linked(repos, w, run.(confirmCalls := calls), rounds)
  {
    hide AssembleLink, ReserveLink, ReserveSends, StartSends, RegisterSends, RegisterLink, ReleaseSends, ReleaseLink, Selected;
  }

  lemma ConfirmSent(run: Run, w: World, error: Confirm.ConfirmError, calls: seq<Call>, n: nat)
    requires n <= |run.released| && calls == Selected(ConfirmBuild, run.released, n, Confirm.Confirmable)
    requires match error
             case ConfirmConnectFailed => n == 0
             case ConfirmStartFailed =>
               0 < n && Confirm.StartFails(run.released[n - 1], w.confirmation)
               && forall i :: 0 <= i < n - 1 ==> !Confirm.StartFails(run.released[i], w.confirmation)
             case _ => n == |run.released|
    ensures Confirm.Sends(error, run.released, w.confirmation, calls)
  {
    hide Confirm.StartFails;
    if error.ConfirmConnectFailed? {
      Confirm.NoCalls(run.released);
    }
    hide Selected;
    if error.ConfirmStartFailed? {
      assert Confirm.FirstStartFails(run.released, w.confirmation, n - 1) && n - 1 + 1 == n;
    }
  }

  /** The last step. */
  method RunLast(repos: seq<Repository>, w: World, before: Run, ghost polls: nat, ghost rounds: nat) returns (run: Run, end: End)
    requires Linked(repos, w, before, rounds)
    requires PastReserve(repos, w, before, polls) && PastAssemble(before, w) && PastRegister(before, w)
    requires PastRelease(before, w, rounds)
    ensures run == before.(confirmCalls := run.confirmCalls)
    ensures Linked(repos, w, run, rounds) && Explains(repos, w, run, end, polls, rounds)
  {
    hide Linked, PastReserve, PastAssemble, PastRegister, PastRelease, Selected, Confirm.CanConfirmAll, Confirm.ConfirmationsEndWell,
         Confirm.AllConfirmable, Confirm.StartFails, Confirm.PollingEnd, Confirm.ConfirmBuilds, Confirm.Unreleased, Succeeded;
    var confirm, calls, n, r := Confirm.RunConfirm(before.released, w.confirmConnects, w.confirmation, w.confirmTicks);
    run := before.(confirmCalls := calls);
    SamePast(repos, w, before, calls, polls, rounds);
    ConfirmLinks(repos, w, before, calls, n, rounds);
    if confirm == Confirm.Confirmed {
      end := Completed;
      AllPast(repos, w, run, polls, rounds);
    } else {
      end := ConfirmStopped(confirm);
      ConfirmSent(before, w, confirm, calls, n);
      assert Confirm.Explains(confirm, run.released, w.confirmConnects, w.confirmation, w.confirmTicks, r);
    }
  }

  /** The whole pipeline, for every list and every outside: the lists are linked, the run ends for the reason it
      reports, and it completes if and only if the outside lets all steps succeed. */
  method RunPipeline(repos: seq<Repository>, w: World) returns (run: Run, end: End, polls: nat, rounds: nat)
    ensures Linked(repos, w, run, rounds)
    ensures Explains(repos, w, run, end, polls, rounds)
    ensures end == Completed <==> PipelineSucceeds(repos, w)
  {
    hide Linked, PastReserve, PastAssemble, PastRegister, PastRelease, PipelineSucceeds, Confirm.Explains, Reserve.Explains,
         Assemble.Explains, Register.Explains, Release.Explains, ConfirmSucceeds, Succeeded, Refused;
    rounds := 0;
    run, end, polls := ReserveAndAssemble(repos, w);
    if end == Completed {
      run, end, rounds := RegisterAndRelease(repos, w, run, polls);
      if end == Completed {
        run, end := RunLast(repos, w, run, polls, rounds);
      }
    }
    EndMeans(repos, w, run, end, polls, rounds);
  }

  // ---------------------------------------------------------------- partial releases

  /** The release of the package went through: it is released already, or some release call was answered so. */
  ghost predicate Delivered(repo: Repository, w: World, rounds: nat) {
    repo.status == Released || (repo.status == Locked && Release.ToldReleased(repo.key, w.release, rounds))
  }

  lemma FinalReleased(repo: Repository, w: World, rounds: nat)
    ensures Release.Final(repo, w.release, rounds).status == Released <==> Delivered(repo, w, rounds)
    ensures Release.Final(repo, w.release, rounds) == repo.(status := Release.Final(repo, w.release, rounds).status)
  {
    hide Release.ToldReleased, Release.ReleasedFor;
    Release.ReleasedIsAnswered(Release.Wrapped(repo), w.release, rounds);
  }

  /** The confirmation step stopped because of these packages, whose releases have failed. */
  ghost predicate StoppedAtRelease(repos: seq<Repository>, w: World, run: Run, packages: seq<Repository>, polls: nat, rounds: nat) {
    Linked(repos, w, run, rounds)
    && Explains(repos, w, run, ConfirmStopped(Confirm.ReleasesFailed(packages)), polls, rounds)
  }

  lemma StoppedMeans(repos: seq<Repository>, w: World, run: Run, packages: seq<Repository>, polls: nat, rounds: nat)
    requires StoppedAtRelease(repos, w, run, packages, polls, rounds)
    ensures Confirm.AllStart(run.released, w.confirmation, |run.released|)
    ensures packages == Confirm.Unreleased(run.released, |run.released|)
    ensures run.confirmCalls == Selected(ConfirmBuild, run.released, |run.released|, Confirm.Confirmable)
    ensures |run.registered| == |repos| && Release.HandsOn(run.registered, w.release, rounds, run.released)
  {
    hide Linked, Confirm.AllStart, Confirm.Unreleased, Selected, Release.HandsOn, Reserve.EndsWell, Assemble.AllSucceed,
         Register.AllRegister, Register.RegisterCalls, Release.EndsWell, Release.ReleaseCalls, Reserve.PollCalls;
  }

  /** Where a registered repository is in the list after Release. */
  lemma PlaceAfterRelease(registered: seq<Repository>, w: World, rounds: nat, released: seq<Repository>, i: nat) returns (j: nat)
    requires Release.HandsOn(registered, w.release, rounds, released) && i < |registered|
    ensures j < |released| && released[j] == Release.Final(registered[i], w.release, rounds)
  {
    hide Release.HandsOn, Release.Final;
    var perm, _ := Release.Reordering(registered, w.release, rounds, released);
    assert i in perm;
    j :| 0 <= j < |perm| && perm[j] == i;
  }

  /** After a partial release every repository in build scope that is delivered is confirmed exactly once, and
      every other one is reported and not confirmed. */
  lemma PartialRelease(repos: seq<Repository>, w: World, run: Run, packages: seq<Repository>, polls: nat, rounds: nat, i: nat)
    requires StoppedAtRelease(repos, w, run, packages, polls, rounds) && DistinctKeys(repos)
    requires i < |run.registered| && run.registered[i].inBuildScope
    ensures Count(run.Calls(), Call(ConfirmBuild, run.registered[i].key)) == if Delivered(run.registered[i], w, rounds) then 1 else 0
    ensures Release.Final(run.registered[i], w.release, rounds) in packages <==> !Delivered(run.registered[i], w, rounds)
  {
    StoppedMeans(repos, w, run, packages, polls, rounds);
    hide Explains, Selected, Release.Final, Confirm.Unreleased, Confirm.Confirmable, Confirm.NotReleased, Delivered, Count, Run.Calls;
    var repo := run.registered[i];
    var out := Release.Final(repo, w.release, rounds);
    var j := PlaceAfterRelease(run.registered, w, rounds, run.released, i);
    FinalReleased(repo, w, rounds);
    Confirm.InScopeConfirmed(out, w.confirmation);
    Confirm.UnreleasedHolds(run.released, |run.released|, out);
    ConfirmedCount(repos, w, run, rounds, j);
  }

  /** With distinct keys a call goes to an entry of the list exactly if the loop asks for that entry. */
  lemma SelectedForEntry(kind: Kind, list: seq<Repository>, asked: Repository -> bool, j: nat)
    requires DistinctKeys(list) && j < |list|
    ensures Call(kind, list[j].key) in Selected(kind, list, |list|, asked) <==> asked(list[j])
  {
    SelectedContains(kind, list, |list|, asked, Call(kind, list[j].key));
    hide Selected;
  }

  /** A released list entry is confirmed once if it can be, and not at all otherwise. */
  lemma ConfirmedCount(repos: seq<Repository>, w: World, run: Run, rounds: nat, j: nat)
    requires Linked(repos, w, run, rounds) && DistinctKeys(repos) && j < |run.released|
    requires run.confirmCalls == Selected(ConfirmBuild, run.released, |run.released|, Confirm.Confirmable)
    ensures Count(run.Calls(), Call(ConfirmBuild, run.released[j].key)) == if Confirm.Confirmable(run.released[j]) then 1 else 0
  {
    hide Linked, DistinctKeys, Selected, Count, Run.Calls, Confirm.Confirmable;
    var c := Call(ConfirmBuild, run.released[j].key);
    NothingTwice(repos, w, run, rounds, ConfirmBuild, run.released[j].key);
    KeysDistinct(repos, w, run, rounds);
    CountInSegment(repos, w, run, rounds, c);
    SelectedForEntry(ConfirmBuild, run.released, Confirm.Confirmable, j);
    CountZero(run.confirmCalls, c);
  }

  /** What is reported are repositories in build scope whose release did not go through. */
  lemma ReportedIsUndelivered(repos: seq<Repository>, w: World, run: Run, packages: seq<Repository>, polls: nat, rounds: nat,
                              out: Repository) returns (i: nat)
    requires StoppedAtRelease(repos, w, run, packages, polls, rounds) && out in packages
    ensures i < |run.registered| && run.registered[i].inBuildScope && !Delivered(run.registered[i], w, rounds)
    ensures out == Release.Final(run.registered[i], w.release, rounds)
  {
    StoppedMeans(repos, w, run, packages, polls, rounds);
    hide StoppedAtRelease, Release.HandsOn, Release.Final, Confirm.Unreleased, Delivered;
    Confirm.UnreleasedHolds(run.released, |run.released|, out);
    var j :| 0 <= j < |run.released| && run.released[j] == out;
    var perm, _ := Release.Reordering(run.registered, w.release, rounds, run.released);
    i := perm[j];
    FinalReleased(run.registered[i], w, rounds);
  }

  // ---------------------------------------------------------------- the build scope is never reset

  /** An outside that answers "released" for this repository, and in which every step succeeds. */
  function StaleWorld(repo: Repository): World {
    var fw := Assemble.Framework(
                k => Assemble.Started("1", Assemble.Accepted, Assemble.NoResult),
                k => 1,
                (k, t) => Assemble.Got(Assemble.Finished, Assemble.Successful),
                k => false,
                k => Assemble.Cause(""),
                (k, name) => Assemble.ResultMissing,
                (k, name) => false);
    World(
      k => Reserve.Determined("PACKAGE", "CPK", "", repo.commitID, Released, "/NAMESPACE/"),
      (t, k) => Reserve.PollFailed,
      1,
      true,
      fw,
      "",
      Register.Registry(path => Register.ReadFailed, k => false, k => Register.RegisterRejected),
      (t, k) => Release.ReleaseRefused,
      1,
      true,
      fw,
      1)
  }

  lemma StaleReserved(repo: Repository)
    requires Reserve.CanReserve(repo)
    ensures var w, list := StaleWorld(repo), [repo];
            Reserve.EndsWell(list, w.reserve, w.poll, 1, 1)
            && var out := Reserve.ReservedList(list, w.reserve, w.poll, 1)[0];
               out.status == Released && out.key == repo.key && out.inBuildScope == repo.inBuildScope
               && out.name == repo.name && out.packageName == "PACKAGE"
  {
    var w, list := StaleWorld(repo), [repo];
    var p := Reserve.ReservedPackage(repo, w.reserve);
    var start := Reserve.Reservations(list, w.reserve, w.poll, 0);
    assert start[0] == p && p.package.status == Released;
    assert Reserve.PolledFor(p, w.poll, 1) == p;
    assert Reserve.Success(start, w.poll, 0);
    assert Reserve.Undecided(start, w.poll, 0);
    assert !Reserve.Violates(Reserve.Reservation(repo, w.reserve, w.poll, 1));
  }

  lemma StaleReleased(repo: Repository, w: World)
    requires repo.status == Released && repo.packageName != "" && w.releaseTicks == 1
    ensures Release.EndsWell([repo], w.release, 1, 1) && Release.ReleasedList([repo], w.release, 1) == [repo]
  {
    var list := [repo];
    assert Release.Filtered(list, 0, Release.IsLocked) == [] && Release.Filtered(list, 0, Release.IsNotLocked) == [];
    assert Release.Filtered(list, 1, Release.IsLocked) == [] && Release.Filtered(list, 1, Release.IsNotLocked) == list;
    assert Release.LockedPackages(list) == [];
  }

  lemma StaleConfirmed(repo: Repository, other: Repository)
    requires repo.status == Released && repo.name != "" && repo.packageName != ""
    ensures var w := StaleWorld(other); Confirm.CanConfirmAll([repo], w.confirmation, 1)
  {
    var w, list := StaleWorld(other), [repo];
    var fw := w.confirmation;
    assert Confirm.ConfirmBuilds(list, 0, fw) == [];
    var builds := Confirm.ConfirmBuilds(list, 1, fw);
    assert Confirm.AllConfirmable(list, fw);
    forall i | 0 <= i < |builds|
      ensures Confirm.PolledFor(builds[i], fw, 1).build.runState == Assemble.Finished
      ensures Confirm.PolledFor(builds[i], fw, 1).build.resultState == Assemble.Successful
    {
      assert Assemble.PolledBuild(builds[i].build, fw, builds[i].repo.key, 1)
          == Assemble.AfterGet(builds[i].build, fw.get(builds[i].repo.key, 0));
    }
    assert Confirm.PollingEnd(builds, fw, 1, Confirm.Confirmed, 1);
    assert Confirm.ConfirmationsEndWell(builds, fw, 1, 1);
  }

  /** A released repository passes Assemble and Register as it is. */
  lemma ReleasedPasses(out: Repository, w: World)
    requires out.status == Released
    ensures Assemble.AllSucceed([out], w.assembly) && Register.AllRegister([out], w.registry)
    ensures Assemble.AssembledList([out], w.assembly, w.envPath) == [out] && Register.RegisteredList([out], w.registry) == [out]
  {
  }

  lemma StaleSucceedsFrom(out: Repository, repo: Repository)
    requires out.status == Released && out.name != "" && out.packageName != ""
    ensures SucceedsFromAssemble([out], StaleWorld(repo))
  {
    hide Release.EndsWell, Release.ReleasedList, Confirm.CanConfirmAll, Assemble.AllSucceed, Register.AllRegister,
         Assemble.AssembledList, Register.RegisteredList;
    var w, list := StaleWorld(repo), [out];
    ReleasedPasses(out, w);
    StaleReleased(out, w);
    StaleConfirmed(out, repo);
    assert ConfirmSucceeds(list, w);
    assert SucceedsFromRelease(list, w);
  }

  /** In this outside the run completes. */
  lemma StaleSucceeds(repo: Repository)
    requires Reserve.CanReserve(repo)
    ensures PipelineSucceeds([repo], StaleWorld(repo))
  {
    hide Reserve.EndsWell, Reserve.ReservedList, Reserve.AllReserve, SucceedsFromAssemble;
    var w := StaleWorld(repo);
    StaleReserved(repo);
    Reserve.EndsWellReserves([repo], w.reserve, w.poll, w.pollTicks, 1);
    var reserved := Reserve.ReservedList([repo], w.reserve, w.poll, 1);
    assert reserved == [reserved[0]];
    StaleSucceedsFrom(reserved[0], repo);
  }

  /** The build scope is never reset: there is a run of the pipeline in which a package is released when Reserve
      ends, is neither built nor released, and is confirmed all the same, because its repository came in with the
      mark of an earlier run. */
  method StaleScopeConfirms(repo: Repository) returns (run: Run, end: End)
    requires Reserve.CanReserve(repo) && repo.inBuildScope
    ensures end == Completed && |run.reserved| == 1 && run.reserved[0].status == Released && run.reserved[0].key == repo.key
    ensures Call(ConfirmBuild, repo.key) in run.Calls()
    ensures Call(ReserveNext, repo.key) in run.Calls()
    ensures Call(StartBuild, repo.key) !in run.Calls() && Call(ReleasePackage, repo.key) !in run.Calls()
  {
    hide PipelineSucceeds, Linked, PastAssemble, PastRegister, PastRelease, ConfirmSucceeds, Run.Calls;
    var w, polls, rounds := StaleWorld(repo), 0, 0;
    StaleSucceeds(repo);
    run, end, polls, rounds := RunPipeline([repo], w);
    StaleReservedRun(repo, run, polls);
    hide PastReserve;
    SucceededIsLinked([repo], w, run, rounds);
    ReleasedConfirmed([repo], w, run, rounds, 0);
    ReleasedUntouched([repo], w, run, rounds, 0);
    assert NoCall(run, StartBuild, repo.key) && NoCall(run, ReleasePackage, repo.key);
  }

  lemma SucceededIsLinked(repos: seq<Repository>, w: World, run: Run, rounds: nat)
    requires Succeeded(repos, w, run, rounds)
    ensures Linked(repos, w, run, rounds) && |run.reserved| == |repos|
  {
  }

  lemma StaleReservedRun(repo: Repository, run: Run, polls: nat)
    requires Reserve.CanReserve(repo) && PastReserve([repo], StaleWorld(repo), run, polls)
    ensures |run.reserved| == 1 && run.reserved[0].status == Released && run.reserved[0].key == repo.key
    ensures Call(ReserveNext, repo.key) in run.Calls()
  {
    var w, list := StaleWorld(repo), [repo];
    StaleReserved(repo);
    Reserve.EndDetermined(Reserve.ReserveDone(run.reserved), list, w.reserve, w.poll, w.pollTicks, polls, 0, 1);
    SelectedContains(ReserveNext, list, 1, Reserve.Reservable, Call(ReserveNext, repo.key));
    hide Selected, Reserve.EndsWell, Reserve.PollCalls;
    assert Reserve.Reservable(list[0]) && list[0].key == repo.key;
  }
}
