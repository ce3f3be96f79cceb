/** abapLandscapePortalUpdateAddOnProduct: an add-on update is started, polled until a final status is
    reached, and cancelled if it ended in an error. */
module UpdateAddOn {
  import opened Text

  const STATUS_COMPLETE := "C"
  const STATUS_ERROR := "E"
  const STATUS_ABORTED := "X"

  predicate Final(status: string) {
    status == STATUS_COMPLETE || status == STATUS_ERROR || status == STATUS_ABORTED
  }

  // ---------------------------------------------------------------- the other side

  /** What comes back for a request: nothing, or a response whose body may be unreadable. */
  datatype Answer = NoResponse | Response(code: nat, value: Option<string>)

  predicate Readable(a: Answer) {
    a.Response? && a.code == 200 && a.value.Some?
  }

  /** The requests that act on or ask the landscape portal. */
  datatype Request =
    | GetSystem(systemNumber: string)
    | DeployProduct(systemId: string, product: Product)
    | GetStatus(reqId: string)
    | Cancel(reqId: string)

  datatype Product = Product(name: string, version: string)

  /** Where an access token is asked for. */
  datatype Purpose = ForSystem | ForUpdate | ForStatus | ForCancel

  /** All answers of one run. `descriptor` is the product in the add-on descriptor, `polls(t)` the answer at
      tick t, `ticks` the number of ticks before the timeout is taken; `isUrl` tells which IDs make a URL. */
  datatype Portal = Portal(
    token: Purpose -> bool,
    isUrl: string -> bool,
    descriptor: Option<Product>,
    system: Answer,
    update: Answer,
    polls: nat -> Answer,
    cancel: Answer,
    ticks: nat)

  // ---------------------------------------------------------------- what a run should come to

  /** The poll at tick t is answered, and not with a final status. */
  predicate Running(w: Portal, t: nat) {
    Readable(w.polls(t)) && !Final(w.polls(t).value.value)
  }

  /** Tick t is reached. */
  ghost predicate Reached(w: Portal, t: nat) {
    forall u :: 0 <= u < t ==> Running(w, u)
  }

  /** Tick t brings the first final status. */
  ghost predicate FirstFinal(w: Portal, t: nat) {
    Reached(w, t) && Readable(w.polls(t)) && Final(w.polls(t).value.value)
  }

  /** n polls are made: up to and including the first that is unreadable or brings a final status, or one at
      every tick before the timeout. */
  ghost predicate PollsMade(w: Portal, n: nat) {
    n <= w.ticks && if n > 0 && !Running(w, n - 1) then Reached(w, n - 1) else n == w.ticks && Reached(w, n)
  }

  lemma PollsMadeIs(w: Portal, n: nat, t: nat)
    requires PollsMade(w, n) && t < w.ticks && Reached(w, t) && !Running(w, t)
    ensures n == t + 1
  {
    hide Reached, Running;
    if t < n - 1 {
      ReachedAt(w, if Running(w, n - 1) then n else n - 1, t);
    } else if n <= t {
      ReachedAt(w, t, n - 1);
    }
  }

  lemma ReachedAt(w: Portal, t: nat, u: nat)
    requires Reached(w, t) && u < t
    ensures Running(w, u)
  {
  }

  ghost predicate EndsIn(w: Portal, status: string) {
    exists t :: 0 <= t < w.ticks && FirstFinal(w, t) && w.polls(t).value.value == status
  }

  predicate SystemFound(w: Portal, systemNumber: string) {
    w.token(ForSystem) && w.isUrl(systemNumber) && Readable(w.system)
  }

  predicate UpdateStarted(w: Portal, systemNumber: string) {
    && SystemFound(w, systemNumber)
    && w.token(ForUpdate) && w.descriptor.Some? && w.isUrl(w.system.value.value) && Readable(w.update)
  }

  /** The polling starts. */
  predicate PollingStarts(w: Portal, systemNumber: string) {
    UpdateStarted(w, systemNumber) && w.token(ForStatus) && w.isUrl(w.update.value.value)
  }

  /** No two ticks bring the first final status. */
  lemma FirstFinalUnique(w: Portal, t: nat, u: nat)
    requires FirstFinal(w, t) && FirstFinal(w, u)
    ensures t == u
  {
    assert t < u ==> Running(w, t);
    assert u < t ==> Running(w, u);
  }

  lemma EndsInOne(w: Portal, status: string, other: string)
    requires EndsIn(w, status) && EndsIn(w, other)
    ensures status == other && Final(status)
  {
    var t :| 0 <= t < w.ticks && FirstFinal(w, t) && w.polls(t).value.value == status;
    var u :| 0 <= u < w.ticks && FirstFinal(w, u) && w.polls(u).value.value == other;
    FirstFinalUnique(w, t, u);
  }

  // ---------------------------------------------------------------- the requests of a run

  function Repeated(r: Request, n: nat): (s: seq<Request>)
    ensures |s| == n && forall i :: 0 <= i < n ==> s[i] == r
  {
    if n == 0 then [] else Repeated(r, n - 1) + [r]
  }

  function CountCancels(sent: seq<Request>): nat {
    if sent == [] then 0
    else CountCancels(sent[..|sent| - 1]) + if sent[|sent| - 1].Cancel? then 1 else 0
  }

  function CountDeploys(sent: seq<Request>): nat {
    if sent == [] then 0
    else CountDeploys(sent[..|sent| - 1]) + if sent[|sent| - 1].DeployProduct? then 1 else 0
  }

  /** The order in which a run may send requests: the system is looked up, one update is started, its status
      is polled, and at most one cancellation of that update comes last. */
  ghost predicate InOrder(sent: seq<Request>) {
    forall i :: 0 <= i < |sent| ==>
      && (sent[i].GetSystem? <==> i == 0)
      && (sent[i].DeployProduct? <==> i == 1)
      && (sent[i].GetStatus? ==> i >= 2)
      && (sent[i].Cancel? ==> i == |sent| - 1 && i >= 3)
  }

  /** Every request is about what the run has looked up and started. */
  ghost predicate OwnRequests(w: Portal, systemNumber: string, sent: seq<Request>) {
    forall r :: r in sent ==> OwnRequest(w, systemNumber, r)
  }

  ghost predicate OwnRequest(w: Portal, systemNumber: string, r: Request) {
    match r
    case GetSystem(number) => number == systemNumber
    case DeployProduct(id, product) =>
      SystemFound(w, systemNumber) && w.descriptor == Some(product) && id == w.system.value.value
    case GetStatus(id) => UpdateStarted(w, systemNumber) && id == w.update.value.value
    case Cancel(id) => UpdateStarted(w, systemNumber) && id == w.update.value.value
  }

  ghost predicate Cancels(sent: seq<Request>) {
    exists r :: r in sent && r.Cancel?
  }

  /** The requests of a run that polls. */
  function Polled(systemNumber: string, systemId: string, product: Product, reqId: string, n: nat): seq<Request> {
    [GetSystem(systemNumber), DeployProduct(systemId, product)] + Repeated(GetStatus(reqId), n)
  }

  /** The requests of a run that polls: as many status queries as polls are made, and at most a cancellation. */
  ghost predicate SentPolling(w: Portal, systemNumber: string, sent: seq<Request>)
    requires UpdateStarted(w, systemNumber)
  {
    var reqId := w.update.value.value;
    exists n :: PollsMade(w, n)
      && (sent == Polled(systemNumber, w.system.value.value, w.descriptor.value, reqId, n)
          || sent == Polled(systemNumber, w.system.value.value, w.descriptor.value, reqId, n) + [Cancel(reqId)])
  }

  /** The requests of a run that does not come to polling. */
  function SentBefore(w: Portal, systemNumber: string): seq<Request> {
    if !w.token(ForSystem) || !w.isUrl(systemNumber) then []
    else if !SystemFound(w, systemNumber) || !w.token(ForUpdate) || w.descriptor.None? || !w.isUrl(w.system.value.value)
    then [GetSystem(systemNumber)]
    else [GetSystem(systemNumber), DeployProduct(w.system.value.value, w.descriptor.value)]
  }

  lemma PolledInOrder(systemNumber: string, systemId: string, product: Product, reqId: string, n: nat)
    ensures var sent := Polled(systemNumber, systemId, product, reqId, n);
            && InOrder(sent) && !Cancels(sent)
            && (n > 0 ==> InOrder(sent + [Cancel(reqId)]) && Cancels(sent + [Cancel(reqId)]))
  {
    var sent := Polled(systemNumber, systemId, product, reqId, n);
    assert forall i :: 2 <= i < |sent| ==> sent[i] == GetStatus(reqId);
    assert (sent + [Cancel(reqId)])[|sent|] == Cancel(reqId);
  }

  lemma PolledSent(w: Portal, systemNumber: string, n: nat)
    requires UpdateStarted(w, systemNumber) && PollsMade(w, n)
    ensures var sent := Polled(systemNumber, w.system.value.value, w.descriptor.value, w.update.value.value, n);
            SentPolling(w, systemNumber, sent) && SentPolling(w, systemNumber, sent + [Cancel(w.update.value.value)])
  {
    hide Polled;
  }

  lemma PolledOwn(w: Portal, systemNumber: string, n: nat)
    requires UpdateStarted(w, systemNumber)
    ensures var sent := Polled(systemNumber, w.system.value.value, w.descriptor.value, w.update.value.value, n);
            && OwnRequests(w, systemNumber, sent)
            && OwnRequests(w, systemNumber, sent + [Cancel(w.update.value.value)])
  {
    var sent := Polled(systemNumber, w.system.value.value, w.descriptor.value, w.update.value.value, n);
    assert forall i :: 2 <= i < |sent| ==> sent[i] == GetStatus(w.update.value.value);
  }

  lemma {:induction false} InOrderCounts(sent: seq<Request>)
    requires forall i :: 0 <= i < |sent| ==> (sent[i].DeployProduct? ==> i == 1) && (sent[i].Cancel? ==> i == |sent| - 1)
    ensures CountCancels(sent) <= 1 && CountDeploys(sent) <= 1
    ensures (|sent| > 0 && !sent[|sent| - 1].Cancel?) || sent == [] ==> CountCancels(sent) == 0
    ensures |sent| <= 1 ==> CountDeploys(sent) == 0
  {
    if sent != [] {
      var front, last := sent[..|sent| - 1], sent[|sent| - 1];
      InOrderCounts(front);
      assert sent == front + [last];
      if last.DeployProduct? {
        assert |front| == 1;
      }
    }
  }

  // ---------------------------------------------------------------- the run

  /** The variables of a run, which its functions write through pointers, and the requests sent so far. */
  class Run {
    var systemId: string
    var reqId: string
    var reqStatus: string
    /** The request the prepared status query asks for. */
    var statusQuery: string
    var sent: seq<Request>

    constructor ()
      ensures systemId == "" && reqId == "" && reqStatus == "" && statusQuery == "" && sent == []
    {
      systemId, reqId, reqStatus, statusQuery, sent := "", "", "", "", [];
    }

    method GetSystemBySystemNumber(w: Portal, systemNumber: string) returns (ok: bool)
      modifies this`systemId, this`sent
      ensures ok == SystemFound(w, systemNumber)
      ensures systemId == if ok then w.system.value.value else old(systemId)
      ensures sent == old(sent) + if w.token(ForSystem) && w.isUrl(systemNumber) then [GetSystem(systemNumber)] else []
    {
      if !w.token(ForSystem) || !w.isUrl(systemNumber) {
        return false;
      }
      sent := sent + [GetSystem(systemNumber)];
      if w.system.NoResponse? || w.system.code != 200 || w.system.value.None? {
        return false;
      }
      systemId := w.system.value.value;
      return true;
    }

    method UpdateAddOn(w: Portal) returns (ok: bool)
      modifies this`reqId, this`sent
      ensures ok == (w.token(ForUpdate) && w.descriptor.Some? && w.isUrl(systemId) && Readable(w.update))
      ensures reqId == if ok then w.update.value.value else old(reqId)
      ensures sent == old(sent) + if w.token(ForUpdate) && w.descriptor.Some? && w.isUrl(systemId)
                                  then [DeployProduct(systemId, w.descriptor.value)] else []
    {
      if !w.token(ForUpdate) || w.descriptor.None? || !w.isUrl(systemId) {
        return false;
      }
      sent := sent + [DeployProduct(systemId, w.descriptor.value)];
      if w.update.NoResponse? || w.update.code != 200 || w.update.value.None? {
        return false;
      }
      reqId := w.update.value.value;
      return true;
    }

    method PrepareGetStatusHttpRequest(w: Portal) returns (ok: bool)
      modifies this`statusQuery
      ensures ok == (w.token(ForStatus) && w.isUrl(reqId))
      ensures statusQuery == if ok then reqId else old(statusQuery)
    {
      if !w.token(ForStatus) || !w.isUrl(reqId) {
        return false;
      }
      statusQuery := reqId;
      return true;
    }

    method PollStatusOfUpdateAddOn(answer: Answer) returns (ok: bool)
      modifies this`reqStatus, this`sent
      ensures ok == Readable(answer)
      ensures reqStatus == if ok then answer.value.value else old(reqStatus)
      ensures sent == old(sent) + [GetStatus(statusQuery)]
    {
      sent := sent + [GetStatus(statusQuery)];
      if answer.NoResponse? || answer.code != 200 || answer.value.None? {
        return false;
      }
      reqStatus := answer.value.value;
      return true;
    }

    /** Polls until a final status, an error or the timeout. `polled` is the number of status queries. */
    method WaitToBeFinished(w: Portal) returns (ok: bool, ghost polled: nat)
      modifies this`reqStatus, this`sent
      ensures ok <==> exists t :: 0 <= t < w.ticks && FirstFinal(w, t)
      ensures ok ==> EndsIn(w, reqStatus) && Final(reqStatus)
      ensures sent == old(sent) + Repeated(GetStatus(statusQuery), polled)
      ensures PollsMade(w, polled)
      ensures forall t :: 0 <= t < w.ticks && Reached(w, t) && !Running(w, t) ==> polled == t + 1
      ensures ok ==> polled > 0
    {
      polled := 0;
      var t := 0;
      while t < w.ticks
        invariant 0 <= t <= w.ticks && polled == t
        invariant Reached(w, t)
        invariant sent == old(sent) + Repeated(GetStatus(statusQuery), t)
      {
        var before := sent;
        var polledWell := PollStatusOfUpdateAddOn(w.polls(t));
        polled := polled + 1;
        assert sent == old(sent) + Repeated(GetStatus(statusQuery), t + 1);
        if !polledWell {
          NotReadable(w, t);
          PollsMadeOnly(w, polled);
          return false, polled;
        }
        if Final(reqStatus) {
          assert FirstFinal(w, t);
          PollsMadeOnly(w, polled);
          return true, polled;
        }
        t := t + 1;
      }
      NeverFinal(w);
      PollsMadeOnly(w, polled);
      return false, polled;
    }

    /** A cancellation is sent if the portal lets us in. */
    method CancelUpdateAddOn(w: Portal) returns (ok: bool)
      modifies this`sent
      ensures ok == (w.token(ForCancel) && w.isUrl(reqId) && w.cancel.Response? && w.cancel.code == 204)
      ensures sent == old(sent) + if w.token(ForCancel) && w.isUrl(reqId) then [Cancel(reqId)] else []
    {
      if !w.token(ForCancel) || !w.isUrl(reqId) {
        return false;
      }
      sent := sent + [Cancel(reqId)];
      return w.cancel.Response? && w.cancel.code == 204;
    }

    /** An update that ended in an error is cancelled, and is an error whatever comes of the cancellation. A
        status that is not final would count as a success. */
    method RespondToUpdateAddOnFinalStatus(w: Portal) returns (ok: bool)
      modifies this`sent
      ensures ok == (reqStatus != STATUS_ERROR && reqStatus != STATUS_ABORTED)
      ensures sent == old(sent) + if reqStatus == STATUS_ERROR && w.token(ForCancel) && w.isUrl(reqId) then [Cancel(reqId)] else []
    {
      if reqStatus == STATUS_COMPLETE {
        return true;
      } else if reqStatus == STATUS_ERROR {
        var cancelled := CancelUpdateAddOn(w);
        if !cancelled {
          return false;
        }
        return false;
      } else if reqStatus == STATUS_ABORTED {
        return false;
      }
      return true;
    }

    /** The step succeeds if and only if the first final status is Complete, and cancels if and only if it is
        Error and the portal lets us in; only the update of this run is polled and cancelled. */
    method RunAbapLandscapePortalUpdateAddOnProduct(w: Portal, systemNumber: string) returns (ok: bool)
      requires sent == [] && systemId == "" && reqId == "" && reqStatus == "" && statusQuery == ""
      modifies this
      ensures ok <==> PollingStarts(w, systemNumber) && EndsIn(w, STATUS_COMPLETE)
      ensures ok ==> reqStatus == "C"
      ensures Cancels(sent) <==> PollingStarts(w, systemNumber) && EndsIn(w, STATUS_ERROR) && w.token(ForCancel)
      ensures OwnRequests(w, systemNumber, sent)
      ensures PollingStarts(w, systemNumber) ==> SentPolling(w, systemNumber, sent)
      ensures !PollingStarts(w, systemNumber) ==> sent == SentBefore(w, systemNumber)
      ensures InOrder(sent) && CountCancels(sent) <= 1 && CountDeploys(sent) <= 1
    {
      hide EndsIn, InOrder, OwnRequests, Cancels, CountCancels, CountDeploys, FirstFinal, Readable, Reached, PollsMade, SentPolling;
      Unpolled(w, systemNumber);
      ok := GetSystemBySystemNumber(w, systemNumber);
      if !ok {
        Counted(sent);
        return;
      }
      ghost var asked := sent;
      ok := UpdateAddOn(w);
      assert asked + [] == asked;
      if !ok {
        Counted(sent);
        return;
      }
      ok := PrepareGetStatusHttpRequest(w);
      if !ok {
        Counted(sent);
        return;
      }
      ghost var polled;
      ok, polled := WaitToBeFinished(w);
      PolledInOrder(systemNumber, systemId, w.descriptor.value, reqId, polled);
      PolledOwn(w, systemNumber, polled);
      PolledSent(w, systemNumber, polled);
      assert sent == Polled(systemNumber, systemId, w.descriptor.value, reqId, polled);
      if !ok {
        Counted(sent);
        NotEnded(w);
        return;
      }
      OneEnd(w, reqStatus);
      ghost var polls := sent;
      assert polls + [] == polls;
      ok := RespondToUpdateAddOnFinalStatus(w);
      Counted(sent);
    }
  }

  /** The requests before the first poll. */
  lemma Unpolled(w: Portal, systemNumber: string)
    ensures InOrder([]) && OwnRequests(w, systemNumber, []) && !Cancels([])
    ensures var sent := [] + [GetSystem(systemNumber)];
            InOrder(sent) && OwnRequests(w, systemNumber, sent) && !Cancels(sent)
    ensures SystemFound(w, systemNumber) && w.descriptor.Some? ==>
      var sent := [] + [GetSystem(systemNumber)] + [DeployProduct(w.system.value.value, w.descriptor.value)];
      InOrder(sent) && OwnRequests(w, systemNumber, sent) && !Cancels(sent)
  {
  }

  lemma PollsMadeOnly(w: Portal, n: nat)
    requires PollsMade(w, n)
    ensures forall t :: 0 <= t < w.ticks && Reached(w, t) && !Running(w, t) ==> n == t + 1
  {
    forall t | 0 <= t < w.ticks && Reached(w, t) && !Running(w, t) ensures n == t + 1 {
      PollsMadeIs(w, n, t);
    }
  }

  /** If a poll fails, no tick brings a final status first. */
  lemma NotReadable(w: Portal, t: nat)
    requires Reached(w, t) && !Readable(w.polls(t))
    ensures !exists u :: 0 <= u < w.ticks && FirstFinal(w, u)
  {
    forall u | 0 <= u < w.ticks ensures !FirstFinal(w, u) {
      assert u < t ==> Running(w, u);
      assert t < u && Reached(w, u) ==> Running(w, t);
    }
  }

  lemma NeverFinal(w: Portal)
    requires Reached(w, w.ticks)
    ensures !exists u :: 0 <= u < w.ticks && FirstFinal(w, u)
  {
    forall u | 0 <= u < w.ticks ensures !FirstFinal(w, u) {
      assert Running(w, u);
    }
  }

  lemma NotEnded(w: Portal)
    requires !exists u :: 0 <= u < w.ticks && FirstFinal(w, u)
    ensures !EndsIn(w, STATUS_COMPLETE) && !EndsIn(w, STATUS_ERROR)
  {
  }

  lemma OneEnd(w: Portal, status: string)
    requires EndsIn(w, status)
    ensures EndsIn(w, STATUS_COMPLETE) <==> status == STATUS_COMPLETE
    ensures EndsIn(w, STATUS_ERROR) <==> status == STATUS_ERROR
  {
    forall other | EndsIn(w, other) ensures other == status {
      EndsInOne(w, status, other);
    }
  }

  lemma Counted(sent: seq<Request>)
    requires InOrder(sent)
    ensures CountCancels(sent) <= 1 && CountDeploys(sent) <= 1
  {
    InOrderCounts(sent);
  }

  // ---------------------------------------------------------------- in the portal's terms

  /** Tick t is the first answered with status "C", "E" or "X", and it is answered with this one; all ticks before are
      answered, with code 200. */
  ghost predicate FirstAnswered(w: Portal, t: nat, status: string) {
    t < w.ticks && w.polls(t) == Response(200, Some(status))
    && forall u :: 0 <= u < t ==> StillGoing(w.polls(u))
  }

  ghost predicate StillGoing(a: Answer) {
    exists status :: a == Response(200, Some(status)) && status != "C" && status != "E" && status != "X"
  }

  lemma RunningMeans(w: Portal, t: nat)
    ensures Running(w, t) <==> StillGoing(w.polls(t))
    ensures Readable(w.polls(t)) <==> exists status :: w.polls(t) == Response(200, Some(status))
  {
    if Readable(w.polls(t)) {
      assert w.polls(t) == Response(200, Some(w.polls(t).value.value));
    }
  }

  /** A run ends in one of the statuses "C", "E" and "X" exactly if it is answered so before the timeout, and nothing else
      final or unreadable before. */
  lemma EndsMeans(w: Portal, status: string)
    requires status == "C" || status == "E" || status == "X"
    ensures EndsIn(w, status) <==> exists t :: FirstAnswered(w, t, status)
    ensures Final(status)
  {
    forall t: nat ensures t < w.ticks && FirstFinal(w, t) && w.polls(t).value.value == status <==> FirstAnswered(w, t, status) {
      forall u: nat ensures Running(w, u) <==> StillGoing(w.polls(u)) {
        RunningMeans(w, u);
      }
      RunningMeans(w, t);
      hide Running, StillGoing;
    }
    hide FirstFinal, FirstAnswered;
    assert forall t: nat :: FirstAnswered(w, t, status) ==> t < w.ticks && FirstFinal(w, t) && w.polls(t).value.value == status;
  }

  /** Polling starts exactly if all three tokens are granted, all IDs make URLs, the descriptor can be read, and system
      and update are answered with code 200. */
  lemma PollingMeans(w: Portal, systemNumber: string)
    ensures PollingStarts(w, systemNumber) <==>
      && w.token(ForSystem) && w.token(ForUpdate) && w.token(ForStatus) && w.descriptor.Some? && w.isUrl(systemNumber)
      && (exists id :: w.system == Response(200, Some(id)) && w.isUrl(id))
      && (exists id :: w.update == Response(200, Some(id)) && w.isUrl(id))
  {
    if Readable(w.system) { assert w.system == Response(200, Some(w.system.value.value)); }
    if Readable(w.update) { assert w.update == Response(200, Some(w.update.value.value)); }
  }
}
